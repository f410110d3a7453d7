/** The syntax tree of the Ponos grammar: one constructor per rule. Optional
    slots of a rule are `Option`s; repetitions are sequences. */
module Ast {
  import opened Wrappers

  datatype UnaryOp = Neg | Not

  datatype BinaryOp =
    | Mul | Div                              // multiplicative
    | Add | Sub                              // additive
    | Less | LessEq | Greater | GreaterEq    // comparative
    | LogicalAnd                             // и
    | LogicalOr                              // или

  datatype Expr =
    | Identifier(name: string)
    | NumberLit(text: string)
    | BoolLit(value: bool)
    | StringLit(raw: string)
    | Unary(uop: UnaryOp, operand: Expr)
    | Binary(left: Expr, bop: BinaryOp, right: Expr)
    | Call(callee: Expr, args: seq<Expr>, trailingComma: bool)
    | FieldAccess(target: Expr, field: string)
    | Closure(params: seq<string>, body: seq<Stmt>)

  /** function_declaration_statement: a name, a parameter list and a body. */
  datatype Function = Function(name: string, params: seq<string>, body: seq<Stmt>)

  /** An element of members_list. */
  datatype Member = Method(fn: Function) | FieldMember(name: string)

  datatype Stmt =
    | VarStmt(name: string, init: Expr)
    | ReturnStmt(result: Option<Expr>)
    | FunctionDecl(fn: Function)
    | AssignStmt(target: string, rhs: Expr)
    | IfStmt(cond: Expr, thenBody: seq<Stmt>, elseBody: ElseClause)
    | WhileStmt(cond: Expr, body: seq<Stmt>)
    | ExprStmt(expr: Expr)
    | ClassDecl(name: string, superclass: Option<string>, iface: Option<string>, members: seq<Member>)

  /** The optional `иначе` branch of an if statement. */
  datatype ElseClause = NoElse | WithElse(stmts: seq<Stmt>)

  /** source_file: a sequence of statements. */
  type Program = seq<Stmt>

  // Sizes, used as termination measures by proofs that walk a tree.

  function ExprSize(e: Expr): nat {
    match e
    case Unary(_, x) => 1 + ExprSize(x)
    case Binary(l, _, r) => 1 + ExprSize(l) + ExprSize(r)
    case Call(c, args, _) => 1 + ExprSize(c) + ExprsSize(args)
    case FieldAccess(o, _) => 1 + ExprSize(o)
    case Closure(_, body) => 1 + StmtsSize(body)
    case _ => 1
  }

  function ExprsSize(es: seq<Expr>): nat {
    if |es| == 0 then 0 else ExprSize(es[0]) + ExprsSize(es[1..])
  }

  function FunctionSize(f: Function): nat {
    1 + StmtsSize(f.body)
  }

  function MembersSize(ms: seq<Member>): nat {
    if |ms| == 0 then 0
    else MemberSize(ms[0]) + MembersSize(ms[1..])
  }

  function MemberSize(m: Member): nat {
    match m
    case Method(f) => FunctionSize(f)
    case FieldMember(_) => 1
  }

  function StmtSize(s: Stmt): nat {
    match s
    case VarStmt(_, e) => 1 + ExprSize(e)
    case ReturnStmt(v) => 1 + (if v.Some? then ExprSize(v.value) else 0)
    case FunctionDecl(f) => 1 + FunctionSize(f)
    case AssignStmt(_, e) => 1 + ExprSize(e)
    case IfStmt(c, t, e) => 1 + ExprSize(c) + StmtsSize(t) + ElseSize(e)
    case WhileStmt(c, b) => 1 + ExprSize(c) + StmtsSize(b)
    case ExprStmt(e) => 1 + ExprSize(e)
    case ClassDecl(_, _, _, ms) => 1 + MembersSize(ms)
  }

  function ElseSize(e: ElseClause): nat {
    match e
    case NoElse => 0
    case WithElse(b) => StmtsSize(b)
  }

  function StmtsSize(ss: seq<Stmt>): nat {
    if |ss| == 0 then 0 else StmtSize(ss[0]) + StmtsSize(ss[1..])
  }
}
