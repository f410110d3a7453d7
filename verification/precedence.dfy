/** The precedence table of the grammar and what it means for trees: the
    `PREC` levels, the operator tokens of each level, and the shape of a
    tree that respects the levels and left associativity. */
module Precedence {
  import opened Wrappers
  import opened Tokens
  import opened Ast

  const CallPrec: nat := 8
  const FieldPrec: nat := 7
  const UnaryPrec: nat := 6
  const MultiplicativePrec: nat := 5
  const AdditivePrec: nat := 4
  const ComparativePrec: nat := 3
  const AndPrec: nat := 2
  const OrPrec: nat := 1
  /** The closure rule carries this level, which is also the default level of
      every rule; since a closure ends in `конец` it never competes with an
      operator, so a closure groups like any other primary expression. */
  const ClosurePrec: nat := 0

  /** The level of a primary expression: identifiers, literals and closures. */
  const PrimaryLevel: nat := CallPrec + 1

  function BinaryPrec(op: BinaryOp): (p: nat)
    ensures OrPrec <= p <= MultiplicativePrec
  {
    match op
    case Mul => MultiplicativePrec
    case Div => MultiplicativePrec
    case Add => AdditivePrec
    case Sub => AdditivePrec
    case Less => ComparativePrec
    case LessEq => ComparativePrec
    case Greater => ComparativePrec
    case GreaterEq => ComparativePrec
    case LogicalAnd => AndPrec
    case LogicalOr => OrPrec
  }

  function BinaryToken(op: BinaryOp): Token {
    match op
    case Mul => SymTok(Star)
    case Div => SymTok(Slash)
    case Add => SymTok(Plus)
    case Sub => SymTok(Minus)
    case Less => SymTok(Lt)
    case LessEq => SymTok(Le)
    case Greater => SymTok(Gt)
    case GreaterEq => SymTok(Ge)
    case LogicalAnd => KeywordTok(And)
    case LogicalOr => KeywordTok(Or)
  }

  /** The binary operator a token denotes, if any. */
  function BinaryOpOf(t: Token): (r: Option<BinaryOp>)
    ensures r.Some? ==> BinaryToken(r.value) == t
  {
    match t
    case SymTok(Star) => Some(Mul)
    case SymTok(Slash) => Some(Div)
    case SymTok(Plus) => Some(Add)
    case SymTok(Minus) => Some(Sub)
    case SymTok(Lt) => Some(Less)
    case SymTok(Le) => Some(LessEq)
    case SymTok(Gt) => Some(Greater)
    case SymTok(Ge) => Some(GreaterEq)
    case KeywordTok(And) => Some(LogicalAnd)
    case KeywordTok(Or) => Some(LogicalOr)
    case _ => None
  }

  function UnaryToken(op: UnaryOp): Token {
    match op
    case Neg => SymTok(Minus)
    case Not => SymTok(Bang)
  }

  function UnaryOpOf(t: Token): (r: Option<UnaryOp>)
    ensures r.Some? <==> t == SymTok(Minus) || t == SymTok(Bang)
    ensures r.Some? ==> UnaryToken(r.value) == t
  {
    if t == SymTok(Minus) then Some(Neg)
    else if t == SymTok(Bang) then Some(Not)
    else None
  }

  /** Every operator's token is read back as that operator, so distinct
      operators have distinct tokens. */
  lemma BinaryOpOfToken(op: BinaryOp)
    ensures BinaryOpOf(BinaryToken(op)) == Some(op)
    ensures UnaryOpOf(BinaryToken(op)).Some? <==> op == Sub
  {
  }

  /** The level at which an expression's outermost construct binds. */
  function Level(e: Expr): (l: nat)
    ensures OrPrec <= l <= PrimaryLevel
    ensures e.Binary? <==> l <= MultiplicativePrec
    ensures e.Unary? <==> l == UnaryPrec
  {
    match e
    case Binary(_, op, _) => BinaryPrec(op)
    case Unary(_, _) => UnaryPrec
    case FieldAccess(_, _) => FieldPrec
    case Call(_, _, _) => CallPrec
    case _ => PrimaryLevel
  }

  /** The first token of the expression's text is a minus sign. */
  predicate LeadsWithMinus(e: Expr) {
    match e
    case Unary(op, _) => op == Neg
    case Binary(l, _, _) => LeadsWithMinus(l)
    case Call(c, _, _) => LeadsWithMinus(c)
    case FieldAccess(o, _) => LeadsWithMinus(o)
    case _ => false
  }

  predicate StmtLeadsWithMinus(s: Stmt) {
    s.ExprStmt? && LeadsWithMinus(s.expr)
  }

  /** A block right after an if/while condition cannot begin with a statement
      that leads with `-`: the parser reads conditions greedily and would take
      that `-` as a subtraction. Module `Condition` models how the generated
      parser decides at such a `-` instead. */
  predicate FitsAfterCondition(body: seq<Stmt>) {
    |body| == 0 || !StmtLeadsWithMinus(body[0])
  }

  /** A tree that respects the precedence table: the left operand of a binary
      operator binds at least as tightly as the operator (left
      associativity), the right operand strictly more tightly, an operand of a
      prefix operator is itself prefix or tighter, and calls and field
      accesses apply to postfix or primary expressions. Together with
      `FitsAfterCondition` these are exactly the trees `Parser` produces
      (`Ponos.ProgramExactly`). */
  predicate CanonicalExpr(e: Expr) {
    match e
    case Unary(_, x) => Level(x) >= UnaryPrec && CanonicalExpr(x)
    case Binary(l, op, r) =>
      && Level(l) >= BinaryPrec(op) && Level(r) > BinaryPrec(op)
      && CanonicalExpr(l) && CanonicalExpr(r)
    case Call(c, args, _) => Level(c) >= FieldPrec && CanonicalExpr(c) && CanonicalExprs(args)
    case FieldAccess(o, _) => Level(o) >= FieldPrec && CanonicalExpr(o)
    case Closure(_, body) => CanonicalStmts(body)
    case _ => true
  }

  predicate CanonicalExprs(es: seq<Expr>) {
    forall i :: 0 <= i < |es| ==> CanonicalExpr(es[i])
  }

  predicate CanonicalFunction(f: Function) {
    CanonicalStmts(f.body)
  }

  predicate CanonicalMember(m: Member) {
    m.Method? ==> CanonicalFunction(m.fn)
  }

  predicate CanonicalMembers(ms: seq<Member>) {
    forall i :: 0 <= i < |ms| ==> CanonicalMember(ms[i])
  }

  predicate CanonicalElse(e: ElseClause) {
    e.WithElse? ==> CanonicalStmts(e.stmts)
  }

  predicate CanonicalStmt(s: Stmt) {
    match s
    case VarStmt(_, e) => CanonicalExpr(e)
    case ReturnStmt(v) => v.Some? ==> CanonicalExpr(v.value)
    case FunctionDecl(f) => CanonicalFunction(f)
    case AssignStmt(_, e) => CanonicalExpr(e)
    case IfStmt(c, t, e) =>
      CanonicalExpr(c) && FitsAfterCondition(t) && CanonicalStmts(t) && CanonicalElse(e)
    case WhileStmt(c, b) => CanonicalExpr(c) && FitsAfterCondition(b) && CanonicalStmts(b)
    case ExprStmt(e) => CanonicalExpr(e)
    case ClassDecl(_, _, _, ms) => CanonicalMembers(ms)
  }

  predicate CanonicalStmts(ss: seq<Stmt>) {
    forall i :: 0 <= i < |ss| ==> CanonicalStmt(ss[i])
  }
}
