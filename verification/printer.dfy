/** Renders a syntax tree as the token sequence the grammar derives it
    from. No parentheses exist in the language, so only canonical trees
    (see `Precedence.CanonicalExpr`) read back as themselves. */
module Printer {
  import opened Wrappers
  import opened Tokens
  import opened Ast
  import opened Precedence
  import opened Lists

  function NameItems(ps: seq<string>): seq<seq<Token>> {
    seq(|ps|, i requires 0 <= i < |ps| => [IdentTok(ps[i])])
  }

  /** params_list: `(` sepBy(`,`, identifier) `)`. */
  function PrintParams(ps: seq<string>): seq<Token> {
    [SymTok(LParen)] + SepBy(SymTok(Comma), NameItems(ps)) + [SymTok(RParen)]
  }

  function PrintExpr(e: Expr): seq<Token> {
    match e
    case Identifier(n) => [IdentTok(n)]
    case NumberLit(x) => [NumberTok(x)]
    case BoolLit(b) => [BoolTok(b)]
    case StringLit(b) => [StringTok(b)]
    case Unary(op, x) => [UnaryToken(op)] + PrintExpr(x)
    case Binary(l, op, r) => PrintExpr(l) + [BinaryToken(op)] + PrintExpr(r)
    case Call(c, args, tc) => PrintExpr(c) + [SymTok(LParen)] + PrintArgs(args) + ArgsClose(tc)
    case FieldAccess(o, f) => PrintExpr(o) + [SymTok(Dot), IdentTok(f)]
    case Closure(ps, body) => [KeywordTok(Func)] + PrintParams(ps) + PrintStmts(body) + [KeywordTok(End)]
  }

  /** The inside of arguments, without the optional trailing comma. */
  function PrintArgs(args: seq<Expr>): seq<Token> {
    if |args| == 0 then []
    else if |args| == 1 then PrintExpr(args[0])
    else PrintExpr(args[0]) + [SymTok(Comma)] + PrintArgs(args[1..])
  }

  /** The closing `)`, after the optional trailing comma when there is one. */
  function ArgsClose(trailingComma: bool): seq<Token> {
    if trailingComma then [SymTok(Comma), SymTok(RParen)] else [SymTok(RParen)]
  }

  function PrintFunction(f: Function): seq<Token> {
    [KeywordTok(Func), IdentTok(f.name)] + PrintParams(f.params) + PrintStmts(f.body) + [KeywordTok(End)]
  }

  function PrintClause(k: Keyword, name: Option<string>): seq<Token> {
    if name.Some? then [KeywordTok(k), IdentTok(name.value)] else []
  }

  function PrintMember(m: Member): seq<Token> {
    match m
    case Method(f) => PrintFunction(f)
    case FieldMember(n) => [IdentTok(n)]
  }

  function PrintMembers(ms: seq<Member>): seq<Token> {
    if |ms| == 0 then [] else PrintMember(ms[0]) + PrintMembers(ms[1..])
  }

  function PrintElse(e: ElseClause): seq<Token> {
    match e
    case NoElse => []
    case WithElse(b) => [KeywordTok(Else)] + PrintStmts(b)
  }

  function PrintStmt(s: Stmt): seq<Token> {
    match s
    case VarStmt(n, e) => [KeywordTok(Var), IdentTok(n), SymTok(Assign)] + PrintExpr(e) + [SymTok(Semicolon)]
    case ReturnStmt(v) =>
      [KeywordTok(Return)] + (if v.Some? then PrintExpr(v.value) else []) + [SymTok(Semicolon)]
    case FunctionDecl(f) => PrintFunction(f)
    case AssignStmt(n, e) => [IdentTok(n), SymTok(Assign)] + PrintExpr(e) + [SymTok(Semicolon)]
    case IfStmt(c, t, e) =>
      [KeywordTok(If)] + PrintExpr(c) + PrintStmts(t) + PrintElse(e) + [KeywordTok(End)]
    case WhileStmt(c, b) => [KeywordTok(While)] + PrintExpr(c) + PrintStmts(b) + [KeywordTok(End)]
    case ExprStmt(e) => PrintExpr(e) + [SymTok(Semicolon)]
    case ClassDecl(n, sup, iface, ms) =>
      [KeywordTok(Class), IdentTok(n)] + PrintClause(Extends, sup) + PrintClause(Implements, iface)
      + PrintMembers(ms) + [KeywordTok(End)]
  }

  function PrintStmts(ss: seq<Stmt>): seq<Token> {
    if |ss| == 0 then [] else PrintStmt(ss[0]) + PrintStmts(ss[1..])
  }
}
