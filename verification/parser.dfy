/** A deterministic reading of the Ponos grammar: recursive descent for
    statements, precedence climbing for binary operators, and postfix loops
    for calls and field accesses. Every parse function takes the remaining
    tokens and returns the tree together with the tokens after it. */
module Parser {
  import opened Wrappers
  import opened Tokens
  import opened Ast
  import opened Precedence

  datatype Expectation =
    | ExpectToken(t: Token)
    | ExpectIdentifier
    | ExpectExpression
    | ExpectEndOfInput

  /** What was expected and the token found instead (`None` at end of input). */
  datatype ParseError = Expected(what: Expectation, found: Option<Token>)

  datatype Step<T> = Step(value: T, rest: seq<Token>)

  /** The arguments of a call and whether a trailing `,` preceded the `)`. */
  datatype ArgList = ArgList(items: seq<Expr>, trailingComma: bool)

  type Parsed<T> = Result<Step<T>, ParseError>

  function Peek(ts: seq<Token>): Option<Token> {
    if |ts| == 0 then None else Some(ts[0])
  }

  predicate NextIs(ts: seq<Token>, t: Token) {
    |ts| > 0 && ts[0] == t
  }

  /** A call or field access could continue at the head of `ts`. */
  predicate PostfixNext(ts: seq<Token>) {
    NextIs(ts, SymTok(LParen)) || NextIs(ts, SymTok(Dot))
  }

  /** The head of `ts` continues no expression whose operators bind at
      `minPrec` or tighter. */
  predicate StopsBelow(ts: seq<Token>, minPrec: nat) {
    && !PostfixNext(ts)
    && (|ts| > 0 && BinaryOpOf(ts[0]).Some? ==> BinaryPrec(BinaryOpOf(ts[0]).value) < minPrec)
  }

  /** Block bodies stop before `конец`, `иначе` or the end of input. */
  predicate AtBlockEnd(ts: seq<Token>) {
    |ts| == 0 || ts[0] == KeywordTok(End) || ts[0] == KeywordTok(Else)
  }

  function Expect(ts: seq<Token>, t: Token): (r: Result<seq<Token>, ParseError>)
    ensures r.Ok? <==> NextIs(ts, t)
    ensures r.Ok? ==> r.value == ts[1..]
    ensures r.Err? ==> r.error == Expected(ExpectToken(t), Peek(ts))
  {
    if NextIs(ts, t) then Ok(ts[1..]) else Err(Expected(ExpectToken(t), Peek(ts)))
  }

  function ParseName(ts: seq<Token>): (r: Parsed<string>)
    ensures r.Ok? <==> |ts| > 0 && ts[0].IdentTok?
    ensures r.Ok? ==> ts[0] == IdentTok(r.value.value) && r.value.rest == ts[1..]
    ensures r.Err? ==> r.error == Expected(ExpectIdentifier, Peek(ts))
  {
    if |ts| > 0 && ts[0].IdentTok? then Ok(Step(ts[0].name, ts[1..]))
    else Err(Expected(ExpectIdentifier, Peek(ts)))
  }

  /** params_list: `(` then zero or more identifiers separated by `,` then `)`. */
  function ParseParams(ts: seq<Token>): (r: Parsed<seq<string>>)
    ensures r.Ok? ==> |r.value.rest| < |ts|
  {
    var afterOpen :- Expect(ts, SymTok(LParen));
    if NextIs(afterOpen, SymTok(RParen)) then Ok(Step([], afterOpen[1..]))
    else
      var first :- ParseName(afterOpen);
      ParamsTail([first.value], first.rest)
  }

  /** The `(, identifier)*` repetition, then the closing `)`. */
  function ParamsTail(acc: seq<string>, ts: seq<Token>): (r: Parsed<seq<string>>)
    ensures r.Ok? ==> |r.value.rest| < |ts|
    decreases |ts|
  {
    if NextIs(ts, SymTok(Comma)) then
      var next :- ParseName(ts[1..]);
      ParamsTail(acc + [next.value], next.rest)
    else
      var rest :- Expect(ts, SymTok(RParen));
      Ok(Step(acc, rest))
  }

  /** `repeat(_statement)`, stopping before `конец`, `иначе` or the end. */
  function ParseStmts(ts: seq<Token>): (r: Parsed<seq<Stmt>>)
    ensures r.Ok? ==> |r.value.rest| <= |ts| && AtBlockEnd(r.value.rest)
    ensures r.Ok? ==> CanonicalStmts(r.value.value)
    ensures r.Ok? && |r.value.value| > 0 && StmtLeadsWithMinus(r.value.value[0]) ==> NextIs(ts, SymTok(Minus))
    decreases |ts|, 9
  {
    if AtBlockEnd(ts) then Ok(Step([], ts))
    else
      var first :- ParseStmt(ts);
      var more :- ParseStmts(first.rest);
      Ok(Step([first.value] + more.value, more.rest))
  }

  /** _statement: the leading token selects the rule; a leading identifier
      followed by `=` is an assignment, `функ` followed by an identifier is a
      function declaration, anything else is an expression statement. */
  function ParseStmt(ts: seq<Token>): (r: Parsed<Stmt>)
    ensures r.Ok? ==> |r.value.rest| < |ts| && CanonicalStmt(r.value.value)
    ensures r.Ok? && StmtLeadsWithMinus(r.value.value) ==> NextIs(ts, SymTok(Minus))
    decreases |ts|, 8
  {
    if |ts| == 0 then Err(Expected(ExpectExpression, None))
    else match ts[0]
      case KeywordTok(Var) => ParseVar(ts[1..])
      case KeywordTok(Return) => ParseReturn(ts[1..])
      case KeywordTok(If) => ParseIf(ts[1..])
      case KeywordTok(While) => ParseWhile(ts[1..])
      case KeywordTok(Class) => ParseClass(ts[1..])
      case KeywordTok(Func) =>
        if |ts| > 1 && ts[1].IdentTok? then
          var f :- ParseFunction(ts);
          Ok(Step(FunctionDecl(f.value), f.rest))
        else ParseExprStmt(ts)
      case IdentTok(_) =>
        if |ts| > 1 && ts[1] == SymTok(Assign) then ParseAssign(ts) else ParseExprStmt(ts)
      case _ => ParseExprStmt(ts)
  }

  /** var_statement after `пер`: identifier `=` expression `;`. */
  function ParseVar(ts: seq<Token>): (r: Parsed<Stmt>)
    ensures r.Ok? ==> |r.value.rest| < |ts| && CanonicalStmt(r.value.value)
    ensures r.Ok? ==> r.value.value.VarStmt?
    ensures r.Ok? ==> |ts| > 1 && ts[0] == IdentTok(r.value.value.name) && ts[1] == SymTok(Assign)
    decreases |ts|, 7
  {
    var name :- ParseName(ts);
    var afterEq :- Expect(name.rest, SymTok(Assign));
    var init :- ParseExpr(afterEq, OrPrec);
    var rest :- Expect(init.rest, SymTok(Semicolon));
    Ok(Step(VarStmt(name.value, init.value), rest))
  }

  /** return_statement after `возврат`: an optional expression then `;`. */
  function ParseReturn(ts: seq<Token>): (r: Parsed<Stmt>)
    ensures r.Ok? ==> |r.value.rest| < |ts| && CanonicalStmt(r.value.value)
    ensures r.Ok? ==> r.value.value.ReturnStmt?
    decreases |ts|, 7
  {
    if NextIs(ts, SymTok(Semicolon)) then Ok(Step(ReturnStmt(None), ts[1..]))
    else
      var v :- ParseExpr(ts, OrPrec);
      var rest :- Expect(v.rest, SymTok(Semicolon));
      Ok(Step(ReturnStmt(Some(v.value)), rest))
  }

  /** assigment_statement: identifier `=` expression `;`. */
  function ParseAssign(ts: seq<Token>): (r: Parsed<Stmt>)
    ensures r.Ok? ==> |r.value.rest| < |ts| && CanonicalStmt(r.value.value)
    ensures r.Ok? ==> r.value.value.AssignStmt?
    ensures r.Ok? ==> |ts| > 1 && ts[0] == IdentTok(r.value.value.target) && ts[1] == SymTok(Assign)
    decreases |ts|, 7
  {
    var name :- ParseName(ts);
    var afterEq :- Expect(name.rest, SymTok(Assign));
    var v :- ParseExpr(afterEq, OrPrec);
    var rest :- Expect(v.rest, SymTok(Semicolon));
    Ok(Step(AssignStmt(name.value, v.value), rest))
  }

  /** expression_statement: expression `;`. */
  function ParseExprStmt(ts: seq<Token>): (r: Parsed<Stmt>)
    ensures r.Ok? ==> |r.value.rest| < |ts| && CanonicalStmt(r.value.value)
    ensures r.Ok? ==> r.value.value.ExprStmt?
    ensures r.Ok? && StmtLeadsWithMinus(r.value.value) ==> NextIs(ts, SymTok(Minus))
    decreases |ts|, 7
  {
    var e :- ParseExpr(ts, OrPrec);
    var rest :- Expect(e.rest, SymTok(Semicolon));
    Ok(Step(ExprStmt(e.value), rest))
  }

  /** if_statement after `если`: condition, body, at most one `иначе` body, `конец`. */
  function ParseIf(ts: seq<Token>): (r: Parsed<Stmt>)
    ensures r.Ok? ==> |r.value.rest| < |ts| && CanonicalStmt(r.value.value)
    ensures r.Ok? ==> r.value.value.IfStmt?
    decreases |ts|, 7
  {
    var cond :- ParseExpr(ts, OrPrec);
    var body :- ParseStmts(cond.rest);
    if NextIs(body.rest, KeywordTok(Else)) then
      var alt :- ParseStmts(body.rest[1..]);
      var rest :- Expect(alt.rest, KeywordTok(End));
      Ok(Step(IfStmt(cond.value, body.value, WithElse(alt.value)), rest))
    else
      var rest :- Expect(body.rest, KeywordTok(End));
      Ok(Step(IfStmt(cond.value, body.value, NoElse), rest))
  }

  /** while_statement after `пока`: condition, body, `конец`. */
  function ParseWhile(ts: seq<Token>): (r: Parsed<Stmt>)
    ensures r.Ok? ==> |r.value.rest| < |ts| && CanonicalStmt(r.value.value)
    ensures r.Ok? ==> r.value.value.WhileStmt?
    decreases |ts|, 7
  {
    var cond :- ParseExpr(ts, OrPrec);
    var body :- ParseStmts(cond.rest);
    var rest :- Expect(body.rest, KeywordTok(End));
    Ok(Step(WhileStmt(cond.value, body.value), rest))
  }

  /** function_declaration_statement: `функ` identifier params_list body `конец`. */
  function ParseFunction(ts: seq<Token>): (r: Parsed<Function>)
    ensures r.Ok? ==> |r.value.rest| < |ts| && CanonicalFunction(r.value.value)
    decreases |ts|, 7
  {
    var afterKw :- Expect(ts, KeywordTok(Func));
    var name :- ParseName(afterKw);
    var ps :- ParseParams(name.rest);
    var body :- ParseStmts(ps.rest);
    var rest :- Expect(body.rest, KeywordTok(End));
    Ok(Step(Function(name.value, ps.value, body.value), rest))
  }

  /** `optional(seq(keyword, identifier))`. */
  function ParseClause(ts: seq<Token>, k: Keyword): (r: Parsed<Option<string>>)
    ensures r.Ok? ==> |r.value.rest| <= |ts|
    ensures r.Ok? && r.value.value.None? ==> r.value.rest == ts && !NextIs(ts, KeywordTok(k))
  {
    if NextIs(ts, KeywordTok(k)) then
      var name :- ParseName(ts[1..]);
      Ok(Step(Some(name.value), name.rest))
    else Ok(Step(None, ts))
  }

  /** class_declaration_statement after `класс`: identifier, at most one
      `наследует` name, at most one `реализует` name, members, `конец`. */
  function ParseClass(ts: seq<Token>): (r: Parsed<Stmt>)
    ensures r.Ok? ==> |r.value.rest| < |ts| && CanonicalStmt(r.value.value)
    ensures r.Ok? ==> r.value.value.ClassDecl?
    decreases |ts|, 7
  {
    var name :- ParseName(ts);
    var sup :- ParseClause(name.rest, Extends);
    var iface :- ParseClause(sup.rest, Implements);
    var ms :- ParseMembers(iface.rest);
    var rest :- Expect(ms.rest, KeywordTok(End));
    Ok(Step(ClassDecl(name.value, sup.value, iface.value, ms.value), rest))
  }

  /** members_list: methods and bare identifiers, as many as there are. */
  function ParseMembers(ts: seq<Token>): (r: Parsed<seq<Member>>)
    ensures r.Ok? ==> |r.value.rest| <= |ts| && CanonicalMembers(r.value.value)
    ensures r.Ok? ==> !(|r.value.rest| > 0 && r.value.rest[0].IdentTok?) && !NextIs(r.value.rest, KeywordTok(Func))
    decreases |ts|, 8
  {
    if |ts| > 0 && ts[0].IdentTok? then
      var more :- ParseMembers(ts[1..]);
      Ok(Step([FieldMember(ts[0].name)] + more.value, more.rest))
    else if NextIs(ts, KeywordTok(Func)) then
      var f :- ParseFunction(ts);
      var more :- ParseMembers(f.rest);
      Ok(Step([Method(f.value)] + more.value, more.rest))
    else Ok(Step([], ts))
  }

  /** An expression whose binary operators all bind at `minPrec` or tighter:
      one prefix operand, then binary operators by precedence climbing. */
  function ParseExpr(ts: seq<Token>, minPrec: nat): (r: Parsed<Expr>)
    requires minPrec <= UnaryPrec
    ensures r.Ok? ==> |r.value.rest| < |ts|
    ensures r.Ok? ==> CanonicalExpr(r.value.value) && Level(r.value.value) >= minPrec
    ensures r.Ok? ==> StopsBelow(r.value.rest, minPrec)
    ensures r.Ok? && LeadsWithMinus(r.value.value) ==> NextIs(ts, SymTok(Minus))
    decreases |ts|, 5
  {
    var lhs :- ParseUnary(ts);
    Climb(lhs.value, lhs.rest, minPrec)
  }

  /** The climbing loop: while the next token is a binary operator binding at
      `minPrec` or tighter, take it and an operand of strictly tighter
      operators (left associativity), and fold it into the left operand. */
  function Climb(lhs: Expr, ts: seq<Token>, minPrec: nat): (r: Parsed<Expr>)
    requires minPrec <= Level(lhs) && CanonicalExpr(lhs) && !PostfixNext(ts)
    requires |ts| > 0 && BinaryOpOf(ts[0]).Some? ==> BinaryPrec(BinaryOpOf(ts[0]).value) <= Level(lhs)
    ensures r.Ok? ==> |r.value.rest| <= |ts|
    ensures r.Ok? ==> CanonicalExpr(r.value.value) && Level(r.value.value) >= minPrec
    ensures r.Ok? ==> StopsBelow(r.value.rest, minPrec)
    ensures r.Ok? ==> LeadsWithMinus(r.value.value) == LeadsWithMinus(lhs)
    decreases |ts|, 4
  {
    if |ts| > 0 && BinaryOpOf(ts[0]).Some? && BinaryPrec(BinaryOpOf(ts[0]).value) >= minPrec then
      var op := BinaryOpOf(ts[0]).value;
      var rhs :- ParseExpr(ts[1..], BinaryPrec(op) + 1);
      Climb(Binary(lhs, op, rhs.value), rhs.rest, minPrec)
    else Ok(Step(lhs, ts))
  }

  /** unary_expression: `-` or `!` applied to a prefix operand, nesting to the right. */
  function ParseUnary(ts: seq<Token>): (r: Parsed<Expr>)
    ensures r.Ok? ==> |r.value.rest| < |ts|
    ensures r.Ok? ==> CanonicalExpr(r.value.value) && Level(r.value.value) >= UnaryPrec
    ensures r.Ok? ==> !PostfixNext(r.value.rest)
    ensures r.Ok? && LeadsWithMinus(r.value.value) ==> NextIs(ts, SymTok(Minus))
    decreases |ts|, 3
  {
    if |ts| > 0 && UnaryOpOf(ts[0]).Some? then
      var operand :- ParseUnary(ts[1..]);
      Ok(Step(Unary(UnaryOpOf(ts[0]).value, operand.value), operand.rest))
    else ParsePostfix(ts)
  }

  /** A primary expression followed by any calls and field accesses. */
  function ParsePostfix(ts: seq<Token>): (r: Parsed<Expr>)
    ensures r.Ok? ==> |r.value.rest| < |ts|
    ensures r.Ok? ==> CanonicalExpr(r.value.value) && Level(r.value.value) >= FieldPrec
    ensures r.Ok? ==> !PostfixNext(r.value.rest) && !LeadsWithMinus(r.value.value)
    decreases |ts|, 2
  {
    var base :- ParsePrimary(ts);
    PostfixLoop(base.value, base.rest)
  }

  /** call_expression and field_expression, applied left to right. */
  function PostfixLoop(e: Expr, ts: seq<Token>): (r: Parsed<Expr>)
    requires CanonicalExpr(e) && Level(e) >= FieldPrec && !LeadsWithMinus(e)
    ensures r.Ok? ==> |r.value.rest| <= |ts|
    ensures r.Ok? ==> CanonicalExpr(r.value.value) && Level(r.value.value) >= FieldPrec
    ensures r.Ok? ==> !PostfixNext(r.value.rest) && !LeadsWithMinus(r.value.value)
    decreases |ts|, 1
  {
    if NextIs(ts, SymTok(LParen)) then
      var args :- ParseArgs(ts[1..]);
      PostfixLoop(Call(e, args.value.items, args.value.trailingComma), args.rest)
    else if NextIs(ts, SymTok(Dot)) then
      var name :- ParseName(ts[1..]);
      PostfixLoop(FieldAccess(e, name.value), name.rest)
    else Ok(Step(e, ts))
  }

  /** arguments after `(`: expressions separated by `,`, one optional
      trailing `,`, then `)`. */
  function ParseArgs(ts: seq<Token>): (r: Parsed<ArgList>)
    ensures r.Ok? ==> |r.value.rest| < |ts| && CanonicalExprs(r.value.value.items)
    decreases |ts|, 6
  {
    if NextIs(ts, SymTok(RParen)) then Ok(Step(ArgList([], false), ts[1..]))
    else if NextIs(ts, SymTok(Comma)) then
      var rest :- Expect(ts[1..], SymTok(RParen));
      Ok(Step(ArgList([], true), rest))
    else
      var first :- ParseExpr(ts, OrPrec);
      ArgsTail([first.value], first.rest)
  }

  function ArgsTail(acc: seq<Expr>, ts: seq<Token>): (r: Parsed<ArgList>)
    requires CanonicalExprs(acc)
    ensures r.Ok? ==> |r.value.rest| < |ts| && CanonicalExprs(r.value.value.items)
    decreases |ts|, 6
  {
    if NextIs(ts, SymTok(Comma)) then
      if NextIs(ts[1..], SymTok(RParen)) then Ok(Step(ArgList(acc, true), ts[2..]))
      else
        var next :- ParseExpr(ts[1..], OrPrec);
        ArgsTail(acc + [next.value], next.rest)
    else
      var rest :- Expect(ts, SymTok(RParen));
      Ok(Step(ArgList(acc, false), rest))
  }

  /** identifier, literal, or closure_expression (`функ` params_list body `конец`). */
  function ParsePrimary(ts: seq<Token>): (r: Parsed<Expr>)
    ensures r.Ok? ==> |r.value.rest| < |ts|
    ensures r.Ok? ==> CanonicalExpr(r.value.value) && Level(r.value.value) == PrimaryLevel
    ensures r.Ok? ==> !LeadsWithMinus(r.value.value)
    decreases |ts|, 1
  {
    if |ts| == 0 then Err(Expected(ExpectExpression, None))
    else match ts[0]
      case IdentTok(n) => Ok(Step(Identifier(n), ts[1..]))
      case NumberTok(x) => Ok(Step(NumberLit(x), ts[1..]))
      case StringTok(b) => Ok(Step(StringLit(b), ts[1..]))
      case BoolTok(b) => Ok(Step(BoolLit(b), ts[1..]))
      case KeywordTok(Func) =>
        var ps :- ParseParams(ts[1..]);
        var body :- ParseStmts(ps.rest);
        var rest :- Expect(body.rest, KeywordTok(End));
        Ok(Step(Closure(ps.value, body.value), rest))
      case _ => Err(Expected(ExpectExpression, Some(ts[0])))
  }

  /** source_file: statements up to the end of input. */
  function ParseProgram(ts: seq<Token>): (r: Result<Program, ParseError>)
    ensures r.Ok? ==> CanonicalStmts(r.value)
  {
    var body :- ParseStmts(ts);
    if |body.rest| == 0 then Ok(body.value)
    else Err(Expected(ExpectEndOfInput, Peek(body.rest)))
  }
}
