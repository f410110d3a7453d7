/** What the grammar promises about the shape of what it accepts: how
    operators group, how prefix operators nest, where commas may stand in
    the two list forms, how blocks close, and which first tokens select
    each kind of statement. */
module GrammarProperties {
  import opened Wrappers
  import opened Tokens
  import opened Ast
  import opened Precedence
  import opened Lists
  import opened Printer
  import opened Parser
  import opened Spines
  import opened RoundTrip

  /** A canonical expression is read back from its own tokens in full. */
  lemma ReadsWhole(e: Expr)
    requires CanonicalExpr(e)
    ensures ParseExpr(PrintExpr(e), OrPrec) == Ok(Step(e, []))
  {
    ExprRoundTrip(e, [], OrPrec);
    assert PrintExpr(e) + [] == PrintExpr(e);
  }

  // Binary operators: precedence and associativity.

  /** `a op1 b op2 c` over operands that are prefix expressions or tighter:
      the operator of the higher level takes its operands first, and of two
      operators of the same level the left one does (`prec.left`). */
  lemma ThreeOperands(a: Expr, op1: BinaryOp, b: Expr, op2: BinaryOp, c: Expr)
    requires CanonicalExpr(a) && CanonicalExpr(b) && CanonicalExpr(c)
    requires Level(a) >= UnaryPrec && Level(b) >= UnaryPrec && Level(c) >= UnaryPrec
    ensures var r := ParseExpr(PrintExpr(a) + [BinaryToken(op1)] + PrintExpr(b) + [BinaryToken(op2)] + PrintExpr(c), OrPrec);
      && (BinaryPrec(op1) < BinaryPrec(op2) ==> r == Ok(Step(Binary(a, op1, Binary(b, op2, c)), [])))
      && (BinaryPrec(op1) >= BinaryPrec(op2) ==> r == Ok(Step(Binary(Binary(a, op1, b), op2, c), [])))
  {
    var x := PrintExpr(a) + [BinaryToken(op1)];
    var t2 := [BinaryToken(op2)];
    if BinaryPrec(op1) < BinaryPrec(op2) {
      var g := Binary(a, op1, Binary(b, op2, c));
      Assoc(x, PrintExpr(b), t2);
      Assoc(x, PrintExpr(b) + t2, PrintExpr(c));
      ReadsWhole(g);
    } else {
      ReadsWhole(Binary(Binary(a, op1, b), op2, c));
    }
  }

  /** Example of `ThreeOperands` on the token level: `x - y - z` is `(x - y) - z`. */
  lemma SubtractionGroupsLeft(x: string, y: string, z: string)
    ensures ParseExpr([IdentTok(x), SymTok(Minus), IdentTok(y), SymTok(Minus), IdentTok(z)], OrPrec)
      == Ok(Step(Binary(Binary(Identifier(x), Sub, Identifier(y)), Sub, Identifier(z)), []))
  {
    ThreeOperands(Identifier(x), Sub, Identifier(y), Sub, Identifier(z));
    FiveTokens(IdentTok(x), SymTok(Minus), IdentTok(y), SymTok(Minus), IdentTok(z));
  }

  /** Example of `ThreeOperands` on the token level: `1 + 2 * 3` is `1 + (2 * 3)`. */
  lemma ProductBindsTighterThanSum()
    ensures ParseExpr([NumberTok("1"), SymTok(Plus), NumberTok("2"), SymTok(Star), NumberTok("3")], OrPrec)
      == Ok(Step(Binary(NumberLit("1"), Add, Binary(NumberLit("2"), Mul, NumberLit("3"))), []))
  {
    ThreeOperands(NumberLit("1"), Add, NumberLit("2"), Mul, NumberLit("3"));
    FiveTokens(NumberTok("1"), SymTok(Plus), NumberTok("2"), SymTok(Star), NumberTok("3"));
  }

  /** Example of `ThreeOperands` on the token level: `a или b и c` is `a или (b и c)`. */
  lemma AndBindsTighterThanOr(a: string, b: string, c: string)
    ensures ParseExpr([IdentTok(a), KeywordTok(Or), IdentTok(b), KeywordTok(And), IdentTok(c)], OrPrec)
      == Ok(Step(Binary(Identifier(a), LogicalOr, Binary(Identifier(b), LogicalAnd, Identifier(c))), []))
  {
    ThreeOperands(Identifier(a), LogicalOr, Identifier(b), LogicalAnd, Identifier(c));
    FiveTokens(IdentTok(a), KeywordTok(Or), IdentTok(b), KeywordTok(And), IdentTok(c));
  }

  lemma FiveTokens(a: Token, b: Token, c: Token, d: Token, e: Token)
    ensures [a] + [b] + [c] + [d] + [e] == [a, b, c, d, e]
  {
  }

  // Prefix operators.

  /** A prefix operator takes only the prefix expression right after it:
      `-a * b` is `(-a) * b`, whatever the binary operator. */
  lemma PrefixBindsTighterThanBinary(u: UnaryOp, a: Expr, op: BinaryOp, b: Expr)
    requires CanonicalExpr(a) && CanonicalExpr(b)
    requires Level(a) >= UnaryPrec && Level(b) >= UnaryPrec
    ensures ParseExpr([UnaryToken(u)] + PrintExpr(a) + [BinaryToken(op)] + PrintExpr(b), OrPrec)
      == Ok(Step(Binary(Unary(u, a), op, b), []))
  {
    ReadsWhole(Binary(Unary(u, a), op, b));
  }

  /** Prefix operators nest to the right: `- - a` is `-(-a)` and `! -a` is `!(-a)`. */
  lemma PrefixNests(u1: UnaryOp, u2: UnaryOp, x: Expr)
    requires CanonicalExpr(x) && Level(x) >= UnaryPrec
    ensures ParseExpr([UnaryToken(u1), UnaryToken(u2)] + PrintExpr(x), OrPrec)
      == Ok(Step(Unary(u1, Unary(u2, x)), []))
  {
    var g := Unary(u1, Unary(u2, x));
    PrefixLayout([UnaryToken(u1)], [UnaryToken(u2)], PrintExpr(x));
    assert PrintExpr(g) == [UnaryToken(u1), UnaryToken(u2)] + PrintExpr(x);
    ReadsWhole(g);
  }

  lemma PrefixLayout(a: seq<Token>, b: seq<Token>, c: seq<Token>)
    requires |a| == 1 && |b| == 1
    ensures a + (b + c) == [a[0], b[0]] + c
  {
  }

  /** Calls and field accesses bind tighter than a prefix operator:
      `-a.b` is `-(a.b)` and `-f()` is `-(f())`. */
  lemma PostfixBindsTighterThanPrefix(u: UnaryOp, x: Expr, field: string)
    requires CanonicalExpr(x) && Level(x) >= FieldPrec
    ensures ParseExpr([UnaryToken(u)] + PrintExpr(x) + [SymTok(Dot), IdentTok(field)], OrPrec)
      == Ok(Step(Unary(u, FieldAccess(x, field)), []))
    ensures ParseExpr([UnaryToken(u)] + PrintExpr(x) + [SymTok(LParen), SymTok(RParen)], OrPrec)
      == Ok(Step(Unary(u, Call(x, [], false)), []))
  {
    var h := [UnaryToken(u)];
    var access := Unary(u, FieldAccess(x, field));
    Assoc(h, PrintExpr(x), [SymTok(Dot), IdentTok(field)]);
    assert PrintExpr(access) == h + PrintExpr(x) + [SymTok(Dot), IdentTok(field)];
    ReadsWhole(access);
    var call := Unary(u, Call(x, [], false));
    EmptyCallLayout(h, x);
    ReadsWhole(call);
  }

  lemma EmptyCallLayout(h: seq<Token>, x: Expr)
    ensures h + PrintExpr(Call(x, [], false)) == h + PrintExpr(x) + [SymTok(LParen), SymTok(RParen)]
  {
    var p := PrintExpr(x);
    assert PrintArgs([]) == [];
    assert PrintExpr(Call(x, [], false)) == p + [SymTok(LParen)] + [] + [SymTok(RParen)];
    assert p + [SymTok(LParen)] + [] + [SymTok(RParen)] == p + [SymTok(LParen), SymTok(RParen)];
    Assoc(h, p, [SymTok(LParen), SymTok(RParen)]);
  }

  /** Example of `PrefixNests` on the token level: `- - a` is `-(-a)`. */
  lemma DoubleNegation(a: string)
    ensures ParseExpr([SymTok(Minus), SymTok(Minus), IdentTok(a)], OrPrec)
      == Ok(Step(Unary(Neg, Unary(Neg, Identifier(a))), []))
  {
    PrefixNests(Neg, Neg, Identifier(a));
    assert [UnaryToken(Neg), UnaryToken(Neg)] + PrintExpr(Identifier(a)) == [SymTok(Minus), SymTok(Minus), IdentTok(a)];
  }

  /** Example of `PrefixBindsTighterThanBinary` on the token level: `-a * b` is `(-a) * b`. */
  lemma NegatedFactor(a: string, b: string)
    ensures ParseExpr([SymTok(Minus), IdentTok(a), SymTok(Star), IdentTok(b)], OrPrec)
      == Ok(Step(Binary(Unary(Neg, Identifier(a)), Mul, Identifier(b)), []))
  {
    PrefixBindsTighterThanBinary(Neg, Identifier(a), Mul, Identifier(b));
    assert [SymTok(Minus)] + [IdentTok(a)] + [SymTok(Star)] + [IdentTok(b)]
      == [SymTok(Minus), IdentTok(a), SymTok(Star), IdentTok(b)];
  }

  // Separated lists.

  /** `params_list` is `sepBy(",", identifier)` inside parentheses: a comma
      after the last name is rejected, the parser asking for a name. */
  lemma ParamsTrailingCommaRejected(ps: seq<string>, rest: seq<Token>)
    requires |ps| > 0
    ensures ParseParams([SymTok(LParen)] + SepBy(SymTok(Comma), NameItems(ps)) + [SymTok(Comma), SymTok(RParen)] + rest)
      == Err(Expected(ExpectIdentifier, Some(SymTok(RParen))))
  {
    var k := [SymTok(Comma), SymTok(RParen)] + rest;
    Assoc([SymTok(LParen)] + SepBy(SymTok(Comma), NameItems(ps)), [SymTok(Comma), SymTok(RParen)], rest);
    ParamsReadAll(ps, k);
    assert k[1..] == [SymTok(RParen)] + rest;
  }

  /** A parameter list cannot begin with a comma. */
  lemma ParamsLeadingCommaRejected(rest: seq<Token>)
    ensures ParseParams([SymTok(LParen), SymTok(Comma)] + rest)
      == Err(Expected(ExpectIdentifier, Some(SymTok(Comma))))
  {
    var ts := [SymTok(LParen), SymTok(Comma)] + rest;
    assert ts[1..] == [SymTok(Comma)] + rest;
  }

  /** `arguments` is `sepBy(",", expression)`, an optional `,`, then `)`:
      the same arguments are read with or without one comma after the last,
      and the comma is recorded. */
  lemma ArgsTrailingCommaAccepted(args: seq<Expr>, rest: seq<Token>)
    requires CanonicalExprs(args)
    ensures ParseArgs(PrintArgs(args) + [SymTok(Comma), SymTok(RParen)] + rest) == Ok(Step(ArgList(args, true), rest))
    ensures ParseArgs(PrintArgs(args) + [SymTok(RParen)] + rest) == Ok(Step(ArgList(args, false), rest))
  {
    ArgsRoundTrip(args, true, rest);
    ArgsRoundTrip(args, false, rest);
  }

  /** With no arguments the optional comma may still stand alone: `f(,)`.
      A comma before the first argument is not accepted. */
  lemma ArgsLoneComma(x: Expr, rest: seq<Token>)
    requires CanonicalExpr(x)
    ensures ParseArgs([SymTok(Comma), SymTok(RParen)] + rest) == Ok(Step(ArgList([], true), rest))
    ensures ParseArgs([SymTok(Comma)] + PrintExpr(x) + rest) == Err(Expected(ExpectToken(SymTok(RParen)), Some(PrintExpr(x)[0])))
  {
    var ts := [SymTok(Comma), SymTok(RParen)] + rest;
    assert ts[1..] == [SymTok(RParen)] + rest;
    ExprFirst(x);
    var us := [SymTok(Comma)] + PrintExpr(x) + rest;
    assert us[1..] == PrintExpr(x) + rest;
  }

  /** The token strings of the arguments, one item per argument. */
  function ArgItems(args: seq<Expr>): seq<seq<Token>> {
    seq(|args|, i requires 0 <= i < |args| => PrintExpr(args[i]))
  }

  /** The printed inside of `arguments` is `sepBy(",", expression)` over the
      arguments' own texts, the same list form as a parameter list. */
  lemma {:induction false} ArgsAreSepBy(args: seq<Expr>)
    ensures PrintArgs(args) == SepBy(SymTok(Comma), ArgItems(args))
    decreases |args|
  {
    if |args| > 1 {
      ArgsAreSepBy(args[1..]);
      assert ArgItems(args)[1..] == ArgItems(args[1..]);
    }
  }

  /** The text of `sepBy1` over n items that are nonempty and free of the
      separator holds n - 1 separators, none first and none last. */
  lemma NamesSeparated(ps: seq<string>)
    requires |ps| > 0
    ensures var t := SepBy(SymTok(Comma), NameItems(ps));
      && Count(SymTok(Comma), t) == |ps| - 1
      && t[0] != SymTok(Comma) && t[|t| - 1] != SymTok(Comma)
  {
    var items := NameItems(ps);
    forall i | 0 <= i < |items|
      ensures |items[i]| > 0 && Count(SymTok(Comma), items[i]) == 0
    {
      assert items[i] == [IdentTok(ps[i])];
    }
    SepBy1Shape(SymTok(Comma), items);
  }

  // Blocks.

  /** An `если` has at most one `иначе`: a second one, where the `конец` is
      due, is rejected. */
  lemma SecondElseRejected(c: Expr, t: seq<Stmt>, e1: seq<Stmt>, more: seq<Token>)
    requires CanonicalExpr(c) && CanonicalStmts(t) && FitsAfterCondition(t) && CanonicalStmts(e1)
    ensures ParseIf(PrintExpr(c) + (PrintStmts(t) + ([KeywordTok(Else)] + (PrintStmts(e1) + ([KeywordTok(Else)] + more)))))
      == Err(Expected(ExpectToken(KeywordTok(End)), Some(KeywordTok(Else))))
  {
    var secondElse := [KeywordTok(Else)] + more;
    var afterBody := [KeywordTok(Else)] + (PrintStmts(e1) + secondElse);
    var afterCond := PrintStmts(t) + afterBody;
    BodyAfterConditionStops(t, afterBody);
    ExprRoundTrip(c, afterCond, OrPrec);
    StmtsRoundTrip(t, afterBody);
    StmtsRoundTrip(e1, secondElse);
    assert afterBody[1..] == PrintStmts(e1) + secondElse;
  }

  /** A loop body runs to `конец`; without it the input ends too early. */
  lemma MissingEndRejected(c: Expr, body: seq<Stmt>)
    requires CanonicalExpr(c) && CanonicalStmts(body) && FitsAfterCondition(body)
    ensures ParseWhile(PrintExpr(c) + PrintStmts(body)) == Err(Expected(ExpectToken(KeywordTok(End)), None))
  {
    BodyStopsAtEnd(c, body);
    StmtsRoundTrip(body, []);
    assert PrintStmts(body) + [] == PrintStmts(body);
  }

  lemma BodyStopsAtEnd(c: Expr, body: seq<Stmt>)
    requires CanonicalExpr(c) && CanonicalStmts(body) && FitsAfterCondition(body)
    ensures ParseExpr(PrintExpr(c) + PrintStmts(body), OrPrec) == Ok(Step(c, PrintStmts(body)))
  {
    if |body| == 0 {
      ExprRoundTrip(c, [], OrPrec);
      assert PrintStmts(body) == [];
    } else {
      StmtStart(body[0]);
      assert PrintStmts(body)[0] == PrintStmt(body[0])[0];
      ExprRoundTrip(c, PrintStmts(body), OrPrec);
    }
  }

  /** A class names at most one base: a second `наследует` is rejected where
      the members or `конец` are due. */
  lemma SecondExtendsRejected(n: string, a: string, b: string, rest: seq<Token>)
    ensures ParseClass([IdentTok(n), KeywordTok(Extends), IdentTok(a), KeywordTok(Extends), IdentTok(b)] + rest)
      == Err(Expected(ExpectToken(KeywordTok(End)), Some(KeywordTok(Extends))))
  {
    var ts := [IdentTok(n), KeywordTok(Extends), IdentTok(a), KeywordTok(Extends), IdentTok(b)] + rest;
    var afterSup := [KeywordTok(Extends), IdentTok(b)] + rest;
    assert ts[1..] == [KeywordTok(Extends), IdentTok(a)] + afterSup;
    assert ts[1..][1..][1..] == afterSup;
  }

  /** The two clauses come in grammar order: `реализует` then `наследует`
      is rejected. */
  lemma ClausesInOrder(n: string, i: string, b: string, rest: seq<Token>)
    ensures ParseClass([IdentTok(n), KeywordTok(Implements), IdentTok(i), KeywordTok(Extends), IdentTok(b)] + rest)
      == Err(Expected(ExpectToken(KeywordTok(End)), Some(KeywordTok(Extends))))
  {
    var ts := [IdentTok(n), KeywordTok(Implements), IdentTok(i), KeywordTok(Extends), IdentTok(b)] + rest;
    var afterIface := [KeywordTok(Extends), IdentTok(b)] + rest;
    assert ts[1..] == [KeywordTok(Implements), IdentTok(i)] + afterIface;
    assert ts[1..][1..][1..] == afterIface;
  }

  // Statements.

  /** The kind of statement `s` agrees with its first tokens `ts`: a keyword
      selects its own statement, `функ` with a name a function declaration,
      a name with `=` an assignment, anything else an expression statement. */
  predicate KindMatches(ts: seq<Token>, s: Stmt)
    requires |ts| > 0
  {
    && (s.VarStmt? <==> ts[0] == KeywordTok(Var))
    && (s.ReturnStmt? <==> ts[0] == KeywordTok(Return))
    && (s.IfStmt? <==> ts[0] == KeywordTok(If))
    && (s.WhileStmt? <==> ts[0] == KeywordTok(While))
    && (s.ClassDecl? <==> ts[0] == KeywordTok(Class))
    && (s.FunctionDecl? <==> ts[0] == KeywordTok(Func) && |ts| > 1 && ts[1].IdentTok?)
    && (s.AssignStmt? <==> ts[0].IdentTok? && |ts| > 1 && ts[1] == SymTok(Assign))
  }

  /** The first tokens decide the kind of every statement the parser accepts. */
  lemma StatementKinds(ts: seq<Token>)
    requires ParseStmt(ts).Ok?
    ensures |ts| > 0 && KindMatches(ts, ParseStmt(ts).value.value)
  {
    var s := ParseStmt(ts).value.value;
    var h := ts[0];
    if h.KeywordTok? && h.kw in {Var, Return, If, While, Class} {
      KeywordDispatch(ts, [h], ts[1..]);
      KeywordKinds(ts, s);
    } else if h == KeywordTok(Func) && |ts| > 1 && ts[1].IdentTok? {
      KindMatchesFunction(ts, s);
    } else if h.IdentTok? && |ts| > 1 && ts[1] == SymTok(Assign) {
      assert ParseStmt(ts) == ParseAssign(ts);
      KindMatchesOther(ts, s);
    } else {
      assert ParseStmt(ts) == ParseExprStmt(ts);
      KindMatchesOther(ts, s);
    }
  }

  lemma KeywordKinds(ts: seq<Token>, s: Stmt)
    requires |ts| > 0 && ts[0].KeywordTok? && ts[0].kw in {Var, Return, If, While, Class}
    requires ts[0] == KeywordTok(Var) ==> s.VarStmt?
    requires ts[0] == KeywordTok(Return) ==> s.ReturnStmt?
    requires ts[0] == KeywordTok(If) ==> s.IfStmt?
    requires ts[0] == KeywordTok(While) ==> s.WhileStmt?
    requires ts[0] == KeywordTok(Class) ==> s.ClassDecl?
    ensures KindMatches(ts, s)
  {
  }

  lemma KindMatchesFunction(ts: seq<Token>, s: Stmt)
    requires |ts| > 1 && ts[0] == KeywordTok(Func) && ts[1].IdentTok? && s.FunctionDecl?
    ensures KindMatches(ts, s)
  {
  }

  lemma KindMatchesOther(ts: seq<Token>, s: Stmt)
    requires |ts| > 0 && !(ts[0].KeywordTok? && ts[0].kw in {Var, Return, If, While, Class})
    requires ts[0] == KeywordTok(Func) && |ts| > 1 && ts[1].IdentTok? ==> s.FunctionDecl?
    requires s.AssignStmt? || s.ExprStmt?
    requires s.AssignStmt? <==> ts[0].IdentTok? && |ts| > 1 && ts[1] == SymTok(Assign)
    ensures KindMatches(ts, s)
  {
  }

  /** `пер` needs its initializer: the declaration is `пер` name `=`
      expression `;`, and `пер x;` is rejected at the `;`. */
  lemma VarNeedsInitializer(ts: seq<Token>, n: string, rest: seq<Token>)
    requires ParseStmt(ts).Ok? && ParseStmt(ts).value.value.VarStmt?
    ensures |ts| > 2 && ts[1] == IdentTok(ParseStmt(ts).value.value.name) && ts[2] == SymTok(Assign)
    ensures ParseStmt([KeywordTok(Var), IdentTok(n), SymTok(Semicolon)] + rest)
      == Err(Expected(ExpectToken(SymTok(Assign)), Some(SymTok(Semicolon))))
  {
    StatementKinds(ts);
    assert ts[0] == KeywordTok(Var);
    VarWithoutInitializer(n, rest);
  }

  lemma VarWithoutInitializer(n: string, rest: seq<Token>)
    ensures ParseStmt([KeywordTok(Var), IdentTok(n), SymTok(Semicolon)] + rest)
      == Err(Expected(ExpectToken(SymTok(Assign)), Some(SymTok(Semicolon))))
  {
    var us := [KeywordTok(Var), IdentTok(n), SymTok(Semicolon)] + rest;
    assert us[1..] == [IdentTok(n), SymTok(Semicolon)] + rest;
    assert us[1..][1..] == [SymTok(Semicolon)] + rest;
  }

  /** Only a bare name can be assigned to: an assignment's target is the
      first token, and any other expression before `=` is read as an
      expression statement that then lacks its `;`. */
  lemma AssignTargetIsName(ts: seq<Token>, e: Expr, more: seq<Token>)
    requires ParseStmt(ts).Ok? && ParseStmt(ts).value.value.AssignStmt?
    requires CanonicalExpr(e) && !e.Identifier?
    ensures |ts| > 1 && ts[0] == IdentTok(ParseStmt(ts).value.value.target) && ts[1] == SymTok(Assign)
    ensures ParseStmt(PrintExpr(e) + ([SymTok(Assign)] + more))
      == Err(Expected(ExpectToken(SymTok(Semicolon)), Some(SymTok(Assign))))
  {
    StatementKinds(ts);
    assert ts[0].IdentTok? && ts[1] == SymTok(Assign);
    var after := [SymTok(Assign)] + more;
    var us := PrintExpr(e) + after;
    ExprFirst(e);
    IdentifierNotAssigned(e);
    ClosureOpensParams(e);
    SecondOfConcat(PrintExpr(e), after);
    ExprStmtDispatch(us);
    ExprRoundTrip(e, after, OrPrec);
  }
}
