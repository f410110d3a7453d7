/** The condition of `если` and `пока` as the generated LR parser resolves it.

    In `if_statement` and `while_statement` the condition is followed directly
    by statements, and an expression statement may begin with `-`. When the
    condition read so far is complete, a `-` therefore starts either the
    right operand of a binary `-` or a prefix `-` that opens the first
    statement of the body. Both readings shift the same token, and the choice
    falls when the operand after the `-` is complete:

    - followed by `;` only the prefix reading can go on, so it is taken;
    - followed by a binary operator both readings can reduce, and the higher
      level of `unary_expression` (6, against 4 for `additive`) picks the
      prefix reading;
    - followed by anything else only the binary reading can go on.

    While a comparison, `и` or `или` still waits for its right operand, the
    condition is not complete and no statement can start: a `-` there is
    shifted as binary, `additive` (4) binding tighter than the waiting
    operator, and the right operand is read as any other expression.

    `CondExpr` and `CondClimb` model this reading. They differ from
    `Parser.ParseExpr` and `Parser.Climb` only at such a `-`, which
    `ClimbAgrees` and `ExprAgrees` state. `ParseIfAsWritten` and
    `ParseWhileAsWritten` apply it to one statement's own condition and read
    the bodies with `Parser.ParseStmts`, so conditions nested in them are
    read greedily. The parser of the rest of the model
    reads conditions greedily instead, which is the reading the condition of
    an `если n - 1 > 0` plainly intends. */
module Condition {
  import opened Wrappers
  import opened Tokens
  import opened Ast
  import opened Precedence
  import opened Parser
  import opened Printer
  import opened Soundness
  import opened RoundTrip

  /** After a condition operand, the `-` at the head of `ts` opens a
      statement: the prefix operand behind it is followed by `;` or by a
      binary operator. */
  predicate PrefixReadingWins(ts: seq<Token>) {
    && NextIs(ts, SymTok(Minus))
    && var r := ParseUnary(ts[1..]);
    && r.Ok?
    && |r.value.rest| > 0
    && (r.value.rest[0] == SymTok(Semicolon) || BinaryOpOf(r.value.rest[0]).Some?)
  }

  /** A condition expression whose binary operators bind at `minPrec` or
      tighter, ending early where a `-` opens the body. */
  function CondExpr(ts: seq<Token>, minPrec: nat): (r: Parsed<Expr>)
    ensures r.Ok? ==> |r.value.rest| < |ts|
  {
    var lhs :- ParseUnary(ts);
    CondClimb(lhs.value, lhs.rest, minPrec)
  }

  /** The outermost climbing loop of a condition, where the condition read so
      far is complete: a `-` whose prefix reading wins ends the condition
      instead of continuing it. A right operand is read by `Parser.ParseExpr`,
      since a `-` inside it is binary. */
  function CondClimb(lhs: Expr, ts: seq<Token>, minPrec: nat): (r: Parsed<Expr>)
    ensures r.Ok? ==> |r.value.rest| <= |ts|
    ensures r.Ok? && PrefixReadingWins(ts) ==> r.value == Step(lhs, ts)
    decreases |ts|
  {
    if |ts| > 0 && BinaryOpOf(ts[0]).Some? && BinaryPrec(BinaryOpOf(ts[0]).value) >= minPrec
      && !PrefixReadingWins(ts)
    then
      var op := BinaryOpOf(ts[0]).value;
      var rhs :- ParseExpr(ts[1..], BinaryPrec(op) + 1);
      CondClimb(Binary(lhs, op, rhs.value), rhs.rest, minPrec)
    else Ok(Step(lhs, ts))
  }

  /** `если` as the generated parser reads its own condition: the condition
      may end before a `-` that then opens the body. The bodies are read with
      `Parser.ParseStmts`, so an `если` or `пока` nested in them, and every
      function or closure body, takes the greedy reading. */
  function ParseIfAsWritten(ts: seq<Token>): (r: Parsed<Stmt>)
    ensures r.Ok? ==> |r.value.rest| < |ts| && r.value.value.IfStmt?
  {
    var cond :- CondExpr(ts, OrPrec);
    var body :- ParseStmts(cond.rest);
    if NextIs(body.rest, KeywordTok(Else)) then
      var alt :- ParseStmts(body.rest[1..]);
      var rest :- Expect(alt.rest, KeywordTok(End));
      Ok(Step(IfStmt(cond.value, body.value, WithElse(alt.value)), rest))
    else
      var rest :- Expect(body.rest, KeywordTok(End));
      Ok(Step(IfStmt(cond.value, body.value, NoElse), rest))
  }

  /** `пока` as the generated parser reads its own condition; the body is
      read with `Parser.ParseStmts`, as in `ParseIfAsWritten`. */
  function ParseWhileAsWritten(ts: seq<Token>): (r: Parsed<Stmt>)
    ensures r.Ok? ==> |r.value.rest| < |ts| && r.value.value.WhileStmt?
  {
    var cond :- CondExpr(ts, OrPrec);
    var body :- ParseStmts(cond.rest);
    var rest :- Expect(body.rest, KeywordTok(End));
    Ok(Step(WhileStmt(cond.value, body.value), rest))
  }

  // ---------------------------------------------------------------------
  // The two readings agree away from `-`

  /** No `-` anywhere in the tokens. */
  predicate MinusFree(ts: seq<Token>) {
    forall i :: 0 <= i < |ts| ==> ts[i] != SymTok(Minus)
  }

  lemma SuffixMinusFree(ts: seq<Token>, front: seq<Token>, rest: seq<Token>)
    requires ts == front + rest && MinusFree(ts)
    ensures MinusFree(rest)
  {
    assert forall i :: 0 <= i < |rest| ==> rest[i] == ts[|front| + i];
  }

  /** Without a `-`, a condition is read exactly as any other expression. */
  lemma {:induction false} ExprAgrees(ts: seq<Token>, minPrec: nat)
    requires minPrec <= UnaryPrec && MinusFree(ts)
    ensures CondExpr(ts, minPrec) == ParseExpr(ts, minPrec)
  {
    var lhs := ParseUnary(ts);
    if lhs.Ok? {
      var rest := lhs.value.rest;
      UnarySound(ts);
      SuffixMinusFree(ts, PrintExpr(lhs.value.value), rest);
      ClimbAgrees(lhs.value.value, rest, minPrec);
    }
  }

  /** Without a `-`, the condition's climbing loop is `Parser.Climb`. */
  lemma {:induction false} ClimbAgrees(lhs: Expr, ts: seq<Token>, minPrec: nat)
    requires minPrec <= Level(lhs) && CanonicalExpr(lhs) && !PostfixNext(ts)
    requires |ts| > 0 && BinaryOpOf(ts[0]).Some? ==> BinaryPrec(BinaryOpOf(ts[0]).value) <= Level(lhs)
    requires MinusFree(ts)
    ensures CondClimb(lhs, ts, minPrec) == Climb(lhs, ts, minPrec)
    decreases |ts|
  {
    if |ts| > 0 && BinaryOpOf(ts[0]).Some? && BinaryPrec(BinaryOpOf(ts[0]).value) >= minPrec {
      assert !PrefixReadingWins(ts);
      var op := BinaryOpOf(ts[0]).value;
      var tail := ts[1..];
      assert MinusFree(tail);
      var rhs := ParseExpr(tail, BinaryPrec(op) + 1);
      if rhs.Ok? {
        var rest := rhs.value.rest;
        ExprSound(tail, BinaryPrec(op) + 1);
        SuffixMinusFree(tail, PrintExpr(rhs.value.value), rest);
        ClimbContinues(lhs, op, rhs.value.value, rest, minPrec);
        ClimbAgrees(Binary(lhs, op, rhs.value.value), rest, minPrec);
      }
    }
  }

  /** Without a `-`, `если` is read the same by both readings. */
  lemma IfAgrees(ts: seq<Token>)
    requires MinusFree(ts)
    ensures ParseIfAsWritten(ts) == ParseIf(ts)
  {
    ExprAgrees(ts, OrPrec);
  }

  /** Without a `-`, `пока` is read the same by both readings. */
  lemma WhileAgrees(ts: seq<Token>)
    requires MinusFree(ts)
    ensures ParseWhileAsWritten(ts) == ParseWhile(ts)
  {
    ExprAgrees(ts, OrPrec);
  }

  // ---------------------------------------------------------------------
  // Where the two readings part

  /** The expression a name or number token stands for. */
  function Atom(t: Token): Expr
    requires t.IdentTok? || t.NumberTok?
  {
    if t.IdentTok? then Identifier(t.name) else NumberLit(t.text)
  }

  lemma AtomUnary(t: Token, rest: seq<Token>)
    requires (t.IdentTok? || t.NumberTok?) && !PostfixNext(rest)
    ensures ParseUnary([t] + rest) == Ok(Step(Atom(t), rest))
  {
    var ts := [t] + rest;
    assert ts[0] == t && ts[1..] == rest;
    assert ParsePrimary(ts) == Ok(Step(Atom(t), rest));
    assert PostfixLoop(Atom(t), rest) == Ok(Step(Atom(t), rest));
  }

  lemma NegUnary(x: seq<Token>, e: Expr, rest: seq<Token>)
    requires ParseUnary(x) == Ok(Step(e, rest))
    ensures ParseUnary([SymTok(Minus)] + x) == Ok(Step(Unary(Neg, e), rest))
  {
    assert ([SymTok(Minus)] + x)[1..] == x;
  }

  /** An expression that is one prefix operand: no operator binding at
      `minPrec` follows it. */
  lemma OperandOnly(ts: seq<Token>, e: Expr, rest: seq<Token>, minPrec: nat)
    requires minPrec <= UnaryPrec && ParseUnary(ts) == Ok(Step(e, rest))
    requires |rest| == 0 || BinaryOpOf(rest[0]).None? || BinaryPrec(BinaryOpOf(rest[0]).value) < minPrec
    ensures ParseExpr(ts, minPrec) == Ok(Step(e, rest))
  {
    ClimbDone(e, rest, minPrec);
  }

  /** The prefix reading of a `-` wins when its operand is followed by `;`
      or a binary operator. */
  lemma PrefixWins(x: seq<Token>, e: Expr, rest: seq<Token>)
    requires ParseUnary(x) == Ok(Step(e, rest))
    requires |rest| > 0 && (rest[0] == SymTok(Semicolon) || BinaryOpOf(rest[0]).Some?)
    ensures PrefixReadingWins([SymTok(Minus)] + x)
  {
    assert ([SymTok(Minus)] + x)[1..] == x;
  }

  /** An expression followed by `;` is an expression statement. */
  lemma ExprStmtStep(ts: seq<Token>, e: Expr, rest: seq<Token>)
    requires ParseExpr(ts, OrPrec) == Ok(Step(e, [SymTok(Semicolon)] + rest))
    ensures ParseExprStmt(ts) == Ok(Step(ExprStmt(e), rest))
  {
    assert ([SymTok(Semicolon)] + rest)[1..] == rest;
  }

  /** A statement led by neither a keyword nor a name is an expression statement. */
  lemma NotKeywordLed(ts: seq<Token>)
    requires |ts| > 0 && !ts[0].KeywordTok? && !ts[0].IdentTok?
    ensures ParseStmt(ts) == ParseExprStmt(ts)
  {
  }

  /** A name not followed by `=` leads an expression statement. */
  lemma NameLed(ts: seq<Token>)
    requires |ts| > 1 && ts[0].IdentTok? && ts[1] != SymTok(Assign)
    ensures ParseStmt(ts) == ParseExprStmt(ts)
  {
  }

  /** A body is empty at `конец`. */
  lemma EmptyBody(ts: seq<Token>)
    requires NextIs(ts, KeywordTok(End))
    ensures ParseStmts(ts) == Ok(Step([], ts))
  {
  }

  /** One statement, then `конец`. */
  lemma OneStatement(ts: seq<Token>, st: Stmt, rest: seq<Token>)
    requires !AtBlockEnd(ts) && ParseStmt(ts) == Ok(Step(st, rest)) && NextIs(rest, KeywordTok(End))
    ensures ParseStmts(ts) == Ok(Step([st], rest))
  {
    EmptyBody(rest);
    assert [st] + [] == [st];
  }

  /** A body whose first statement fails fails. */
  lemma FirstStatementFails(ts: seq<Token>)
    requires !AtBlockEnd(ts) && ParseStmt(ts).Err?
    ensures ParseStmts(ts).Err?
  {
  }

  /** A statement cannot begin with `;`. */
  lemma StrayTerminator(rest: seq<Token>)
    ensures ParseStmts([SymTok(Semicolon)] + rest).Err?
  {
    var ts := [SymTok(Semicolon)] + rest;
    assert ts[0] == SymTok(Semicolon);
    assert ParsePrimary(ts).Err?;
    assert ParseUnary(ts).Err?;
    assert ParseExpr(ts, OrPrec).Err?;
    assert ParseExprStmt(ts).Err?;
    NotKeywordLed(ts);
    FirstStatementFails(ts);
  }

  /** `если` with one body and `конец`, under either reading. */
  lemma IfThenEnd(ts: seq<Token>, c: Expr, x: seq<Token>, body: seq<Stmt>)
    requires ParseStmts(x) == Ok(Step(body, [KeywordTok(End)]))
    ensures ParseExpr(ts, OrPrec) == Ok(Step(c, x)) ==> ParseIf(ts) == Ok(Step(IfStmt(c, body, NoElse), []))
    ensures CondExpr(ts, OrPrec) == Ok(Step(c, x)) ==> ParseIfAsWritten(ts) == Ok(Step(IfStmt(c, body, NoElse), []))
  {
  }

  /** `если` whose body fails, under either reading. */
  lemma IfBodyFails(ts: seq<Token>, c: Expr, x: seq<Token>)
    requires ParseStmts(x).Err?
    ensures ParseExpr(ts, OrPrec) == Ok(Step(c, x)) ==> ParseIf(ts).Err?
    ensures CondExpr(ts, OrPrec) == Ok(Step(c, x)) ==> ParseIfAsWritten(ts).Err?
  {
  }

  /** The tokens of `a - b; конец`, split where the readings look. */
  predicate MinusShape(ts: seq<Token>, negB: seq<Token>, bEnd: seq<Token>, end: seq<Token>) {
    && end == [SymTok(Semicolon), KeywordTok(End)]
    && bEnd == [IdentTok("b")] + end
    && negB == [SymTok(Minus)] + bEnd
    && ts == [IdentTok("a")] + negB
  }

  /** `если a - b; конец`: the generated reading takes `-b;` as the body;
      the greedy reading takes `a - b` as the condition and then fails at `;`. */
  lemma MinusOpensBody()
    ensures var ts := [IdentTok("a"), SymTok(Minus), IdentTok("b"), SymTok(Semicolon), KeywordTok(End)];
      && ParseIfAsWritten(ts) == Ok(Step(IfStmt(Identifier("a"), [ExprStmt(Unary(Neg, Identifier("b")))], NoElse), []))
      && ParseIf(ts).Err?
  {
    var end := [SymTok(Semicolon), KeywordTok(End)];
    var bEnd := [IdentTok("b")] + end;
    var negB := [SymTok(Minus)] + bEnd;
    var ts := [IdentTok("a")] + negB;
    assert ts == [IdentTok("a"), SymTok(Minus), IdentTok("b"), SymTok(Semicolon), KeywordTok(End)];
    MinusAsWritten(ts, negB, bEnd, end);
    MinusGreedy(ts, negB, bEnd, end);
  }

  lemma MinusAsWritten(ts: seq<Token>, negB: seq<Token>, bEnd: seq<Token>, end: seq<Token>)
    requires MinusShape(ts, negB, bEnd, end)
    ensures ParseIfAsWritten(ts) == Ok(Step(IfStmt(Identifier("a"), [ExprStmt(Unary(Neg, Identifier("b")))], NoElse), []))
  {
    MinusCondition(ts, negB, bEnd, end);
    MinusBody(ts, negB, bEnd, end);
    IfThenEnd(ts, Identifier("a"), negB, [ExprStmt(Unary(Neg, Identifier("b")))]);
  }

  lemma MinusGreedy(ts: seq<Token>, negB: seq<Token>, bEnd: seq<Token>, end: seq<Token>)
    requires MinusShape(ts, negB, bEnd, end)
    ensures ParseIf(ts).Err?
  {
    MinusGreedyCondition(ts, negB, bEnd, end);
    assert end == [SymTok(Semicolon)] + [KeywordTok(End)];
    StrayTerminator([KeywordTok(End)]);
    IfBodyFails(ts, Binary(Identifier("a"), Sub, Identifier("b")), end);
  }

  lemma MinusCondition(ts: seq<Token>, negB: seq<Token>, bEnd: seq<Token>, end: seq<Token>)
    requires MinusShape(ts, negB, bEnd, end)
    ensures CondExpr(ts, OrPrec) == Ok(Step(Identifier("a"), negB))
  {
    AtomUnary(IdentTok("a"), negB);
    AtomUnary(IdentTok("b"), end);
    PrefixWins(bEnd, Identifier("b"), end);
  }

  lemma MinusBody(ts: seq<Token>, negB: seq<Token>, bEnd: seq<Token>, end: seq<Token>)
    requires MinusShape(ts, negB, bEnd, end)
    ensures ParseStmts(negB) == Ok(Step([ExprStmt(Unary(Neg, Identifier("b")))], [KeywordTok(End)]))
  {
    var e := Unary(Neg, Identifier("b"));
    AtomUnary(IdentTok("b"), end);
    NegUnary(bEnd, Identifier("b"), end);
    OperandOnly(negB, e, end, OrPrec);
    assert end == [SymTok(Semicolon)] + [KeywordTok(End)];
    ExprStmtStep(negB, e, [KeywordTok(End)]);
    NotKeywordLed(negB);
    OneStatement(negB, ExprStmt(e), [KeywordTok(End)]);
  }

  lemma MinusGreedyCondition(ts: seq<Token>, negB: seq<Token>, bEnd: seq<Token>, end: seq<Token>)
    requires MinusShape(ts, negB, bEnd, end)
    ensures ParseExpr(ts, OrPrec) == Ok(Step(Binary(Identifier("a"), Sub, Identifier("b")), end))
  {
    var a, b := Identifier("a"), Identifier("b");
    AtomUnary(IdentTok("a"), negB);
    AtomUnary(IdentTok("b"), end);
    OperandOnly(bEnd, b, end, AdditivePrec + 1);
    ClimbTail(Binary(a, Sub, b), bEnd, end, OrPrec);
    ClimbDone(Binary(a, Sub, b), end, OrPrec);
  }

  /** The tokens of `n - 1 > 0 f(); конец`, split where the readings look. */
  predicate ComparisonShape(ts: seq<Token>, neg: seq<Token>, one: seq<Token>, gt: seq<Token>, zero: seq<Token>, call: seq<Token>) {
    && call == [IdentTok("f"), SymTok(LParen), SymTok(RParen), SymTok(Semicolon), KeywordTok(End)]
    && zero == [NumberTok("0")] + call
    && gt == [SymTok(Gt)] + zero
    && one == [NumberTok("1")] + gt
    && neg == [SymTok(Minus)] + one
    && ts == [IdentTok("n")] + neg
  }

  /** `если n - 1 > 0 f(); конец`: the generated reading ends the condition at
      `n` and fails on the body `-1 > 0 f();`; the greedy reading takes the
      whole comparison as the condition. */
  lemma ComparisonConditionRejected()
    ensures var ts := [IdentTok("n"), SymTok(Minus), NumberTok("1"), SymTok(Gt), NumberTok("0"),
                       IdentTok("f"), SymTok(LParen), SymTok(RParen), SymTok(Semicolon), KeywordTok(End)];
      && ParseIfAsWritten(ts).Err?
      && ParseIf(ts) == Ok(Step(IfStmt(Binary(Binary(Identifier("n"), Sub, NumberLit("1")), Greater, NumberLit("0")),
                                       [ExprStmt(Call(Identifier("f"), [], false))], NoElse), []))
  {
    var call := [IdentTok("f"), SymTok(LParen), SymTok(RParen), SymTok(Semicolon), KeywordTok(End)];
    var zero := [NumberTok("0")] + call;
    var gt := [SymTok(Gt)] + zero;
    var one := [NumberTok("1")] + gt;
    var neg := [SymTok(Minus)] + one;
    var ts := [IdentTok("n")] + neg;
    assert ts == [IdentTok("n"), SymTok(Minus), NumberTok("1"), SymTok(Gt), NumberTok("0"),
                  IdentTok("f"), SymTok(LParen), SymTok(RParen), SymTok(Semicolon), KeywordTok(End)];
    var n := Identifier("n");
    var cond := Binary(Binary(n, Sub, NumberLit("1")), Greater, NumberLit("0"));
    ComparisonCondition(ts, neg, one, gt, zero, call);
    ComparisonBodyFails(ts, neg, one, gt, zero, call);
    IfBodyFails(ts, n, neg);
    GreedyComparison(ts, neg, one, gt, zero, call);
    CallStatement(call);
    IfThenEnd(ts, cond, call, [ExprStmt(Call(Identifier("f"), [], false))]);
  }

  lemma ComparisonCondition(ts: seq<Token>, neg: seq<Token>, one: seq<Token>, gt: seq<Token>, zero: seq<Token>, call: seq<Token>)
    requires ComparisonShape(ts, neg, one, gt, zero, call)
    ensures CondExpr(ts, OrPrec) == Ok(Step(Identifier("n"), neg))
  {
    AtomUnary(IdentTok("n"), neg);
    AtomUnary(NumberTok("1"), gt);
    PrefixWins(one, NumberLit("1"), gt);
  }

  /** The body `-1 > 0 f();` reads `-1 > 0` and then finds `f` for `;`. */
  lemma ComparisonBodyFails(ts: seq<Token>, neg: seq<Token>, one: seq<Token>, gt: seq<Token>, zero: seq<Token>, call: seq<Token>)
    requires ComparisonShape(ts, neg, one, gt, zero, call)
    ensures ParseStmts(neg).Err?
  {
    NegatedComparison(ts, neg, one, gt, zero, call);
    assert call[0] == IdentTok("f");
    assert ParseExprStmt(neg).Err?;
    NotKeywordLed(neg);
    FirstStatementFails(neg);
  }

  lemma NegatedComparison(ts: seq<Token>, neg: seq<Token>, one: seq<Token>, gt: seq<Token>, zero: seq<Token>, call: seq<Token>)
    requires ComparisonShape(ts, neg, one, gt, zero, call)
    ensures ParseExpr(neg, OrPrec) == Ok(Step(Binary(Unary(Neg, NumberLit("1")), Greater, NumberLit("0")), call))
  {
    var c1 := NumberLit("1");
    AtomUnary(NumberTok("1"), gt);
    NegUnary(one, c1, gt);
    ComparisonTail(ts, neg, one, gt, zero, call, Unary(Neg, c1));
  }

  /** `> 0` after a left operand, then `f` ends the expression. */
  lemma ComparisonTail(ts: seq<Token>, neg: seq<Token>, one: seq<Token>, gt: seq<Token>, zero: seq<Token>, call: seq<Token>, lhs: Expr)
    requires ComparisonShape(ts, neg, one, gt, zero, call)
    requires ComparativePrec <= Level(lhs) && CanonicalExpr(lhs)
    ensures Climb(lhs, gt, OrPrec) == Ok(Step(Binary(lhs, Greater, NumberLit("0")), call))
  {
    var c0 := NumberLit("0");
    ZeroOperand(ts, neg, one, gt, zero, call);
    ClimbTail(Binary(lhs, Greater, c0), zero, call, OrPrec);
    ClimbDone(Binary(lhs, Greater, c0), call, OrPrec);
  }

  lemma ZeroOperand(ts: seq<Token>, neg: seq<Token>, one: seq<Token>, gt: seq<Token>, zero: seq<Token>, call: seq<Token>)
    requires ComparisonShape(ts, neg, one, gt, zero, call)
    ensures ParseExpr(zero, ComparativePrec + 1) == Ok(Step(NumberLit("0"), call))
  {
    AtomUnary(NumberTok("0"), call);
    OperandOnly(zero, NumberLit("0"), call, ComparativePrec + 1);
  }

  lemma GreedyComparison(ts: seq<Token>, neg: seq<Token>, one: seq<Token>, gt: seq<Token>, zero: seq<Token>, call: seq<Token>)
    requires ComparisonShape(ts, neg, one, gt, zero, call)
    ensures ParseExpr(ts, OrPrec) == Ok(Step(Binary(Binary(Identifier("n"), Sub, NumberLit("1")), Greater, NumberLit("0")), call))
  {
    var n := Identifier("n");
    AtomUnary(IdentTok("n"), neg);
    GreedySubtraction(ts, neg, one, gt, zero, call);
    ComparisonTail(ts, neg, one, gt, zero, call, Binary(n, Sub, NumberLit("1")));
  }

  /** `n - 1` climbs one round and stands before `>`. */
  lemma GreedySubtraction(ts: seq<Token>, neg: seq<Token>, one: seq<Token>, gt: seq<Token>, zero: seq<Token>, call: seq<Token>)
    requires ComparisonShape(ts, neg, one, gt, zero, call)
    ensures Climb(Identifier("n"), neg, OrPrec) == Climb(Binary(Identifier("n"), Sub, NumberLit("1")), gt, OrPrec)
  {
    AtomUnary(NumberTok("1"), gt);
    OperandOnly(one, NumberLit("1"), gt, AdditivePrec + 1);
    ClimbTail(Binary(Identifier("n"), Sub, NumberLit("1")), one, gt, OrPrec);
  }

  /** One round of the outermost condition loop at an operator other than `-`. */
  lemma CondClimbStep(e: Expr, body: seq<Token>, rest: seq<Token>, minPrec: nat)
    requires e.Binary? && e.bop != Sub && minPrec <= Level(e)
    requires ParseExpr(body, Level(e) + 1) == Ok(Step(e.right, rest))
    ensures CondClimb(e.left, [BinaryToken(e.bop)] + body, minPrec) == CondClimb(e, rest, minPrec)
  {
    BinaryOpOfToken(e.bop);
    assert ([BinaryToken(e.bop)] + body)[1..] == body;
  }

  /** The outermost condition loop ends where no operator binding at
      `minPrec` follows. */
  lemma CondClimbDone(e: Expr, rest: seq<Token>, minPrec: nat)
    requires |rest| == 0 || BinaryOpOf(rest[0]).None? || BinaryPrec(BinaryOpOf(rest[0]).value) < minPrec
    ensures CondClimb(e, rest, minPrec) == Ok(Step(e, rest))
  {
  }

  /** The tokens of `a < b - c; конец`, split where the readings look. */
  predicate WaitingShape(ts: seq<Token>, lt: seq<Token>, bRest: seq<Token>, minusC: seq<Token>, cEnd: seq<Token>, end: seq<Token>) {
    && end == [SymTok(Semicolon), KeywordTok(End)]
    && cEnd == [IdentTok("c")] + end
    && minusC == [SymTok(Minus)] + cEnd
    && bRest == [IdentTok("b")] + minusC
    && lt == [SymTok(Lt)] + bRest
    && ts == [IdentTok("a")] + lt
  }

  /** `если a < b - c; конец`: while `<` waits for its right operand the `-`
      is binary, so under both readings the condition is `a < b - c` and the
      body then fails at `;`. */
  lemma WaitingOperandTakesMinus()
    ensures var ts := [IdentTok("a"), SymTok(Lt), IdentTok("b"), SymTok(Minus), IdentTok("c"), SymTok(Semicolon), KeywordTok(End)];
      && CondExpr(ts, OrPrec)
         == Ok(Step(Binary(Identifier("a"), Less, Binary(Identifier("b"), Sub, Identifier("c"))), [SymTok(Semicolon), KeywordTok(End)]))
      && ParseIfAsWritten(ts).Err?
      && ParseIf(ts).Err?
  {
    var end := [SymTok(Semicolon), KeywordTok(End)];
    var cEnd := [IdentTok("c")] + end;
    var minusC := [SymTok(Minus)] + cEnd;
    var bRest := [IdentTok("b")] + minusC;
    var lt := [SymTok(Lt)] + bRest;
    var ts := [IdentTok("a")] + lt;
    assert ts == [IdentTok("a"), SymTok(Lt), IdentTok("b"), SymTok(Minus), IdentTok("c"), SymTok(Semicolon), KeywordTok(End)];
    var cond := Binary(Identifier("a"), Less, Binary(Identifier("b"), Sub, Identifier("c")));
    WaitingCondition(ts, lt, bRest, minusC, cEnd, end);
    WaitingGreedy(ts, lt, bRest, minusC, cEnd, end);
    assert end == [SymTok(Semicolon)] + [KeywordTok(End)];
    StrayTerminator([KeywordTok(End)]);
    IfBodyFails(ts, cond, end);
  }

  /** `b - c` as the right operand of `<`. */
  lemma WaitingOperand(ts: seq<Token>, lt: seq<Token>, bRest: seq<Token>, minusC: seq<Token>, cEnd: seq<Token>, end: seq<Token>)
    requires WaitingShape(ts, lt, bRest, minusC, cEnd, end)
    ensures ParseExpr(bRest, ComparativePrec + 1) == Ok(Step(Binary(Identifier("b"), Sub, Identifier("c")), end))
  {
    var bc := Binary(Identifier("b"), Sub, Identifier("c"));
    AtomUnary(IdentTok("b"), minusC);
    AtomUnary(IdentTok("c"), end);
    OperandOnly(cEnd, Identifier("c"), end, AdditivePrec + 1);
    ClimbTail(bc, cEnd, end, ComparativePrec + 1);
    ClimbDone(bc, end, ComparativePrec + 1);
  }

  lemma WaitingCondition(ts: seq<Token>, lt: seq<Token>, bRest: seq<Token>, minusC: seq<Token>, cEnd: seq<Token>, end: seq<Token>)
    requires WaitingShape(ts, lt, bRest, minusC, cEnd, end)
    ensures CondExpr(ts, OrPrec)
      == Ok(Step(Binary(Identifier("a"), Less, Binary(Identifier("b"), Sub, Identifier("c"))), end))
  {
    var cond := Binary(Identifier("a"), Less, Binary(Identifier("b"), Sub, Identifier("c")));
    AtomUnary(IdentTok("a"), lt);
    WaitingOperand(ts, lt, bRest, minusC, cEnd, end);
    CondClimbStep(cond, bRest, end, OrPrec);
    CondClimbDone(cond, end, OrPrec);
  }

  lemma WaitingGreedy(ts: seq<Token>, lt: seq<Token>, bRest: seq<Token>, minusC: seq<Token>, cEnd: seq<Token>, end: seq<Token>)
    requires WaitingShape(ts, lt, bRest, minusC, cEnd, end)
    ensures ParseExpr(ts, OrPrec)
      == Ok(Step(Binary(Identifier("a"), Less, Binary(Identifier("b"), Sub, Identifier("c"))), end))
  {
    var cond := Binary(Identifier("a"), Less, Binary(Identifier("b"), Sub, Identifier("c")));
    AtomUnary(IdentTok("a"), lt);
    WaitingOperand(ts, lt, bRest, minusC, cEnd, end);
    ClimbTail(cond, bRest, end, OrPrec);
    ClimbDone(cond, end, OrPrec);
  }

  /** `f();` then `конец`. */
  lemma CallStatement(ts: seq<Token>)
    requires ts == [IdentTok("f"), SymTok(LParen), SymTok(RParen), SymTok(Semicolon), KeywordTok(End)]
    ensures ParseStmts(ts) == Ok(Step([ExprStmt(Call(Identifier("f"), [], false))], [KeywordTok(End)]))
  {
    var endTok := [KeywordTok(End)];
    var end := [SymTok(Semicolon)] + endTok;
    var e := Call(Identifier("f"), [], false);
    CallExpr(ts, end);
    OperandOnly(ts, e, end, OrPrec);
    ExprStmtStep(ts, e, endTok);
    NameLed(ts);
    OneStatement(ts, ExprStmt(e), endTok);
  }

  lemma CallExpr(ts: seq<Token>, end: seq<Token>)
    requires end == [SymTok(Semicolon), KeywordTok(End)]
    requires ts == [IdentTok("f"), SymTok(LParen), SymTok(RParen)] + end
    ensures ParseUnary(ts) == Ok(Step(Call(Identifier("f"), [], false), end))
  {
    var e := Call(Identifier("f"), [], false);
    assert ts[1..] == [SymTok(LParen), SymTok(RParen)] + end && ts[1..][1..] == [SymTok(RParen)] + end;
    assert ParseArgs(ts[1..][1..]) == Ok(Step(ArgList([], false), end));
    assert PostfixLoop(e, end) == Ok(Step(e, end));
    assert ParsePrimary(ts) == Ok(Step(Identifier("f"), ts[1..]));
    assert ParsePostfix(ts) == Ok(Step(e, end));
  }
}
