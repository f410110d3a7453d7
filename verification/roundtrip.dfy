/** Printing then parsing gives back the tree: for every canonical
    expression, statement, function and member list, the parser reads the
    printed tokens as exactly that tree and leaves the following tokens
    untouched. The lemmas follow the parse functions one for one. */
module RoundTrip {
  import opened Wrappers
  import opened Tokens
  import opened Ast
  import opened Precedence
  import opened Lists
  import opened Printer
  import opened Parser
  import opened Spines

  lemma AppendFirst<T>(acc: seq<T>, more: seq<T>)
    requires |more| > 0
    ensures acc + [more[0]] + more[1..] == acc + more
  {
    assert more == [more[0]] + more[1..];
  }

  // Parameter lists.

  /** The text of the parameters after the first one. */
  function NamesAfterFirst(more: seq<string>): seq<Token> {
    if |more| == 0 then [] else [SymTok(Comma)] + SepBy1(SymTok(Comma), NameItems(more))
  }

  lemma NameListSplit(ps: seq<string>)
    requires |ps| > 0
    ensures SepBy(SymTok(Comma), NameItems(ps)) == [IdentTok(ps[0])] + NamesAfterFirst(ps[1..])
  {
    var items := NameItems(ps);
    assert items[0] == [IdentTok(ps[0])];
    assert items[1..] == NameItems(ps[1..]);
  }

  lemma NamesAfterFirstSplit(more: seq<string>)
    requires |more| > 0
    ensures NamesAfterFirst(more) == [SymTok(Comma), IdentTok(more[0])] + NamesAfterFirst(more[1..])
  {
    NameListSplit(more);
  }

  /** The parameter loop reads the names after the first one, each behind
      its `,`, and stops at whatever follows them. */
  lemma {:induction false} ParamsTailRoundTrip(acc: seq<string>, more: seq<string>, k: seq<Token>)
    ensures ParamsTail(acc, NamesAfterFirst(more) + k) == ParamsTail(acc + more, k)
    decreases |more|
  {
    if |more| == 0 {
      assert NamesAfterFirst(more) + k == k;
      assert acc + more == acc;
    } else {
      var after := NamesAfterFirst(more[1..]) + k;
      ParamsTailLayout(more, k);
      ParamsTailStep(acc, more[0], after);
      ParamsTailRoundTrip(acc + [more[0]], more[1..], k);
      AppendFirst(acc, more);
    }
  }

  /** The parameter loop stops at `)`. */
  lemma ParamsTailClose(acc: seq<string>, rest: seq<Token>)
    ensures ParamsTail(acc, [SymTok(RParen)] + rest) == Ok(Step(acc, rest))
  {
    assert ([SymTok(RParen)] + rest)[1..] == rest;
  }

  lemma ParamsTailLayout(more: seq<string>, k: seq<Token>)
    requires |more| > 0
    ensures NamesAfterFirst(more) + k == [SymTok(Comma), IdentTok(more[0])] + (NamesAfterFirst(more[1..]) + k)
  {
    NamesAfterFirstSplit(more);
    Assoc([SymTok(Comma), IdentTok(more[0])], NamesAfterFirst(more[1..]), k);
  }

  /** One round of the parameter loop takes `,` and a name. */
  lemma ParamsTailStep(acc: seq<string>, name: string, after: seq<Token>)
    ensures ParamsTail(acc, [SymTok(Comma), IdentTok(name)] + after) == ParamsTail(acc + [name], after)
  {
    var ts := [SymTok(Comma), IdentTok(name)] + after;
    assert ts[1..] == [IdentTok(name)] + after;
  }

  /** A nonempty parameter list after `(` is read in full, leaving the
      parameter loop at whatever follows it. */
  lemma ParamsReadAll(ps: seq<string>, k: seq<Token>)
    requires |ps| > 0
    ensures ParseParams([SymTok(LParen)] + SepBy(SymTok(Comma), NameItems(ps)) + k) == ParamsTail(ps, k)
  {
    var after := NamesAfterFirst(ps[1..]) + k;
    NameListSplit(ps);
    Assoc([SymTok(LParen)], [IdentTok(ps[0])], after);
    Assoc([IdentTok(ps[0])], NamesAfterFirst(ps[1..]), k);
    Assoc([SymTok(LParen)], [IdentTok(ps[0])] + NamesAfterFirst(ps[1..]), k);
    ParamsOpen(ps[0], after);
    ParamsTailRoundTrip([ps[0]], ps[1..], k);
    ConsFirst(ps);
  }

  /** After `(`, the first name starts the parameter loop. */
  lemma ParamsOpen(name: string, after: seq<Token>)
    ensures ParseParams([SymTok(LParen)] + ([IdentTok(name)] + after)) == ParamsTail([name], after)
  {
    var ts := [SymTok(LParen)] + ([IdentTok(name)] + after);
    assert ts[1..] == [IdentTok(name)] + after;
    assert ts[1..][1..] == after;
  }

  lemma ParamsRoundTrip(ps: seq<string>, rest: seq<Token>)
    ensures ParseParams(PrintParams(ps) + rest) == Ok(Step(ps, rest))
  {
    var open := [SymTok(LParen)] + SepBy(SymTok(Comma), NameItems(ps));
    Assoc(open, [SymTok(RParen)], rest);
    if |ps| == 0 {
      assert open + ([SymTok(RParen)] + rest) == [SymTok(LParen), SymTok(RParen)] + rest;
    } else {
      ParamsReadAll(ps, [SymTok(RParen)] + rest);
      ParamsTailClose(ps, rest);
    }
  }

  // Expressions.

  /** An expression is read back whole when the tokens after it cannot
      continue it at the requested binding strength. */
  lemma {:induction false} ExprRoundTrip(e: Expr, rest: seq<Token>, minPrec: nat)
    requires CanonicalExpr(e) && minPrec <= Level(e) && minPrec <= UnaryPrec
    requires StopsBelow(rest, minPrec)
    ensures ParseExpr(PrintExpr(e) + rest, minPrec) == Ok(Step(e, rest))
    decreases ExprSize(e), 5
  {
    var u := Leftmost(e);
    LeftSpineWith(e, rest);
    UnaryRoundTrip(u, OperatorTail(e) + rest);
    ClimbRoundTrip(e, rest, minPrec);
    ClimbDone(e, rest, minPrec);
  }

  lemma LeftSpineWith(e: Expr, rest: seq<Token>)
    ensures PrintExpr(e) + rest == PrintExpr(Leftmost(e)) + (OperatorTail(e) + rest)
    ensures !PostfixNext(OperatorTail(e) + rest) || OperatorTail(e) == []
  {
    LeftSpine(e);
  }

  /** Climbing stops before an operator that binds below the minimum. */
  lemma ClimbDone(e: Expr, rest: seq<Token>, minPrec: nat)
    requires CanonicalExpr(e) && minPrec <= Level(e) && StopsBelow(rest, minPrec)
    ensures Climb(e, rest, minPrec) == Ok(Step(e, rest))
  {
  }

  /** Climbing from the leftmost operand over the operator tail rebuilds the
      left spine of binary operators. */
  lemma {:induction false} ClimbRoundTrip(e: Expr, rest: seq<Token>, minPrec: nat)
    requires CanonicalExpr(e) && minPrec <= Level(e) && minPrec <= UnaryPrec
    requires StopsBelow(rest, Level(e) + 1)
    ensures Climb(Leftmost(e), OperatorTail(e) + rest, minPrec) == Climb(e, rest, minPrec)
    decreases ExprSize(e), 4
  {
    if e.Binary? {
      var after := [BinaryToken(e.bop)] + PrintExpr(e.right) + rest;
      OperatorTailUnfold(e, rest);
      ClimbRoundTrip(e.left, after, minPrec);
      ClimbStep(e, rest, minPrec);
    } else {
      assert OperatorTail(e) + rest == rest;
    }
  }

  lemma OperatorTailUnfold(e: Expr, rest: seq<Token>)
    requires e.Binary? && CanonicalExpr(e)
    ensures OperatorTail(e) + rest == OperatorTail(e.left) + ([BinaryToken(e.bop)] + PrintExpr(e.right) + rest)
    ensures Leftmost(e) == Leftmost(e.left) && Level(e) == BinaryPrec(e.bop)
    ensures StopsBelow([BinaryToken(e.bop)] + PrintExpr(e.right) + rest, Level(e.left) + 1)
  {
    var t, op, r := OperatorTail(e.left), [BinaryToken(e.bop)], PrintExpr(e.right);
    assert OperatorTail(e) == t + op + r;
    Assoc(t, op, r);
    Assoc(t, op + r, rest);
    BinaryOpOfToken(e.bop);
  }

  /** One round of the climbing loop takes an operator and its right operand. */
  lemma {:induction false} ClimbStep(e: Expr, rest: seq<Token>, minPrec: nat)
    requires e.Binary? && CanonicalExpr(e) && minPrec <= Level(e)
    requires StopsBelow(rest, Level(e) + 1)
    ensures Climb(e.left, [BinaryToken(e.bop)] + PrintExpr(e.right) + rest, minPrec) == Climb(e, rest, minPrec)
    decreases ExprSize(e), 0
  {
    ExprRoundTrip(e.right, rest, Level(e) + 1);
    ClimbTail(e, PrintExpr(e.right) + rest, rest, minPrec);
    Assoc([BinaryToken(e.bop)], PrintExpr(e.right), rest);
  }

  /** The climbing loop reads an operator and then its right operand. */
  lemma ClimbTail(e: Expr, body: seq<Token>, rest: seq<Token>, minPrec: nat)
    requires e.Binary? && CanonicalExpr(e) && minPrec <= Level(e)
    requires StopsBelow(rest, Level(e) + 1)
    requires ParseExpr(body, Level(e) + 1) == Ok(Step(e.right, rest))
    ensures Climb(e.left, [BinaryToken(e.bop)] + body, minPrec) == Climb(e, rest, minPrec)
  {
    BinaryOpOfToken(e.bop);
    assert ([BinaryToken(e.bop)] + body)[1..] == body;
  }

  lemma {:induction false} UnaryRoundTrip(u: Expr, rest: seq<Token>)
    requires CanonicalExpr(u) && Level(u) >= UnaryPrec && !PostfixNext(rest)
    ensures ParseUnary(PrintExpr(u) + rest) == Ok(Step(u, rest))
    decreases ExprSize(u), 3
  {
    if u.Unary? {
      var ts := PrintExpr(u) + rest;
      assert ts == [UnaryToken(u.uop)] + (PrintExpr(u.operand) + rest);
      assert UnaryOpOf(ts[0]) == Some(u.uop) by {
        match u.uop
        case Neg =>
        case Not =>
      }
      UnaryRoundTrip(u.operand, rest);
    } else {
      PostfixSpine(u);
      PostfixRoundTrip(u, rest);
    }
  }

  lemma {:induction false} PostfixRoundTrip(p: Expr, rest: seq<Token>)
    requires CanonicalExpr(p) && Level(p) >= FieldPrec && !PostfixNext(rest)
    ensures ParsePostfix(PrintExpr(p) + rest) == Ok(Step(p, rest))
    decreases ExprSize(p), 2
  {
    PostfixSpine(p);
    assert PrintExpr(p) + rest == PrintExpr(Base(p)) + (PostfixTail(p) + rest);
    PrimaryRoundTrip(Base(p), PostfixTail(p) + rest);
    PostfixLoopRoundTrip(p, rest);
  }

  /** The postfix loop, started on the base, rebuilds the chain of calls and
      field accesses. */
  lemma {:induction false} PostfixLoopRoundTrip(p: Expr, rest: seq<Token>)
    requires CanonicalExpr(p) && Level(p) >= FieldPrec && !LeadsWithMinus(p)
    ensures PostfixLoop(Base(p), PostfixTail(p) + rest) == PostfixLoop(p, rest)
    decreases ExprSize(p), 1
  {
    if p.Call? {
      var args := PrintArgs(p.args) + ArgsClose(p.trailingComma) + rest;
      CallLayout(p, rest);
      PostfixLoopRoundTrip(p.callee, [SymTok(LParen)] + args);
      ArgsRoundTrip(p.args, p.trailingComma, rest);
      CallStep(p, args, rest);
    } else if p.FieldAccess? {
      FieldLayout(p, rest);
      PostfixLoopRoundTrip(p.target, [SymTok(Dot), IdentTok(p.field)] + rest);
      FieldStep(p, rest);
    } else {
      assert PostfixTail(p) + rest == rest;
    }
  }

  lemma CallLayout(p: Expr, rest: seq<Token>)
    requires p.Call?
    ensures PostfixTail(p) + rest
      == PostfixTail(p.callee) + ([SymTok(LParen)] + (PrintArgs(p.args) + ArgsClose(p.trailingComma) + rest))
    ensures Base(p) == Base(p.callee)
  {
    var c, a := PostfixTail(p.callee), PrintArgs(p.args);
    assert PostfixTail(p) == c + [SymTok(LParen)] + a + ArgsClose(p.trailingComma);
  }

  lemma FieldLayout(p: Expr, rest: seq<Token>)
    requires p.FieldAccess?
    ensures PostfixTail(p) + rest == PostfixTail(p.target) + ([SymTok(Dot), IdentTok(p.field)] + rest)
    ensures Base(p) == Base(p.target)
  {
    assert PostfixTail(p) == PostfixTail(p.target) + [SymTok(Dot), IdentTok(p.field)];
  }

  /** The postfix loop reads an argument list into a call. */
  lemma CallStep(p: Expr, args: seq<Token>, rest: seq<Token>)
    requires p.Call? && CanonicalExpr(p) && !LeadsWithMinus(p)
    requires ParseArgs(args) == Ok(Step(ArgList(p.args, p.trailingComma), rest))
    ensures PostfixLoop(p.callee, [SymTok(LParen)] + args) == PostfixLoop(p, rest)
  {
    assert ([SymTok(LParen)] + args)[1..] == args;
  }

  /** The postfix loop reads `.` and a name into a field access. */
  lemma FieldStep(p: Expr, rest: seq<Token>)
    requires p.FieldAccess? && CanonicalExpr(p) && !LeadsWithMinus(p)
    ensures PostfixLoop(p.target, [SymTok(Dot), IdentTok(p.field)] + rest) == PostfixLoop(p, rest)
  {
    assert ([SymTok(Dot), IdentTok(p.field)] + rest)[1..] == [IdentTok(p.field)] + rest;
  }

  lemma {:induction false} PrimaryRoundTrip(a: Expr, rest: seq<Token>)
    requires CanonicalExpr(a) && Level(a) == PrimaryLevel
    ensures ParsePrimary(PrintExpr(a) + rest) == Ok(Step(a, rest))
    decreases ExprSize(a), 0
  {
    if a.Closure? {
      var endRest := [KeywordTok(End)] + rest;
      var afterParams := PrintStmts(a.body) + endRest;
      ClosureLayout(a, rest);
      ParamsRoundTrip(a.params, afterParams);
      StmtsRoundTrip(a.body, endRest);
      ClosureTail(a, PrintParams(a.params) + afterParams, afterParams, rest);
    }
  }

  lemma ClosureLayout(a: Expr, rest: seq<Token>)
    requires a.Closure?
    ensures PrintExpr(a) + rest
      == [KeywordTok(Func)] + (PrintParams(a.params) + (PrintStmts(a.body) + ([KeywordTok(End)] + rest)))
  {
  }

  /** After `функ`, a closure's parameters, body and `конец`. */
  lemma ClosureTail(a: Expr, params: seq<Token>, afterParams: seq<Token>, rest: seq<Token>)
    requires a.Closure? && CanonicalExpr(a)
    requires ParseParams(params) == Ok(Step(a.params, afterParams))
    requires ParseStmts(afterParams) == Ok(Step(a.body, [KeywordTok(End)] + rest))
    ensures ParsePrimary([KeywordTok(Func)] + params) == Ok(Step(a, rest))
  {
    assert ([KeywordTok(Func)] + params)[1..] == params;
  }

  /** The text of the arguments after the first one. */
  function ArgsAfterFirst(more: seq<Expr>): seq<Token> {
    if |more| == 0 then [] else [SymTok(Comma)] + PrintArgs(more)
  }

  lemma ArgsSplit(args: seq<Expr>)
    requires |args| > 0
    ensures PrintArgs(args) == PrintExpr(args[0]) + ArgsAfterFirst(args[1..])
  {
    if |args| == 1 {
      assert ArgsAfterFirst(args[1..]) == [];
    } else {
      assert ArgsAfterFirst(args[1..]) == [SymTok(Comma)] + PrintArgs(args[1..]);
      Assoc(PrintExpr(args[0]), [SymTok(Comma)], PrintArgs(args[1..]));
    }
  }

  lemma CanonicalExprsAppend(a: seq<Expr>, b: seq<Expr>)
    requires CanonicalExprs(a) && CanonicalExprs(b)
    ensures CanonicalExprs(a + b)
  {
    forall i | 0 <= i < |a + b|
      ensures CanonicalExpr((a + b)[i])
    {
      if i < |a| {
        assert (a + b)[i] == a[i];
      } else {
        assert (a + b)[i] == b[i - |a|];
      }
    }
  }

  lemma {:induction false} ArgsRoundTrip(args: seq<Expr>, trailingComma: bool, rest: seq<Token>)
    requires CanonicalExprs(args)
    ensures ParseArgs(PrintArgs(args) + ArgsClose(trailingComma) + rest) == Ok(Step(ArgList(args, trailingComma), rest))
    decreases ExprsSize(args), 7
  {
    var close := ArgsClose(trailingComma);
    if |args| > 0 {
      ArgsReadAll(args, close + rest);
      Assoc(PrintArgs(args), close, rest);
      ArgsTailClose(args, trailingComma, rest);
    } else {
      assert PrintArgs(args) + close + rest == close + rest;
      assert (close + rest)[1..] == (if trailingComma then [SymTok(RParen)] + rest else rest);
    }
  }

  /** The argument loop stops at `)`, or at `,` followed by `)`. */
  lemma ArgsTailClose(acc: seq<Expr>, trailingComma: bool, rest: seq<Token>)
    requires CanonicalExprs(acc)
    ensures ArgsTail(acc, ArgsClose(trailingComma) + rest) == Ok(Step(ArgList(acc, trailingComma), rest))
  {
    var ts := ArgsClose(trailingComma) + rest;
    if trailingComma {
      assert ts[1..] == [SymTok(RParen)] + rest && ts[2..] == rest;
    } else {
      assert ts[1..] == rest;
    }
  }

  /** A nonempty argument list is read in full, leaving the argument loop
      at whatever follows it. */
  lemma {:induction false} ArgsReadAll(args: seq<Expr>, k: seq<Token>)
    requires |args| > 0 && CanonicalExprs(args)
    requires StopsBelow(k, OrPrec)
    ensures ParseArgs(PrintArgs(args) + k) == ArgsTail(args, k)
    decreases ExprsSize(args), 6
  {
    var after := ArgsAfterFirst(args[1..]) + k;
    ArgsLayout(args, k);
    ExprRoundTrip(args[0], after, OrPrec);
    ArgsTailRoundTrip([args[0]], args[1..], k);
    ArgsFirstStep(args[0], PrintArgs(args) + k, after);
    ConsFirst(args);
  }

  lemma ArgsLayout(args: seq<Expr>, k: seq<Token>)
    requires |args| > 0 && CanonicalExprs(args)
    requires StopsBelow(k, OrPrec)
    ensures PrintArgs(args) + k == PrintExpr(args[0]) + (ArgsAfterFirst(args[1..]) + k)
    ensures StopsBelow(ArgsAfterFirst(args[1..]) + k, OrPrec)
    ensures CanonicalExpr(args[0]) && CanonicalExprs(args[1..]) && ExprSize(args[0]) <= ExprsSize(args)
    ensures ExprsSize(args[1..]) < ExprsSize(args)
  {
    ArgsSplit(args);
    Assoc(PrintExpr(args[0]), ArgsAfterFirst(args[1..]), k);
    ArgsAfterStops(args[1..], k);
    ExprsSizeStep(args);
    assert CanonicalExpr(args[0]);
  }

  lemma ArgsAfterStops(more: seq<Expr>, k: seq<Token>)
    requires StopsBelow(k, OrPrec)
    ensures StopsBelow(ArgsAfterFirst(more) + k, OrPrec)
  {
    if |more| == 0 {
      assert ArgsAfterFirst(more) + k == k;
    } else {
      assert (ArgsAfterFirst(more) + k)[0] == SymTok(Comma);
    }
  }

  lemma ExprsSizeStep(es: seq<Expr>)
    requires |es| > 0
    ensures ExprSize(es[0]) <= ExprsSize(es) && ExprsSize(es[1..]) < ExprsSize(es)
  {
    assert ExprsSize(es) == ExprSize(es[0]) + ExprsSize(es[1..]);
    assert ExprSize(es[0]) >= 1;
  }

  /** The argument list reads its first argument and continues with the rest. */
  lemma ArgsFirstStep(x: Expr, ts: seq<Token>, after: seq<Token>)
    requires CanonicalExpr(x)
    requires ParseExpr(ts, OrPrec) == Ok(Step(x, after))
    requires |ts| > 0 && ts[0] == PrintExpr(x)[0]
    ensures ParseArgs(ts) == ArgsTail([x], after)
  {
    ExprFirst(x);
  }

  /** The argument loop reads the arguments after the first one, each behind
      its `,`, and stops at whatever follows them. */
  lemma {:induction false} ArgsTailRoundTrip(acc: seq<Expr>, more: seq<Expr>, k: seq<Token>)
    requires CanonicalExprs(acc) && CanonicalExprs(more)
    requires StopsBelow(k, OrPrec)
    ensures CanonicalExprs(acc + more)
    ensures ArgsTail(acc, ArgsAfterFirst(more) + k) == ArgsTail(acc + more, k)
    decreases ExprsSize(more), 6
  {
    CanonicalExprsAppend(acc, more);
    if |more| == 0 {
      assert ArgsAfterFirst(more) + k == k;
      assert acc + more == acc;
    } else {
      var x := more[0];
      var after := ArgsAfterFirst(more[1..]) + k;
      ArgsTailUnfold(more, k);
      assert CanonicalExpr(x);
      ExprRoundTrip(x, after, OrPrec);
      ArgsBodyStart(x, after);
      ArgsTailStep(acc, x, PrintExpr(x) + after, after);
      Assoc([SymTok(Comma)], PrintExpr(x), after);
      CanonicalExprsAppend(acc, [x]);
      ArgsTailRoundTrip(acc + [x], more[1..], k);
      AppendFirst(acc, more);
    }
  }

  lemma ArgsTailUnfold(more: seq<Expr>, k: seq<Token>)
    requires |more| > 0
    requires StopsBelow(k, OrPrec)
    ensures ArgsAfterFirst(more) + k == [SymTok(Comma)] + PrintExpr(more[0]) + (ArgsAfterFirst(more[1..]) + k)
    ensures StopsBelow(ArgsAfterFirst(more[1..]) + k, OrPrec)
    ensures ExprSize(more[0]) <= ExprsSize(more) && ExprsSize(more[1..]) < ExprsSize(more)
  {
    var c, p, b := [SymTok(Comma)], PrintExpr(more[0]), ArgsAfterFirst(more[1..]);
    ArgsSplit(more);
    assert ArgsAfterFirst(more) == c + (p + b);
    Assoc(c, p + b, k);
    Assoc(p, b, k);
    Assoc(c, p, b + k);
    ArgsAfterStops(more[1..], k);
    ExprsSizeStep(more);
  }

  /** One round of the argument loop takes `,` and an argument. */
  lemma ArgsTailStep(acc: seq<Expr>, x: Expr, body: seq<Token>, after: seq<Token>)
    requires CanonicalExprs(acc)
    requires |body| > 0 && body[0] != SymTok(RParen)
    requires ParseExpr(body, OrPrec) == Ok(Step(x, after))
    ensures ArgsTail(acc, [SymTok(Comma)] + body) == ArgsTail(acc + [x], after)
  {
    var ts := [SymTok(Comma)] + body;
    assert ts[1..] == body;
  }

  /** An argument's text cannot begin with the closing parenthesis. */
  lemma ArgsBodyStart(x: Expr, after: seq<Token>)
    ensures |PrintExpr(x) + after| > 0 && (PrintExpr(x) + after)[0] != SymTok(RParen)
  {
    ExprFirst(x);
  }

  // Statements.

  /** A block is read back whole when it is followed by `конец`, `иначе`
      or the end of input. */
  lemma {:induction false} StmtsRoundTrip(ss: seq<Stmt>, rest: seq<Token>)
    requires CanonicalStmts(ss) && AtBlockEnd(rest)
    ensures ParseStmts(PrintStmts(ss) + rest) == Ok(Step(ss, rest))
    decreases StmtsSize(ss), 9
  {
    if |ss| == 0 {
      assert PrintStmts(ss) + rest == rest;
    } else {
      var after := PrintStmts(ss[1..]) + rest;
      StmtsLayout(ss, rest);
      StmtRoundTrip(ss[0], after);
      StmtsRoundTrip(ss[1..], rest);
      StmtsStep(ss[0], PrintStmts(ss) + rest, after, ss[1..], rest);
      ConsFirst(ss);
    }
  }

  lemma StmtsLayout(ss: seq<Stmt>, rest: seq<Token>)
    requires |ss| > 0 && CanonicalStmts(ss)
    ensures PrintStmts(ss) + rest == PrintStmt(ss[0]) + (PrintStmts(ss[1..]) + rest)
    ensures !AtBlockEnd(PrintStmts(ss) + rest)
    ensures CanonicalStmt(ss[0]) && CanonicalStmts(ss[1..])
    ensures StmtSize(ss[0]) <= StmtsSize(ss) && StmtsSize(ss[1..]) < StmtsSize(ss)
  {
    var a, b := PrintStmt(ss[0]), PrintStmts(ss[1..]);
    assert PrintStmts(ss) == a + b;
    Assoc(a, b, rest);
    StmtStart(ss[0]);
    StmtsSizeStep(ss);
    assert CanonicalStmt(ss[0]);
  }

  lemma StmtsSizeStep(ss: seq<Stmt>)
    requires |ss| > 0
    ensures StmtSize(ss[0]) <= StmtsSize(ss) && StmtsSize(ss[1..]) < StmtsSize(ss)
  {
    assert StmtsSize(ss) == StmtSize(ss[0]) + StmtsSize(ss[1..]);
    assert StmtSize(ss[0]) >= 1;
  }

  /** A block reads one statement and continues with the rest. */
  lemma StmtsStep(s: Stmt, ts: seq<Token>, after: seq<Token>, more: seq<Stmt>, rest: seq<Token>)
    requires !AtBlockEnd(ts)
    requires ParseStmt(ts) == Ok(Step(s, after))
    requires ParseStmts(after) == Ok(Step(more, rest))
    ensures ParseStmts(ts) == Ok(Step([s] + more, rest))
  {
  }

  lemma {:induction false} StmtRoundTrip(s: Stmt, rest: seq<Token>)
    requires CanonicalStmt(s)
    ensures ParseStmt(PrintStmt(s) + rest) == Ok(Step(s, rest))
    decreases StmtSize(s), 8
  {
    match s
    case VarStmt(_, _) => VarRoundTrip(s, rest);
    case ReturnStmt(_) => ReturnRoundTrip(s, rest);
    case FunctionDecl(f) =>
      assert PrintStmt(s) + rest == PrintFunction(f) + rest;
      FunctionRoundTrip(f, rest);
    case AssignStmt(_, _) => AssignRoundTrip(s, rest);
    case IfStmt(_, _, _) => IfRoundTrip(s, rest);
    case WhileStmt(_, _) => WhileRoundTrip(s, rest);
    case ExprStmt(_) => ExprStmtRoundTrip(s, rest);
    case ClassDecl(_, _, _, _) => ClassRoundTrip(s, rest);
  }

  lemma {:induction false} VarRoundTrip(s: Stmt, rest: seq<Token>)
    requires s.VarStmt? && CanonicalStmt(s)
    ensures ParseStmt(PrintStmt(s) + rest) == Ok(Step(s, rest))
    decreases StmtSize(s), 7
  {
    var after := [SymTok(Semicolon)] + rest;
    var init := PrintExpr(s.init) + after;
    var body := [IdentTok(s.name), SymTok(Assign)] + init;
    SimpleLayout([KeywordTok(Var), IdentTok(s.name), SymTok(Assign)], PrintExpr(s.init), rest);
    assert [KeywordTok(Var), IdentTok(s.name), SymTok(Assign)] == [KeywordTok(Var)] + [IdentTok(s.name), SymTok(Assign)];
    Assoc([KeywordTok(Var)], [IdentTok(s.name), SymTok(Assign)], init);
    KeywordDispatch(PrintStmt(s) + rest, [KeywordTok(Var)], body);
    ExprRoundTrip(s.init, after, OrPrec);
    VarTail(s, init, rest);
  }

  /** A statement of the form head, expression, `;` followed by `rest`. */
  lemma SimpleLayout(head: seq<Token>, e: seq<Token>, rest: seq<Token>)
    ensures head + e + [SymTok(Semicolon)] + rest == head + (e + ([SymTok(Semicolon)] + rest))
  {
    Assoc(head + e, [SymTok(Semicolon)], rest);
    Assoc(head, e, [SymTok(Semicolon)] + rest);
  }

  /** After `пер`: the name, `=`, the initializer and `;`. */
  lemma VarTail(s: Stmt, init: seq<Token>, rest: seq<Token>)
    requires s.VarStmt?
    requires ParseExpr(init, OrPrec) == Ok(Step(s.init, [SymTok(Semicolon)] + rest))
    ensures ParseVar([IdentTok(s.name), SymTok(Assign)] + init) == Ok(Step(s, rest))
  {
    var ts := [IdentTok(s.name), SymTok(Assign)] + init;
    assert ts[1..] == [SymTok(Assign)] + init;
    assert ts[1..][1..] == init;
    assert ([SymTok(Semicolon)] + rest)[1..] == rest;
  }

  lemma {:induction false} ReturnRoundTrip(s: Stmt, rest: seq<Token>)
    requires s.ReturnStmt? && CanonicalStmt(s)
    ensures ParseStmt(PrintStmt(s) + rest) == Ok(Step(s, rest))
    decreases StmtSize(s), 7
  {
    var after := [SymTok(Semicolon)] + rest;
    var body := (if s.result.Some? then PrintExpr(s.result.value) else []) + after;
    assert PrintStmt(s) + rest == [KeywordTok(Return)] + body;
    KeywordDispatch(PrintStmt(s) + rest, [KeywordTok(Return)], body);
    if s.result.Some? {
      ExprFirst(s.result.value);
      ExprRoundTrip(s.result.value, after, OrPrec);
    } else {
      assert body == after;
    }
    ReturnTail(s, body, rest);
  }

  /** After `возврат`, the optional value and `;`. */
  lemma ReturnTail(s: Stmt, body: seq<Token>, rest: seq<Token>)
    requires s.ReturnStmt? && CanonicalStmt(s)
    requires s.result.None? ==> body == [SymTok(Semicolon)] + rest
    requires s.result.Some? ==>
      && |body| > 0 && body[0] != SymTok(Semicolon)
      && ParseExpr(body, OrPrec) == Ok(Step(s.result.value, [SymTok(Semicolon)] + rest))
    ensures ParseReturn(body) == Ok(Step(s, rest))
  {
  }

  /** A statement that begins with a keyword is parsed by that keyword's rule. */
  lemma KeywordDispatch(ts: seq<Token>, head: seq<Token>, body: seq<Token>)
    requires |head| == 1 && ts == head + body
    ensures ts[1..] == body
    ensures head[0] == KeywordTok(Var) ==> ParseStmt(ts) == ParseVar(body)
    ensures head[0] == KeywordTok(Return) ==> ParseStmt(ts) == ParseReturn(body)
    ensures head[0] == KeywordTok(If) ==> ParseStmt(ts) == ParseIf(body)
    ensures head[0] == KeywordTok(While) ==> ParseStmt(ts) == ParseWhile(body)
    ensures head[0] == KeywordTok(Class) ==> ParseStmt(ts) == ParseClass(body)
  {
  }

  lemma {:induction false} AssignRoundTrip(s: Stmt, rest: seq<Token>)
    requires s.AssignStmt? && CanonicalStmt(s)
    ensures ParseStmt(PrintStmt(s) + rest) == Ok(Step(s, rest))
    decreases StmtSize(s), 7
  {
    var after := [SymTok(Semicolon)] + rest;
    var value := PrintExpr(s.rhs) + after;
    SimpleLayout([IdentTok(s.target), SymTok(Assign)], PrintExpr(s.rhs), rest);
    ExprRoundTrip(s.rhs, after, OrPrec);
    AssignTail(s, value, rest);
  }

  /** An identifier followed by `=` is read as an assignment. */
  lemma AssignTail(s: Stmt, value: seq<Token>, rest: seq<Token>)
    requires s.AssignStmt?
    requires ParseExpr(value, OrPrec) == Ok(Step(s.rhs, [SymTok(Semicolon)] + rest))
    ensures ParseStmt([IdentTok(s.target), SymTok(Assign)] + value) == Ok(Step(s, rest))
  {
    var ts := [IdentTok(s.target), SymTok(Assign)] + value;
    assert ts[1..] == [SymTok(Assign)] + value;
    assert ts[1..][1..] == value;
    assert ([SymTok(Semicolon)] + rest)[1..] == rest;
  }

  lemma {:induction false} ExprStmtRoundTrip(s: Stmt, rest: seq<Token>)
    requires s.ExprStmt? && CanonicalStmt(s)
    ensures ParseStmt(PrintStmt(s) + rest) == Ok(Step(s, rest))
    decreases StmtSize(s), 7
  {
    var after := [SymTok(Semicolon)] + rest;
    var ts := PrintStmt(s) + rest;
    var p := PrintExpr(s.expr);
    assert ts == p + after;
    ExprFirst(s.expr);
    IdentifierNotAssigned(s.expr);
    ClosureOpensParams(s.expr);
    SecondOfConcat(p, after);
    ExprStmtDispatch(ts);
    ExprRoundTrip(s.expr, after, OrPrec);
  }

  /** A statement that begins like an expression, and is neither an
      assignment nor a function declaration, is an expression statement. */
  lemma ExprStmtDispatch(ts: seq<Token>)
    requires |ts| > 1 && StartsExpression(ts[0])
    requires ts[0] == KeywordTok(Func) ==> ts[1] == SymTok(LParen)
    requires ts[0].IdentTok? ==> ts[1] != SymTok(Assign)
    ensures ParseStmt(ts) == ParseExprStmt(ts)
  {
  }

  lemma {:induction false} IfRoundTrip(s: Stmt, rest: seq<Token>)
    requires s.IfStmt? && CanonicalStmt(s)
    ensures ParseStmt(PrintStmt(s) + rest) == Ok(Step(s, rest))
    decreases StmtSize(s), 7
  {
    var endRest := [KeywordTok(End)] + rest;
    var afterBody := PrintElse(s.elseBody) + endRest;
    var afterCond := PrintStmts(s.thenBody) + afterBody;
    var ts := PrintStmt(s) + rest;
    IfLayout(s, rest);
    KeywordDispatch(ts, [KeywordTok(If)], PrintExpr(s.cond) + afterCond);
    BodyAfterConditionStops(s.thenBody, afterBody);
    ExprRoundTrip(s.cond, afterCond, OrPrec);
    StmtsRoundTrip(s.thenBody, afterBody);
    if s.elseBody.WithElse? {
      assert StmtsSize(s.elseBody.stmts) == ElseSize(s.elseBody);
      StmtsRoundTrip(s.elseBody.stmts, endRest);
    }
    IfTail(s, rest);
  }

  lemma IfLayout(s: Stmt, rest: seq<Token>)
    requires s.IfStmt?
    ensures PrintStmt(s) + rest
      == [KeywordTok(If)] + (PrintExpr(s.cond) + (PrintStmts(s.thenBody) + (PrintElse(s.elseBody) + ([KeywordTok(End)] + rest))))
    ensures s.elseBody.WithElse? ==>
      PrintElse(s.elseBody) + ([KeywordTok(End)] + rest) == [KeywordTok(Else)] + (PrintStmts(s.elseBody.stmts) + ([KeywordTok(End)] + rest))
    ensures s.elseBody.NoElse? ==> PrintElse(s.elseBody) + ([KeywordTok(End)] + rest) == [KeywordTok(End)] + rest
  {
  }

  /** After the condition and the first body, the optional `иначе` body and `конец`. */
  lemma IfTail(s: Stmt, rest: seq<Token>)
    requires s.IfStmt? && CanonicalStmt(s)
    requires var afterBody := PrintElse(s.elseBody) + ([KeywordTok(End)] + rest);
      && ParseExpr(PrintExpr(s.cond) + (PrintStmts(s.thenBody) + afterBody), OrPrec)
         == Ok(Step(s.cond, PrintStmts(s.thenBody) + afterBody))
      && ParseStmts(PrintStmts(s.thenBody) + afterBody) == Ok(Step(s.thenBody, afterBody))
    requires s.elseBody.WithElse? ==>
      ParseStmts(PrintStmts(s.elseBody.stmts) + ([KeywordTok(End)] + rest))
      == Ok(Step(s.elseBody.stmts, [KeywordTok(End)] + rest))
    ensures ParseIf(PrintExpr(s.cond) + (PrintStmts(s.thenBody) + (PrintElse(s.elseBody) + ([KeywordTok(End)] + rest))))
      == Ok(Step(s, rest))
  {
    IfLayout(s, rest);
  }

  lemma {:induction false} WhileRoundTrip(s: Stmt, rest: seq<Token>)
    requires s.WhileStmt? && CanonicalStmt(s)
    ensures ParseStmt(PrintStmt(s) + rest) == Ok(Step(s, rest))
    decreases StmtSize(s), 7
  {
    var endRest := [KeywordTok(End)] + rest;
    var afterCond := PrintStmts(s.body) + endRest;
    var body := PrintExpr(s.cond) + afterCond;
    WhileLayout(s, rest);
    KeywordDispatch(PrintStmt(s) + rest, [KeywordTok(While)], body);
    BodyAfterConditionStops(s.body, endRest);
    ExprRoundTrip(s.cond, afterCond, OrPrec);
    StmtsRoundTrip(s.body, endRest);
    WhileTail(s, body, afterCond, rest);
  }

  lemma WhileLayout(s: Stmt, rest: seq<Token>)
    requires s.WhileStmt?
    ensures PrintStmt(s) + rest
      == [KeywordTok(While)] + (PrintExpr(s.cond) + (PrintStmts(s.body) + ([KeywordTok(End)] + rest)))
  {
  }

  /** After `пока`, the condition, the body and `конец`. */
  lemma WhileTail(s: Stmt, body: seq<Token>, afterCond: seq<Token>, rest: seq<Token>)
    requires s.WhileStmt? && CanonicalStmt(s)
    requires ParseExpr(body, OrPrec) == Ok(Step(s.cond, afterCond))
    requires ParseStmts(afterCond) == Ok(Step(s.body, [KeywordTok(End)] + rest))
    ensures ParseWhile(body) == Ok(Step(s, rest))
  {
  }

  lemma {:induction false} FunctionRoundTrip(f: Function, rest: seq<Token>)
    requires CanonicalFunction(f)
    ensures ParseFunction(PrintFunction(f) + rest) == Ok(Step(f, rest))
    decreases FunctionSize(f), 7
  {
    var endRest := [KeywordTok(End)] + rest;
    var afterParams := PrintStmts(f.body) + endRest;
    FunctionLayout(f, rest);
    ParamsRoundTrip(f.params, afterParams);
    StmtsRoundTrip(f.body, endRest);
    FunctionTail(f, PrintParams(f.params) + afterParams, afterParams, rest);
  }

  lemma FunctionLayout(f: Function, rest: seq<Token>)
    ensures PrintFunction(f) + rest
      == [KeywordTok(Func), IdentTok(f.name)] + (PrintParams(f.params) + (PrintStmts(f.body) + ([KeywordTok(End)] + rest)))
  {
    var h := [KeywordTok(Func), IdentTok(f.name)];
    var p := PrintParams(f.params);
    var b := PrintStmts(f.body);
    var e := [KeywordTok(End)];
    Assoc(h + p + b, e, rest);
    Assoc(h + p, b, e + rest);
    Assoc(h, p, b + (e + rest));
  }

  /** After `функ` and the name: the parameters, the body and `конец`. */
  lemma FunctionTail(f: Function, afterName: seq<Token>, afterParams: seq<Token>, rest: seq<Token>)
    requires ParseParams(afterName) == Ok(Step(f.params, afterParams))
    requires ParseStmts(afterParams) == Ok(Step(f.body, [KeywordTok(End)] + rest))
    ensures ParseFunction([KeywordTok(Func), IdentTok(f.name)] + afterName) == Ok(Step(f, rest))
  {
    var ts := [KeywordTok(Func), IdentTok(f.name)] + afterName;
    assert ts[1..] == [IdentTok(f.name)] + afterName;
    assert ts[1..][1..] == afterName;
  }

  lemma {:induction false} ClassRoundTrip(s: Stmt, rest: seq<Token>)
    requires s.ClassDecl? && CanonicalStmt(s)
    ensures ParseStmt(PrintStmt(s) + rest) == Ok(Step(s, rest))
    decreases StmtSize(s), 7
  {
    var endRest := [KeywordTok(End)] + rest;
    var afterIface := PrintMembers(s.members) + endRest;
    var afterSup := PrintClause(Implements, s.iface) + afterIface;
    var body := [IdentTok(s.name)] + (PrintClause(Extends, s.superclass) + afterSup);
    ClassLayout(s, rest);
    KeywordDispatch(PrintStmt(s) + rest, [KeywordTok(Class)], body);
    MembersStart(s.members, endRest);
    ClauseRoundTrip(Implements, s.iface, afterIface);
    ClauseRoundTrip(Extends, s.superclass, afterSup);
    MembersRoundTrip(s.members, endRest);
    ClassTail(s, PrintClause(Extends, s.superclass) + afterSup, afterSup, afterIface, rest);
  }

  lemma ClassLayout(s: Stmt, rest: seq<Token>)
    requires s.ClassDecl?
    ensures PrintStmt(s) + rest
      == [KeywordTok(Class)] + ([IdentTok(s.name)] + (PrintClause(Extends, s.superclass)
         + (PrintClause(Implements, s.iface) + (PrintMembers(s.members) + ([KeywordTok(End)] + rest)))))
  {
  }

  /** After the class name, the two optional clauses, the members and `конец`. */
  lemma ClassTail(s: Stmt, clauses: seq<Token>, afterSup: seq<Token>, afterIface: seq<Token>, rest: seq<Token>)
    requires s.ClassDecl?
    requires ParseClause(clauses, Extends) == Ok(Step(s.superclass, afterSup))
    requires ParseClause(afterSup, Implements) == Ok(Step(s.iface, afterIface))
    requires ParseMembers(afterIface) == Ok(Step(s.members, [KeywordTok(End)] + rest))
    ensures ParseClass([IdentTok(s.name)] + clauses) == Ok(Step(s, rest))
  {
    assert ([IdentTok(s.name)] + clauses)[1..] == clauses;
  }

  /** An optional `наследует`/`реализует` clause is read back when the next
      token is not the same keyword again. */
  lemma ClauseRoundTrip(k: Keyword, name: Option<string>, rest: seq<Token>)
    requires !NextIs(rest, KeywordTok(k))
    ensures ParseClause(PrintClause(k, name) + rest, k) == Ok(Step(name, rest))
    ensures name.Some? ==> NextIs(PrintClause(k, name) + rest, KeywordTok(k))
    ensures name.None? ==> PrintClause(k, name) + rest == rest
  {
    if name.Some? {
      var ts := PrintClause(k, name) + rest;
      assert ts == [KeywordTok(k), IdentTok(name.value)] + rest;
      assert ts[1..] == [IdentTok(name.value)] + rest;
    } else {
      assert PrintClause(k, name) + rest == rest;
    }
  }

  /** The text of a member list begins with an identifier, `функ`, or
      whatever follows it. */
  lemma MembersStart(ms: seq<Member>, rest: seq<Token>)
    requires NextIs(rest, KeywordTok(End))
    ensures var ts := PrintMembers(ms) + rest;
      |ts| > 0 && (ts[0].IdentTok? || ts[0] == KeywordTok(Func) || ts[0] == KeywordTok(End))
  {
    if |ms| > 0 {
      assert PrintMembers(ms) + rest == PrintMember(ms[0]) + (PrintMembers(ms[1..]) + rest);
    }
  }

  lemma {:induction false} MembersRoundTrip(ms: seq<Member>, rest: seq<Token>)
    requires CanonicalMembers(ms)
    requires !(|rest| > 0 && rest[0].IdentTok?) && !NextIs(rest, KeywordTok(Func))
    ensures ParseMembers(PrintMembers(ms) + rest) == Ok(Step(ms, rest))
    decreases MembersSize(ms), 8
  {
    if |ms| == 0 {
      assert PrintMembers(ms) + rest == rest;
    } else {
      var after := PrintMembers(ms[1..]) + rest;
      MembersLayout(ms, rest);
      MembersRoundTrip(ms[1..], rest);
      if ms[0].Method? {
        FunctionRoundTrip(ms[0].fn, after);
      }
      MemberStep(ms[0], after, ms[1..], rest);
      ConsFirst(ms);
    }
  }

  lemma MembersLayout(ms: seq<Member>, rest: seq<Token>)
    requires |ms| > 0 && CanonicalMembers(ms)
    ensures PrintMembers(ms) + rest == PrintMember(ms[0]) + (PrintMembers(ms[1..]) + rest)
    ensures CanonicalMember(ms[0]) && CanonicalMembers(ms[1..])
    ensures MembersSize(ms[1..]) < MembersSize(ms)
    ensures ms[0].Method? ==> FunctionSize(ms[0].fn) <= MembersSize(ms)
  {
    MembersSizeStep(ms);
    assert CanonicalMember(ms[0]);
  }

  lemma MembersSizeStep(ms: seq<Member>)
    requires |ms| > 0
    ensures MembersSize(ms[1..]) < MembersSize(ms)
    ensures ms[0].Method? ==> FunctionSize(ms[0].fn) <= MembersSize(ms)
  {
    assert MembersSize(ms) == MemberSize(ms[0]) + MembersSize(ms[1..]);
    match ms[0]
    case Method(f) => assert MemberSize(ms[0]) == FunctionSize(f);
    case FieldMember(_) =>
  }

  lemma ConsFirst<T>(s: seq<T>)
    requires |s| > 0
    ensures [s[0]] + s[1..] == s
  {
  }

  /** One round of the member loop takes a field name or a method. */
  lemma MemberStep(m: Member, after: seq<Token>, more: seq<Member>, rest: seq<Token>)
    requires m.Method? ==> ParseFunction(PrintFunction(m.fn) + after) == Ok(Step(m.fn, after))
    requires ParseMembers(after) == Ok(Step(more, rest))
    ensures ParseMembers(PrintMember(m) + after) == Ok(Step([m] + more, rest))
  {
    if m.FieldMember? {
      var ts := PrintMember(m) + after;
      assert ts == [IdentTok(m.name)] + after;
      assert ts[1..] == after;
    } else {
      assert PrintMember(m) + after == PrintFunction(m.fn) + after;
    }
  }
}
