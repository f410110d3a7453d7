/** The other direction of the round trip: whatever a parse function
    accepts is exactly the text of the tree it returns, followed by the
    tokens it leaves. Nothing is skipped, inserted or reordered, so every
    keyword, separator and closing token the grammar demands was present.
    The lemmas follow the parser's own mutual recursion and measure. */
module Soundness {
  import opened Wrappers
  import opened Tokens
  import opened Ast
  import opened Precedence
  import opened Lists
  import opened Printer
  import opened Parser
  import opened Spines

  // ---------------------------------------------------------------------
  // Lists

  /** Appending one item to a separated list appends the separator and the item. */
  lemma {:induction false} SepBy1Snoc<T>(sep: T, items: seq<seq<T>>, x: seq<T>)
    requires |items| > 0
    ensures SepBy1(sep, items + [x]) == SepBy1(sep, items) + [sep] + x
    decreases |items|
  {
    var all := items + [x];
    if |items| == 1 {
      assert all[1..] == [x];
    } else {
      assert all[1..] == items[1..] + [x];
      SepBy1Snoc(sep, items[1..], x);
      Assoc(items[0] + [sep], SepBy1(sep, items[1..]) + [sep], x);
      Assoc(items[0] + [sep], SepBy1(sep, items[1..]), [sep]);
    }
  }

  lemma NamesSnoc(ps: seq<string>, n: string)
    requires |ps| > 0
    ensures SepBy(SymTok(Comma), NameItems(ps + [n]))
      == SepBy(SymTok(Comma), NameItems(ps)) + [SymTok(Comma), IdentTok(n)]
  {
    assert NameItems(ps + [n]) == NameItems(ps) + [[IdentTok(n)]];
    SepBy1Snoc(SymTok(Comma), NameItems(ps), [IdentTok(n)]);
    Assoc(SepBy(SymTok(Comma), NameItems(ps)), [SymTok(Comma)], [IdentTok(n)]);
  }

  lemma {:induction false} ArgsSnoc(acc: seq<Expr>, x: Expr)
    requires |acc| > 0
    ensures PrintArgs(acc + [x]) == PrintArgs(acc) + [SymTok(Comma)] + PrintExpr(x)
    decreases |acc|
  {
    var all := acc + [x];
    if |acc| == 1 {
      assert all[0] == acc[0] && all[1..] == [x];
    } else {
      assert all[0] == acc[0] && all[1..] == acc[1..] + [x];
      ArgsSnoc(acc[1..], x);
      var h := PrintExpr(acc[0]) + [SymTok(Comma)];
      Assoc(h, PrintArgs(acc[1..]) + [SymTok(Comma)], PrintExpr(x));
      Assoc(h, PrintArgs(acc[1..]), [SymTok(Comma)]);
    }
  }

  // ---------------------------------------------------------------------
  // Parameter lists

  lemma ParamsSound(ts: seq<Token>)
    ensures var r := ParseParams(ts);
      r.Ok? ==> ts == PrintParams(r.value.value) + r.value.rest
  {
    var r := ParseParams(ts);
    if r.Ok? {
      var afterOpen := ts[1..];
      assert ts == [SymTok(LParen)] + afterOpen;
      if NextIs(afterOpen, SymTok(RParen)) {
        assert PrintParams([]) == [SymTok(LParen), SymTok(RParen)];
        assert afterOpen == [SymTok(RParen)] + afterOpen[1..];
      } else {
        var first := ParseName(afterOpen).value;
        ParamsTailSound([first.value], first.rest);
        assert SepBy(SymTok(Comma), NameItems([first.value])) == [IdentTok(first.value)];
        assert afterOpen == [IdentTok(first.value)] + first.rest;
        Assoc([SymTok(LParen)], [IdentTok(first.value)], first.rest);
      }
    }
  }

  /** The loop over `, identifier` continues a list that already holds `acc`. */
  lemma {:induction false} ParamsTailSound(acc: seq<string>, ts: seq<Token>)
    requires |acc| > 0
    ensures var r := ParamsTail(acc, ts);
      r.Ok? ==>
        [SymTok(LParen)] + SepBy(SymTok(Comma), NameItems(acc)) + ts == PrintParams(r.value.value) + r.value.rest
    decreases |ts|
  {
    var r := ParamsTail(acc, ts);
    var open := [SymTok(LParen)] + SepBy(SymTok(Comma), NameItems(acc));
    if r.Ok? {
      if NextIs(ts, SymTok(Comma)) {
        var next := ParseName(ts[1..]).value;
        ParamsTailSound(acc + [next.value], next.rest);
        NamesSnoc(acc, next.value);
        assert ts == [SymTok(Comma), IdentTok(next.value)] + next.rest;
        Assoc(open, [SymTok(Comma), IdentTok(next.value)], next.rest);
      } else {
        assert ts == [SymTok(RParen)] + r.value.rest;
        Assoc(open, [SymTok(RParen)], r.value.rest);
      }
    }
  }

  // ---------------------------------------------------------------------
  // Layout: how the pieces a parse function reads make up the text of the
  // tree it builds

  /** A token and what follows it. */
  lemma Prefixed(t: Token, ts: seq<Token>, b: seq<Token>, after: seq<Token>)
    requires NextIs(ts, t) && ts[1..] == b + after
    ensures ts == [t] + b + after
  {
    assert ts == [t] + ts[1..];
  }

  /** Text already read, then a token and what follows it. */
  lemma Infix(a: seq<Token>, t: Token, ts: seq<Token>, b: seq<Token>, after: seq<Token>)
    requires NextIs(ts, t) && ts[1..] == b + after
    ensures a + ts == a + [t] + b + after
  {
    Prefixed(t, ts, b, after);
    assert a + ([t] + b + after) == a + [t] + b + after;
  }

  lemma BinaryText(l: Expr, op: BinaryOp, r: Expr, ts: seq<Token>, after: seq<Token>)
    requires NextIs(ts, BinaryToken(op)) && ts[1..] == PrintExpr(r) + after
    ensures PrintExpr(l) + ts == PrintExpr(Binary(l, op, r)) + after
  {
    Infix(PrintExpr(l), BinaryToken(op), ts, PrintExpr(r), after);
  }

  lemma UnaryText(op: UnaryOp, x: Expr, ts: seq<Token>, after: seq<Token>)
    requires NextIs(ts, UnaryToken(op)) && ts[1..] == PrintExpr(x) + after
    ensures ts == PrintExpr(Unary(op, x)) + after
  {
    Prefixed(UnaryToken(op), ts, PrintExpr(x), after);
  }

  lemma CallText(e: Expr, args: seq<Expr>, trailingComma: bool, ts: seq<Token>, after: seq<Token>)
    requires NextIs(ts, SymTok(LParen)) && ts[1..] == PrintArgs(args) + ArgsClose(trailingComma) + after
    ensures PrintExpr(e) + ts == PrintExpr(Call(e, args, trailingComma)) + after
  {
    Infix(PrintExpr(e), SymTok(LParen), ts, PrintArgs(args) + ArgsClose(trailingComma), after);
  }

  lemma FieldText(e: Expr, name: string, ts: seq<Token>, after: seq<Token>)
    requires NextIs(ts, SymTok(Dot)) && ts[1..] == [IdentTok(name)] + after
    ensures PrintExpr(e) + ts == PrintExpr(FieldAccess(e, name)) + after
  {
    Infix(PrintExpr(e), SymTok(Dot), ts, [IdentTok(name)], after);
    assert [SymTok(Dot)] + [IdentTok(name)] == [SymTok(Dot), IdentTok(name)];
  }

  /** A keyword, a header and a body closed by `конец`. */
  lemma Block(k: seq<Token>, ts: seq<Token>, head: seq<Token>, afterHead: seq<Token>, body: seq<Token>, afterBody: seq<Token>)
    requires ts == head + afterHead && afterHead == body + afterBody && NextIs(afterBody, KeywordTok(End))
    ensures k + ts == k + head + body + [KeywordTok(End)] + afterBody[1..]
  {
    assert afterBody == [KeywordTok(End)] + afterBody[1..];
  }

  lemma ClosureText(ps: seq<string>, body: seq<Stmt>, ts: seq<Token>, afterParams: seq<Token>, afterBody: seq<Token>)
    requires NextIs(ts, KeywordTok(Func))
    requires ts[1..] == PrintParams(ps) + afterParams && afterParams == PrintStmts(body) + afterBody
    requires NextIs(afterBody, KeywordTok(End))
    ensures ts == PrintExpr(Closure(ps, body)) + afterBody[1..]
  {
    Block([KeywordTok(Func)], ts[1..], PrintParams(ps), afterParams, PrintStmts(body), afterBody);
    assert ts == [KeywordTok(Func)] + ts[1..];
  }

  /** A head and an expression closed by `;`. */
  lemma Terminated(k: seq<Token>, ts: seq<Token>, e: seq<Token>, afterExpr: seq<Token>)
    requires ts == e + afterExpr && NextIs(afterExpr, SymTok(Semicolon))
    ensures k + ts == k + e + [SymTok(Semicolon)] + afterExpr[1..]
  {
    assert afterExpr == [SymTok(Semicolon)] + afterExpr[1..];
  }

  lemma VarText(name: string, e: Expr, ts: seq<Token>, afterExpr: seq<Token>)
    requires |ts| > 1 && ts[0] == IdentTok(name) && ts[1] == SymTok(Assign)
    requires ts[2..] == PrintExpr(e) + afterExpr && NextIs(afterExpr, SymTok(Semicolon))
    ensures [KeywordTok(Var)] + ts == PrintStmt(VarStmt(name, e)) + afterExpr[1..]
  {
    var head := [KeywordTok(Var), IdentTok(name), SymTok(Assign)];
    Terminated(head, ts[2..], PrintExpr(e), afterExpr);
    assert [KeywordTok(Var)] + ts == head + ts[2..];
  }

  lemma AssignText(name: string, e: Expr, ts: seq<Token>, afterExpr: seq<Token>)
    requires |ts| > 1 && ts[0] == IdentTok(name) && ts[1] == SymTok(Assign)
    requires ts[2..] == PrintExpr(e) + afterExpr && NextIs(afterExpr, SymTok(Semicolon))
    ensures ts == PrintStmt(AssignStmt(name, e)) + afterExpr[1..]
  {
    var head := [IdentTok(name), SymTok(Assign)];
    Terminated(head, ts[2..], PrintExpr(e), afterExpr);
    assert ts == head + ts[2..];
  }

  lemma ReturnText(v: Option<Expr>, ts: seq<Token>, afterExpr: seq<Token>)
    requires ts == (if v.Some? then PrintExpr(v.value) else []) + afterExpr
    requires NextIs(afterExpr, SymTok(Semicolon))
    ensures [KeywordTok(Return)] + ts == PrintStmt(ReturnStmt(v)) + afterExpr[1..]
  {
    Terminated([KeywordTok(Return)], ts, if v.Some? then PrintExpr(v.value) else [], afterExpr);
  }

  lemma ExprStmtText(e: Expr, ts: seq<Token>, afterExpr: seq<Token>)
    requires ts == PrintExpr(e) + afterExpr && NextIs(afterExpr, SymTok(Semicolon))
    ensures ts == PrintStmt(ExprStmt(e)) + afterExpr[1..]
  {
    Terminated([], ts, PrintExpr(e), afterExpr);
  }

  lemma IfText(c: Expr, body: seq<Stmt>, alt: ElseClause, ts: seq<Token>, afterCond: seq<Token>, afterAlt: seq<Token>)
    requires ts == PrintExpr(c) + afterCond && afterCond == PrintStmts(body) + PrintElse(alt) + afterAlt
    requires NextIs(afterAlt, KeywordTok(End))
    ensures [KeywordTok(If)] + ts == PrintStmt(IfStmt(c, body, alt)) + afterAlt[1..]
  {
    Assoc(PrintStmts(body), PrintElse(alt), afterAlt);
    Block([KeywordTok(If)], ts, PrintExpr(c), afterCond, PrintStmts(body) + PrintElse(alt), afterAlt);
  }

  /** The body and the `иначе` branch of an if statement. */
  lemma ElseText(body: seq<Stmt>, alt: seq<Stmt>, ts: seq<Token>, afterBody: seq<Token>, afterAlt: seq<Token>)
    requires ts == PrintStmts(body) + afterBody && NextIs(afterBody, KeywordTok(Else))
    requires afterBody[1..] == PrintStmts(alt) + afterAlt
    ensures ts == PrintStmts(body) + PrintElse(WithElse(alt)) + afterAlt
  {
    assert afterBody == [KeywordTok(Else)] + afterBody[1..];
  }

  lemma NoElseText(body: seq<Stmt>, ts: seq<Token>, afterBody: seq<Token>)
    requires ts == PrintStmts(body) + afterBody
    ensures ts == PrintStmts(body) + PrintElse(NoElse) + afterBody
  {
    assert PrintStmts(body) + PrintElse(NoElse) == PrintStmts(body);
  }

  lemma WhileText(c: Expr, body: seq<Stmt>, ts: seq<Token>, afterCond: seq<Token>, afterBody: seq<Token>)
    requires ts == PrintExpr(c) + afterCond && afterCond == PrintStmts(body) + afterBody
    requires NextIs(afterBody, KeywordTok(End))
    ensures [KeywordTok(While)] + ts == PrintStmt(WhileStmt(c, body)) + afterBody[1..]
  {
    Block([KeywordTok(While)], ts, PrintExpr(c), afterCond, PrintStmts(body), afterBody);
  }

  lemma FunctionText(f: Function, ts: seq<Token>, afterParams: seq<Token>, afterBody: seq<Token>)
    requires |ts| > 1 && ts[0] == KeywordTok(Func) && ts[1] == IdentTok(f.name)
    requires ts[2..] == PrintParams(f.params) + afterParams && afterParams == PrintStmts(f.body) + afterBody
    requires NextIs(afterBody, KeywordTok(End))
    ensures ts == PrintFunction(f) + afterBody[1..]
  {
    var head := [KeywordTok(Func), IdentTok(f.name)];
    Block(head, ts[2..], PrintParams(f.params), afterParams, PrintStmts(f.body), afterBody);
    assert ts == head + ts[2..];
  }

  lemma ClassText(name: string, sup: Option<string>, iface: Option<string>, ms: seq<Member>,
                  ts: seq<Token>, afterSup: seq<Token>, afterIface: seq<Token>, afterMembers: seq<Token>)
    requires |ts| > 0 && ts[0] == IdentTok(name)
    requires ts[1..] == PrintClause(Extends, sup) + afterSup && afterSup == PrintClause(Implements, iface) + afterIface
    requires afterIface == PrintMembers(ms) + afterMembers && NextIs(afterMembers, KeywordTok(End))
    ensures [KeywordTok(Class)] + ts == PrintStmt(ClassDecl(name, sup, iface, ms)) + afterMembers[1..]
  {
    var a, b, m := PrintClause(Extends, sup), PrintClause(Implements, iface), PrintMembers(ms);
    ClassPieces(ts, a, afterSup, b, afterIface, m, afterMembers);
  }

  /** A class header and its members, over the texts of the pieces. */
  lemma ClassPieces(ts: seq<Token>, a: seq<Token>, afterSup: seq<Token>, b: seq<Token>, afterIface: seq<Token>,
                    m: seq<Token>, afterMembers: seq<Token>)
    requires |ts| > 0 && ts[1..] == a + afterSup && afterSup == b + afterIface
    requires afterIface == m + afterMembers && NextIs(afterMembers, KeywordTok(End))
    ensures [KeywordTok(Class)] + ts == [KeywordTok(Class), ts[0]] + a + b + m + [KeywordTok(End)] + afterMembers[1..]
  {
    var head := [KeywordTok(Class), ts[0]];
    ListLayout(ts[1..], a, afterSup, b, afterIface);
    Block(head, ts[1..], a + b, afterIface, m, afterMembers);
    Assoc(head, a, b);
    assert [KeywordTok(Class)] + ts == head + ts[1..];
  }

  lemma KeywordFirst(ts: seq<Token>)
    requires |ts| > 0
    ensures ts == [ts[0]] + ts[1..]
  {
  }

  /** One item of a list, then the rest of the list. */
  lemma ListLayout(ts: seq<Token>, item: seq<Token>, afterItem: seq<Token>, more: seq<Token>, afterMore: seq<Token>)
    requires ts == item + afterItem && afterItem == more + afterMore
    ensures ts == (item + more) + afterMore
  {
  }

  lemma StmtsText(s: Stmt, more: seq<Stmt>, ts: seq<Token>, afterFirst: seq<Token>, afterMore: seq<Token>)
    requires ts == PrintStmt(s) + afterFirst && afterFirst == PrintStmts(more) + afterMore
    ensures ts == PrintStmts([s] + more) + afterMore
  {
    var all := [s] + more;
    assert all[0] == s && all[1..] == more;
    ListLayout(ts, PrintStmt(s), afterFirst, PrintStmts(more), afterMore);
  }

  lemma MembersText(m: Member, more: seq<Member>, ts: seq<Token>, afterFirst: seq<Token>, afterMore: seq<Token>)
    requires ts == PrintMember(m) + afterFirst && afterFirst == PrintMembers(more) + afterMore
    ensures ts == PrintMembers([m] + more) + afterMore
  {
    var all := [m] + more;
    assert all[0] == m && all[1..] == more;
    ListLayout(ts, PrintMember(m), afterFirst, PrintMembers(more), afterMore);
  }

  // ---------------------------------------------------------------------
  // Expressions

  lemma {:induction false} ExprSound(ts: seq<Token>, minPrec: nat)
    requires minPrec <= UnaryPrec
    ensures var r := ParseExpr(ts, minPrec);
      r.Ok? ==> ts == PrintExpr(r.value.value) + r.value.rest
    decreases |ts|, 5
  {
    var lhs := ParseUnary(ts);
    if lhs.Ok? {
      UnarySound(ts);
      ClimbSound(lhs.value.value, lhs.value.rest, minPrec);
    }
  }

  /** The climbing loop continues the text of `lhs`. */
  lemma {:induction false} ClimbSound(lhs: Expr, ts: seq<Token>, minPrec: nat)
    requires minPrec <= Level(lhs) && CanonicalExpr(lhs) && !PostfixNext(ts)
    requires |ts| > 0 && BinaryOpOf(ts[0]).Some? ==> BinaryPrec(BinaryOpOf(ts[0]).value) <= Level(lhs)
    ensures var r := Climb(lhs, ts, minPrec);
      r.Ok? ==> PrintExpr(lhs) + ts == PrintExpr(r.value.value) + r.value.rest
    decreases |ts|, 4
  {
    var r := Climb(lhs, ts, minPrec);
    if r.Ok? && |ts| > 0 && BinaryOpOf(ts[0]).Some? && BinaryPrec(BinaryOpOf(ts[0]).value) >= minPrec {
      var op := BinaryOpOf(ts[0]).value;
      var rhs := ParseExpr(ts[1..], BinaryPrec(op) + 1).value;
      ExprSound(ts[1..], BinaryPrec(op) + 1);
      ClimbContinues(lhs, op, rhs.value, rhs.rest, minPrec);
      ClimbSound(Binary(lhs, op, rhs.value), rhs.rest, minPrec);
      BinaryText(lhs, op, rhs.value, ts, rhs.rest);
    }
  }

  /** After one round the climbing loop may go on from the new left operand. */
  lemma ClimbContinues(lhs: Expr, op: BinaryOp, rhs: Expr, rest: seq<Token>, minPrec: nat)
    requires CanonicalExpr(lhs) && CanonicalExpr(rhs) && minPrec <= BinaryPrec(op) <= Level(lhs)
    requires Level(rhs) >= BinaryPrec(op) + 1 && StopsBelow(rest, BinaryPrec(op) + 1)
    ensures var e := Binary(lhs, op, rhs);
      && minPrec <= Level(e) && CanonicalExpr(e) && !PostfixNext(rest)
      && (|rest| > 0 && BinaryOpOf(rest[0]).Some? ==> BinaryPrec(BinaryOpOf(rest[0]).value) <= Level(e))
  {
  }

  lemma {:induction false} UnarySound(ts: seq<Token>)
    ensures var r := ParseUnary(ts);
      r.Ok? ==> ts == PrintExpr(r.value.value) + r.value.rest
    decreases |ts|, 3
  {
    var r := ParseUnary(ts);
    if r.Ok? {
      if UnaryOpOf(ts[0]).Some? {
        var operand := ParseUnary(ts[1..]).value;
        UnarySound(ts[1..]);
        UnaryText(UnaryOpOf(ts[0]).value, operand.value, ts, operand.rest);
      } else {
        PostfixSound(ts);
      }
    }
  }

  lemma {:induction false} PostfixSound(ts: seq<Token>)
    ensures var r := ParsePostfix(ts);
      r.Ok? ==> ts == PrintExpr(r.value.value) + r.value.rest
    decreases |ts|, 2
  {
    var base := ParsePrimary(ts);
    if base.Ok? {
      PrimarySound(ts);
      PostfixLoopSound(base.value.value, base.value.rest);
    }
  }

  /** The postfix loop continues the text of `e`. */
  lemma {:induction false} PostfixLoopSound(e: Expr, ts: seq<Token>)
    requires CanonicalExpr(e) && Level(e) >= FieldPrec && !LeadsWithMinus(e)
    ensures var r := PostfixLoop(e, ts);
      r.Ok? ==> PrintExpr(e) + ts == PrintExpr(r.value.value) + r.value.rest
    decreases |ts|, 1
  {
    var r := PostfixLoop(e, ts);
    if r.Ok? {
      if NextIs(ts, SymTok(LParen)) {
        var args := ParseArgs(ts[1..]).value;
        ArgsSound(ts[1..]);
        PostfixLoopSound(Call(e, args.value.items, args.value.trailingComma), args.rest);
        CallText(e, args.value.items, args.value.trailingComma, ts, args.rest);
      } else if NextIs(ts, SymTok(Dot)) {
        var name := ParseName(ts[1..]).value;
        PostfixLoopSound(FieldAccess(e, name.value), name.rest);
        assert ts[1..] == [IdentTok(name.value)] + name.rest;
        FieldText(e, name.value, ts, name.rest);
      }
    }
  }

  lemma {:induction false} ArgsSound(ts: seq<Token>)
    ensures var r := ParseArgs(ts);
      r.Ok? ==> ts == PrintArgs(r.value.value.items) + ArgsClose(r.value.value.trailingComma) + r.value.rest
    decreases |ts|, 6
  {
    var r := ParseArgs(ts);
    if r.Ok? {
      if NextIs(ts, SymTok(RParen)) {
        assert ts == [SymTok(RParen)] + ts[1..];
      } else if NextIs(ts, SymTok(Comma)) {
        assert ts == [SymTok(Comma), SymTok(RParen)] + r.value.rest;
      } else {
        var first := ParseExpr(ts, OrPrec).value;
        ExprSound(ts, OrPrec);
        ArgsTailSound([first.value], first.rest);
        assert PrintArgs([first.value]) == PrintExpr(first.value);
      }
    }
  }

  /** The argument loop continues a list that already holds `acc`. */
  lemma {:induction false} ArgsTailSound(acc: seq<Expr>, ts: seq<Token>)
    requires |acc| > 0 && CanonicalExprs(acc)
    ensures var r := ArgsTail(acc, ts);
      r.Ok? ==>
        PrintArgs(acc) + ts == PrintArgs(r.value.value.items) + ArgsClose(r.value.value.trailingComma) + r.value.rest
    decreases |ts|, 6
  {
    var r := ArgsTail(acc, ts);
    if r.Ok? {
      if NextIs(ts, SymTok(Comma)) {
        if NextIs(ts[1..], SymTok(RParen)) {
          assert ts == ArgsClose(true) + r.value.rest;
          Assoc(PrintArgs(acc), ArgsClose(true), r.value.rest);
        } else {
          var next := ParseExpr(ts[1..], OrPrec).value;
          ExprSound(ts[1..], OrPrec);
          ArgsTailSound(acc + [next.value], next.rest);
          ArgsSnoc(acc, next.value);
          Infix(PrintArgs(acc), SymTok(Comma), ts, PrintExpr(next.value), next.rest);
        }
      } else {
        assert ts == ArgsClose(false) + r.value.rest;
        Assoc(PrintArgs(acc), ArgsClose(false), r.value.rest);
      }
    }
  }

  lemma {:induction false} PrimarySound(ts: seq<Token>)
    ensures var r := ParsePrimary(ts);
      r.Ok? ==> ts == PrintExpr(r.value.value) + r.value.rest
    decreases |ts|, 1
  {
    var r := ParsePrimary(ts);
    if r.Ok? {
      if ts[0] == KeywordTok(Func) {
        var ps := ParseParams(ts[1..]).value;
        var body := ParseStmts(ps.rest).value;
        assert NextIs(body.rest, KeywordTok(End));
        assert r.value == Step(Closure(ps.value, body.value), body.rest[1..]);
        ParamsSound(ts[1..]);
        StmtsSound(ps.rest);
        ClosureText(ps.value, body.value, ts, ps.rest, body.rest);
      } else {
        assert ts == [ts[0]] + ts[1..];
      }
    }
  }

  // ---------------------------------------------------------------------
  // Statements

  lemma {:induction false} StmtsSound(ts: seq<Token>)
    ensures var r := ParseStmts(ts);
      r.Ok? ==> ts == PrintStmts(r.value.value) + r.value.rest
    decreases |ts|, 9
  {
    var r := ParseStmts(ts);
    if r.Ok? && !AtBlockEnd(ts) {
      var first := ParseStmt(ts).value;
      var more := ParseStmts(first.rest).value;
      assert r.value == Step([first.value] + more.value, more.rest);
      StmtSound(ts);
      StmtsSound(first.rest);
      StmtsText(first.value, more.value, ts, first.rest, more.rest);
    }
  }

  lemma {:induction false} StmtSound(ts: seq<Token>)
    ensures var r := ParseStmt(ts);
      r.Ok? ==> ts == PrintStmt(r.value.value) + r.value.rest
    decreases |ts|, 8
  {
    var r := ParseStmt(ts);
    if r.Ok? {
      var t := ts[0];
      if t in StatementKeywords {
        KeywordStmtSound(ts);
      } else if t == KeywordTok(Func) && |ts| > 1 && ts[1].IdentTok? {
        FunctionSound(ts);
      } else if t.IdentTok? && |ts| > 1 && ts[1] == SymTok(Assign) {
        AssignSound(ts);
      } else {
        ExprStmtSound(ts);
      }
    }
  }

  /** The keywords that select a statement rule read after the keyword. */
  const StatementKeywords: set<Token> :=
    {KeywordTok(Var), KeywordTok(Return), KeywordTok(If), KeywordTok(While), KeywordTok(Class)}

  /** The statements selected by their leading keyword. */
  lemma {:induction false} KeywordStmtSound(ts: seq<Token>)
    requires |ts| > 0 && ts[0] in StatementKeywords
    ensures var r := ParseStmt(ts);
      r.Ok? ==> ts == PrintStmt(r.value.value) + r.value.rest
    decreases |ts|, 7
  {
    var t := ts[0];
    KeywordFirst(ts);
    if t == KeywordTok(Var) {
      VarSound(ts[1..]);
    } else if t == KeywordTok(Return) {
      ReturnSound(ts[1..]);
    } else if t == KeywordTok(If) {
      IfSound(ts[1..]);
    } else if t == KeywordTok(While) {
      WhileSound(ts[1..]);
    } else {
      ClassSound(ts[1..]);
    }
  }

  /** `var_statement`, read after its keyword. */
  lemma {:induction false} VarSound(ts: seq<Token>)
    ensures var r := ParseVar(ts);
      r.Ok? ==> [KeywordTok(Var)] + ts == PrintStmt(r.value.value) + r.value.rest
    decreases |ts|, 7
  {
    var r := ParseVar(ts);
    if r.Ok? {
      var init := ParseExpr(ts[2..], OrPrec).value;
      assert NextIs(init.rest, SymTok(Semicolon)) && r.value == Step(VarStmt(ts[0].name, init.value), init.rest[1..]);
      ExprSound(ts[2..], OrPrec);
      VarText(ts[0].name, init.value, ts, init.rest);
    }
  }

  /** `return_statement`, read after its keyword. */
  lemma {:induction false} ReturnSound(ts: seq<Token>)
    ensures var r := ParseReturn(ts);
      r.Ok? ==> [KeywordTok(Return)] + ts == PrintStmt(r.value.value) + r.value.rest
    decreases |ts|, 7
  {
    var r := ParseReturn(ts);
    if r.Ok? {
      if NextIs(ts, SymTok(Semicolon)) {
        ReturnText(None, ts, ts);
      } else {
        var v := ParseExpr(ts, OrPrec).value;
        assert NextIs(v.rest, SymTok(Semicolon)) && r.value == Step(ReturnStmt(Some(v.value)), v.rest[1..]);
        ExprSound(ts, OrPrec);
        ReturnText(Some(v.value), ts, v.rest);
      }
    }
  }

  /** `assigment_statement`, read from its identifier. */
  lemma {:induction false} AssignSound(ts: seq<Token>)
    ensures var r := ParseAssign(ts);
      r.Ok? ==> ts == PrintStmt(r.value.value) + r.value.rest
    decreases |ts|, 7
  {
    var r := ParseAssign(ts);
    if r.Ok? {
      var v := ParseExpr(ts[2..], OrPrec).value;
      assert NextIs(v.rest, SymTok(Semicolon)) && r.value == Step(AssignStmt(ts[0].name, v.value), v.rest[1..]);
      ExprSound(ts[2..], OrPrec);
      AssignText(ts[0].name, v.value, ts, v.rest);
    }
  }

  lemma {:induction false} ExprStmtSound(ts: seq<Token>)
    ensures var r := ParseExprStmt(ts);
      r.Ok? ==> ts == PrintStmt(r.value.value) + r.value.rest
    decreases |ts|, 7
  {
    var r := ParseExprStmt(ts);
    if r.Ok? {
      var e := ParseExpr(ts, OrPrec).value;
      assert NextIs(e.rest, SymTok(Semicolon)) && r.value == Step(ExprStmt(e.value), e.rest[1..]);
      ExprSound(ts, OrPrec);
      ExprStmtText(e.value, ts, e.rest);
    }
  }

  /** `if_statement`, read after its keyword: the condition, the body, the
      `иначе` branch when present, and `конец` all appear in the text. */
  lemma {:induction false} IfSound(ts: seq<Token>)
    ensures var r := ParseIf(ts);
      r.Ok? ==> [KeywordTok(If)] + ts == PrintStmt(r.value.value) + r.value.rest
    decreases |ts|, 7
  {
    var r := ParseIf(ts);
    if r.Ok? {
      var cond := ParseExpr(ts, OrPrec).value;
      var body := ParseStmts(cond.rest).value;
      ExprSound(ts, OrPrec);
      StmtsSound(cond.rest);
      if NextIs(body.rest, KeywordTok(Else)) {
        var alt := ParseStmts(body.rest[1..]).value;
        assert NextIs(alt.rest, KeywordTok(End));
        assert r.value == Step(IfStmt(cond.value, body.value, WithElse(alt.value)), alt.rest[1..]);
        StmtsSound(body.rest[1..]);
        ElseText(body.value, alt.value, cond.rest, body.rest, alt.rest);
        IfText(cond.value, body.value, WithElse(alt.value), ts, cond.rest, alt.rest);
      } else {
        assert NextIs(body.rest, KeywordTok(End));
        assert r.value == Step(IfStmt(cond.value, body.value, NoElse), body.rest[1..]);
        NoElseText(body.value, cond.rest, body.rest);
        IfText(cond.value, body.value, NoElse, ts, cond.rest, body.rest);
      }
    }
  }

  /** `while_statement`, read after its keyword. */
  lemma {:induction false} WhileSound(ts: seq<Token>)
    ensures var r := ParseWhile(ts);
      r.Ok? ==> [KeywordTok(While)] + ts == PrintStmt(r.value.value) + r.value.rest
    decreases |ts|, 7
  {
    var r := ParseWhile(ts);
    if r.Ok? {
      var cond := ParseExpr(ts, OrPrec).value;
      var body := ParseStmts(cond.rest).value;
      assert NextIs(body.rest, KeywordTok(End));
      assert r.value == Step(WhileStmt(cond.value, body.value), body.rest[1..]);
      ExprSound(ts, OrPrec);
      StmtsSound(cond.rest);
      WhileText(cond.value, body.value, ts, cond.rest, body.rest);
    }
  }

  /** `function_declaration_statement`, read from `функ`. */
  lemma {:induction false} FunctionSound(ts: seq<Token>)
    ensures var r := ParseFunction(ts);
      r.Ok? ==> ts == PrintFunction(r.value.value) + r.value.rest
    decreases |ts|, 7
  {
    var r := ParseFunction(ts);
    if r.Ok? {
      var ps := ParseParams(ts[2..]).value;
      var body := ParseStmts(ps.rest).value;
      var f := Function(ts[1].name, ps.value, body.value);
      assert NextIs(body.rest, KeywordTok(End));
      assert r.value == Step(f, body.rest[1..]);
      ParamsSound(ts[2..]);
      StmtsSound(ps.rest);
      FunctionText(f, ts, ps.rest, body.rest);
    }
  }

  lemma ClauseSound(ts: seq<Token>, k: Keyword)
    ensures var r := ParseClause(ts, k);
      r.Ok? ==> ts == PrintClause(k, r.value.value) + r.value.rest
  {
    var r := ParseClause(ts, k);
    if r.Ok? && NextIs(ts, KeywordTok(k)) {
      assert ts == [ts[0], ts[1]] + ts[2..];
    }
  }

  /** `class_declaration_statement`, read after its keyword. */
  lemma {:induction false} ClassSound(ts: seq<Token>)
    ensures var r := ParseClass(ts);
      r.Ok? ==> [KeywordTok(Class)] + ts == PrintStmt(r.value.value) + r.value.rest
    decreases |ts|, 7
  {
    var r := ParseClass(ts);
    if r.Ok? {
      var sup := ParseClause(ts[1..], Extends).value;
      var iface := ParseClause(sup.rest, Implements).value;
      var ms := ParseMembers(iface.rest).value;
      assert NextIs(ms.rest, KeywordTok(End));
      assert r.value == Step(ClassDecl(ts[0].name, sup.value, iface.value, ms.value), ms.rest[1..]);
      ClauseSound(ts[1..], Extends);
      ClauseSound(sup.rest, Implements);
      MembersSound(iface.rest);
      ClassText(ts[0].name, sup.value, iface.value, ms.value, ts, sup.rest, iface.rest, ms.rest);
    }
  }

  lemma {:induction false} MembersSound(ts: seq<Token>)
    ensures var r := ParseMembers(ts);
      r.Ok? ==> ts == PrintMembers(r.value.value) + r.value.rest
    decreases |ts|, 8
  {
    var r := ParseMembers(ts);
    if r.Ok? {
      if |ts| > 0 && ts[0].IdentTok? {
        var more := ParseMembers(ts[1..]).value;
        assert r.value == Step([FieldMember(ts[0].name)] + more.value, more.rest);
        MembersSound(ts[1..]);
        assert ts == PrintMember(FieldMember(ts[0].name)) + ts[1..];
        MembersText(FieldMember(ts[0].name), more.value, ts, ts[1..], more.rest);
      } else if NextIs(ts, KeywordTok(Func)) {
        var f := ParseFunction(ts).value;
        var more := ParseMembers(f.rest).value;
        assert r.value == Step([Method(f.value)] + more.value, more.rest);
        FunctionSound(ts);
        MembersSound(f.rest);
        MembersText(Method(f.value), more.value, ts, f.rest, more.rest);
      }
    }
  }

  /** `source_file`: an accepted token sequence is exactly the text of the
      program read from it. */
  lemma ProgramSound(ts: seq<Token>)
    ensures ParseProgram(ts).Ok? ==> ts == PrintStmts(ParseProgram(ts).value)
  {
    StmtsSound(ts);
    if ParseProgram(ts).Ok? {
      assert ts == PrintStmts(ParseProgram(ts).value) + [];
    }
  }
}
