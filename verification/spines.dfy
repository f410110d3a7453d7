/** How the text of an expression decomposes: the left spine of binary
    operators, the spine of calls and field accesses, and the tokens an
    expression or statement can begin with. */
module Spines {
  import opened Wrappers
  import opened Tokens
  import opened Ast
  import opened Precedence
  import opened Printer
  import opened Parser
  import opened Lists

  /** The leftmost prefix operand under a chain of binary operators. */
  function Leftmost(e: Expr): (u: Expr)
    ensures !u.Binary? && Level(u) >= UnaryPrec && ExprSize(u) <= ExprSize(e)
    ensures CanonicalExpr(e) ==> CanonicalExpr(u)
  {
    if e.Binary? then Leftmost(e.left) else e
  }

  /** The text after the leftmost operand: operators and right operands. */
  function OperatorTail(e: Expr): (t: seq<Token>)
    ensures t == [] || BinaryOpOf(t[0]).Some?
  {
    if e.Binary? then
      BinaryOpOfToken(e.bop);
      OperatorTail(e.left) + [BinaryToken(e.bop)] + PrintExpr(e.right)
    else []
  }

  lemma {:induction false} LeftSpine(e: Expr)
    ensures PrintExpr(e) == PrintExpr(Leftmost(e)) + OperatorTail(e)
  {
    if e.Binary? {
      LeftSpine(e.left);
      assert PrintExpr(e) == PrintExpr(e.left) + [BinaryToken(e.bop)] + PrintExpr(e.right);
    }
  }

  /** The primary expression at the root of a chain of calls and field accesses. */
  function Base(e: Expr): (b: Expr)
    ensures ExprSize(b) <= ExprSize(e)
    ensures CanonicalExpr(e) && Level(e) >= FieldPrec ==> CanonicalExpr(b) && Level(b) == PrimaryLevel
  {
    match e
    case Call(c, _, _) => Base(c)
    case FieldAccess(o, _) => Base(o)
    case _ => e
  }

  /** The argument lists and field names after the base. */
  function PostfixTail(e: Expr): seq<Token> {
    match e
    case Call(c, args, tc) => PostfixTail(c) + [SymTok(LParen)] + PrintArgs(args) + ArgsClose(tc)
    case FieldAccess(o, f) => PostfixTail(o) + [SymTok(Dot), IdentTok(f)]
    case _ => []
  }

  lemma {:induction false} PostfixSpine(e: Expr)
    requires CanonicalExpr(e) && Level(e) >= FieldPrec
    ensures PrintExpr(e) == PrintExpr(Base(e)) + PostfixTail(e)
    ensures !LeadsWithMinus(e) && UnaryOpOf(PrintExpr(e)[0]).None?
    decreases ExprSize(e)
  {
    if e.Call? || e.FieldAccess? {
      var c := LeadOperand(e);
      PostfixSpine(c);
      LeadSplit(e);
      PostfixTailSplit(e);
      Assoc(PrintExpr(Base(c)), PostfixTail(c), AfterLead(e));
      SecondOfConcat(PrintExpr(c), AfterLead(e));
    } else {
      PrimaryStart(e);
    }
  }

  lemma PostfixTailSplit(e: Expr)
    requires e.Call? || e.FieldAccess?
    ensures PostfixTail(e) == PostfixTail(LeadOperand(e)) + AfterLead(e)
    ensures Base(e) == Base(LeadOperand(e))
    ensures LeadsWithMinus(e) == LeadsWithMinus(LeadOperand(e))
    ensures CanonicalExpr(e) ==> CanonicalExpr(LeadOperand(e)) && Level(LeadOperand(e)) >= FieldPrec
  {
    if e.Call? {
      var t, a, z := PostfixTail(e.callee), PrintArgs(e.args), ArgsClose(e.trailingComma);
      assert PostfixTail(e) == t + [SymTok(LParen)] + a + z;
      assert AfterLead(e) == [SymTok(LParen)] + a + z;
      Assoc(t, [SymTok(LParen)], a);
      Assoc(t, [SymTok(LParen)] + a, z);
    } else {
      assert PostfixTail(e) == PostfixTail(e.target) + [SymTok(Dot), IdentTok(e.field)];
    }
  }

  /** A primary expression's text begins with neither `-` nor `!`. */
  lemma PrimaryStart(e: Expr)
    requires Level(e) == PrimaryLevel
    ensures |PrintExpr(e)| > 0 && UnaryOpOf(PrintExpr(e)[0]).None?
    ensures Base(e) == e && PostfixTail(e) == [] && !LeadsWithMinus(e)
  {
    if e.Closure? {
      assert PrintExpr(e) == [KeywordTok(Func)] + (PrintParams(e.params) + PrintStmts(e.body) + [KeywordTok(End)]);
    }
  }

  /** A token that can begin an expression. */
  predicate StartsExpression(t: Token) {
    t.IdentTok? || t.NumberTok? || t.StringTok? || t.BoolTok?
    || t == KeywordTok(Func) || t == SymTok(Minus) || t == SymTok(Bang)
  }

  /** The first token of an expression's text: it can begin an expression,
      and it is `-` exactly when the tree leads with a negation. */
  lemma {:induction false} ExprFirst(e: Expr)
    ensures |PrintExpr(e)| > 0 && StartsExpression(PrintExpr(e)[0])
    ensures PrintExpr(e)[0] == SymTok(Minus) <==> LeadsWithMinus(e)
  {
    match e
    case Unary(op, x) =>
    case Binary(l, op, r) =>
      ExprFirst(l);
      assert PrintExpr(e)[0] == PrintExpr(l)[0];
    case Call(c, _, _) =>
      ExprFirst(c);
      assert PrintExpr(e)[0] == PrintExpr(c)[0];
    case FieldAccess(o, f) =>
      ExprFirst(o);
      assert PrintExpr(e)[0] == PrintExpr(o)[0];
    case _ =>
  }

  /** The operand an expression's text begins with, for binary operators,
      calls and field accesses. */
  function LeadOperand(e: Expr): (c: Expr)
    requires e.Binary? || e.Call? || e.FieldAccess?
    ensures ExprSize(c) < ExprSize(e)
  {
    match e
    case Binary(l, _, _) => l
    case Call(c, _, _) => c
    case FieldAccess(o, _) => o
  }

  /** The text after the lead operand. */
  function AfterLead(e: Expr): (t: seq<Token>)
    requires e.Binary? || e.Call? || e.FieldAccess?
    ensures |t| > 0 && t[0] != SymTok(Assign)
  {
    match e
    case Binary(_, op, r) => [BinaryToken(op)] + PrintExpr(r)
    case Call(_, args, tc) => [SymTok(LParen)] + PrintArgs(args) + ArgsClose(tc)
    case FieldAccess(_, f) => [SymTok(Dot), IdentTok(f)]
  }

  lemma LeadSplit(e: Expr)
    requires e.Binary? || e.Call? || e.FieldAccess?
    ensures PrintExpr(e) == PrintExpr(LeadOperand(e)) + AfterLead(e)
  {
    match e
    case Binary(l, op, r) =>
      assert PrintExpr(e) == PrintExpr(l) + ([BinaryToken(op)] + PrintExpr(r));
    case Call(c, args, tc) =>
      assert PrintExpr(e) == PrintExpr(c) + ([SymTok(LParen)] + PrintArgs(args) + ArgsClose(tc));
    case FieldAccess(o, f) =>
  }

  /** The first two tokens of an atom, a prefix expression or a closure. */
  lemma LeafStart(e: Expr)
    requires !(e.Binary? || e.Call? || e.FieldAccess?)
    ensures |PrintExpr(e)| > 0
    ensures PrintExpr(e)[0].IdentTok? ==> |PrintExpr(e)| == 1 && e.Identifier?
    ensures PrintExpr(e)[0] == KeywordTok(Func) ==> e.Closure? && |PrintExpr(e)| > 1 && PrintExpr(e)[1] == SymTok(LParen)
  {
    if e.Closure? {
      var q := PrintParams(e.params) + PrintStmts(e.body) + [KeywordTok(End)];
      assert q[0] == SymTok(LParen);
      assert PrintExpr(e) == [KeywordTok(Func)] + q;
    } else if e.Unary? {
      assert PrintExpr(e)[0] == UnaryToken(e.uop);
    }
  }

  /** A leading identifier is never followed by `=` in an expression's text. */
  lemma {:induction false} IdentifierNotAssigned(e: Expr)
    ensures |PrintExpr(e)| > 0
    ensures PrintExpr(e)[0].IdentTok? ==> |PrintExpr(e)| == 1 || PrintExpr(e)[1] != SymTok(Assign)
    ensures |PrintExpr(e)| == 1 && PrintExpr(e)[0].IdentTok? ==> e.Identifier?
    decreases ExprSize(e)
  {
    if e.Binary? || e.Call? || e.FieldAccess? {
      IdentifierNotAssigned(LeadOperand(e));
      LeadSplit(e);
      SecondOfConcat(PrintExpr(LeadOperand(e)), AfterLead(e));
    } else {
      LeafStart(e);
    }
  }

  /** A leading `функ` is followed by `(` in an expression's text. */
  lemma {:induction false} ClosureOpensParams(e: Expr)
    ensures |PrintExpr(e)| > 0
    ensures PrintExpr(e)[0] == KeywordTok(Func) ==> |PrintExpr(e)| > 1 && PrintExpr(e)[1] == SymTok(LParen)
    decreases ExprSize(e)
  {
    if e.Binary? || e.Call? || e.FieldAccess? {
      ClosureOpensParams(LeadOperand(e));
      LeadSplit(e);
      SecondOfConcat(PrintExpr(LeadOperand(e)), AfterLead(e));
    } else {
      LeafStart(e);
    }
  }

  lemma SecondOfConcat(p: seq<Token>, q: seq<Token>)
    requires |p| > 0 && |q| > 0
    ensures (p + q)[0] == p[0]
    ensures |p| == 1 ==> (p + q)[1] == q[0]
    ensures |p| > 1 ==> (p + q)[1] == p[1]
  {
  }

  /** A token that can begin a statement. */
  predicate StartsStatement(t: Token) {
    || StartsExpression(t)
    || t == KeywordTok(Var) || t == KeywordTok(Return) || t == KeywordTok(If)
    || t == KeywordTok(While) || t == KeywordTok(Class)
  }

  /** A statement's first token is no block terminator, continues no
      expression unless it is `-`, and is `-` only for an expression
      statement that leads with a negation. */
  lemma StmtStart(s: Stmt)
    ensures var p := PrintStmt(s);
      && |p| > 0 && StartsStatement(p[0])
      && !AtBlockEnd(p) && !PostfixNext(p)
      && (BinaryOpOf(p[0]).Some? ==> p[0] == SymTok(Minus))
      && (p[0] == SymTok(Minus) ==> StmtLeadsWithMinus(s))
  {
    if s.ExprStmt? {
      ExprFirst(s.expr);
      assert PrintStmt(s) == PrintExpr(s.expr) + [SymTok(Semicolon)];
    }
  }

  /** What may follow an if/while condition: its body, then `иначе` or `конец`. */
  lemma BodyAfterConditionStops(body: seq<Stmt>, rest: seq<Token>)
    requires FitsAfterCondition(body)
    requires NextIs(rest, KeywordTok(Else)) || NextIs(rest, KeywordTok(End))
    ensures StopsBelow(PrintStmts(body) + rest, OrPrec)
  {
    if |body| > 0 {
      StmtStart(body[0]);
      assert PrintStmts(body) + rest == PrintStmt(body[0]) + (PrintStmts(body[1..]) + rest);
    }
  }
}
