/** Properties of the lexer: token shapes, keyword priority, trivia, and the
    round trip between `Unlex` and `Lex`. */
module LexerProperties {
  import opened Wrappers
  import opened Chars
  import opened Tokens
  import opened Lexer
  import opened Lists

  /** A string body never holds a raw newline, and every `"` in it is
      escaped by the backslash before it. */
  lemma {:induction false} StringBodyShape(b: string)
    requires IsStringBody(b)
    ensures forall i :: 0 <= i < |b| ==> b[i] != '\n'
    ensures forall i :: 0 <= i < |b| && b[i] == '"' ==> i > 0 && b[i - 1] == '\\'
    decreases |b|
  {
    if |b| == 0 {
    } else if b[0] != '"' && b[0] != '\\' && b[0] != '\n' && IsStringBody(b[1..]) {
      StringBodyShape(b[1..]);
      assert forall i :: 1 <= i < |b| ==> b[i] == b[1..][i - 1];
    } else {
      assert |b| >= 2 && b[0] == '\\' && b[1] != '\n' && IsStringBody(b[2..]);
      StringBodyShape(b[2..]);
      assert forall i :: 2 <= i < |b| ==> b[i] == b[2..][i - 2];
    }
  }

  /** The string scanner stops at the first quote that closes a valid body:
      whenever `s[..k]` is a body and `s[k]` is `"`, the scan ends exactly at `k`. */
  lemma {:induction false} ScanStringFindsClosingQuote(s: string, k: nat)
    requires k < |s| && s[k] == '"' && IsStringBody(s[..k])
    ensures ScanString(s) == Some(k)
    decreases k
  {
    var b := s[..k];
    if k == 0 {
    } else if b[0] != '"' && b[0] != '\\' && b[0] != '\n' && IsStringBody(b[1..]) {
      assert b[1..] == s[1..][..k - 1];
      ScanStringFindsClosingQuote(s[1..], k - 1);
    } else {
      assert |b| >= 2 && b[0] == '\\' && b[1] != '\n' && IsStringBody(b[2..]);
      assert b[2..] == s[2..][..k - 2];
      ScanStringFindsClosingQuote(s[2..], k - 2);
    }
  }

  /** Every reserved word is spelled as an identifier would be. */
  lemma ReservedSpellingIsWord(t: Token)
    requires t.KeywordTok? || t.BoolTok?
    ensures IsIdentifier(Spell(t))
  {
    var w := Spell(t);
    assert forall i :: 0 <= i < |w| ==> '\U{0430}' <= w[i] <= '\U{044F}';
  }

  /** A word scan stops exactly at the end of an identifier-shaped word. */
  lemma WordRunStopsAtBoundary(w: string, rest: string)
    requires IsIdentifier(w)
    requires |rest| == 0 || !IsIdentPart(rest[0])
    ensures IdentRun(w + rest) == |w|
  {
    var s := w + rest;
    ClassesDisjoint(w[0]);
    assert forall i :: 0 <= i < |w| ==> s[i] == w[i] && IsIdentPart(s[i]);
    assert |rest| > 0 ==> s[|w|] == rest[0];
  }

  /** A number scan stops exactly at the end of a number-shaped text. */
  lemma NumberScanStopsAtBoundary(x: string, rest: string)
    requires IsNumberText(x)
    requires |rest| == 0 || (!IsDigit(rest[0]) && rest[0] != '.')
    ensures ScanNumber(x + rest) == |x|
  {
    var s := x + rest;
    var k := DigitRun(s);
    assert forall i :: 0 <= i < |x| ==> s[i] == x[i];
    assert |rest| > 0 ==> s[|x|] == rest[0];
    if k < |x| {
      // the digit run stopped at the single dot of x
      assert x[k] == '.';
      assert forall i :: k + 1 <= i < |x| ==> IsDigit(x[i]);
      var t := s[k + 1..];
      assert forall i :: 0 <= i < |x| - (k + 1) ==> t[i] == x[k + 1 + i] && IsDigit(t[i]);
      assert |rest| > 0 ==> t[|x| - (k + 1)] == rest[0];
    }
  }

  /** The precondition of `NextToken` holds of a spelled token followed by a space. */
  predicate SpelledBeforeSpace(t: Token, rest: string) {
    ValidToken(t) && |rest| > 0 && rest[0] == ' '
  }

  lemma WordTokenOfSpelling(t: Token, rest: string)
    requires SpelledBeforeSpace(t, rest)
    requires t.IdentTok? || t.KeywordTok? || t.BoolTok?
    ensures var s := Spell(t) + rest;
      && |s| > 0 && !IsSpace(s[0]) && !StartsComment(s)
      && NextToken(s) == Ok((t, |Spell(t)|))
  {
    var w := Spell(t);
    var s := w + rest;
    if !t.IdentTok? {
      ReservedSpellingIsWord(t);
      ReservedWordOfSpelling(t);
    }
    ClassesDisjoint(w[0]);
    ClassesDisjoint(' ');
    WordRunStopsAtBoundary(w, rest);
    assert s[..|w|] == w;
    assert ClassifyWord(w) == t;
  }

  lemma NumberTokenOfSpelling(x: string, rest: string)
    requires SpelledBeforeSpace(NumberTok(x), rest)
    ensures var s := x + rest;
      && |s| > 0 && !IsSpace(s[0]) && !StartsComment(s)
      && NextToken(s) == Ok((NumberTok(x), |x|))
  {
    var s := x + rest;
    assert s[0] == x[0];
    NumberScanStopsAtBoundary(x, rest);
    assert s[..|x|] == x;
  }

  lemma StringTokenOfSpelling(b: string, rest: string)
    requires SpelledBeforeSpace(StringTok(b), rest)
    ensures var s := "\"" + b + "\"" + rest;
      && |s| > 0 && !IsSpace(s[0]) && !StartsComment(s)
      && NextToken(s) == Ok((StringTok(b), |b| + 2))
  {
    var s := "\"" + b + "\"" + rest;
    assert s[1..] == b + ("\"" + rest);
    assert (s[1..])[..|b|] == b;
    ScanStringFindsClosingQuote(s[1..], |b|);
  }

  lemma SymTokenOfSpelling(p: Sym, rest: string)
    requires SpelledBeforeSpace(SymTok(p), rest)
    ensures var s := SymText(p) + rest;
      && |s| > 0 && !IsSpace(s[0]) && !StartsComment(s)
      && NextToken(s) == Ok((SymTok(p), |SymText(p)|))
  {
    var s := SymText(p) + rest;
    SymScansBack(p, rest);
    assert !IsDigit(s[0]) && s[0] != '"' && !IsIdentStart(s[0]);
  }

  /** The symbol scanner reads a symbol's own text back when a space follows. */
  lemma SymScansBack(p: Sym, rest: string)
    requires |rest| > 0 && rest[0] == ' '
    ensures var s := SymText(p) + rest;
      && |s| > |SymText(p)| && s[|SymText(p)|] == ' '
      && !IsSpace(s[0]) && !StartsComment(s)
      && !IsDigit(s[0]) && s[0] != '"' && !IsIdentStart(s[0])
      && ScanSym(s) == Some((p, |SymText(p)|))
  {
    var s := SymText(p) + rest;
    assert s[|SymText(p)|] == ' ';
    match p
    case Le => assert s[0] == '<' && s[1] == '=';
    case Ge => assert s[0] == '>' && s[1] == '=';
    case Lt => assert s[0] == '<' && s[1] == ' ';
    case Gt => assert s[0] == '>' && s[1] == ' ';
    case Slash => assert s[0] == '/' && s[1] == ' ';
    case _ => assert s[0] == SymText(p)[0];
  }

  /** The first significant token of `Spell(t) + " " + ...` is `t` itself. */
  lemma NextTokenOfSpelling(t: Token, rest: string)
    requires SpelledBeforeSpace(t, rest)
    ensures var s := Spell(t) + rest;
      && |s| > 0 && !IsSpace(s[0]) && !StartsComment(s)
      && NextToken(s) == Ok((t, |Spell(t)|))
  {
    match t
    case NumberTok(x) => NumberTokenOfSpelling(x, rest);
    case StringTok(b) => StringTokenOfSpelling(b, rest);
    case SymTok(p) => SymTokenOfSpelling(p, rest);
    case _ => WordTokenOfSpelling(t, rest);
  }

  /** Lexing the printed form of valid tokens gives those tokens back. */
  lemma {:induction false} LexUnlex(ts: seq<Token>)
    requires AllValid(ts)
    ensures Lex(Unlex(ts)) == Ok(ts)
    decreases |ts|
  {
    if |ts| > 0 {
      var rest := " " + Unlex(ts[1..]);
      assert Unlex(ts) == Spell(ts[0]) + rest;
      NextTokenOfSpelling(ts[0], rest);
      assert (Spell(ts[0]) + rest)[|Spell(ts[0])|..] == rest;
      assert rest[1..] == Unlex(ts[1..]);
      assert AllValid(ts[1..]) by {
        assert forall i :: 0 <= i < |ts[1..]| ==> ts[1..][i] == ts[i + 1];
      }
      LexUnlex(ts[1..]);
      assert [ts[0]] + ts[1..] == ts;
    }
  }

  /** `r` with the tokens `ts` in front, or the same error. */
  function WithTokens(ts: seq<Token>, r: Result<seq<Token>, LexError>): Result<seq<Token>, LexError> {
    match r
    case Ok(us) => Ok(ts + us)
    case Err(e) => Err(e)
  }

  /** One spelled token and a space, then any text. */
  lemma LexAfterSpelling(t: Token, y: string)
    requires ValidToken(t)
    ensures Lex(Spell(t) + (" " + y)) == WithTokens([t], Lex(y))
  {
    var rest := " " + y;
    NextTokenOfSpelling(t, rest);
    assert (Spell(t) + rest)[|Spell(t)|..] == rest;
    assert rest[1..] == y;
  }

  /** Lexing continues after spelled tokens exactly as it would on the text
      that follows them: their tokens come first, and an error there is the
      error of the whole. */
  lemma {:induction false} LexUnlexThen(ts: seq<Token>, x: string)
    requires AllValid(ts)
    ensures Lex(Unlex(ts) + x) == WithTokens(ts, Lex(x))
    decreases |ts|
  {
    if |ts| == 0 {
      assert Unlex(ts) + x == x;
      assert Lex(x).Ok? ==> ts + Lex(x).value == Lex(x).value;
    } else {
      var y := Unlex(ts[1..]) + x;
      assert Unlex(ts) + x == Spell(ts[0]) + (" " + y);
      LexAfterSpelling(ts[0], y);
      assert AllValid(ts[1..]) by {
        assert forall i :: 0 <= i < |ts[1..]| ==> ts[1..][i] == ts[i + 1];
      }
      LexUnlexThen(ts[1..], x);
      if Lex(x).Ok? {
        assert [ts[0]] + ts[1..] == ts;
        Assoc([ts[0]], ts[1..], Lex(x).value);
      }
    }
  }

  /** A character that begins no token and is not whitespace is reported, not
      skipped, wherever it stands. */
  lemma IllegalCharacterRejected(ts: seq<Token>, c: char, rest: string)
    requires AllValid(ts)
    requires !IsSpace(c) && !IsDigit(c) && c != '"' && !IsIdentStart(c) && ScanSym([c]).None?
    ensures Lex(Unlex(ts) + ([c] + rest)) == Err(IllegalCharacter(c))
  {
    var x := [c] + rest;
    assert x[0] == c && c != '/';
    assert NextToken(x) == Err(IllegalCharacter(c));
    LexUnlexThen(ts, x);
  }

  /** An opening quote whose string is never closed is reported, wherever it
      stands. */
  lemma UnterminatedStringRejected(ts: seq<Token>, b: string)
    requires AllValid(ts) && ScanString(b).None?
    ensures Lex(Unlex(ts) + ("\"" + b)) == Err(UnterminatedString)
  {
    var x := "\"" + b;
    assert x[0] == '"' && x[1..] == b;
    assert NextToken(x) == Err(UnterminatedString);
    LexUnlexThen(ts, x);
  }

  /** Keyword priority with longest match: a whole word lexes as one token,
      the reserved token when the word is reserved and an identifier
      otherwise, so a longer word that begins with a keyword stays an
      identifier. */
  lemma WordLexesAsOneToken(w: string)
    requires IsIdentifier(w)
    ensures ReservedWord(w).Some? ==> Lex(w) == Ok([ReservedWord(w).value])
    ensures ReservedWord(w).None? ==> Lex(w) == Ok([IdentTok(w)])
  {
    ClassesDisjoint(w[0]);
    WordRunStopsAtBoundary(w, "");
    assert w + "" == w;
    assert w[..|w|] == w;
    var t := ClassifyWord(w);
    assert NextToken(w) == Ok((t, |w|));
    assert w[|w|..] == "";
    assert Lex(w[|w|..]) == Ok([]);
    assert [t] + [] == [t];
  }

  /** A `//` comment runs to the end of its line and is dropped. */
  lemma CommentIsTrivia(c: string, s: string)
    requires forall i :: 0 <= i < |c| ==> c[i] != '\n'
    ensures Lex("//" + c + "\n" + s) == Lex("\n" + s)
  {
    var full := "//" + c + "\n" + s;
    assert full[2..] == c + ("\n" + s);
    LineLengthAppend(c, "\n" + s);
    CommentStep(full, 2 + |c|);
    assert full[2 + |c|..] == "\n" + s;
  }

  /** A quoted string body lexes as one string token, whatever it holds: a
      `//` or whitespace inside the quotes is part of the string, not trivia. */
  lemma StringBodyMayHoldCommentMarker(b: string)
    requires IsStringBody(b)
    ensures Lex("\"" + b + "\"") == Ok([StringTok(b)])
  {
    var s := "\"" + b + "\"";
    assert s[1..] == b + "\"" && (s[1..])[..|b|] == b;
    ScanStringFindsClosingQuote(s[1..], |b|);
    assert NextToken(s) == Ok((StringTok(b), |b| + 2));
    assert s[|b| + 2..] == "";
    assert [StringTok(b)] + [] == [StringTok(b)];
  }


  // ---------------------------------------------------------------------
  // What the lexer drops, and that it drops nothing else

  /** Whitespace and `//` comments, each comment running to the end of its
      line: the `extras` of the grammar. */
  predicate IsTrivia(g: string)
    decreases |g|
  {
    if |g| == 0 then true
    else if IsSpace(g[0]) then IsTrivia(g[1..])
    else StartsComment(g) && IsTrivia(g[2 + LineLength(g[2..])..])
  }

  /** Every gap is trivia. */
  predicate AllTrivia(gaps: seq<string>) {
    forall i :: 0 <= i < |gaps| ==> IsTrivia(gaps[i])
  }

  /** The text made of `gaps[0]`, the first token's spelling, `gaps[1]`, and so
      on, ending with the last gap. */
  function Weave(gaps: seq<string>, ts: seq<Token>): string
    requires |gaps| == |ts| + 1
  {
    if |ts| == 0 then gaps[0] else gaps[0] + (Spell(ts[0]) + Weave(gaps[1..], ts[1..]))
  }

  /** The stretches the lexer skips: the one before each token it reads and
      the one after the last. */
  function Gaps(s: string): (gaps: seq<string>)
    ensures |gaps| > 0
    decreases |s|
  {
    if |s| == 0 then [""]
    else if IsSpace(s[0]) then
      var g := Gaps(s[1..]);
      [[s[0]] + g[0]] + g[1..]
    else if StartsComment(s) then
      var n := 2 + LineLength(s[2..]);
      var g := Gaps(s[n..]);
      [s[..n] + g[0]] + g[1..]
    else
      match NextToken(s)
      case Ok((_, n)) => [""] + Gaps(s[n..])
      case Err(_) => [""]
  }

  /** The lexer's output, read back: its tokens woven with the skipped
      stretches give the text, and every skipped stretch is trivia. */
  predicate Rewoven(s: string) {
    && Lex(s).Ok?
    && |Gaps(s)| == |Lex(s).value| + 1
    && s == Weave(Gaps(s), Lex(s).value)
    && AllTrivia(Gaps(s))
  }

  /** Putting trivia in front of the first gap puts it in front of the text. */
  lemma WeavePrepend(x: string, gaps: seq<string>, ts: seq<Token>)
    requires |gaps| == |ts| + 1
    ensures Weave([x + gaps[0]] + gaps[1..], ts) == x + Weave(gaps, ts)
  {
    var g := [x + gaps[0]] + gaps[1..];
    assert g[0] == x + gaps[0] && g[1..] == gaps[1..];
    if |ts| > 0 {
      Assoc(x, gaps[0], Spell(ts[0]) + Weave(gaps[1..], ts[1..]));
    }
  }

  /** Trivia skipped in front of a woven text joins its first gap. */
  lemma PrependGap(x: string, rest: string, g: seq<string>, ts: seq<Token>)
    requires |g| == |ts| + 1 && rest == Weave(g, ts)
    requires AllTrivia(g) && IsTrivia(x + g[0])
    ensures x + rest == Weave([x + g[0]] + g[1..], ts)
    ensures AllTrivia([x + g[0]] + g[1..])
  {
    WeavePrepend(x, g, ts);
    var h := [x + g[0]] + g[1..];
    assert forall i :: 1 <= i < |h| ==> h[i] == g[i];
  }

  /** A token spelled at the start of the text opens a new, empty gap. */
  lemma TokenGap(s: string, n: nat, t: Token, g: seq<string>, ts: seq<Token>)
    requires n <= |s| && Spell(t) == s[..n]
    requires |g| == |ts| + 1 && s[n..] == Weave(g, ts) && AllTrivia(g)
    ensures s == Weave([""] + g, [t] + ts)
    ensures AllTrivia([""] + g)
  {
    var h := [""] + g;
    assert h[0] == "" && h[1..] == g && ([t] + ts)[0] == t && ([t] + ts)[1..] == ts;
    assert Weave(h, [t] + ts) == "" + (Spell(t) + Weave(g, ts));
    assert "" + (Spell(t) + Weave(g, ts)) == s[..n] + s[n..];
    assert s == s[..n] + s[n..];
    EmptyGapTrivia(g);
  }

  /** An empty gap in front of trivia gaps keeps them all trivia. */
  lemma EmptyGapTrivia(g: seq<string>)
    requires AllTrivia(g)
    ensures AllTrivia([""] + g)
  {
    var h := [""] + g;
    assert IsTrivia(h[0]);
    assert forall i :: 1 <= i < |h| ==> h[i] == g[i - 1];
  }

  /** Skipping trivia `x` at the front of `s` keeps the text rewoven. */
  lemma SkipSound(s: string, x: string, rest: string)
    requires s == x + rest && Lex(s) == Lex(rest)
    requires Gaps(s) == [x + Gaps(rest)[0]] + Gaps(rest)[1..]
    requires Rewoven(rest) && IsTrivia(x + Gaps(rest)[0])
    ensures Rewoven(s)
  {
    PrependGap(x, rest, Gaps(rest), Lex(rest).value);
  }

  lemma SpaceSound(s: string)
    requires |s| > 0 && IsSpace(s[0]) && Rewoven(s[1..])
    ensures Rewoven(s)
  {
    var g := Gaps(s[1..]);
    assert Gaps(s) == [[s[0]] + g[0]] + g[1..] && Lex(s) == Lex(s[1..]);
    assert ([s[0]] + g[0])[1..] == g[0];
    assert s == [s[0]] + s[1..];
    SkipSound(s, [s[0]], s[1..]);
  }

  /** A comment's line continues to the newline that ends the text after it. */
  lemma {:induction false} LineLengthAppend(a: string, b: string)
    requires forall i :: 0 <= i < |a| ==> a[i] != '\n'
    requires |b| == 0 || b[0] == '\n'
    ensures LineLength(a + b) == |a|
    decreases |a|
  {
    if |a| > 0 {
      assert (a + b)[1..] == a[1..] + b;
      LineLengthAppend(a[1..], b);
    } else {
      assert a + b == b;
    }
  }

  /** The text of a comment holds no newline. */
  lemma CommentLine(s: string, n: nat)
    requires StartsComment(s) && n == 2 + LineLength(s[2..])
    ensures forall i :: 0 <= i < |s[2..n]| ==> s[2..n][i] != '\n'
  {
    assert forall i :: 0 <= i < |s[2..n]| ==> s[2..n][i] == s[2..][i];
  }

  /** A comment followed by trivia is trivia. */
  lemma TriviaComment(x: string, m: nat)
    requires StartsComment(x) && m == 2 + LineLength(x[2..]) && IsTrivia(x[m..])
    ensures IsTrivia(x)
  {
    assert !IsSpace(x[0]);
  }

  /** A comment followed by the trivia after it is trivia. */
  lemma CommentThenTrivia(s: string, n: nat, g: string)
    requires StartsComment(s) && n == 2 + LineLength(s[2..])
    requires IsTrivia(g) && (|g| == 0 || g[0] == '\n')
    ensures IsTrivia(s[..n] + g)
  {
    var x, line := s[..n] + g, s[2..n];
    CommentLine(s, n);
    LineLengthAppend(line, g);
    assert x[2..] == line + g;
    assert x[n..] == g;
    TriviaComment(x, n);
  }

  /** What the lexer does at a comment: it skips to the end of the line, and
      the comment opens the first gap. */
  lemma CommentStep(s: string, n: nat)
    requires StartsComment(s) && n == 2 + LineLength(s[2..])
    ensures n <= |s| && Lex(s) == Lex(s[n..])
    ensures Gaps(s) == [s[..n] + Gaps(s[n..])[0]] + Gaps(s[n..])[1..]
  {
    assert !IsSpace(s[0]);
  }

  /** After a comment comes the end of the text or a newline. */
  lemma GapAfterComment(s: string, n: nat)
    requires 2 <= |s| && n == 2 + LineLength(s[2..])
    ensures |Gaps(s[n..])[0]| == 0 || Gaps(s[n..])[0][0] == '\n'
  {
    if n < |s| {
      assert s[n..][0] == '\n';
    }
  }

  /** The comment and the trivia after it form the first gap. */
  lemma CommentGap(s: string, n: nat)
    requires StartsComment(s) && n == 2 + LineLength(s[2..])
    requires n <= |s| && AllTrivia(Gaps(s[n..]))
    ensures IsTrivia(s[..n] + Gaps(s[n..])[0])
  {
    GapAfterComment(s, n);
    var g := Gaps(s[n..]);
    assert IsTrivia(g[0]);
    CommentThenTrivia(s, n, g[0]);
  }

  lemma CommentSound(s: string)
    requires StartsComment(s) && Rewoven(s[2 + LineLength(s[2..])..])
    ensures Rewoven(s)
  {
    var n := 2 + LineLength(s[2..]);
    CommentStep(s, n);
    CommentGap(s, n);
    assert s == s[..n] + s[n..];
    SkipSound(s, s[..n], s[n..]);
  }

  lemma TokenSound(s: string)
    requires |s| > 0 && !IsSpace(s[0]) && !StartsComment(s)
    requires NextToken(s).Ok? && Rewoven(s[NextToken(s).value.1..])
    ensures Rewoven(s)
  {
    var tn := NextToken(s).value;
    assert Gaps(s) == [""] + Gaps(s[tn.1..]) && Lex(s).value == [tn.0] + Lex(s[tn.1..]).value;
    TokenGap(s, tn.1, tn.0, Gaps(s[tn.1..]), Lex(s[tn.1..]).value);
  }

  /** The lexer only drops trivia: the text is the trivia it skipped woven
      with the spellings of the tokens it produced, in order. */
  lemma {:induction false} LexSound(s: string)
    requires Lex(s).Ok?
    ensures |Gaps(s)| == |Lex(s).value| + 1
    ensures s == Weave(Gaps(s), Lex(s).value)
    ensures AllTrivia(Gaps(s))
    decreases |s|
  {
    if |s| == 0 {
      assert AllTrivia([""]);
    } else if IsSpace(s[0]) {
      LexSound(s[1..]);
      SpaceSound(s);
    } else if StartsComment(s) {
      LexSound(s[2 + LineLength(s[2..])..]);
      CommentSound(s);
    } else {
      LexSound(s[NextToken(s).value.1..]);
      TokenSound(s);
    }
  }
}
