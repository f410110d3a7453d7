/** The `string` rule as grammar.js writes it: a `seq` of an opening quote,
    pieces and a closing quote, not wrapped in `token(...)` as `comment` is.
    The grammar's `extras` (whitespace and `//` comments) may therefore
    stand between its pieces, and the generated lexer, taking the longest
    match, reads them there:

    - a raw newline, which no piece admits, is skipped as whitespace, so a
      string may run over several lines;
    - `//` inside the quotes is a comment, longer than the one-character
      piece `/`, and runs to the end of the line, closing quote included.

    The rest of the model reads a string as one token (`Lexer.ScanString`),
    which is what the pieces' own comment ("any character except a quote,
    a backslash and a newline") intends. `AsWrittenAgrees` shows that the
    two readings differ only at a newline or a `//`. */
module StringExtras {
  import opened Wrappers
  import opened Tokens
  import opened Lexer
  import opened LexerProperties

  /** Scans the text after an opening quote under the as-written rule;
      `Some(k)` when the closing quote is at index `k`. A space is a piece or
      whitespace alike, which changes nothing the scan reports. */
  function ScanStringAsWritten(s: string): (r: Option<nat>)
    ensures r.Some? ==> r.value < |s| && s[r.value] == '"'
    decreases |s|
  {
    if |s| == 0 then None
    else if s[0] == '"' then Some(0)
    else if StartsComment(s) then
      var n := LineLength(s);
      match ScanStringAsWritten(s[n..])
      case None => None
      case Some(k) => Some(k + n)
    else if s[0] == '\\' then
      if |s| < 2 || s[1] == '\n' then None
      else match ScanStringAsWritten(s[2..])
        case None => None
        case Some(k) => Some(k + 2)
    else match ScanStringAsWritten(s[1..])
      case None => None
      case Some(k) => Some(k + 1)
  }

  /** No `//` anywhere in `s`. */
  predicate NoCommentMarker(s: string) {
    forall i :: 0 <= i < |s| - 1 ==> !(s[i] == '/' && s[i + 1] == '/')
  }

  /** No raw newline in `s`. */
  predicate OneLine(s: string) {
    forall i :: 0 <= i < |s| ==> s[i] != '\n'
  }

  /** On a line without `//`, the as-written rule finds the same closing
      quote as the single-token reading, or fails where it fails. */
  lemma {:induction false} AsWrittenAgrees(s: string)
    requires NoCommentMarker(s) && OneLine(s)
    ensures ScanStringAsWritten(s) == ScanString(s)
    decreases |s|
  {
    if |s| == 0 || s[0] == '"' {
    } else if s[0] == '\\' {
      if |s| >= 2 {
        assert forall i :: 0 <= i < |s[2..]| ==> s[2..][i] == s[i + 2];
        AsWrittenAgrees(s[2..]);
      }
    } else {
      assert !StartsComment(s);
      assert forall i :: 0 <= i < |s[1..]| ==> s[1..][i] == s[i + 1];
      AsWrittenAgrees(s[1..]);
    }
  }

  lemma {:induction false} NoNewlineRunsToEnd(s: string)
    requires OneLine(s)
    ensures LineLength(s) == |s|
    decreases |s|
  {
    if |s| > 0 {
      assert OneLine(s[1..]) by {
        assert forall i :: 0 <= i < |s[1..]| ==> s[1..][i] == s[i + 1];
      }
      NoNewlineRunsToEnd(s[1..]);
    }
  }

  /** `"//b"`: the as-written rule reads `//b"` as a comment and finds no
      closing quote, where the single-token reading finds the string `//b`. */
  lemma CommentSwallowsClosingQuote(b: string)
    requires IsStringBody(b)
    ensures ScanStringAsWritten("//" + b + "\"") == None
    ensures ScanString("//" + b + "\"") == Some(|b| + 2)
  {
    CommentToEndOfLine(b);
    MarkerInBody(b);
  }

  lemma CommentToEndOfLine(b: string)
    requires IsStringBody(b)
    ensures ScanStringAsWritten("//" + b + "\"") == None
  {
    var s := "//" + b + "\"";
    StringBodyShape(b);
    assert OneLine(s);
    NoNewlineRunsToEnd(s);
    assert StartsComment(s) && s[|s|..] == "";
  }

  lemma MarkerInBody(b: string)
    requires IsStringBody(b)
    ensures ScanString("//" + b + "\"") == Some(|b| + 2)
  {
    var s := "//" + b + "\"";
    assert s[..|b| + 2] == "//" + b;
    assert IsStringBody(("//" + b)[1..]) by {
      assert ("//" + b)[1..][1..] == b;
    }
    ScanStringFindsClosingQuote(s, |b| + 2);
  }

  /** `"` newline `b"`: the as-written rule skips the newline and closes the
      string after `b`, where the single-token reading stops at the newline. */
  lemma RawNewlineAccepted(b: string)
    requires IsStringBody(b) && NoCommentMarker(b)
    ensures ScanStringAsWritten("\n" + b + "\"") == Some(|b| + 1)
    ensures ScanString("\n" + b + "\"") == None
  {
    var s := "\n" + b + "\"";
    assert s[1..] == b + "\"";
    BodyThenQuote(b);
  }

  /** A body without `//`, then the closing quote, under the as-written rule. */
  lemma BodyThenQuote(b: string)
    requires IsStringBody(b) && NoCommentMarker(b)
    ensures ScanStringAsWritten(b + "\"") == Some(|b|)
  {
    var t := b + "\"";
    StringBodyShape(b);
    assert t[..|b|] == b;
    assert NoCommentMarker(t) && OneLine(t);
    AsWrittenAgrees(t);
    ScanStringFindsClosingQuote(t, |b|);
  }
}
