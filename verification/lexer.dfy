/** The lexical layer of the Ponos grammar: whitespace and `//` comments are
    trivia (the `extras` of the grammar), everything else is split into
    tokens by longest match, a whole word that is a reserved word becoming
    that keyword. */
module Lexer {
  import opened Wrappers
  import opened Chars
  import opened Tokens

  datatype LexError =
    | UnterminatedString          // a `"` with no closing quote before a newline or the end
    | IllegalCharacter(c: char)   // a character no token rule starts with

  /** Length of the longest prefix of digits. */
  function DigitRun(s: string): (n: nat)
    ensures n <= |s|
    ensures forall i :: 0 <= i < n ==> IsDigit(s[i])
    ensures n < |s| ==> !IsDigit(s[n])
  {
    if |s| == 0 || !IsDigit(s[0]) then 0 else 1 + DigitRun(s[1..])
  }

  /** Length of the longest prefix of identifier characters. */
  function IdentRun(s: string): (n: nat)
    ensures n <= |s|
    ensures forall i :: 0 <= i < n ==> IsIdentPart(s[i])
    ensures n < |s| ==> !IsIdentPart(s[n])
  {
    if |s| == 0 || !IsIdentPart(s[0]) then 0 else 1 + IdentRun(s[1..])
  }

  /** Length of the rest of the line: the `.*` of a comment stops before a newline. */
  function LineLength(s: string): (n: nat)
    ensures n <= |s|
    ensures forall i :: 0 <= i < n ==> s[i] != '\n'
    ensures n < |s| ==> s[n] == '\n'
  {
    if |s| == 0 || s[0] == '\n' then 0 else 1 + LineLength(s[1..])
  }

  predicate StartsComment(s: string) {
    |s| >= 2 && s[0] == '/' && s[1] == '/'
  }

  /** The longest number token at the start of `s`. */
  function ScanNumber(s: string): (n: nat)
    requires |s| > 0 && IsDigit(s[0])
    ensures 0 < n <= |s|
    ensures IsNumberText(s[..n])
    ensures n < |s| ==> !IsDigit(s[n])
    ensures n + 1 < |s| && s[n] == '.' && IsDigit(s[n + 1]) ==> exists i :: 0 <= i < n && s[i] == '.'
  {
    var k := DigitRun(s);
    if k + 1 < |s| && s[k] == '.' && IsDigit(s[k + 1]) then
      var m := DigitRun(s[k + 1..]);
      assert s[k + 1..][0] == s[k + 1];
      assert forall i :: k + 1 <= i < k + 1 + m ==> s[i] == s[k + 1..][i - (k + 1)];
      k + 1 + m
    else
      k
  }

  /** Scans a string body (the text after the opening quote); `Some(k)` when
      the closing quote is at index `k`. */
  function ScanString(s: string): (r: Option<nat>)
    ensures r.Some? ==> r.value < |s| && s[r.value] == '"' && IsStringBody(s[..r.value])
    decreases |s|
  {
    if |s| == 0 || s[0] == '\n' then None
    else if s[0] == '"' then Some(0)
    else if s[0] == '\\' then
      if |s| < 2 || s[1] == '\n' then None
      else match ScanString(s[2..])
        case None => None
        case Some(k) =>
          assert s[..k + 2][2..] == s[2..][..k];
          Some(k + 2)
    else match ScanString(s[1..])
      case None => None
      case Some(k) =>
        assert s[..k + 1][1..] == s[1..][..k];
        Some(k + 1)
  }

  /** The punctuation or operator string at the start of `s`, longest first. */
  function ScanSym(s: string): (r: Option<(Sym, nat)>)
    requires |s| > 0
    ensures r.Some? ==> r.value.1 <= |s| && SymText(r.value.0) == s[..r.value.1]
  {
    match s[0]
    case '(' => Some((LParen, 1))
    case ')' => Some((RParen, 1))
    case ',' => Some((Comma, 1))
    case ';' => Some((Semicolon, 1))
    case '=' => Some((Assign, 1))
    case '.' => Some((Dot, 1))
    case '-' => Some((Minus, 1))
    case '!' => Some((Bang, 1))
    case '*' => Some((Star, 1))
    case '/' => Some((Slash, 1))
    case '+' => Some((Plus, 1))
    case '<' => if |s| >= 2 && s[1] == '=' then Some((Le, 2)) else Some((Lt, 1))
    case '>' => if |s| >= 2 && s[1] == '=' then Some((Ge, 2)) else Some((Gt, 1))
    case _ => None
  }

  /** A word becomes the reserved token it spells, or else an identifier. */
  function ClassifyWord(w: string): (t: Token)
    ensures Spell(t) == w
    ensures t.IdentTok? <==> ReservedWord(w).None?
  {
    match ReservedWord(w)
    case Some(t) => t
    case None => IdentTok(w)
  }

  /** The significant token at the start of `s` and its length. */
  function NextToken(s: string): (r: Result<(Token, nat), LexError>)
    requires |s| > 0 && !IsSpace(s[0]) && !StartsComment(s)
    ensures r.Ok? ==> 0 < r.value.1 <= |s| && Spell(r.value.0) == s[..r.value.1]
    ensures r.Ok? ==> ValidToken(r.value.0)
    ensures r.Ok? && IsIdentStart(s[0]) ==> r.value.1 == |s| || !IsIdentPart(s[r.value.1])
    ensures r.Err? ==> (r.error == UnterminatedString <==> s[0] == '"')
  {
    if IsDigit(s[0]) then
      var n := ScanNumber(s);
      Ok((NumberTok(s[..n]), n))
    else if s[0] == '"' then
      match ScanString(s[1..])
      case None => Err(UnterminatedString)
      case Some(k) =>
        assert s[..k + 2] == [s[0]] + s[1..][..k] + [s[1..][k]];
        Ok((StringTok(s[1..][..k]), k + 2))
    else if IsIdentStart(s[0]) then
      var n := IdentRun(s);
      var w := s[..n];
      assert IsIdentifier(w);
      Ok((ClassifyWord(w), n))
    else
      match ScanSym(s)
      case None => Err(IllegalCharacter(s[0]))
      case Some((p, n)) => Ok((SymTok(p), n))
  }

  /** source text -> tokens, dropping whitespace and comments. */
  function Lex(s: string): (r: Result<seq<Token>, LexError>)
    ensures r.Ok? ==> AllValid(r.value)
    decreases |s|
  {
    if |s| == 0 then Ok([])
    else if IsSpace(s[0]) then Lex(s[1..])
    else if StartsComment(s) then Lex(s[2 + LineLength(s[2..])..])
    else
      var tn :- NextToken(s);
      var rest :- Lex(s[tn.1..]);
      Ok([tn.0] + rest)
  }

  /** tokens -> source text, each token followed by one space. */
  function Unlex(ts: seq<Token>): string {
    if |ts| == 0 then "" else Spell(ts[0]) + " " + Unlex(ts[1..])
  }
}
