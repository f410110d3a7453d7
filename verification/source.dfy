/** The whole front end of a Ponos source file: the text is split into
    tokens (whitespace and `//` comments dropped) and the tokens are read as
    `source_file`, a sequence of statements running to the end of input. */
module Ponos {
  import opened Wrappers
  import opened Tokens
  import opened Lexer
  import opened LexerProperties
  import opened Ast
  import opened Precedence
  import opened Printer
  import opened Parser
  import opened RoundTrip
  import opened Soundness

  /** Why a source file was rejected: by the token rules or by the rules
      over tokens. */
  datatype SourceError = LexFailed(lex: LexError) | ParseFailed(parse: ParseError)

  /** `source_file: repeat(_statement)` over the text of a file. */
  function ParseSource(text: string): (r: Result<Program, SourceError>)
    ensures r.Ok? ==> CanonicalStmts(r.value)
    ensures r.Ok? ==> Lex(text).Ok? && ParseProgram(Lex(text).value) == Ok(r.value)
    ensures Lex(text).Err? ==> r == Err(LexFailed(Lex(text).error))
  {
    match Lex(text)
    case Err(e) => Err(LexFailed(e))
    case Ok(ts) =>
      match ParseProgram(ts)
      case Err(e) => Err(ParseFailed(e))
      case Ok(p) => Ok(p)
  }

  /** The statements of a program are read back from their tokens, and
      nothing is left over. */
  lemma ProgramRoundTrip(p: Program)
    requires CanonicalStmts(p)
    ensures ParseProgram(PrintStmts(p)) == Ok(p)
  {
    StmtsRoundTrip(p, []);
    assert PrintStmts(p) + [] == PrintStmts(p);
  }

  /** Every canonical program whose names, numbers and strings are valid
      tokens is read back from its own text, with one space after every
      token. */
  lemma SourceRoundTrip(p: Program)
    requires CanonicalStmts(p) && AllValid(PrintStmts(p))
    ensures ParseSource(Unlex(PrintStmts(p))) == Ok(p)
  {
    LexUnlex(PrintStmts(p));
    ProgramRoundTrip(p);
  }

  /** A file is accepted or rejected as a whole: trailing tokens that do not
      start a statement are an error naming the first of them. */
  lemma TrailingTokensRejected(p: Program, extra: seq<Token>)
    requires CanonicalStmts(p)
    requires |extra| > 0 && (extra[0] == KeywordTok(End) || extra[0] == KeywordTok(Else))
    ensures ParseProgram(PrintStmts(p) + extra) == Err(Expected(ExpectEndOfInput, Some(extra[0])))
  {
    StmtsRoundTrip(p, extra);
  }

  /** `source_file` over tokens, both directions: a token sequence is
      accepted as `p` exactly when `p` is canonical and the tokens are `p`'s
      own text. */
  lemma ProgramExactly(ts: seq<Token>, p: Program)
    ensures ParseProgram(ts) == Ok(p) <==> CanonicalStmts(p) && ts == PrintStmts(p)
  {
    ProgramSound(ts);
    if CanonicalStmts(p) && ts == PrintStmts(p) {
      ProgramRoundTrip(p);
    }
  }

  /** A file is accepted as `p` exactly when `p` is canonical and the file
      lexes to `p`'s tokens. */
  lemma SourceExactly(text: string, p: Program)
    ensures ParseSource(text) == Ok(p) <==> CanonicalStmts(p) && Lex(text) == Ok(PrintStmts(p))
  {
    if Lex(text).Ok? {
      ProgramExactly(Lex(text).value, p);
    }
  }

  /** An accepted file is the program's tokens, in order, with only
      whitespace and comments around and between them. */
  lemma SourceSound(text: string, p: Program)
    requires ParseSource(text) == Ok(p)
    ensures |Gaps(text)| == |PrintStmts(p)| + 1
    ensures text == Weave(Gaps(text), PrintStmts(p))
    ensures AllTrivia(Gaps(text))
  {
    SourceExactly(text, p);
    LexSound(text);
  }
}
