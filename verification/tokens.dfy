/** The significant tokens of the Ponos grammar: the reserved words, the
    punctuation and operator strings, and the four token rules (identifier,
    number, string, bool), together with the spelling of each token. */
module Tokens {
  import opened Wrappers
  import opened Chars

  /** The reserved words that are not literals. */
  datatype Keyword =
    | Var         // пер
    | Return      // возврат
    | Func        // функ
    | End         // конец
    | If          // если
    | Else        // иначе
    | While       // пока
    | Class       // класс
    | Extends     // наследует
    | Implements  // реализует
    | And         // и
    | Or          // или

  /** The punctuation and operator strings. */
  datatype Sym =
    | LParen | RParen | Comma | Semicolon | Assign | Dot
    | Minus | Bang | Star | Slash | Plus
    | Lt | Le | Gt | Ge

  datatype Token =
    | IdentTok(name: string)
    | NumberTok(text: string)
    | StringTok(body: string)   // the raw text between the quotes, escapes kept
    | BoolTok(value: bool)
    | KeywordTok(kw: Keyword)
    | SymTok(sym: Sym)

  function KeywordText(k: Keyword): string {
    match k
    case Var => "пер"
    case Return => "возврат"
    case Func => "функ"
    case End => "конец"
    case If => "если"
    case Else => "иначе"
    case While => "пока"
    case Class => "класс"
    case Extends => "наследует"
    case Implements => "реализует"
    case And => "и"
    case Or => "или"
  }

  function BoolText(b: bool): string {
    if b then "истина" else "ложь"
  }

  function SymText(s: Sym): string {
    match s
    case LParen => "(" case RParen => ")" case Comma => "," case Semicolon => ";"
    case Assign => "=" case Dot => "." case Minus => "-" case Bang => "!"
    case Star => "*" case Slash => "/" case Plus => "+"
    case Lt => "<" case Le => "<=" case Gt => ">" case Ge => ">="
  }

  /** The exact source text of a token. */
  function Spell(t: Token): string {
    match t
    case IdentTok(n) => n
    case NumberTok(x) => x
    case StringTok(b) => "\"" + b + "\""
    case BoolTok(b) => BoolText(b)
    case KeywordTok(k) => KeywordText(k)
    case SymTok(s) => SymText(s)
  }

  /** The token a whole word denotes when it is reserved; reserved words take
      priority over the identifier rule. */
  function ReservedWord(w: string): (r: Option<Token>)
    ensures r.Some? ==> Spell(r.value) == w && (r.value.KeywordTok? || r.value.BoolTok?)
  {
    if w == "пер" then Some(KeywordTok(Var))
    else if w == "возврат" then Some(KeywordTok(Return))
    else if w == "функ" then Some(KeywordTok(Func))
    else if w == "конец" then Some(KeywordTok(End))
    else if w == "если" then Some(KeywordTok(If))
    else if w == "иначе" then Some(KeywordTok(Else))
    else if w == "пока" then Some(KeywordTok(While))
    else if w == "класс" then Some(KeywordTok(Class))
    else if w == "наследует" then Some(KeywordTok(Extends))
    else if w == "реализует" then Some(KeywordTok(Implements))
    else if w == "и" then Some(KeywordTok(And))
    else if w == "или" then Some(KeywordTok(Or))
    else if w == "истина" then Some(BoolTok(true))
    else if w == "ложь" then Some(BoolTok(false))
    else None
  }

  /** Every reserved word is recognised as exactly its own token. */
  lemma ReservedWordOfSpelling(t: Token)
    requires t.KeywordTok? || t.BoolTok?
    ensures ReservedWord(Spell(t)) == Some(t)
  {
  }

  /** identifier: `[\p{XID_Start}_][\p{XID_Continue}_]*`. */
  predicate IsIdentifier(w: string) {
    && |w| > 0
    && IsIdentStart(w[0])
    && forall i :: 1 <= i < |w| ==> IsIdentPart(w[i])
  }

  /** number: `[0-9]+(\.[0-9]+)?` -- digits, with at most one `.`, which is
      neither first nor last. */
  predicate IsNumberText(x: string) {
    && |x| > 0
    && IsDigit(x[0])
    && IsDigit(x[|x| - 1])
    && (forall i :: 0 <= i < |x| ==> IsDigit(x[i]) || x[i] == '.')
    && (forall i, j :: 0 <= i < j < |x| && x[i] == '.' ==> x[j] != '.')
  }

  /** The body of a string: a repetition of either a character other than
      `"`, `\` and newline, or a `\` followed by any character but a newline. */
  predicate IsStringBody(b: string)
    decreases |b|
  {
    || |b| == 0
    || (b[0] != '"' && b[0] != '\\' && b[0] != '\n' && IsStringBody(b[1..]))
    || (|b| >= 2 && b[0] == '\\' && b[1] != '\n' && IsStringBody(b[2..]))
  }

  /** A token the lexer can produce. */
  predicate ValidToken(t: Token) {
    match t
    case IdentTok(n) => IsIdentifier(n) && ReservedWord(n).None?
    case NumberTok(x) => IsNumberText(x)
    case StringTok(b) => IsStringBody(b)
    case _ => true
  }

  predicate AllValid(ts: seq<Token>) {
    forall i :: 0 <= i < |ts| ==> ValidToken(ts[i])
  }
}
