/** Character classes used by the token rules of the Ponos grammar. */
module Chars {

  /** `[0-9]` in the number rule. */
  predicate IsDigit(c: char) {
    '0' <= c <= '9'
  }

  /** `\s` in the extras: the Unicode White_Space property. */
  predicate IsSpace(c: char) {
    || '\t' <= c <= '\r'
    || c == ' '
    || c == '\U{0085}'
    || c == '\U{00A0}'
    || c == '\U{1680}'
    || '\U{2000}' <= c <= '\U{200A}'
    || c == '\U{2028}'
    || c == '\U{2029}'
    || c == '\U{202F}'
    || c == '\U{205F}'
    || c == '\U{3000}'
  }

  /** The letters of XID_Start inside the Basic Latin, Latin-1 and Cyrillic blocks. */
  predicate IsXidStart(c: char) {
    || 'A' <= c <= 'Z'
    || 'a' <= c <= 'z'
    || c == '\U{00AA}' || c == '\U{00B5}' || c == '\U{00BA}'
    || '\U{00C0}' <= c <= '\U{00D6}'
    || '\U{00D8}' <= c <= '\U{00F6}'
    || '\U{00F8}' <= c <= '\U{00FF}'
    || '\U{0400}' <= c <= '\U{0481}'
    || '\U{048A}' <= c <= '\U{052F}'
  }

  /** XID_Continue over the same blocks: the starters, digits, the middle dot and
      the combining Cyrillic marks. */
  predicate IsXidContinue(c: char) {
    || IsXidStart(c)
    || IsDigit(c)
    || c == '\U{00B7}'
    || '\U{0483}' <= c <= '\U{0487}'
  }

  /** `[\p{XID_Start}_]`: first character of an identifier. */
  predicate IsIdentStart(c: char) {
    c == '_' || IsXidStart(c)
  }

  /** `[\p{XID_Continue}_]`: later characters of an identifier. */
  predicate IsIdentPart(c: char) {
    c == '_' || IsXidContinue(c)
  }

  /** The classes the lexer dispatches on are disjoint where it needs them to be:
      a digit never starts an identifier, and no identifier character is
      whitespace, a quote, a slash or a dot. */
  lemma ClassesDisjoint(c: char)
    ensures IsDigit(c) ==> !IsIdentStart(c) && IsIdentPart(c)
    ensures IsIdentStart(c) ==> IsIdentPart(c)
    ensures IsIdentPart(c) ==> !IsSpace(c) && c != '"' && c != '/' && c != '.'
  {
  }
}
