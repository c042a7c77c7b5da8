/** Character classes: the alphabets, and those of Python's str methods. */
module Chars {

  const CAPITALS: set<char> := {
    'A', 'B', 'C', 'D', 'E', 'F', 'G', 'H', 'I', 'J', 'K', 'L', 'M',
    'N', 'O', 'P', 'Q', 'R', 'S', 'T', 'U', 'V', 'W', 'X', 'Y', 'Z'}
  const SMALL: set<char> := {
    'a', 'b', 'c', 'd', 'e', 'f', 'g', 'h', 'i', 'j', 'k', 'l', 'm',
    'n', 'o', 'p', 'q', 'r', 's', 't', 'u', 'v', 'w', 'x', 'y', 'z'}
  const DIGITS: set<char> := {'0', '1', '2', '3', '4', '5', '6', '7', '8', '9'}
  const ALPHANUMERIC: set<char> := CAPITALS + SMALL + DIGITS

  lemma CapitalIs(c: char)
    ensures c in CAPITALS <==> 'A' <= c <= 'Z'
  {
  }

  lemma SmallIs(c: char)
    ensures c in SMALL <==> 'a' <= c <= 'z'
  {
  }

  lemma DigitIs(c: char)
    ensures c in DIGITS <==> '0' <= c <= '9'
  {
  }

  lemma AlphanumericIs(c: char)
    ensures c in ALPHANUMERIC <==> 'A' <= c <= 'Z' || 'a' <= c <= 'z' || '0' <= c <= '9'
  {
    hide CAPITALS, SMALL, DIGITS;
    CapitalIs(c);
    SmallIs(c);
    DigitIs(c);
  }

  /** str.isspace for one character. */
  predicate IsSpace(c: char) {
    c in {'\t', '\n', '\U{0B}', '\U{0C}', '\r', '\U{1C}', '\U{1D}', '\U{1E}', '\U{1F}', ' ', '\U{85}', '\U{A0}',
          '\U{1680}', '\U{2028}', '\U{2029}', '\U{202F}', '\U{205F}', '\U{3000}'}
    || '\U{2000}' <= c <= '\U{200A}'
  }

  /** The characters at which str.splitlines ends a line. */
  predicate IsBreak(c: char) {
    c in {'\n', '\U{0B}', '\U{0C}', '\r', '\U{1C}', '\U{1D}', '\U{1E}', '\U{85}', '\U{2028}', '\U{2029}'}
  }

  /** The same by code points. */
  lemma SpacesAre(c: char)
    ensures var k := c as int;
      IsSpace(c) <==>
        9 <= k <= 13 || 28 <= k <= 32 || k in {133, 160, 5760, 8232, 8233, 8239, 8287, 12288} || 8192 <= k <= 8202
  {
  }

  lemma BreaksAre(c: char)
    ensures IsBreak(c) <==> 10 <= c as int <= 13 || 28 <= c as int <= 30 || c as int in {133, 8232, 8233}
    ensures IsBreak(c) ==> IsSpace(c)
  {
  }
}
