/** Character classes, spelled out. */
module Alphabets {
  const HEX := "0123456789abcdef"
  const UPPER := "ABCDEFGHIJKLMNOPQRSTUVWXYZ"
  const LOWER := "abcdefghijklmnopqrstuvwxyz"
  const DIGITS := "0123456789"

  ghost predicate LetterOrDigit(ch: char) {
    ch in UPPER || ch in LOWER || ch in DIGITS
  }

  lemma HexExact(ch: char)
    ensures '0' <= ch <= '9' || 'a' <= ch <= 'f' <==> ch in HEX
  {
    if '0' <= ch <= '9' { assert HEX[ch as int - '0' as int] == ch; }
    if 'a' <= ch <= 'f' { assert HEX[ch as int - 'a' as int + 10] == ch; }
  }

  lemma UpperExact(ch: char)
    ensures 'A' <= ch <= 'Z' <==> ch in UPPER
  {
    if 'A' <= ch <= 'Z' { assert UPPER[ch as int - 'A' as int] == ch; }
  }

  lemma LowerExact(ch: char)
    ensures 'a' <= ch <= 'z' <==> ch in LOWER
  {
    if 'a' <= ch <= 'z' { assert LOWER[ch as int - 'a' as int] == ch; }
  }

  lemma DigitsExact(ch: char)
    ensures '0' <= ch <= '9' <==> ch in DIGITS
  {
    if '0' <= ch <= '9' { assert DIGITS[ch as int - '0' as int] == ch; }
  }

  lemma LetterOrDigitExact(ch: char)
    ensures 'A' <= ch <= 'Z' || 'a' <= ch <= 'z' || '0' <= ch <= '9' <==> LetterOrDigit(ch)
  {
    UpperExact(ch);
    LowerExact(ch);
    DigitsExact(ch);
  }
}
