/** The character classes of the patterns, kept abstract beyond ASCII so that every Unicode word
    character, decimal digit and space is covered. */
module Characters {

  /** A decimal digit. */
  newtype Digit = d: int | 0 <= d <= 9

  datatype Alphabet = Alphabet(
    isWord: char -> bool,
    isDigit: char -> bool,
    isSpace: char -> bool,
    value: char -> Digit)
  {

    /** What the results need of Unicode: digits are word characters, and ASCII characters are
        in the classes one expects. */
    ghost predicate Sound() {
      && (forall c :: isDigit(c) ==> isWord(c))
      && (forall c :: c as int < 128 ==> (isWord(c) <==> IsAsciiWord(c)))
      && (forall c :: c as int < 128 ==> (isDigit(c) <==> IsAsciiDigit(c)))
      && (forall c :: c as int < 128 ==> (isSpace(c) <==> IsAsciiSpace(c)))
      && (forall c :: IsAsciiDigit(c) ==> value(c) == DigitOf(c))
    }
  }

  predicate IsAsciiDigit(c: char) {
    '0' <= c <= '9'
  }

  predicate IsAsciiWord(c: char) {
    IsAsciiDigit(c) || 'a' <= c <= 'z' || 'A' <= c <= 'Z' || c == '_'
  }

  predicate IsAsciiSpace(c: char) {
    c == ' ' || 9 <= c as int <= 13 || 28 <= c as int <= 31
  }

  function DigitOf(c: char): Digit {
    if IsAsciiDigit(c) then (c as int - '0' as int) as Digit else 0
  }

  /** The ASCII part of Unicode is an instance. */
  const ASCII := Alphabet(IsAsciiWord, IsAsciiDigit, IsAsciiSpace, DigitOf)

  lemma AsciiIsSound()
    ensures ASCII.Sound()
  {
  }

  /** A word boundary, `\b`, before position `i`. */
  predicate Boundary(abc: Alphabet, s: string, i: nat)
    requires i <= |s|
  {
    (i > 0 && abc.isWord(s[i - 1])) != (i < |s| && abc.isWord(s[i]))
  }
}
