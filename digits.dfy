/** ASCII decimal digits, shared by the timestamp parser and the integer parser. */
module Digits {

  predicate IsDigit(c: char) {
    '0' <= c <= '9'
  }

  /** The number an ASCII digit stands for. */
  function DigitValue(c: char): (d: nat)
    requires IsDigit(c)
    ensures d <= 9
  {
    c as int - '0' as int
  }

  /** The ASCII digit that stands for d; DigitValue undoes it. */
  function DigitChar(d: nat): (c: char)
    requires d <= 9
    ensures IsDigit(c) && DigitValue(c) == d
  {
    ('0' as int + d) as char
  }

  /** Reading a digit and writing it back gives the same character. */
  lemma DigitCharOfValue(c: char)
    requires IsDigit(c)
    ensures DigitChar(DigitValue(c)) == c
  {
  }
}
