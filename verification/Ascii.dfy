/** The character classes of the C library's ctype functions, as Mona's ASCII
    table has them. */
module Ascii {

  predicate IsSpace(c: char)
  {
    '\t' <= c <= '\r' || c == ' '
  }

  predicate IsAlpha(c: char)
  {
    'a' <= c <= 'z' || 'A' <= c <= 'Z'
  }

  predicate IsXml(c: char)
  {
    IsAlpha(c) || '0' <= c <= '9' || c in "-.:_"
  }

  function ToLower(c: char): char
  {
    if 'A' <= c <= 'Z' then c + ' ' else c
  }

  /** Equal but for the case of letters. */
  predicate SameLetters(a: string, b: string)
  {
    |a| == |b| && forall i :: 0 <= i < |a| ==> ToLower(a[i]) == ToLower(b[i])
  }
}
