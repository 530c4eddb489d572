/**
 * C's plain `char`, signed and eight bits wide as on the usual ABIs, and the
 * conversion that stores an `int` result back into one.
 */
module CChars {

  /** A signed 8-bit character. */
  type SChar = x: int | -128 <= x < 128

  /** A C string: the characters before its terminating NUL. */
  type CString = s: seq<SChar> | forall i :: 0 <= i < |s| ==> s[i] != 0

  /** Storing an int into a char keeps it modulo 256, in the signed range. */
  function ToChar(x: int): (c: SChar)
    ensures (c - x) % 256 == 0
  {
    (x + 128) % 256 - 128
  }

  /** ToChar leaves a value already in the char range alone. */
  lemma ToCharOfChar(c: SChar)
    ensures ToChar(c) == c
  {
  }

  /** Adding k and then taking it away again, each time stored into a char, gives back the character. */
  lemma ShiftBack(c: SChar, k: int)
    ensures ToChar(ToChar(c + k) - k) == c
    ensures ToChar(ToChar(c - k) + k) == c
  {
    SameClass(ToChar(c + k) - k, c);
    SameClass(ToChar(c - k) + k, c);
  }

  /** Values congruent modulo 256 are stored as the same char. */
  lemma SameClass(x: int, y: int)
    requires (x - y) % 256 == 0
    ensures ToChar(x) == ToChar(y)
  {
    var q := (x - y) / 256;
    assert x + 128 == (y + 128) + 256 * q;
  }
}
