/**
 * txtcypher's decypher: character i of a line is shifted back by the key and
 * by i mod 3 into a fresh buffer of size + 1 characters; the line ends at the
 * first newline or NUL, which is written as a newline and a terminator.
 */
module TextCipher {
  import opened CChars

  const Newline: SChar := 10
  const Nul: SChar := 0

  /** A character at which decypher stops. */
  predicate IsStop(c: SChar) {
    c == Newline || c == Nul
  }

  /** The range of a 32-bit `int`. */
  predicate IsInt32(x: int) {
    -0x8000_0000 <= x < 0x8000_0000
  }

  /**
   * The key for which `str[i] - key - i % 3` stays within `int` for every
   * char and every i: signed overflow there is undefined in C.
   */
  predicate KeyFits(key: int) {
    IsInt32(127 - key) && IsInt32(-128 - key - 2)
  }

  /** Character i of the line, decyphered: `str[i] - key - i % 3`, stored into a char. */
  function Decoded(c: SChar, key: int, i: nat): SChar {
    ToChar(c - key - i % 3)
  }

  /** The shift decypher undoes: character i moved forwards by the key and by i mod 3. */
  function Encoded(c: SChar, key: int, i: nat): SChar {
    ToChar(c + key + i % 3)
  }

  /** Decyphering undoes the shift, character by character. */
  lemma DecodedUndoesShift(c: SChar, key: int, i: nat)
    ensures Decoded(Encoded(c, key, i), key, i) == c
    ensures Encoded(Decoded(c, key, i), key, i) == c
  {
    ShiftBack(c, key + i % 3);
  }

  /**
   * The characters from `from` on can be read until decypher stops: either
   * all of the first `size` are there, or a stop character is.
   */
  predicate Readable(str: seq<SChar>, size: nat, from: nat) {
    size <= |str| || exists j :: from <= j < |str| && IsStop(str[j])
  }

  /** The position at which decypher stops when it starts at `from`: the first stop character, or size. */
  function StopFrom(str: seq<SChar>, size: nat, from: nat): (r: nat)
    requires from <= size && Readable(str, size, from)
    ensures from <= r <= size
    ensures r < size ==> r < |str| && IsStop(str[r])
    ensures forall k :: from <= k < r ==> k < |str| && !IsStop(str[k])
    decreases size - from
  {
    if from == size then size
    else if IsStop(str[from]) then from
    else StopFrom(str, size, from + 1)
  }

  /** Where decypher stops. */
  function Stop(str: seq<SChar>, size: nat): nat
    requires Readable(str, size, 0)
  {
    StopFrom(str, size, 0)
  }

  /**
   * decypher(str, size, key). The buffer malloc returns has indeterminate
   * contents: `garbage` stands for them, and the result keeps them wherever
   * decypher writes nothing.
   */
  method Decypher(str: seq<SChar>, size: nat, key: int, garbage: seq<SChar>) returns (output: array<SChar>)
    requires Readable(str, size, 0) && IsInt32(size + 1) && IsInt32(key) && KeyFits(key)
    requires |garbage| == size + 1
    ensures output.Length == size + 1
    ensures forall i :: 0 <= i < Stop(str, size) ==> output[i] == Decoded(str[i], key, i)
    ensures Stop(str, size) < size ==> output[Stop(str, size)] == Newline && output[Stop(str, size) + 1] == Nul
    ensures Stop(str, size) < size ==> forall i :: Stop(str, size) + 2 <= i <= size ==> output[i] == garbage[i]
    ensures Stop(str, size) == size ==> output[size] == garbage[size]
  {
    output := new SChar[size + 1](j requires 0 <= j < size + 1 => garbage[j]);
    var i := 0;
    while i < size
      invariant i <= Stop(str, size)
      invariant Readable(str, size, i) && StopFrom(str, size, i) == Stop(str, size)
      invariant forall k :: 0 <= k < i ==> output[k] == Decoded(str[k], key, k)
      invariant forall k :: i <= k <= size ==> output[k] == garbage[k]
    {
      if str[i] == Newline || str[i] == Nul {
        output[i] := Newline;
        output[i + 1] := Nul;
        break;
      }
      var value := ToChar(str[i] as int - key - i % 3);
      output[i] := value;
      i := i + 1;
    }
  }
}
