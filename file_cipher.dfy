/**
 * filecypher: every byte of a file is shifted by a byte of the key chosen by
 * `hash`, forwards to encrypt and backwards to decrypt. The file's bytes are
 * the buffer `crypt` reads them into; opening, removing and rewriting the
 * file are not modelled.
 */
module FileCipher {
  import opened CChars

  /** The number of values of a 64-bit `size_t`. */
  const SizeRange: nat := 0x1_0000_0000_0000_0000

  /**
   * hash: `i + c` is computed in `size_t`, so a negative key byte is taken
   * modulo 2^64 before the remainder by the key length.
   */
  function Hash(length: nat, i: nat, c: SChar): (h: nat)
    requires length > 0 && i < SizeRange
    ensures h < length
    ensures 0 <= i + c < SizeRange ==> h == (i + c) % length
  {
    ((i + c) % SizeRange) % length
  }

  datatype Mode = Encrypt | Decrypt

  /** crypt's `state`: 0 encrypts, anything else decrypts. */
  function ModeOf(state: int): Mode {
    if state == 0 then Encrypt else Decrypt
  }

  /** The key byte that shifts byte i of the buffer. */
  function KeyByte(key: seq<SChar>, i: nat): SChar
    requires |key| > 0 && i < SizeRange
  {
    key[Hash(|key|, i, key[i % |key|])]
  }

  /** One byte after crypt: shifted by k, forwards or backwards, and stored back into a char. */
  function Shifted(b: SChar, k: SChar, mode: Mode): SChar {
    if mode == Encrypt then ToChar(b + k) else ToChar(b - k)
  }

  /** The whole buffer after crypt. */
  function Crypted(data: seq<SChar>, key: seq<SChar>, mode: Mode): seq<SChar>
    requires |key| > 0 || |data| == 0
    requires |data| <= SizeRange
  {
    seq(|data|, i requires 0 <= i < |data| => Shifted(data[i], KeyByte(key, i), mode))
  }

  /**
   * The loop of crypt over the buffer. The key length is strlen(key), and
   * `i % length` divides by it, so the key must be non-empty unless the
   * buffer is.
   */
  method Crypt(buffer: array<SChar>, key: CString, state: int)
    requires |key| > 0 || buffer.Length == 0
    requires buffer.Length <= SizeRange
    modifies buffer
    ensures buffer[..] == Crypted(old(buffer[..]), key, ModeOf(state))
  {
    var length := |key|;
    var i := 0;
    while i < buffer.Length
      invariant 0 <= i <= buffer.Length
      invariant forall j :: 0 <= j < i ==> buffer[j] == Shifted(old(buffer[j]), KeyByte(key, j), ModeOf(state))
      invariant forall j :: i <= j < buffer.Length ==> buffer[j] == old(buffer[j])
    {
      var k := key[Hash(length, i, key[i % length])];
      assert k == KeyByte(key, i);
      if state == 0 {
        buffer[i] := ToChar(buffer[i] as int + k);
      } else {
        buffer[i] := ToChar(buffer[i] as int - k);
      }
      i := i + 1;
    }
  }

  /** Decrypting with the key undoes encrypting with it, and the other way round. */
  lemma CryptRoundTrip(data: seq<SChar>, key: seq<SChar>)
    requires |key| > 0 || |data| == 0
    requires |data| <= SizeRange
    ensures Crypted(Crypted(data, key, Encrypt), key, Decrypt) == data
    ensures Crypted(Crypted(data, key, Decrypt), key, Encrypt) == data
  {
    var up := Crypted(data, key, Encrypt);
    var down := Crypted(data, key, Decrypt);
    forall i | 0 <= i < |data|
      ensures Crypted(up, key, Decrypt)[i] == data[i] && Crypted(down, key, Encrypt)[i] == data[i]
    {
      ShiftBack(data[i], KeyByte(key, i));
    }
  }

  /** Byte i after crypt depends only on byte i before it, on i and on the key. */
  lemma CryptIsBytewise(a: seq<SChar>, b: seq<SChar>, key: seq<SChar>, mode: Mode, i: nat)
    requires |key| > 0 && |a| <= SizeRange && |b| <= SizeRange
    requires i < |a| && i < |b| && a[i] == b[i]
    ensures |Crypted(a, key, mode)| == |a|
    ensures Crypted(a, key, mode)[i] == Crypted(b, key, mode)[i]
  {
  }

  /** C's strcmp: the difference of the first differing bytes, read as unsigned char. */
  function Strcmp(a: CString, b: CString): (r: int)
    ensures r == 0 <==> a == b
    decreases |a|
  {
    if a == [] || b == [] || a[0] != b[0] then Unsigned(a) - Unsigned(b)
    else Strcmp(a[1..], b[1..])
  }

  /** The first byte of a C string as unsigned char; the terminator reads 0. */
  function Unsigned(s: CString): (u: nat)
    ensures u < 256 && (u == 0 <==> s == [])
  {
    if s == [] then 0 else (s[0] as int) % 256
  }

  /** The string "0". */
  const Zero: CString := [48]

  /**
   * main: exit status 1 unless argc is 4 (the program and three
   * arguments); otherwise the file is encrypted when argv[3] is exactly
   * "0" and decrypted for any other text, with argv[2] as key.
   */
  method Run(args: seq<CString>, buffer: array<SChar>) returns (status: int)
    requires |args| == 4 ==> |args[2]| > 0 || buffer.Length == 0
    requires buffer.Length <= SizeRange
    modifies buffer
    ensures |args| != 4 ==> status == 1 && buffer[..] == old(buffer[..])
    ensures |args| == 4 ==>
      status == 0 && buffer[..] == Crypted(old(buffer[..]), args[2], if args[3] == Zero then Encrypt else Decrypt)
  {
    if |args| != 4 {
      return 1;
    }
    var state := 0;
    if Strcmp(args[3], Zero) == 0 {
      state := 0;
    } else {
      state := 1;
    }
    Crypt(buffer, args[2], state);
    return 0;
  }
}
