/** Lower-case hexadecimal, as keys and signatures are written. */
module Hex {
  import opened OptionWrapper

  type Byte = b: int | 0 <= b < 0x100

  function Digit(n: nat): (c: char)
    requires n < 16
  {
    if n < 10 then '0' + n as char else 'a' + (n - 10) as char
  }

  /** `hex_nibble`: upper case is refused. */
  function Nibble(c: char): (r: Option<nat>)
    ensures r.Some? ==> r.value < 16 && Digit(r.value) == c
  {
    if '0' <= c <= '9' then Some((c - '0') as nat)
    else if 'a' <= c <= 'f' then Some((c - 'a') as nat + 10)
    else None
  }

  lemma NibbleOfDigit(n: nat)
    requires n < 16
    ensures Nibble(Digit(n)) == Some(n)
  {
  }

  function Pair(b: Byte): (s: string)
    ensures |s| == 2
  {
    [Digit(b / 16), Digit(b % 16)]
  }

  function Encode(bytes: seq<Byte>): (s: string)
    ensures |s| == 2 * |bytes|
  {
    if bytes == [] then "" else Encode(bytes[..|bytes| - 1]) + Pair(bytes[|bytes| - 1])
  }

  lemma EncodePush(bytes: seq<Byte>, i: nat)
    requires i < |bytes|
    ensures Encode(bytes[..i + 1]) == Encode(bytes[..i]) + Pair(bytes[i])
  {
    assert bytes[..i + 1][..i] == bytes[..i];
  }

  method EncodeHex(bytes: seq<Byte>) returns (encoded: string)
    ensures encoded == Encode(bytes)
  {
    encoded := "";
    for i := 0 to |bytes|
      invariant encoded == Encode(bytes[..i])
    {
      EncodePush(bytes, i);
      encoded := encoded + [Digit(bytes[i] / 16)];
      encoded := encoded + [Digit(bytes[i] % 16)];
    }
    assert bytes[..|bytes|] == bytes;
  }

  lemma {:induction false} PairAt(bytes: seq<Byte>, i: nat)
    requires i < |bytes|
    ensures Encode(bytes)[2 * i] == Digit(bytes[i] / 16) && Encode(bytes)[2 * i + 1] == Digit(bytes[i] % 16)
  {
    if i < |bytes| - 1 { PairAt(bytes[..|bytes| - 1], i); }
  }

  lemma NoEncoding(n: nat, encoded: string, index: nat)
    requires |encoded| == 2 * n && index < n
    requires Nibble(encoded[2 * index]).None? || Nibble(encoded[2 * index + 1]).None?
    ensures forall bytes: seq<Byte> :: |bytes| == n ==> Encode(bytes) != encoded
  {
    forall bytes: seq<Byte> | |bytes| == n ensures Encode(bytes) != encoded {
      PairAt(bytes, index);
      NibbleOfDigit(bytes[index] / 16);
      NibbleOfDigit(bytes[index] % 16);
    }
  }

  /** Decoding `n` bytes succeeds on exactly the encodings of `n` bytes. */
  method DecodeHex(n: nat, encoded: string) returns (r: Option<seq<Byte>>)
    ensures r.Some? ==> |r.value| == n && Encode(r.value) == encoded
    ensures r.None? ==> forall bytes: seq<Byte> :: |bytes| == n ==> Encode(bytes) != encoded
  {
    if |encoded| != 2 * n { return None; }
    var decoded: seq<Byte> := [];
    for index := 0 to n
      invariant |decoded| == index && Encode(decoded) == encoded[..2 * index]
    {
      var high, low := Nibble(encoded[2 * index]), Nibble(encoded[2 * index + 1]);
      if high.None? || low.None? {
        NoEncoding(n, encoded, index);
        return None;
      }
      var byte: Byte := high.value * 16 + low.value;
      assert (decoded + [byte])[..index] == decoded;
      assert encoded[..2 * index + 2] == encoded[..2 * index] + Pair(byte);
      decoded := decoded + [byte];
    }
    assert encoded[..2 * n] == encoded;
    r := Some(decoded);
  }

  /** Two byte strings are never written alike. */
  lemma {:induction false} EncodeInjective(a: seq<Byte>, b: seq<Byte>)
    requires Encode(a) == Encode(b)
    ensures a == b
  {
    forall i | 0 <= i < |a| ensures a[i] == b[i] {
      PairAt(a, i);
      PairAt(b, i);
      NibbleOfDigit(a[i] / 16);
      NibbleOfDigit(b[i] / 16);
      NibbleOfDigit(a[i] % 16);
      NibbleOfDigit(b[i] % 16);
    }
  }
}
