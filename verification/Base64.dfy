/**
 `btoa` and `atob`. The decoder shifts six bits at a time into one 32-bit accumulator that
 it never masks, so the accumulator overflows on any text of more than five characters.
 */
module Base64 {
  import opened ResultWrapper
  import opened Unicode

  type Sextet = v: int | 0 <= v < 64

  const PAD: Unit := 61  // '='

  function Digit(v: Sextet): (u: Unit)
  {
    if v < 26 then 65 + v else if v < 52 then 71 + v else if v < 62 then v - 4 else if v == 62 then 43 else 47
  }

  /** `alphabet.indexOf`. */
  function IndexOf(u: Unit): (r: int)
    ensures -1 <= r < 64
    ensures r >= 0 ==> Digit(r) == u
    ensures forall v: Sextet :: Digit(v) == u ==> r == v
  {
    if 65 <= u <= 90 then u - 65 else if 97 <= u <= 122 then u - 71 else if 48 <= u <= 57 then u + 4
    else if u == 43 then 62 else if u == 47 then 63 else -1
  }

  // ---------------------------------------------------------------- section 4 of RFC 4648

  /** Three bytes as four groups of six bits, and back. */
  function Quad(a: Byte, b: Byte, c: Byte): (v: seq<Sextet>)
    ensures |v| == 4
  {
    [a / 4, a % 4 * 16 + b / 16, b % 16 * 4 + c / 64, c % 64]
  }

  function First(x: int, y: int): int { x * 4 + y / 16 }
  function Second(x: int, y: int): int { x % 16 * 16 + y / 4 }
  function Third(x: int, y: int): int { x % 4 * 64 + y }

  function Triple(x: Sextet, y: Sextet, z: Sextet, w: Sextet): (b: seq<Byte>)
    ensures |b| == 3
  {
    [First(x, y), Second(y, z), Third(z, w)]
  }

  /** The bit string of `b` in groups of six, the last one filled up with zeros. */
  function Sextets(b: seq<Byte>): (v: seq<Sextet>)
  {
    if b == [] then []
    else if |b| == 1 then Quad(b[0], 0, 0)[..2]
    else if |b| == 2 then Quad(b[0], b[1], 0)[..3]
    else Quad(b[0], b[1], b[2]) + Sextets(b[3..])
  }

  /** The bit string of `v` in groups of eight, an unfinished one dropped. */
  function Bytes(v: seq<Sextet>): (b: seq<Byte>)
  {
    if |v| < 2 then []
    else if |v| == 2 then Triple(v[0], v[1], 0, 0)[..1]
    else if |v| == 3 then Triple(v[0], v[1], v[2], 0)[..2]
    else Triple(v[0], v[1], v[2], v[3]) + Bytes(v[4..])
  }

  function Digits(v: seq<Sextet>): (r: seq<Unit>)
    ensures |r| == |v| && forall i :: 0 <= i < |v| ==> r[i] == Digit(v[i])
  {
    seq(|v|, i requires 0 <= i < |v| => Digit(v[i]))
  }

  function Padding(n: nat): (r: seq<Unit>)
  {
    if n % 3 == 0 then [] else if n % 3 == 1 then [PAD, PAD] else [PAD]
  }

  function Encoded(b: seq<Byte>): (r: seq<Unit>)
  {
    Digits(Sextets(b)) + Padding(|b|)
  }

  lemma TripleOfQuad(a: Byte, b: Byte, c: Byte)
    ensures var q := Quad(a, b, c); Triple(q[0], q[1], q[2], q[3]) == [a, b, c]
    ensures b == 0 && c == 0 ==> Quad(a, b, c)[2] == 0
    ensures c == 0 ==> Quad(a, b, c)[3] == 0
  {
    var y, z := a % 4 * 16 + b / 16, b % 16 * 4 + c / 64;
    assert y / 16 == a % 4 && y % 16 == b / 16;
    assert z / 4 == b % 16 && z % 4 == c / 64;
  }

  /** The first bytes of a group do not depend on its last values. */
  lemma TripleUnused(v: seq<Sextet>)
    requires |v| == 4
    ensures Triple(v[0], v[1], 0, 0)[..1] == Triple(v[0], v[1], v[2], v[3])[..1]
    ensures Triple(v[0], v[1], v[2], 0)[..2] == Triple(v[0], v[1], v[2], v[3])[..2]
  {
  }

  lemma {:induction false} BytesOfSextets(b: seq<Byte>)
    ensures Bytes(Sextets(b)) == b
    decreases |b|
  {
    hide Quad, Triple;
    if b == [] {
    } else if |b| == 1 {
      TripleOfQuad(b[0], 0, 0);
      TripleUnused(Quad(b[0], 0, 0));
    } else if |b| == 2 {
      TripleOfQuad(b[0], b[1], 0);
      TripleUnused(Quad(b[0], b[1], 0));
    } else {
      TripleOfQuad(b[0], b[1], b[2]);
      assert Sextets(b)[4..] == Sextets(b[3..]);
      BytesOfSextets(b[3..]);
      assert b == [b[0], b[1], b[2]] + b[3..];
    }
  }

  /** No data bit is lost in the last, unfinished group of eight. */
  predicate Canonical(v: seq<Sextet>)
  {
    && (|v| % 4 == 2 ==> v[|v| - 1] % 16 == 0)
    && (|v| % 4 == 3 ==> v[|v| - 1] % 4 == 0)
  }

  lemma CanonicalTail(v: seq<Sextet>)
    ensures |v| < 2 ==> Canonical(v)
    ensures |v| == 2 ==> (Canonical(v) <==> v[1] % 16 == 0)
    ensures |v| == 3 ==> (Canonical(v) <==> v[2] % 4 == 0)
    ensures |v| >= 4 ==> (Canonical(v) <==> Canonical(v[4..]))
  {
  }

  lemma QuadOfTriple(x: Sextet, y: Sextet, z: Sextet, w: Sextet)
    ensures var t := Triple(x, y, z, w); Quad(t[0], t[1], t[2]) == [x, y, z, w]
    ensures var t := Triple(x, y, z, w); Quad(t[0], 0, 0)[..2] == [x, y] <==> y % 16 == 0
    ensures var t := Triple(x, y, z, w); Quad(t[0], t[1], 0)[..3] == [x, y, z] <==> z % 4 == 0
  {
    var t := Triple(x, y, z, w);
    assert t[0] / 4 == x && t[0] % 4 * 16 + t[1] / 16 == y && t[1] % 16 * 4 + t[2] / 64 == z;
    assert t[0] % 4 * 16 == y / 16 * 16 && t[1] % 16 * 4 == z / 4 * 4;
    assert Quad(t[0], 0, 0)[1] == y / 16 * 16 && Quad(t[0], t[1], 0)[2] == z / 4 * 4;
    assert Quad(t[0], 0, 0)[..2] == [x, y / 16 * 16];
    assert Quad(t[0], t[1], 0)[..3] == [x, y, z / 4 * 4];
  }

  lemma SextetsOfGroup(v: seq<Sextet>)
    requires |v| >= 4 && |Sextets(Bytes(v[4..]))| == |v| - 4
    ensures |Sextets(Bytes(v))| == |v|
    ensures Sextets(Bytes(v)) == v <==> Sextets(Bytes(v[4..])) == v[4..]
  {
    QuadOfTriple(v[0], v[1], v[2], v[3]);
    hide Quad, Triple;
    var b, head := Bytes(v), [v[0], v[1], v[2], v[3]];
    assert b[3..] == Bytes(v[4..]);
    hide Bytes;
    assert Sextets(b) == head + Sextets(b[3..]);
    hide Sextets;
    assert v == head + v[4..];
    assert (head + Sextets(b[3..]))[4..] == Sextets(b[3..]);
  }

  /** The other way round, decoding loses nothing exactly when the unused bits are zero. */
  lemma {:induction false} SextetsOfBytes(v: seq<Sextet>)
    requires |v| % 4 != 1
    ensures |Sextets(Bytes(v))| == |v|
    ensures Sextets(Bytes(v)) == v <==> Canonical(v)
    decreases |v|
  {
    hide Quad, Triple, Canonical;
    CanonicalTail(v);
    if |v| == 2 {
      QuadOfTriple(v[0], v[1], 0, 0);
    } else if |v| == 3 {
      QuadOfTriple(v[0], v[1], v[2], 0);
    } else if |v| >= 4 {
      SextetsOfBytes(v[4..]);
      SextetsOfGroup(v);
    }
  }

  lemma {:induction false} SextetsLength(b: seq<Byte>)
    ensures |Sextets(b)| % 4 == (if |b| % 3 == 0 then 0 else |b| % 3 + 1)
    decreases |b|
  {
    if |b| >= 3 { SextetsLength(b[3..]); }
  }

  // ---------------------------------------------------------------- btoa

  predicate Latin1(text: seq<Unit>) { forall i :: 0 <= i < |text| ==> text[i] <= 255 }

  lemma QuadIs(a: Byte, b: Byte, c: Byte)
    ensures Quad(a, b, c) == [a / 4, a % 4 * 16 + b / 16, b % 16 * 4 + c / 64, c % 64]
  {
  }

  lemma EncodedEmpty()
    ensures Encoded([]) == []
  {
  }

  lemma EncodedGroup(b: seq<Byte>)
    requires b != []
    ensures var q := Quad(b[0], if |b| > 1 then b[1] else 0, if |b| > 2 then b[2] else 0);
            Encoded(b) == [Digit(q[0]), Digit(q[1]), if |b| > 1 then Digit(q[2]) else PAD,
                           if |b| > 2 then Digit(q[3]) else PAD] + Encoded(b[if |b| < 3 then |b| else 3..])
  {
    hide Quad, Digit;
    if |b| >= 3 {
      var q, w := Quad(b[0], b[1], b[2]), Sextets(b[3..]);
      assert Digits(q + w) == [Digit(q[0]), Digit(q[1]), Digit(q[2]), Digit(q[3])] + Digits(w);
    } else {
      EncodedEmpty();
    }
  }

  method Btoa(text: seq<Unit>) returns (r: Result<seq<Unit>>)
    ensures r == if Latin1(text) then Ok(Encoded(text)) else Err
  {
    hide Encoded, Digit, Quad;
    var output: seq<Unit> := [];
    var i := 0;
    EncodedEmpty();
    assert text[0..] == text;
    while i < |text|
      invariant 0 <= i
      invariant forall k :: 0 <= k < i && k < |text| ==> text[k] <= 255
      invariant Latin1(text) ==> Encoded(text) == output + Encoded(text[if i < |text| then i else |text|..])
    {
      var a := text[i];
      var b := if i + 1 < |text| then text[i + 1] else 0;
      var c := if i + 2 < |text| then text[i + 2] else 0;
      if a > 255 || b > 255 || c > 255 {
        assert text[i] > 255 || (i + 1 < |text| && text[i + 1] > 255) || (i + 2 < |text| && text[i + 2] > 255);
        return Err;
      }
      ghost var before := output;
      var group := [Digit(a / 4), Digit(a % 4 * 16 + b / 16),
                    if i + 1 < |text| then Digit(b % 16 * 4 + c / 64) else PAD,
                    if i + 2 < |text| then Digit(c % 64) else PAD];
      QuadIs(a, b, c);
      output := output + group;
      if Latin1(text) {
        ghost var next := if i + 3 < |text| then i + 3 else |text|;
        EncodedGroup(text[i..]);
        assert text[i..][next - i..] == text[next..];
        assert Encoded(text) == before + (group + Encoded(text[next..]));
      }
      i := i + 3;
    }
    assert text[|text|..] == [];
    assert output + [] == output;
    r := Ok(output);
  }

  // ---------------------------------------------------------------- atob

  predicate IsSpace(u: Unit) { u == 9 || u == 10 || u == 12 || u == 13 || u == 32 }

  function Squeeze(text: seq<Unit>): (r: seq<Unit>)
  {
    if text == [] then []
    else (if IsSpace(text[0]) then [] else [text[0]]) + Squeeze(text[1..])
  }

  /** One or two padding characters at the end go, from a whole number of groups only. */
  function Unpad(text: seq<Unit>): (r: seq<Unit>)
    ensures r <= text
  {
    var n := |text|;
    if n % 4 != 0 || n == 0 || text[n - 1] != PAD then text
    else if text[n - 2] == PAD then text[..n - 2]
    else text[..n - 1]
  }

  predicate Valid(text: seq<Unit>)
  {
    |text| % 4 != 1 && forall i :: 0 <= i < |text| ==> IndexOf(text[i]) >= 0
  }

  function Values(text: seq<Unit>): (v: seq<Sextet>)
    requires Valid(text)
  {
    seq(|text|, i requires 0 <= i < |text| => IndexOf(text[i]))
  }

  function Decoded(input: seq<Unit>): (r: Result<seq<Unit>>)
  {
    var text := Unpad(Squeeze(input));
    if Valid(text) then Ok(Bytes(Values(text))) else Err
  }

  /** JavaScript's ToInt32: the signed 32-bit integer congruent to `x`. */
  function ToInt32(x: int): (r: int)
    ensures -0x8000_0000 <= r < 0x8000_0000
    ensures r % 0x1000 == x % 0x1000
  {
    var m := x % 0x1_0000_0000;
    if m < 0x8000_0000 then m else m - 0x1_0000_0000
  }

  /** The bytes still to come when `count` bits of `last` are waiting. */
  function ToCome(count: nat, last: Sextet, v: seq<Sextet>): (b: seq<Byte>)
    decreases |v|
  {
    if v == [] then []
    else if count == 6 then [First(last, v[0])] + ToCome(4, v[0], v[1..])
    else if count == 4 then [Second(last, v[0])] + ToCome(2, v[0], v[1..])
    else if count == 2 then [Third(last, v[0])] + ToCome(0, v[0], v[1..])
    else ToCome(6, v[0], v[1..])
  }

  lemma Skip(last: Sextet, v: seq<Sextet>)
    ensures ToCome(0, last, v) == ToCome(0, 0, v)
  {
  }

  lemma {:induction false} AllToCome(v: seq<Sextet>)
    ensures ToCome(0, 0, v) == Bytes(v)
    decreases |v|
  {
    hide First, Second, Third;
    if |v| == 2 {
      assert v[1..] == [v[1]] && [v[1]][1..] == [];
      assert ToCome(6, v[0], [v[1]]) == [First(v[0], v[1])] + ToCome(4, v[1], []);
    } else if |v| == 3 {
      assert v[1..] == [v[1], v[2]] && [v[1], v[2]][1..] == [v[2]] && [v[2]][1..] == [];
      assert ToCome(4, v[1], [v[2]]) == [Second(v[1], v[2])] + ToCome(2, v[2], []);
    } else if |v| >= 4 {
      AllToCome(v[4..]);
      Skip(v[3], v[4..]);
      var t1, t2, t3 := v[1..], v[2..], v[3..];
      assert t1[1..] == t2 && t2[1..] == t3 && t3[1..] == v[4..];
      assert ToCome(2, v[2], t3) == [Third(v[2], v[3])] + Bytes(v[4..]);
      assert ToCome(4, v[1], t2) == [Second(v[1], v[2])] + ToCome(2, v[2], t3);
      assert ToCome(6, v[0], t1) == [First(v[0], v[1])] + ToCome(4, v[1], t2);
    }
  }

  lemma LowBits(bits: int, d: Sextet)
    ensures (ToInt32(bits * 64) + d) % 0x1000 == bits % 64 * 64 + d
    ensures (ToInt32(bits * 64) + d) % 64 == d
  {
    var x := ToInt32(bits * 64);
    assert bits * 64 % 0x1000 == bits % 64 * 64;
    assert x % 0x1000 == bits % 64 * 64;
  }

  lemma Shift4(q: int, x: int, h: int, l: int)
    requires 0 <= 4 * x + h < 256 && 0 <= h && 0 <= l < 16
    ensures (0x1000 * q + 64 * x + 16 * h + l) / 16 % 256 == 4 * x + h
  {
    assert 0x1000 * q + 64 * x + 16 * h + l == 16 * (256 * q + (4 * x + h)) + l;
  }

  lemma Shift2(q: int, xh: int, xl: int, h: int, l: int)
    requires 0 <= 16 * xl + h < 256 && 0 <= l < 4
    ensures (0x1000 * q + 64 * (16 * xh + xl) + 4 * h + l) / 4 % 256 == 16 * xl + h
  {
    assert 0x1000 * q + 64 * (16 * xh + xl) + 4 * h + l == 4 * (256 * (4 * q + xh) + (16 * xl + h)) + l;
  }

  lemma Shift0(q: int, xh: int, xl: int, d: int)
    requires 0 <= 64 * xl + d < 256
    ensures (0x1000 * q + 64 * (4 * xh + xl) + d) % 256 == 64 * xl + d
  {
    assert 0x1000 * q + 64 * (4 * xh + xl) + d == 256 * (16 * q + xh) + (64 * xl + d);
  }

  lemma EmittedParts(q: int, x: int, d: int)
    requires 0 <= x < 64 && 0 <= d < 64
    ensures (0x1000 * q + 64 * x + d) / 16 % 256 == First(x, d)
    ensures (0x1000 * q + 64 * x + d) / 4 % 256 == Second(x, d)
    ensures (0x1000 * q + 64 * x + d) % 256 == Third(x, d)
  {
    assert d == 16 * (d / 16) + d % 16;
    Shift4(q, x, d / 16, d % 16);
    assert x == 16 * (x / 16) + x % 16 && d == 4 * (d / 4) + d % 4;
    Shift2(q, x / 16, x % 16, d / 4, d % 4);
    assert x == 4 * (x / 4) + x % 4;
    Shift0(q, x / 4, x % 4, d);
  }

  /** Eight bits above the waiting ones come from the low twelve. */
  lemma Emitted(bits: int, last: Sextet, d: Sextet)
    requires bits % 0x1000 == last * 64 + d
    ensures bits / 16 % 256 == First(last, d)
    ensures bits / 4 % 256 == Second(last, d)
    ensures bits / 1 % 256 == Third(last, d)
  {
    EmittedParts(bits / 0x1000, last, d);
    assert bits == 0x1000 * (bits / 0x1000) + 64 * last + d;
  }

  /** The loop over an accumulator that wraps: the bits that fall off the top have all been
      emitted already, and those still to come are the low twelve at most. */
  method Accumulate(text: seq<Unit>) returns (output: seq<Unit>)
    requires Valid(text)
    ensures output == Bytes(Values(text))
  {
    hide Bytes, ToInt32, First, Second, Third, IndexOf;
    var bits, count := 0, 0;
    output := [];
    ghost var v := Values(text);
    ghost var last: Sextet := 0;
    AllToCome(v);
    assert v[0..] == v;
    for k := 0 to |text|
      invariant count in {0, 2, 4, 6}
      invariant count > 0 ==> bits % 64 == last
      invariant Bytes(v) == output + ToCome(count, last, v[k..])
    {
      assert v[k..][1..] == v[k + 1..];
      ghost var was, before := bits, output;
      bits := ToInt32(bits * 64) + IndexOf(text[k]);  // the six low bits are free
      LowBits(was, v[k]);
      count := count + 6;
      if count >= 8 {
        Emitted(bits, last, v[k]);
        count := count - 8;
        output := output + [bits / (if count == 4 then 16 else if count == 2 then 4 else 1) % 256];
        assert Bytes(v) == before + ([output[|before|]] + ToCome(count, v[k], v[k + 1..]));
      }
      last := v[k];
    }
    assert v[|text|..] == [];
    assert output + [] == output;
  }

  method Atob(input: seq<Unit>) returns (r: Result<seq<Unit>>)
    ensures r == Decoded(input)
  {
    var text := Unpad(Squeeze(input));
    if |text| % 4 == 1 || exists i :: 0 <= i < |text| && IndexOf(text[i]) < 0 {
      return Err;
    }
    var output := Accumulate(text);
    r := Ok(output);
  }

  // ---------------------------------------------------------------- round trip

  lemma {:induction false} SqueezeClean(text: seq<Unit>)
    requires forall i :: 0 <= i < |text| ==> !IsSpace(text[i])
    ensures Squeeze(text) == text
  {
    if text != [] { SqueezeClean(text[1..]); }
  }

  lemma UnpadPadding(w: seq<Unit>, n: nat)
    requires |w| % 4 == (if n % 3 == 0 then 0 else n % 3 + 1)
    requires w != [] ==> w[|w| - 1] != PAD
    ensures Unpad(w + Padding(n)) == w
  {
    var t := w + Padding(n);
    if n % 3 == 0 {
      assert t == w;
    } else if n % 3 == 1 {
      assert t == w + [PAD, PAD] && t[|t| - 1] == PAD && t[|t| - 2] == PAD;
      assert t[..|t| - 2] == w;
    } else {
      assert t == w + [PAD] && t[|t| - 1] == PAD && t[|t| - 2] != PAD;
      assert t[..|t| - 1] == w;
    }
  }

  lemma DigitClean(v: Sextet)
    ensures !IsSpace(Digit(v)) && Digit(v) != PAD
  {
  }

  lemma PadClean()
    ensures !IsSpace(PAD)
  {
  }

  lemma EncodedStrips(s: seq<Byte>)
    ensures Unpad(Squeeze(Encoded(s))) == Digits(Sextets(s))
  {
    hide Sextets, Digit, IsSpace, Unpad;
    var v := Sextets(s);
    var w := Digits(v);
    var t := w + Padding(|s|);
    forall i | 0 <= i < |t| ensures !IsSpace(t[i]) {
      PadClean();
      if i < |v| { DigitClean(v[i]); }
    }
    hide Padding, Digits;
    SqueezeClean(t);
    SextetsLength(s);
    if v != [] { DigitClean(v[|v| - 1]); }
    UnpadPadding(w, |s|);
  }

  lemma ValuesOfDigits(v: seq<Sextet>)
    requires |v| % 4 != 1
    ensures Valid(Digits(v)) && Values(Digits(v)) == v
  {
    hide Digit, IndexOf;
  }

  /** For every Latin-1 string, of any length, `atob(btoa(s))` is `s`. */
  lemma RoundTrip(s: seq<Byte>)
    ensures Decoded(Encoded(s)) == Ok(s)
  {
    SextetsLength(s);
    EncodedStrips(s);
    ValuesOfDigits(Sextets(s));
    BytesOfSextets(s);
  }

  /** For every text `atob` accepts, encoding the result again gives the unpadded text and
      its padding, exactly when the bits the decoder dropped are zero. */
  lemma CanonicalForm(input: seq<Unit>)
    requires Decoded(input).Ok?
    ensures var text := Unpad(Squeeze(input)); var s := Decoded(input).value;
            Encoded(s) == text + Padding(|s|) <==> Canonical(Values(text))
  {
    var text := Unpad(Squeeze(input));
    var v, s := Values(text), Decoded(input).value;
    SextetsOfBytes(v);
    assert Digits(v) == text;
    assert |Digits(Sextets(s))| == |text|;
    if Encoded(s) == text + Padding(|s|) {
      assert Digits(Sextets(s)) == (text + Padding(|s|))[..|text|] == text;
      forall i | 0 <= i < |v| ensures Sextets(s)[i] == v[i] {
        assert Digits(Sextets(s))[i] == text[i];
      }
    }
  }
}
