/**
 The text codecs the Web API runtime relies on, as the standards define them:
 UTF-16 strings with lone surrogates, UTF-8 encoding (section 4 of RFC 3629) and the
 byte-at-a-time UTF-8 decoder of section 8.1.1 of the WHATWG Encoding Standard.
 The native `_utf8Encode` and `_utf8Decode` are these functions.
 */
module Unicode {
  type Byte = b: int | 0 <= b < 0x100

  /** A UTF-16 code unit: one element of a JavaScript string. */
  type Unit = u: int | 0 <= u < 0x1_0000

  /** A Unicode scalar value: any code point but the surrogates. */
  type Scalar = c: int | 0 <= c < 0xD800 || 0xE000 <= c < 0x11_0000

  const REPLACEMENT: Scalar := 0xFFFD
  const BOM: Scalar := 0xFEFF

  predicate IsHigh(u: Unit) { 0xD800 <= u <= 0xDBFF }
  predicate IsLow(u: Unit) { 0xDC00 <= u <= 0xDFFF }

  // ---------------------------------------------------------------- UTF-16

  function ScalarUnits(c: Scalar): (r: seq<Unit>)
  {
    if c < 0x1_0000 then [c]
    else [0xD800 + (c - 0x1_0000) / 0x400, 0xDC00 + (c - 0x1_0000) % 0x400]
  }

  function ToUnits(cs: seq<Scalar>): (r: seq<Unit>)
  {
    if cs == [] then [] else ScalarUnits(cs[0]) + ToUnits(cs[1..])
  }

  /** Number of code units the first code point of `s` takes: two for a surrogate pair. */
  function FirstLength(s: seq<Unit>): (n: nat)
    requires s != []
    ensures 1 <= n <= 2 && n <= |s|
  {
    if IsHigh(s[0]) && |s| > 1 && IsLow(s[1]) then 2 else 1
  }

  /** The first code point of `s`, a lone surrogate becoming U+FFFD. */
  function FirstScalar(s: seq<Unit>): (c: Scalar)
    requires s != []
  {
    if IsHigh(s[0]) && |s| > 1 && IsLow(s[1]) then
      0x1_0000 + (s[0] - 0xD800) * 0x400 + (s[1] - 0xDC00)
    else if IsHigh(s[0]) || IsLow(s[0]) then REPLACEMENT
    else s[0]
  }

  /** The scalar values of a JavaScript string, each lone surrogate replaced by U+FFFD. */
  function ToScalars(s: seq<Unit>): (r: seq<Scalar>)
  {
    if s == [] then [] else [FirstScalar(s)] + ToScalars(s[FirstLength(s)..])
  }

  /** Joining `a` and `b` does not form a surrogate pair across the joint. */
  predicate CleanJoint(a: seq<Unit>, b: seq<Unit>)
  {
    a == [] || b == [] || !(IsHigh(a[|a| - 1]) && IsLow(b[0]))
  }

  lemma {:induction false} ToScalarsConcat(a: seq<Unit>, b: seq<Unit>)
    requires CleanJoint(a, b)
    ensures ToScalars(a + b) == ToScalars(a) + ToScalars(b)
    decreases |a|
  {
    if a == [] {
      assert a + b == b;
    } else {
      var n := FirstLength(a);
      assert FirstLength(a + b) == n && FirstScalar(a + b) == FirstScalar(a);
      assert (a + b)[n..] == a[n..] + b;
      ToScalarsConcat(a[n..], b);
    }
  }

  lemma {:induction false} ToUnitsConcat(a: seq<Scalar>, b: seq<Scalar>)
    ensures ToUnits(a + b) == ToUnits(a) + ToUnits(b)
  {
    if a == [] {
      assert a + b == b;
    } else {
      assert (a + b)[1..] == a[1..] + b;
      ToUnitsConcat(a[1..], b);
    }
  }

  lemma FirstOfUnits(c: Scalar, rest: seq<Unit>)
    ensures FirstScalar(ScalarUnits(c) + rest) == c
    ensures FirstLength(ScalarUnits(c) + rest) == |ScalarUnits(c)|
  {
    var h := ScalarUnits(c);
    assert (h + rest)[0] == h[0];
    if |h| == 2 { assert (h + rest)[1] == h[1]; }
  }

  /** A well-formed string survives the trip through its scalar values. */
  lemma {:induction false} ScalarsOfUnits(cs: seq<Scalar>)
    ensures ToScalars(ToUnits(cs)) == cs
  {
    if cs != [] {
      var h, t := ScalarUnits(cs[0]), ToUnits(cs[1..]);
      ScalarsOfUnits(cs[1..]);
      FirstOfUnits(cs[0], t);
      assert (h + t)[|h|..] == t;
    }
  }

  // ---------------------------------------------------------------- UTF-8 encoding

  function EncodeScalar(c: Scalar): (r: seq<Byte>)
    ensures 1 <= |r| <= 4
  {
    if c < 0x80 then [c]
    else if c < 0x800 then [0xC0 + c / 0x40, 0x80 + c % 0x40]
    else if c < 0x1_0000 then [0xE0 + c / 0x1000, 0x80 + c / 0x40 % 0x40, 0x80 + c % 0x40]
    else [0xF0 + c / 0x4_0000, 0x80 + c / 0x1000 % 0x40, 0x80 + c / 0x40 % 0x40, 0x80 + c % 0x40]
  }

  function Encode(cs: seq<Scalar>): (r: seq<Byte>)
  {
    if cs == [] then [] else EncodeScalar(cs[0]) + Encode(cs[1..])
  }

  lemma {:induction false} EncodeConcat(a: seq<Scalar>, b: seq<Scalar>)
    ensures Encode(a + b) == Encode(a) + Encode(b)
  {
    if a == [] {
      assert a + b == b;
    } else {
      assert (a + b)[1..] == a[1..] + b;
      EncodeConcat(a[1..], b);
    }
  }

  // ---------------------------------------------------------------- UTF-8 decoding

  /** What the decoder emits: a scalar value, or an error. */
  datatype Item = Code(c: Scalar) | Bad

  datatype RawState = RawState(cp: nat, seen: nat, needed: nat, lower: nat, upper: nat)

  const INIT := RawState(0, 0, 0, 0x80, 0xBF)

  predicate Std(s: RawState) { s.lower == 0x80 && s.upper == 0xBF }

  /** The states the decoder can be in, with the code point bits gathered so far. */
  predicate Reachable(s: RawState)
  {
    match s.needed
    case 0 => s == INIT
    case 1 => s.seen == 0 && Std(s) && 2 <= s.cp <= 0x1F
    case 2 =>
      if s.seen == 0 then
        && s.cp <= 0xF
        && s.lower == (if s.cp == 0 then 0xA0 else 0x80)
        && s.upper == (if s.cp == 0xD then 0x9F else 0xBF)
      else s.seen == 1 && Std(s) && 0x20 <= s.cp <= 0x3FF && !(0x360 <= s.cp <= 0x37F)
    case 3 =>
      if s.seen == 0 then
        && s.cp <= 4
        && s.lower == (if s.cp == 0 then 0x90 else 0x80)
        && s.upper == (if s.cp == 4 then 0x8F else 0xBF)
      else if s.seen == 1 then Std(s) && 0x10 <= s.cp <= 0x10F
      else s.seen == 2 && Std(s) && 0x400 <= s.cp <= 0x43FF
    case _ => false
  }

  type State = s: RawState | Reachable(s) witness INIT

  /** A byte met with no sequence under way. */
  function Start(b: Byte): (r: (State, seq<Item>))
  {
    if b <= 0x7F then (INIT, [Code(b)])
    else if 0xC2 <= b <= 0xDF then (RawState(b - 0xC0, 0, 1, 0x80, 0xBF), [])
    else if 0xE0 <= b <= 0xEF then
      (RawState(b - 0xE0, 0, 2, if b == 0xE0 then 0xA0 else 0x80, if b == 0xED then 0x9F else 0xBF), [])
    else if 0xF0 <= b <= 0xF4 then
      (RawState(b - 0xF0, 0, 3, if b == 0xF0 then 0x90 else 0x80, if b == 0xF4 then 0x8F else 0xBF), [])
    else (INIT, [Bad])
  }

  /** One byte. A byte out of bounds ends the sequence with an error and is taken again. */
  function Feed(s: State, b: Byte): (r: (State, seq<Item>))
  {
    if s.needed == 0 then Start(b)
    else if !(s.lower <= b <= s.upper) then (Start(b).0, [Bad] + Start(b).1)
    else
      var cp := s.cp * 0x40 + b % 0x40;
      if s.seen + 1 == s.needed then (INIT, [Code(cp)])
      else (RawState(cp, s.seen + 1, s.needed, 0x80, 0xBF), [])
  }

  function Run(s: State, bytes: seq<Byte>): (r: (State, seq<Item>))
    decreases |bytes|
  {
    if bytes == [] then (s, [])
    else
      var (s1, out) := Feed(s, bytes[0]);
      var (s2, rest) := Run(s1, bytes[1..]);
      (s2, out + rest)
  }

  /** End of input inside a sequence is one more error. */
  function Items(bytes: seq<Byte>): (r: seq<Item>)
  {
    var (s, out) := Run(INIT, bytes);
    if s.needed == 0 then out else out + [Bad]
  }

  function Lossy(items: seq<Item>): (r: seq<Scalar>)
    ensures |r| == |items|
    ensures forall i :: 0 <= i < |r| ==> r[i] == if items[i].Bad? then REPLACEMENT else items[i].c
  {
    seq(|items|, i requires 0 <= i < |items| => if items[i].Bad? then REPLACEMENT else items[i].c)
  }

  function Codes(cs: seq<Scalar>): (r: seq<Item>)
    ensures |r| == |cs| && forall i :: 0 <= i < |r| ==> r[i] == Code(cs[i])
  {
    seq(|cs|, i requires 0 <= i < |cs| => Code(cs[i]))
  }

  lemma {:induction false} RunConcat(s: State, a: seq<Byte>, b: seq<Byte>)
    ensures Run(s, a + b) == (Run(Run(s, a).0, b).0, Run(s, a).1 + Run(Run(s, a).0, b).1)
    decreases |a|
  {
    if a == [] {
      assert a + b == b && [] + Run(s, b).1 == Run(s, b).1;
    } else {
      assert (a + b)[1..] == a[1..] + b;
      var (s1, out) := Feed(s, a[0]);
      RunConcat(s1, a[1..], b);
      var (s2, mid) := Run(s1, a[1..]);
      assert out + (mid + Run(s2, b).1) == (out + mid) + Run(s2, b).1;
    }
  }

  /** A byte that only moves the decoder along. */
  lemma RunQuiet(s: State, b: Byte, bytes: seq<Byte>)
    requires bytes != [] && bytes[0] == b && Feed(s, b).1 == []
    ensures Run(s, bytes) == Run(Feed(s, b).0, bytes[1..])
  {
    assert [] + Run(Feed(s, b).0, bytes[1..]).1 == Run(Feed(s, b).0, bytes[1..]).1;
  }

  lemma RunLast(s: State, bytes: seq<Byte>)
    requires |bytes| == 1
    ensures Run(s, bytes) == Feed(s, bytes[0])
  {
    assert Run(Feed(s, bytes[0]).0, bytes[1..]).1 == [];
    assert Feed(s, bytes[0]).1 + [] == Feed(s, bytes[0]).1;
  }

  lemma DecodeTwo(c: Scalar)
    requires 0x80 <= c < 0x800
    ensures Run(INIT, EncodeScalar(c)) == (INIT, [Code(c)])
  {
    var e := EncodeScalar(c);
    RunQuiet(INIT, e[0], e);
    RunLast(RawState(c / 0x40, 0, 1, 0x80, 0xBF), e[1..]);
  }

  lemma DecodeThree(c: Scalar)
    requires 0x800 <= c < 0x1_0000
    ensures Run(INIT, EncodeScalar(c)) == (INIT, [Code(c)])
  {
    hide Run;
    var e := EncodeScalar(c);
    assert c / 0x1000 == c / 0x40 / 0x40;
    RunQuiet(INIT, e[0], e);
    var s1 := Feed(INIT, e[0]).0;
    assert s1.cp * 0x40 + e[1] % 0x40 == c / 0x40;
    RunQuiet(s1, e[1], e[1..]);
    RunLast(RawState(c / 0x40, 1, 2, 0x80, 0xBF), e[2..]);
  }

  lemma DecodeLastTwo(cp: nat, y: nat, x: nat, bytes: seq<Byte>)
    requires 0x10 <= cp < 0x110 && y < 0x40 && x < 0x40 && bytes == [0x80 + y, 0x80 + x]
    ensures Run(RawState(cp, 1, 3, 0x80, 0xBF), bytes) == (INIT, [Code((cp * 0x40 + y) * 0x40 + x)])
  {
    RunQuiet(RawState(cp, 1, 3, 0x80, 0xBF), 0x80 + y, bytes);
    RunLast(RawState(cp * 0x40 + y, 2, 3, 0x80, 0xBF), bytes[1..]);
  }

  lemma DecodeFour(u: nat, z: nat, y: nat, x: nat)
    requires u <= 4 && z < 0x40 && y < 0x40 && x < 0x40 && 0x10 <= u * 0x40 + z < 0x110
    ensures Run(INIT, [0xF0 + u, 0x80 + z, 0x80 + y, 0x80 + x]) ==
            (INIT, [Code(((u * 0x40 + z) * 0x40 + y) * 0x40 + x)])
  {
    hide Run;
    var e: seq<Byte> := [0xF0 + u, 0x80 + z, 0x80 + y, 0x80 + x];
    var cp1 := u * 0x40 + z;
    RunQuiet(INIT, e[0], e);
    RunQuiet(Start(e[0]).0, e[1], e[1..]);
    DecodeLastTwo(cp1, y, x, e[2..]);
  }

  lemma DecodeScalar(c: Scalar)
    ensures Run(INIT, EncodeScalar(c)) == (INIT, [Code(c)])
  {
    hide Run;
    if c < 0x80 {
      RunLast(INIT, [c]);
    } else if c < 0x800 {
      DecodeTwo(c);
    } else if c < 0x1_0000 {
      DecodeThree(c);
    } else {
      assert c / 0x1000 == c / 0x40 / 0x40 && c / 0x4_0000 == c / 0x1000 / 0x40;
      DecodeFour(c / 0x4_0000, c / 0x1000 % 0x40, c / 0x40 % 0x40, c % 0x40);
    }
  }

  lemma {:induction false} RunEncode(cs: seq<Scalar>)
    ensures Run(INIT, Encode(cs)) == (INIT, Codes(cs))
  {
    if cs != [] {
      DecodeScalar(cs[0]);
      RunEncode(cs[1..]);
      RunConcat(INIT, EncodeScalar(cs[0]), Encode(cs[1..]));
      assert Codes(cs) == [Code(cs[0])] + Codes(cs[1..]);
    }
  }

  /** Decoding inverts encoding: no error, the same scalar values. */
  lemma DecodeEncode(cs: seq<Scalar>)
    ensures Items(Encode(cs)) == Codes(cs)
    ensures Lossy(Items(Encode(cs))) == cs
  {
    RunEncode(cs);
  }

  lemma LossyConcat(a: seq<Item>, b: seq<Item>)
    ensures Lossy(a + b) == Lossy(a) + Lossy(b)
  {
  }
}
