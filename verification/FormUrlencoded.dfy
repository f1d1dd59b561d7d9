/**
 Query strings: the form-urlencoded printer and parser behind `URLSearchParams`.
 Names and values are scalar-value strings, as `scalarString` makes them.
 */
module FormUrlencoded {
  import opened ResultWrapper
  import opened Unicode
  import opened TextDecoding

  type Str = seq<Scalar>

  const PERCENT: Scalar := 37
  const PLUS: Scalar := 43
  const SPACE: Scalar := 32
  const AMP: Scalar := 38
  const EQUALS: Scalar := 61
  const QUESTION: Scalar := 63

  // ---------------------------------------------------------------- hex

  function HexDigit(n: int): (c: Scalar)
    requires 0 <= n < 16
  {
    if n < 10 then 48 + n else 55 + n
  }

  function Hex(c: int): (n: int)
    ensures -1 <= n < 16
  {
    if 48 <= c <= 57 then c - 48 else if 65 <= c <= 70 then c - 55 else if 97 <= c <= 102 then c - 87 else -1
  }

  lemma HexInverse(n: int)
    requires 0 <= n < 16
    ensures Hex(HexDigit(n)) == n
  {
  }

  function Escape(b: Byte): (r: Str)
    ensures |r| == 3
  {
    [PERCENT, HexDigit(b / 16), HexDigit(b % 16)]
  }

  function Escapes(bytes: seq<Byte>): (r: Str)
  {
    if bytes == [] then [] else Escape(bytes[0]) + Escapes(bytes[1..])
  }

  // ---------------------------------------------------------------- the printer's three passes

  predicate Alphanumeric(c: Scalar) { 48 <= c <= 57 || 65 <= c <= 90 || 97 <= c <= 122 }

  /** `!`, `'`, `(`, `)`, `~`: left alone by `encodeURIComponent`, escaped in the second pass. */
  predicate Marked(c: Scalar) { c == 33 || c == 39 || c == 40 || c == 41 || c == 126 }

  /** `-`, `_`, `.`, `*` and alphanumerics stay. */
  predicate Kept(c: Scalar) { Alphanumeric(c) || c == 45 || c == 95 || c == 46 || c == 42 }

  function EncodeURIComponent(s: Str): (r: Str)
  {
    if s == [] then []
    else (if Kept(s[0]) || Marked(s[0]) then [s[0]] else Escapes(EncodeScalar(s[0]))) + EncodeURIComponent(s[1..])
  }

  function EscapeMarks(s: Str): (r: Str)
  {
    if s == [] then [] else (if Marked(s[0]) then Escape(s[0]) else [s[0]]) + EscapeMarks(s[1..])
  }

  /** The third pass: every escaped space becomes a plus. */
  function SpacesToPlus(s: Str): (r: Str)
  {
    if s == [] then []
    else if |s| >= 3 && s[0] == PERCENT && s[1] == 50 && s[2] == 48 then [PLUS] + SpacesToPlus(s[3..])
    else [s[0]] + SpacesToPlus(s[1..])
  }

  function EncodeFormComponent(s: Str): (r: Str)
  {
    SpacesToPlus(EscapeMarks(EncodeURIComponent(s)))
  }

  // ---------------------------------------------------------------- section 5.2 of the URL Standard

  function FormScalar(c: Scalar): (r: Str)
  {
    if c == SPACE then [PLUS] else if Kept(c) then [c] else Escapes(EncodeScalar(c))
  }

  /** Percent-encode after encoding, with the form-urlencoded set and spaces as plus. */
  function FormEncode(s: Str): (r: Str)
  {
    if s == [] then [] else FormScalar(s[0]) + FormEncode(s[1..])
  }

  /** No marked character and no space: the second and third pass leave it as it is. */
  predicate Plain(s: Str) { forall i :: 0 <= i < |s| ==> !Marked(s[i]) && s[i] != PERCENT }

  lemma {:induction false} EscapeMarksConcat(a: Str, b: Str)
    ensures EscapeMarks(a + b) == EscapeMarks(a) + EscapeMarks(b)
  {
    if a == [] {
      assert a + b == b;
    } else {
      assert (a + b)[1..] == a[1..] + b;
      EscapeMarksConcat(a[1..], b);
    }
  }

  lemma MarksLeaveOne(c: Scalar)
    ensures EscapeMarks([c]) == if Marked(c) then Escape(c) else [c]
  {
    assert [c][1..] == [];
    assert EscapeMarks([c]) == (if Marked(c) then Escape(c) else [c]) + EscapeMarks([]);
  }

  lemma {:induction false} MarksLeaveEscapes(bytes: seq<Byte>)
    ensures EscapeMarks(Escapes(bytes)) == Escapes(bytes)
  {
    if bytes != [] {
      MarksLeaveEscapes(bytes[1..]);
      var e := Escape(bytes[0]);
      EscapeMarksConcat(e, Escapes(bytes[1..]));
      MarksLeaveOne(e[0]);
      MarksLeaveOne(e[1]);
      MarksLeaveOne(e[2]);
      EscapeMarksConcat([e[0]] + [e[1]], [e[2]]);
      EscapeMarksConcat([e[0]], [e[1]]);
      assert e == [e[0]] + [e[1]] + [e[2]];
    }
  }

  lemma SkipOne(c: Scalar, tail: Str)
    requires c != PERCENT || |tail| < 2 || tail[0] != 50 || tail[1] != 48
    ensures SpacesToPlus([c] + tail) == [c] + SpacesToPlus(tail)
  {
    var s := [c] + tail;
    assert s[1..] == tail;
  }

  lemma SkipEscape(b: Byte, tail: Str)
    requires b != 0x20
    ensures SpacesToPlus(Escape(b) + tail) == Escape(b) + SpacesToPlus(tail)
  {
    var h, l := HexDigit(b / 16), HexDigit(b % 16);
    SkipOne(l, tail);
    SkipOne(h, [l] + tail);
    SkipOne(PERCENT, [h] + ([l] + tail));
    assert Escape(b) + tail == [PERCENT] + ([h] + ([l] + tail));
    assert Escape(b) + SpacesToPlus(tail) == [PERCENT] + ([h] + ([l] + SpacesToPlus(tail)));
  }

  /** Every percent sign starts an escape, so `%20` is found only where a space was. */
  lemma {:induction false} SpacesInEscapes(bytes: seq<Byte>, rest: Str)
    requires forall i :: 0 <= i < |bytes| ==> bytes[i] != 0x20
    ensures SpacesToPlus(Escapes(bytes) + rest) == Escapes(bytes) + SpacesToPlus(rest)
    decreases |bytes|
  {
    hide SpacesToPlus, Escape;
    if bytes == [] {
      assert [] + rest == rest && [] + SpacesToPlus(rest) == SpacesToPlus(rest);
    } else {
      var e, tail := Escape(bytes[0]), Escapes(bytes[1..]);
      SpacesInEscapes(bytes[1..], rest);
      SkipEscape(bytes[0], tail + rest);
      assert (e + tail) + rest == e + (tail + rest);
      assert (e + tail) + SpacesToPlus(rest) == e + (tail + SpacesToPlus(rest));
    }
  }

  lemma EscapedBytes(c: Scalar)
    requires c != SPACE
    ensures forall i :: 0 <= i < |EncodeScalar(c)| ==> EncodeScalar(c)[i] != 0x20
  {
  }

  lemma KeptIsPlain(c: Scalar)
    requires Kept(c)
    ensures c != PERCENT && c != SPACE && !Marked(c) && c != AMP && c != EQUALS && c != PLUS && c != QUESTION && c < 128
  {
  }

  lemma MarkedIsOneByte(c: Scalar)
    requires c != SPACE
    ensures Marked(c) ==> EncodeScalar(c) == [c] && !Kept(c)
  {
  }

  lemma SpaceThroughPasses(rest: Str)
    ensures !Kept(SPACE) && !Marked(SPACE)
    ensures SpacesToPlus(EscapeMarks(Escapes(EncodeScalar(SPACE))) + rest) == [PLUS] + SpacesToPlus(rest)
  {
    MarksLeaveEscapes(EncodeScalar(SPACE));
    var e := [PERCENT, 50, 48];
    assert Escapes([SPACE]) == Escape(SPACE) + Escapes([]) == e;
    assert (e + rest)[3..] == rest;
  }

  /** What the first two passes make of one character, and the third of that. */
  lemma OneThroughPasses(c: Scalar, rest: Str)
    ensures var first := if Kept(c) || Marked(c) then [c] else Escapes(EncodeScalar(c));
            SpacesToPlus(EscapeMarks(first) + rest) == FormScalar(c) + SpacesToPlus(rest)
  {
    hide Kept, Escape, EncodeScalar;
    if c == SPACE {
      SpaceThroughPasses(rest);
    } else {
      EscapedBytes(c);
      MarksLeaveOne(c);
      MarkedIsOneByte(c);
      if Marked(c) {
        assert Escapes([c]) == Escape(c) + Escapes([]) == Escape(c);
        SpacesInEscapes([c], rest);
      } else if Kept(c) {
        KeptIsPlain(c);
        assert ([c] + rest)[1..] == rest && ([c] + rest)[0] == c;
      } else {
        MarksLeaveEscapes(EncodeScalar(c));
        SpacesInEscapes(EncodeScalar(c), rest);
      }
    }
  }

  /** The three passes compute the standard's serialization of one component. */
  lemma {:induction false} PassesAreFormEncode(s: Str)
    ensures EncodeFormComponent(s) == FormEncode(s)
  {
    if s != [] {
      var c := s[0];
      var first := if Kept(c) || Marked(c) then [c] else Escapes(EncodeScalar(c));
      var rest := EncodeURIComponent(s[1..]);
      EscapeMarksConcat(first, rest);
      OneThroughPasses(c, EscapeMarks(rest));
      PassesAreFormEncode(s[1..]);
    }
  }

  /** A printed component never holds `&`, `=` or `?`. */
  predicate Separated(s: Str) { forall i :: 0 <= i < |s| ==> s[i] != AMP && s[i] != EQUALS && s[i] != QUESTION }

  lemma {:induction false} EscapesSeparated(bytes: seq<Byte>)
    ensures Separated(Escapes(bytes))
  {
    if bytes != [] { EscapesSeparated(bytes[1..]); }
  }

  lemma {:induction false} FormEncodeSeparated(s: Str)
    ensures Separated(FormEncode(s))
  {
    if s != [] {
      FormEncodeSeparated(s[1..]);
      if Kept(s[0]) { KeptIsPlain(s[0]); } else { EscapesSeparated(EncodeScalar(s[0])); }
    }
  }

  // ---------------------------------------------------------------- section 5.1 of the URL Standard

  function PlusToSpaces(s: Str): (r: Str)
    ensures |r| == |s| && forall i :: 0 <= i < |s| ==> r[i] == if s[i] == PLUS then SPACE else s[i]
  {
    seq(|s|, i requires 0 <= i < |s| => if s[i] == PLUS then SPACE else s[i])
  }

  /** A `%` and two hex digits at the head of `b`. */
  predicate EscapeAt(b: seq<int>) { |b| >= 3 && b[0] == 37 && Hex(b[1]) >= 0 && Hex(b[2]) >= 0 }

  function EscapeValue(b: seq<int>): (r: Byte)
    requires EscapeAt(b)
  {
    Hex(b[1]) * 16 + Hex(b[2])
  }

  /** Percent-decode; a `%` that starts no escape stays. */
  function PercentDecode(b: seq<Byte>): (r: seq<Byte>)
    ensures |r| <= |b|
  {
    if b == [] then []
    else if EscapeAt(b) then [EscapeValue(b)] + PercentDecode(b[3..])
    else [b[0]] + PercentDecode(b[1..])
  }

  /** One component as the standard parses it: percent-decode, then UTF-8 decode without BOM. */
  function FormDecode(s: Str): (r: Str)
  {
    Lossy(Items(PercentDecode(Encode(PlusToSpaces(s)))))
  }

  // ---------------------------------------------------------------- decodeURIComponent

  /** Length of the UTF-8 sequence a first octet announces, by its leading ones. */
  function Announced(b: Byte): (n: nat)
  {
    if b < 0x80 then 1 else if 0xC0 <= b <= 0xDF then 2 else if 0xE0 <= b <= 0xEF then 3
    else if 0xF0 <= b <= 0xF7 then 4 else 0
  }

  /** `n` escapes in a row at the head of `s`. */
  function Octets(s: Str, n: nat): (r: Result<seq<Byte>>)
    ensures r.Ok? ==> |r.value| == n && 3 * n <= |s|
    decreases n
  {
    if n == 0 then Ok([])
    else if !EscapeAt(s) then Err
    else
      var rest := Octets(s[3..], n - 1);
      if rest.Err? then Err else Ok([EscapeValue(s)] + rest.value)
  }

  /** The engine's `decodeURIComponent`: any escape that is not a whole, valid UTF-8
      sequence is an exception. */
  function DecodeURIComponent(s: Str): (r: Result<Str>)
    decreases |s|
  {
    if s == [] then Ok([])
    else if s[0] != PERCENT then
      var rest := DecodeURIComponent(s[1..]);
      if rest.Err? then Err else Ok([s[0]] + rest.value)
    else if !EscapeAt(s) || Announced(EscapeValue(s)) == 0 then Err
    else
      var n := Announced(EscapeValue(s));
      var octets := Octets(s, n);
      if octets.Err? || |Items(octets.value)| != 1 || Items(octets.value)[0].Bad? then Err
      else
        var rest := DecodeURIComponent(s[3 * n..]);
        if rest.Err? then Err else Ok([Items(octets.value)[0].c] + rest.value)
  }

  lemma AsciiStep(s: Str)
    requires s != [] && s[0] < 128
    ensures Encode(s) == [s[0]] + Encode(s[1..])
  {
  }

  /** An escape is three ASCII characters: encoding does not touch it. */
  lemma EncodeAsciiHead(s: Str)
    requires EscapeAt(s)
    ensures var e := Encode(s); EscapeAt(e) && EscapeValue(e) == EscapeValue(s) && e[3..] == Encode(s[3..])
  {
    AsciiStep(s);
    AsciiStep(s[1..]);
    AsciiStep(s[2..]);
    assert s[1..][1..] == s[2..] && s[2..][1..] == s[3..];
    assert Encode(s) == [s[0]] + ([s[1]] + ([s[2]] + Encode(s[3..])));
  }

  lemma {:induction false} PercentDecodeConcatOctets(s: Str, n: nat)
    requires Octets(s, n).Ok?
    ensures 3 * n <= |s|
    ensures PercentDecode(Encode(s)) == Octets(s, n).value + PercentDecode(Encode(s[3 * n..]))
    decreases n
  {
    hide Encode, EscapeValue;
    if n == 0 {
      assert s[0..] == s;
      assert [] + PercentDecode(Encode(s)) == PercentDecode(Encode(s));
    } else {
      EncodeAsciiHead(s);
      PercentDecodeConcatOctets(s[3..], n - 1);
      assert s[3..][3 * (n - 1)..] == s[3 * n..];
      var e := Encode(s);
      assert e[3..] == Encode(s[3..]);
      var rest := PercentDecode(Encode(s[3 * n..]));
      assert [EscapeValue(s)] + (Octets(s[3..], n - 1).value + rest) == Octets(s, n).value + rest;
    }
  }

  lemma {:induction false} PassThrough(bytes: seq<Byte>, rest: seq<Byte>)
    requires forall i :: 0 <= i < |bytes| ==> bytes[i] != 37
    ensures PercentDecode(bytes + rest) == bytes + PercentDecode(rest)
    decreases |bytes|
  {
    if bytes == [] {
      assert [] + rest == rest && [] + PercentDecode(rest) == PercentDecode(rest);
    } else {
      PassThrough(bytes[1..], rest);
      assert (bytes + rest)[1..] == bytes[1..] + rest && (bytes + rest)[0] == bytes[0];
      assert bytes == [bytes[0]] + bytes[1..];
      assert [bytes[0]] + (bytes[1..] + PercentDecode(rest)) == bytes + PercentDecode(rest);
    }
  }

  lemma PercentOnlyFromPercent(c: Scalar)
    requires c != PERCENT
    ensures forall i :: 0 <= i < |EncodeScalar(c)| ==> EncodeScalar(c)[i] != 37
  {
  }

  /** Items of a byte string that starts with a complete, valid sequence. */
  lemma ItemsAfterWhole(head: seq<Byte>, tail: seq<Byte>, c: Scalar)
    requires Run(INIT, head) == (INIT, [Code(c)])
    ensures Items(head + tail) == [Code(c)] + Items(tail)
  {
    RunConcat(INIT, head, tail);
    var (s, out) := Run(INIT, tail);
    assert s.needed != 0 ==> [Code(c)] + (out + [Bad]) == ([Code(c)] + out) + [Bad];
  }

  lemma WholeFromItems(bytes: seq<Byte>)
    requires |Items(bytes)| == 1 && Items(bytes)[0].Code?
    ensures Run(INIT, bytes) == (INIT, [Items(bytes)[0]])
  {
    var (s, out) := Run(INIT, bytes);
    assert s.needed == 0;
    assert out == [out[0]];
  }

  lemma AnnouncedPositive(s: Str, n: nat)
    requires s != [] && Octets(s, n).Ok? && n != 0
    ensures |s[3 * n..]| < |s|
  {
  }

  lemma NothingDecodes()
    ensures Items(PercentDecode(Encode([]))) == Codes([])
  {
  }

  lemma EncodeStep(s: Str)
    requires s != []
    ensures Encode(s) == EncodeScalar(s[0]) + Encode(s[1..])
  {
  }

  /** When the engine's decoder accepts, the byte-wise path gives the same text. */
  lemma {:induction false} FastPathAgrees(s: Str)
    requires DecodeURIComponent(s).Ok?
    ensures Items(PercentDecode(Encode(s))) == Codes(DecodeURIComponent(s).value)
    decreases |s|
  {
    hide Items, PercentDecode, Encode, EncodeScalar, Announced;
    if s == [] {
      NothingDecodes();
    } else if s[0] != PERCENT {
      var c, rest := s[0], s[1..];
      FastPathAgrees(rest);
      EncodeStep(s);
      PercentOnlyFromPercent(c);
      PassThrough(EncodeScalar(c), Encode(rest));
      DecodeScalar(c);
      ItemsAfterWhole(EncodeScalar(c), PercentDecode(Encode(rest)), c);
      assert Codes([c] + DecodeURIComponent(rest).value) == [Code(c)] + Codes(DecodeURIComponent(rest).value);
    } else {
      var n := Announced(EscapeValue(s));
      var octets, rest := Octets(s, n).value, s[3 * n..];
      var c := Items(octets)[0].c;
      AnnouncedPositive(s, n);
      FastPathAgrees(rest);
      PercentDecodeConcatOctets(s, n);
      WholeFromItems(octets);
      ItemsAfterWhole(octets, PercentDecode(Encode(rest)), c);
      assert Codes([c] + DecodeURIComponent(rest).value) == [Code(c)] + Codes(DecodeURIComponent(rest).value);
    }
  }

  // ---------------------------------------------------------------- decodeURIComponentSafe

  lemma DecodeStep(b: seq<Byte>, i: nat)
    requires i <= |b|
    ensures i == |b| ==> PercentDecode(b[i..]) == []
    ensures i < |b| ==>
              PercentDecode(b[i..]) ==
              if b[i] == 37 && i + 2 < |b| && Hex(b[i + 1]) != -1 && Hex(b[i + 2]) != -1 then
                [Hex(b[i + 1]) * 16 + Hex(b[i + 2])] + PercentDecode(b[i + 3..])
              else [b[i]] + PercentDecode(b[i + 1..])
  {
    var r := b[i..];
    if i < |b| {
      assert r[1..] == b[i + 1..];
      if i + 2 < |b| { assert r[3..] == b[i + 3..]; }
    }
  }

  /** The fallback's loop: percent-decode in place, reading ahead of what is written. */
  method CompactInPlace(bytes: array<Byte>) returns (written: nat)
    modifies bytes
    ensures written <= bytes.Length && bytes[..written] == PercentDecode(old(bytes[..]))
  {
    hide PercentDecode;
    written := 0;
    var i := 0;
    ghost var was := bytes[..];
    assert was[0..] == was;
    while i < bytes.Length
      invariant 0 <= written <= i <= bytes.Length == |was|
      invariant forall k :: i <= k < bytes.Length ==> bytes[k] == was[k]
      invariant PercentDecode(was) == bytes[..written] + PercentDecode(was[i..])
    {
      DecodeStep(was, i);
      ghost var done := bytes[..written];
      if bytes[i] == 37 && i + 2 < bytes.Length && Hex(bytes[i + 1]) != -1 && Hex(bytes[i + 2]) != -1 {
        bytes[written] := Hex(bytes[i + 1]) * 16 + Hex(bytes[i + 2]);
        i := i + 3;
      } else {
        bytes[written] := bytes[i];
        i := i + 1;
      }
      assert bytes[..written + 1] == done + [bytes[written]];
      written := written + 1;
    }
    DecodeStep(was, i);
    assert bytes[..written] + [] == bytes[..written];
  }

  /** Either path, for every string: the standard's decoding. */
  method DecodeURIComponentSafe(value: seq<Unit>) returns (r: Str)
    ensures r == FormDecode(ToScalars(value))
  {
    var text := PlusToSpaces(ToScalars(value));
    var fast := DecodeURIComponent(text);
    if fast.Ok? {
      FastPathAgrees(text);
      r := fast.value;
      assert Lossy(Codes(r)) == r;
    } else {
      var encoded := Encode(text);
      var bytes := new Byte[|encoded|](i requires 0 <= i < |encoded| => encoded[i]);
      assert bytes[..] == encoded;
      var written := CompactInPlace(bytes);
      var decoder := new TextDecoder(Options(false, true));
      var decoded := decoder.Decode(bytes[..written], false);
      FinalCall(decoder.options, FRESH, bytes[..written]);
      assert FRESH.pending + bytes[..written] == bytes[..written];
      r := ToScalars(decoded.value);
      ScalarsOfUnits(Lossy(Items(bytes[..written])));
    }
  }

  // ---------------------------------------------------------------- one component, there and back

  lemma EscapeDecodes(b: Byte, after: Str)
    ensures PercentDecode(Encode(PlusToSpaces(Escape(b) + after))) == [b] + PercentDecode(Encode(PlusToSpaces(after)))
  {
    var s := PlusToSpaces(Escape(b) + after);
    HexInverse(b / 16);
    HexInverse(b % 16);
    assert EscapeAt(s) && EscapeValue(s) == b;
    assert s[3..] == PlusToSpaces(after);
    EncodeAsciiHead(s);
  }

  lemma {:induction false} EscapesDecode(bytes: seq<Byte>, rest: Str)
    ensures PercentDecode(Encode(PlusToSpaces(Escapes(bytes) + rest))) ==
            bytes + PercentDecode(Encode(PlusToSpaces(rest)))
    decreases |bytes|
  {
    hide Encode, PercentDecode, Escape;
    var tail := PercentDecode(Encode(PlusToSpaces(rest)));
    if bytes == [] {
      assert [] + rest == rest && [] + tail == tail;
    } else {
      var e, after := Escape(bytes[0]), Escapes(bytes[1..]) + rest;
      EscapesDecode(bytes[1..], rest);
      EscapeDecodes(bytes[0], after);
      assert Escapes(bytes) + rest == e + after;
      assert [bytes[0]] + (bytes[1..] + tail) == bytes + tail;
    }
  }

  lemma OneDecodes(c: Scalar, after: Str)
    ensures PercentDecode(Encode(PlusToSpaces(FormScalar(c) + after))) ==
            EncodeScalar(c) + PercentDecode(Encode(PlusToSpaces(after)))
  {
    if c == SPACE || Kept(c) {
      var s := PlusToSpaces(FormScalar(c) + after);
      assert s[0] == c && s[1..] == PlusToSpaces(after) && c != PERCENT;
      AsciiStep(s);
      PassThrough([c], Encode(s[1..]));
    } else {
      EscapesDecode(EncodeScalar(c), after);
    }
  }

  lemma {:induction false} FormEncodeDecodes(s: Str)
    ensures PercentDecode(Encode(PlusToSpaces(FormEncode(s)))) == Encode(s)
  {
    if s != [] {
      OneDecodes(s[0], FormEncode(s[1..]));
      FormEncodeDecodes(s[1..]);
    }
  }

  /** Decoding a printed component gives the component back. */
  lemma ComponentRoundTrip(s: Str)
    ensures FormDecode(EncodeFormComponent(s)) == s
  {
    PassesAreFormEncode(s);
    FormEncodeDecodes(s);
    DecodeEncode(s);
  }

  // ---------------------------------------------------------------- the list of pairs

  type Pair = (Str, Str)

  function PrintPair(p: Pair): (r: Str)
  {
    EncodeFormComponent(p.0) + [EQUALS] + EncodeFormComponent(p.1)
  }

  /** `toString`. */
  function Print(pairs: seq<Pair>): (r: Str)
  {
    if pairs == [] then []
    else if |pairs| == 1 then PrintPair(pairs[0])
    else PrintPair(pairs[0]) + [AMP] + Print(pairs[1..])
  }

  function IndexOf<T(==)>(s: seq<T>, c: T): (i: nat)
    ensures i <= |s| && (i < |s| ==> s[i] == c) && forall k :: 0 <= k < i ==> s[k] != c
  {
    if s == [] || s[0] == c then 0 else 1 + IndexOf(s[1..], c)
  }

  /** The parts between separators. */
  function Split<T(==)>(s: seq<T>, separator: T): (parts: seq<seq<T>>)
    decreases |s|
  {
    var i := IndexOf(s, separator);
    if i == |s| then [s] else [s[..i]] + Split(s[i + 1..], separator)
  }

  function ParsePart(part: Str): (p: Pair)
  {
    var eq := IndexOf<Scalar>(part, EQUALS);
    if eq == |part| then (FormDecode(part), []) else (FormDecode(part[..eq]), FormDecode(part[eq + 1..]))
  }

  function ParseParts(parts: seq<Str>): (r: seq<Pair>)
  {
    if parts == [] then [] else (if parts[0] == [] then [] else [ParsePart(parts[0])]) + ParseParts(parts[1..])
  }

  function WithoutQuestion<T(==)>(init: seq<T>, question: T): (text: seq<T>)
  {
    if init != [] && init[0] == question then init[1..] else init
  }

  /** What the string constructor makes of its argument. */
  function Parse(init: Str): (r: seq<Pair>)
  {
    var text := WithoutQuestion<Scalar>(init, QUESTION);
    if text == [] then [] else ParseParts(Split<Scalar>(text, AMP))
  }

  lemma FirstIndex(a: Str, c: Scalar, b: Str)
    requires forall k :: 0 <= k < |a| ==> a[k] != c
    ensures IndexOf<Scalar>(a + [c] + b, c) == |a|
  {
    var s, i := a + [c] + b, IndexOf<Scalar>(a + [c] + b, c);
    assert s[|a|] == c;
    assert forall k :: 0 <= k < |a| ==> s[k] == a[k];
  }

  lemma PairShape(p: Pair)
    ensures PrintPair(p) != [] && PrintPair(p)[0] != QUESTION
    ensures forall k :: 0 <= k < |PrintPair(p)| ==> PrintPair(p)[k] != AMP
    ensures ParsePart(PrintPair(p)) == p
  {
    var a, b := EncodeFormComponent(p.0), EncodeFormComponent(p.1);
    PassesAreFormEncode(p.0);
    PassesAreFormEncode(p.1);
    FormEncodeSeparated(p.0);
    FormEncodeSeparated(p.1);
    ComponentRoundTrip(p.0);
    ComponentRoundTrip(p.1);
    hide EncodeFormComponent, FormEncode, FormDecode;
    var s := a + [EQUALS] + b;
    FirstIndex(a, EQUALS, b);
    assert s[..|a|] == a && s[|a| + 1..] == b;
  }

  lemma SplitStep(head: Str, tail: Str)
    requires forall k :: 0 <= k < |head| ==> head[k] != AMP
    ensures Split<Scalar>(head, AMP) == [head]
    ensures Split<Scalar>(head + [AMP] + tail, AMP) == [head] + Split<Scalar>(tail, AMP)
  {
    var s := head + [AMP] + tail;
    FirstIndex(head, AMP, tail);
    assert s[..|head|] == head && s[|head| + 1..] == tail;
  }

  lemma ParsePartsStep(part: Str, parts: seq<Str>)
    ensures ParseParts([part] + parts) == (if part == [] then [] else [ParsePart(part)]) + ParseParts(parts)
  {
    assert ([part] + parts)[1..] == parts;
  }

  lemma NoParts()
    ensures ParseParts([]) == []
  {
  }

  lemma {:induction false} PartsRoundTrip(pairs: seq<Pair>)
    requires pairs != []
    ensures ParseParts(Split<Scalar>(Print(pairs), AMP)) == pairs
    ensures Print(pairs) != [] && Print(pairs)[0] != QUESTION
  {
    var head := PrintPair(pairs[0]);
    PairShape(pairs[0]);
    hide PrintPair, ParsePart, Split, ParseParts;
    if |pairs| == 1 {
      SplitStep(head, []);
      ParsePartsStep(head, []);
      NoParts();
      assert [head] + [] == [head];
      assert pairs == [pairs[0]] + [];
    } else {
      var tail := Print(pairs[1..]);
      PartsRoundTrip(pairs[1..]);
      SplitStep(head, tail);
      ParsePartsStep(head, Split<Scalar>(tail, AMP));
      assert pairs == [pairs[0]] + pairs[1..];
    }
  }

  /** For every list of pairs of scalar-value strings, in order and with repeats. */
  lemma QueryRoundTrip(pairs: seq<Pair>)
    ensures Parse(Print(pairs)) == pairs
  {
    if pairs != [] { PartsRoundTrip(pairs); }
  }

  // ---------------------------------------------------------------- any string

  /** A code unit that stands for itself wherever it occurs. */
  predicate Separator(c: Unit) { c < 0xD800 }

  lemma {:induction false} ScalarsWithout(s: seq<Unit>, c: Unit)
    requires Separator(c) && c !in s
    ensures c !in ToScalars(s)
    decreases |s|
  {
    if s != [] {
      ScalarsWithout(s[FirstLength(s)..], c);
      assert s[0] != c;
    }
  }

  /** Cutting at a separator and replacing lone surrogates can be done in either order. */
  lemma CutScalars(a: seq<Unit>, c: Unit, b: seq<Unit>)
    requires Separator(c) && c !in a
    ensures ToScalars(a + [c] + b) == ToScalars(a) + [c] + ToScalars(b)
    ensures IndexOf<Scalar>(ToScalars(a + [c] + b), c) == |ToScalars(a)|
  {
    ScalarsWithout(a, c);
    assert ToScalars([c]) == [c];
    ToScalarsConcat(a, [c]);
    ToScalarsConcat(a + [c], b);
    FirstIndex(ToScalars(a), c, ToScalars(b));
  }

  /** The parts of a string, lone surrogates replaced. */
  function ScalarParts(parts: seq<seq<Unit>>): (r: seq<Str>)
  {
    if parts == [] then [] else [ToScalars(parts[0])] + ScalarParts(parts[1..])
  }

  lemma ScalarPartsStep(part: seq<Unit>, parts: seq<seq<Unit>>)
    ensures ScalarParts([part] + parts) == [ToScalars(part)] + ScalarParts(parts)
  {
    assert ([part] + parts)[1..] == parts;
  }

  lemma {:induction false} SplitScalars(s: seq<Unit>, c: Unit)
    requires Separator(c)
    ensures Split<Scalar>(ToScalars(s), c) == ScalarParts(Split<Unit>(s, c))
    decreases |s|
  {
    var i := IndexOf<Unit>(s, c);
    if i == |s| {
      ScalarsWithout(s, c);
      ScalarPartsStep(s, []);
      assert [s] + [] == [s] && [ToScalars(s)] + [] == [ToScalars(s)];
    } else {
      var a, b := s[..i], s[i + 1..];
      assert s == a + [c] + b;
      CutScalars(a, c, b);
      SplitScalars(b, c);
      ScalarPartsStep(a, Split<Unit>(b, c));
      var t := ToScalars(s);
      assert t[..|ToScalars(a)|] == ToScalars(a) && t[|ToScalars(a)| + 1..] == ToScalars(b);
    }
  }

  lemma QuestionScalars(init: seq<Unit>)
    ensures WithoutQuestion<Scalar>(ToScalars(init), QUESTION) == ToScalars(WithoutQuestion<Unit>(init, QUESTION))
  {
  }

  lemma NoScalarParts()
    ensures ScalarParts([]) == []
  {
  }

  lemma SomeScalars(s: seq<Unit>)
    ensures ToScalars(s) == [] <==> s == []
  {
  }

  lemma ParseUnits(init: seq<Unit>)
    ensures var text := WithoutQuestion<Unit>(init, QUESTION);
            Parse(ToScalars(init)) == if text == [] then [] else ParseParts(ScalarParts(Split<Unit>(text, AMP)))
  {
    hide Split, ParseParts, ScalarParts, WithoutQuestion, ToScalars;
    var text := WithoutQuestion<Unit>(init, QUESTION);
    QuestionScalars(init);
    SomeScalars(text);
    SplitScalars(text, AMP);
  }

  method DecodePart(part: seq<Unit>) returns (p: Pair)
    ensures p == ParsePart(ToScalars(part))
  {
    hide FormDecode, IndexOf, ToScalars;
    var eq := IndexOf<Unit>(part, EQUALS);
    if eq == |part| {
      var name := DecodeURIComponentSafe(part);
      ScalarsWithout(part, EQUALS);
      p := (name, []);
    } else {
      var a, b := part[..eq], part[eq + 1..];
      var name := DecodeURIComponentSafe(a);
      var value := DecodeURIComponentSafe(b);
      assert part == a + [EQUALS] + b;
      CutScalars(a, EQUALS, b);
      ghost var t := ToScalars(part);
      assert t[..|ToScalars(a)|] == ToScalars(a) && t[|ToScalars(a)| + 1..] == ToScalars(b);
      p := (name, value);
    }
  }

  class URLSearchParams {
    var pairs: seq<Pair>

    constructor (init: seq<Unit>)
      ensures pairs == Parse(ToScalars(init))
    {
      pairs := [];
      new;
      Replace(init);
    }

    /** `_replace` on a string, which may hold lone surrogates. */
    method Replace(init: seq<Unit>)
      modifies this
      ensures pairs == Parse(ToScalars(init))
    {
      hide Split, ParseParts, ParsePart, FormDecode, ScalarParts, Parse, ToScalars, WithoutQuestion;
      pairs := [];
      ParseUnits(init);
      var text := WithoutQuestion<Unit>(init, QUESTION);
      if text == [] { return; }
      var parts := Split<Unit>(text, AMP);
      assert parts[0..] == parts && [] + ParseParts(ScalarParts(parts)) == ParseParts(ScalarParts(parts));
      for n := 0 to |parts|
        invariant ParseParts(ScalarParts(parts)) == pairs + ParseParts(ScalarParts(parts[n..]))
      {
        ghost var before, later := pairs, ParseParts(ScalarParts(parts[n + 1..]));
        var part := parts[n];
        assert parts[n..] == [part] + parts[n + 1..];
        ScalarPartsStep(part, parts[n + 1..]);
        SomeScalars(part);
        ParsePartsStep(ToScalars(part), ScalarParts(parts[n + 1..]));
        if part != [] {
          var pair := DecodePart(part);
          pairs := pairs + [pair];
          assert before + ([pair] + later) == pairs + later;
        } else {
          assert [] + later == later;
        }
      }
      NoParts();
      NoScalarParts();
      assert parts[|parts|..] == [];
      assert pairs + [] == pairs;
    }
  }
}
