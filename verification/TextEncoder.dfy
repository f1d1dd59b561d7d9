/**
 `TextEncoder` and `TextEncoderStream`: encoding whole strings, encoding into a buffer of
 bounded size chunk by chunk, and encoding a stream of string chunks whose surrogate
 pairs may be cut in two.
 */
module TextEncoding {
  import opened ResultWrapper
  import opened Unicode
  import opened TextDecoding

  // ---------------------------------------------------------------- encode

  /** The replacement by pattern: pairs stay, lone surrogates go. */
  function ReplaceLone(s: seq<Unit>): (r: seq<Unit>)
  {
    if s == [] then []
    else if IsHigh(s[0]) && |s| > 1 && IsLow(s[1]) then s[..2] + ReplaceLone(s[2..])
    else if IsHigh(s[0]) || IsLow(s[0]) then [0xFFFD] + ReplaceLone(s[1..])
    else s[..1] + ReplaceLone(s[1..])
  }

  lemma {:induction false} ReplaceLoneIsScalars(s: seq<Unit>)
    ensures ReplaceLone(s) == ToUnits(ToScalars(s))
    decreases |s|
  {
    if s != [] {
      var n := FirstLength(s);
      ReplaceLoneIsScalars(s[n..]);
      assert ToScalars(s)[1..] == ToScalars(s[n..]);
      if n == 2 {
        var c := FirstScalar(s) - 0x1_0000;
        assert c / 0x400 == s[0] - 0xD800 && c % 0x400 == s[1] - 0xDC00;
        assert ScalarUnits(FirstScalar(s)) == s[..2];
      } else {
        assert s[..1] == [s[0]];
      }
    }
  }

  /** The host's `_utf8Encode`, which refuses a string holding a lone surrogate. */
  function NativeEncode(text: seq<Unit>): Result<seq<Byte>>
  {
    if ToUnits(ToScalars(text)) == text then Ok(Encode(ToScalars(text))) else Err
  }

  /** The fallback never rethrows: after replacement the host always accepts. */
  method EncodeText(text: seq<Unit>) returns (r: Result<seq<Byte>>)
    ensures r == Ok(Encode(ToScalars(text)))
  {
    r := NativeEncode(text);
    if r.Err? {
      var scalar := ReplaceLone(text);
      ReplaceLoneIsScalars(text);
      ScalarsOfUnits(ToScalars(text));
      if scalar != text {
        r := NativeEncode(scalar);
      }
    }
  }

  // ---------------------------------------------------------------- encodeInto, one shot

  /** Encode code point by code point while it fits: code units read, bytes written. */
  function Greedy(s: seq<Unit>, room: nat): (r: (nat, seq<Byte>))
    ensures r.0 <= |s| && |r.1| <= room
    decreases |s|
  {
    if s == [] || |EncodeScalar(FirstScalar(s))| > room then (0, [])
    else
      var e := EncodeScalar(FirstScalar(s));
      var rest := Greedy(s[FirstLength(s)..], room - |e|);
      (FirstLength(s) + rest.0, e + rest.1)
  }

  function Onto(read: nat, bytes: seq<Byte>, r: (nat, seq<Byte>)): (nat, seq<Byte>)
  {
    (read + r.0, bytes + r.1)
  }

  lemma OntoTwice(a: nat, x: seq<Byte>, b: nat, y: seq<Byte>, r: (nat, seq<Byte>))
    ensures Onto(a, x, Onto(b, y, r)) == Onto(a + b, x + y, r)
  {
    assert x + (y + r.1) == (x + y) + r.1;
  }

  lemma OntoUnits(read: nat, bytes: seq<Byte>, r: (nat, seq<Byte>))
    ensures Onto(0, [], r) == r
    ensures Onto(read, bytes, (0, [])) == (read, bytes)
  {
    assert [] + r.1 == r.1;
    assert bytes + [] == bytes;
  }

  lemma GreedyUnfold(s: seq<Unit>, room: nat)
    ensures s == [] ==> Greedy(s, room) == (0, [])
    ensures s != [] && |EncodeScalar(FirstScalar(s))| > room ==> Greedy(s, room) == (0, [])
    ensures s != [] && |EncodeScalar(FirstScalar(s))| <= room ==>
              var e := EncodeScalar(FirstScalar(s));
              Greedy(s, room) == Onto(FirstLength(s), e, Greedy(s[FirstLength(s)..], room - |e|))
  {
  }

  lemma EncodeNothing()
    ensures Encode(ToScalars([])) == []
  {
  }

  lemma FirstJoint(s: seq<Unit>)
    requires s != []
    ensures CleanJoint(s[..FirstLength(s)], s[FirstLength(s)..])
  {
  }

  lemma OnePoint(s: seq<Unit>)
    requires s != []
    ensures ToScalars(s[..FirstLength(s)]) == [FirstScalar(s)]
  {
    var p := s[..FirstLength(s)];
    assert FirstScalar(p) == FirstScalar(s) && FirstLength(p) == |p|;
    assert ToScalars(p[|p|..]) == [];
  }

  lemma EncodeOne(c: Scalar)
    ensures Encode([c]) == EncodeScalar(c)
  {
    assert [c][1..] == [];
    assert Encode([c]) == EncodeScalar(c) + Encode([]);
  }

  /** What was written is the encoding of what was read, which ends between code points,
      and the next code point, if there is one, does not fit. */
  lemma {:induction false} GreedyIsMaximal(s: seq<Unit>, room: nat)
    ensures var (read, bytes) := Greedy(s, room);
            && bytes == Encode(ToScalars(s[..read]))
            && CleanJoint(s[..read], s[read..])
            && (read < |s| ==> |bytes| + |EncodeScalar(FirstScalar(s[read..]))| > room)
    decreases |s|
  {
    hide Greedy, EncodeScalar, FirstScalar, FirstLength, ToScalars, Encode;
    GreedyUnfold(s, room);
    var (read, bytes) := Greedy(s, room);
    if read == 0 {
      assert s[..0] == [] && s[read..] == s;
      EncodeNothing();
    } else {
      var n := FirstLength(s);
      var e := EncodeScalar(FirstScalar(s));
      var (read', bytes') := Greedy(s[n..], room - |e|);
      GreedyIsMaximal(s[n..], room - |e|);
      assert s[n..][..read'] == s[n..read] && s[n..][read'..] == s[read..];
      assert s[..read] == s[..n] + s[n..read];
      FirstJoint(s);
      assert CleanJoint(s[..n], s[n..read]) by {
        if n < read { assert s[n..read][0] == s[n..][0]; }
      }
      ToScalarsConcat(s[..n], s[n..read]);
      EncodeConcat(ToScalars(s[..n]), ToScalars(s[n..read]));
      OnePoint(s);
      EncodeOne(FirstScalar(s));
      if read' == 0 { assert s[..read] == s[..n]; }
    }
  }

  // ---------------------------------------------------------------- the host's encode_into

  /** The engine hands out WTF-8: a lone surrogate keeps its own three-byte form. */
  function Wtf8Point(s: seq<Unit>): (r: seq<Byte>)
    requires s != []
  {
    if FirstLength(s) == 1 && (IsHigh(s[0]) || IsLow(s[0])) then
      [0xED, 0xA0 + (s[0] - 0xD800) / 0x40, 0x80 + s[0] % 0x40]
    else EncodeScalar(FirstScalar(s))
  }

  function Wtf8(s: seq<Unit>): (r: seq<Byte>)
  {
    if s == [] then [] else Wtf8Point(s) + Wtf8(s[FirstLength(s)..])
  }

  predicate Ascii(bytes: seq<Byte>) { forall i :: 0 <= i < |bytes| ==> bytes[i] < 128 }

  /** What the scan reads off a lead byte. */
  lemma PointShape(s: seq<Unit>)
    requires s != []
    ensures var p, c := Wtf8Point(s), FirstScalar(s);
            && |p| == |EncodeScalar(c)|
            && |p| == (if p[0] < 128 then 1 else if p[0] < 224 then 2 else if p[0] < 240 then 3 else 4)
            && FirstLength(s) == (if |p| == 4 then 2 else 1)
            && (p[0] == 0xED && p[1] >= 0xA0 ==> EncodeScalar(c) == [0xEF, 0xBF, 0xBD])
            && (!(p[0] == 0xED && p[1] >= 0xA0) ==> p == EncodeScalar(c))
  {
  }

  lemma Wtf8Nonempty(s: seq<Unit>)
    ensures s == [] <==> Wtf8(s) == []
  {
    if s != [] { PointShape(s); }
  }

  /** One turn of the scan, seen from the code units that are left. */
  lemma ScanStep(s: seq<Unit>, room: nat)
    requires Wtf8(s) != []
    ensures s != [] && |Wtf8(s)| >= |Wtf8Point(s)| >= 1 && FirstLength(s) <= |s|
    ensures var w, p, c := Wtf8(s), Wtf8Point(s), FirstScalar(s);
            && |p| == (if w[0] < 128 then 1 else if w[0] < 224 then 2 else if w[0] < 240 then 3 else 4)
            && |p| == |EncodeScalar(c)| && w[|p|..] == Wtf8(s[FirstLength(s)..])
            && FirstLength(s) == (if |p| == 4 then 2 else 1)
            && (w[0] == 0xED && w[1] >= 0xA0 ==> EncodeScalar(c) == [0xEF, 0xBF, 0xBD])
            && (!(w[0] == 0xED && w[1] >= 0xA0) ==> w[..|p|] == EncodeScalar(c))
            && (|p| > room ==> Greedy(s, room) == (0, []))
            && (|p| <= room ==>
                  Greedy(s, room) == Onto(FirstLength(s), EncodeScalar(c), Greedy(s[FirstLength(s)..], room - |p|)))
  {
    hide EncodeScalar, FirstScalar, FirstLength, Wtf8Point, Greedy;
    Wtf8Nonempty(s);
    PointShape(s);
    GreedyUnfold(s, room);
    var p := Wtf8Point(s);
    assert Wtf8(s) == p + Wtf8(s[FirstLength(s)..]);
    assert Wtf8(s)[0] == p[0];
    if |p| > 1 { assert Wtf8(s)[1] == p[1]; }
  }

  lemma {:induction false} AsciiGreedy(s: seq<Unit>, room: nat)
    requires Ascii(Wtf8(s))
    ensures |Wtf8(s)| == |s|
    ensures var n := if |s| < room then |s| else room; Greedy(s, room) == (n, Wtf8(s)[..n])
    decreases |s|
  {
    if s != [] {
      hide Wtf8Point, EncodeScalar, FirstScalar, FirstLength, Greedy, Wtf8;
      Wtf8Nonempty(s);
      ScanStep(s, room);
      var w := Wtf8(s);
      var rest := s[1..];
      assert w[0] < 128;
      assert Wtf8(rest) == w[1..] && FirstLength(s) == 1;
      assert EncodeScalar(FirstScalar(s)) == w[..1];
      if room > 0 {
        AsciiGreedy(rest, room - 1);
        var n := if |s| < room then |s| else room;
        assert w[..n] == w[..1] + w[1..][..n - 1];
      } else {
        AsciiGreedy(rest, 0);
        assert w[..0] == [];
      }
    }
  }

  /** `dst` with `bytes` laid over it from `at`. */
  function Splice(dst: seq<Byte>, at: nat, bytes: seq<Byte>): (r: seq<Byte>)
    requires at + |bytes| <= |dst|
    ensures |r| == |dst|
  {
    dst[..at] + bytes + dst[at + |bytes|..]
  }

  lemma SpliceAppend(dst: seq<Byte>, at: nat, a: seq<Byte>, b: seq<Byte>)
    requires at + |a| + |b| <= |dst|
    ensures Splice(Splice(dst, at, a), at + |a|, b) == Splice(dst, at, a + b)
  {
  }

  /** `copy_nonoverlapping`. */
  method Copy(from: seq<Byte>, to: array<Byte>, at: nat)
    requires at + |from| <= to.Length
    modifies to
    ensures to[..] == Splice(old(to[..]), at, from)
  {
    forall i | 0 <= i < |from| { to[at + i] := from[i]; }
  }

  lemma ScanInit(text: seq<Unit>, room: nat, before: seq<Byte>, offset: nat)
    requires offset <= |before|
    ensures text[0..] == text && Wtf8(text)[0..] == Wtf8(text)
    ensures Greedy(text, room) == Onto(0, [], Greedy(text[0..], room))
    ensures before == Splice(before, offset, [])
  {
    assert text[0..] == text;
    OntoUnits(0, [], Greedy(text, room));
  }

  /** Copying the run since the last patch completes the output so far. */
  lemma RunCopied(before: seq<Byte>, offset: nat, out: seq<Byte>, runStart: nat)
    requires runStart <= |out| && offset + |out| <= |before|
    ensures Splice(Splice(before, offset, out[..runStart]), offset + runStart, out[runStart..]) ==
            Splice(before, offset, out)
  {
    SpliceAppend(before, offset, out[..runStart], out[runStart..]);
    assert out[..runStart] + out[runStart..] == out;
  }

  lemma ScanEnd(s: seq<Unit>, room: nat)
    ensures Wtf8(s) == [] || (s != [] && |EncodeScalar(FirstScalar(s))| > room) ==> Greedy(s, room) == (0, [])
  {
    Wtf8Nonempty(s);
  }

  /** Copies unchanged runs in one go and patches each lone surrogate in between. The
      patch is as long as what it replaces, so input and output offsets stay equal. */
  method ScanAndCopy(text: seq<Unit>, destination: array<Byte>, offset: nat)
    returns (read: nat, written: nat)
    requires offset <= destination.Length
    modifies destination
    ensures var (r, bytes) := Greedy(text, destination.Length - offset);
            read == r && written == |bytes| && destination[..] == Splice(old(destination[..]), offset, bytes)
  {
    hide Wtf8Point, EncodeScalar, FirstScalar, FirstLength, Greedy, Wtf8, Splice, Onto;
    var bytes := Wtf8(text);
    ghost var room, before := destination.Length - offset, destination[..];
    read, written := 0, 0;
    var index, runStart := 0, 0;
    ghost var out: seq<Byte> := [];
    ScanInit(text, room, before, offset);
    while index < |bytes|
      invariant read <= |text| && runStart <= index == written <= |bytes| && written <= room
      invariant bytes[index..] == Wtf8(text[read..])
      invariant |out| == written && out[runStart..] == bytes[runStart..index]
      invariant Greedy(text, room) == Onto(read, out, Greedy(text[read..], room - written))
      invariant destination[..] == Splice(before, offset, out[..runStart])
      decreases |bytes| - index
    {
      ghost var rest := text[read..];
      ScanStep(rest, room - written);
      assert bytes[index] == bytes[index..][0];
      var first := bytes[index];
      var size := if first < 128 then 1 else if first < 224 then 2 else if first < 240 then 3 else 4;
      if size > destination.Length - offset - written {
        break;
      }
      ghost var point, n := EncodeScalar(FirstScalar(rest)), FirstLength(rest);
      if first == 0xED { assert bytes[index + 1] == bytes[index..][1]; }
      if first == 0xED && bytes[index + 1] >= 0xA0 {
        Copy(bytes[runStart..index], destination, offset + runStart);
        RunCopied(before, offset, out, runStart);
        Copy([0xEF, 0xBF, 0xBD], destination, offset + written);
        SpliceAppend(before, offset, out, point);
        runStart := index + size;
        assert (out + point)[..runStart] == out + point;
      } else {
        assert bytes[runStart..index + size] == bytes[runStart..index] + bytes[index..][..size];
        assert (out + point)[runStart..] == out[runStart..] + point;
        assert (out + point)[..runStart] == out[..runStart];
      }
      assert rest[n..] == text[read + n..] && bytes[index..][size..] == bytes[index + size..];
      OntoTwice(read, out, n, point, Greedy(rest[n..], room - written - size));
      out := out + point;
      index := index + size;
      written := written + size;
      read := read + if size == 4 then 2 else 1;
    }
    ScanEnd(text[read..], room - written);
    OntoUnits(read, out, Greedy(text[read..], room - written));
    Copy(bytes[runStart..index], destination, offset + runStart);
    RunCopied(before, offset, out, runStart);
  }

  /** The host function: a string of ASCII only is copied at once. An offset past the end is an
      error. */
  method NativeEncodeInto(text: seq<Unit>, destination: array<Byte>, offset: nat)
    returns (r: Result<(nat, nat)>)
    modifies destination
    ensures r.Ok? <==> offset <= destination.Length
    ensures r.Ok? ==>
              var (read, bytes) := Greedy(text, destination.Length - offset);
              r.value == (read, |bytes|) && destination[..] == Splice(old(destination[..]), offset, bytes)
    ensures r.Err? ==> destination[..] == old(destination[..])
  {
    if offset > destination.Length { return Err; }
    var bytes := Wtf8(text);
    var room := destination.Length - offset;
    if forall i :: 0 <= i < |bytes| ==> bytes[i] < 128 {
      AsciiGreedy(text, room);
      var written := if |bytes| < room then |bytes| else room;
      Copy(bytes[..written], destination, offset);
      r := Ok((written, written));
    } else {
      var read, written := ScanAndCopy(text, destination, offset);
      r := Ok((read, written));
    }
  }

  // ---------------------------------------------------------------- encodeInto, chunk by chunk

  lemma ChunkHead(s: seq<Unit>, k: nat)
    requires 1 <= k <= |s| && CleanJoint(s[..k], s[k..])
    ensures FirstLength(s) <= k && FirstLength(s[..k]) == FirstLength(s) && FirstScalar(s[..k]) == FirstScalar(s)
  {
    if k == 1 && |s| > 1 { assert s[..1][0] == s[0] && s[1..][0] == s[1]; }
  }

  /** A chunk that does not cut a pair: if all of it is taken the rest goes on from there,
      otherwise the whole source stops where the chunk did. */
  lemma {:induction false} GreedyChunk(s: seq<Unit>, k: nat, room: nat)
    requires k <= |s| && CleanJoint(s[..k], s[k..])
    ensures var (read, bytes) := Greedy(s[..k], room);
            Greedy(s, room) == if read < k then (read, bytes)
                               else Onto(read, bytes, Greedy(s[k..], room - |bytes|))
    decreases k
  {
    hide Greedy, EncodeScalar, FirstScalar, FirstLength;
    var chunk := s[..k];
    GreedyUnfold(chunk, room);
    if k == 0 {
      assert s[0..] == s;
      OntoUnits(0, [], Greedy(s, room));
    } else {
      GreedyUnfold(s, room);
      ChunkHead(s, k);
      var n, e := FirstLength(s), EncodeScalar(FirstScalar(s));
      if |e| <= room {
        var tail := s[n..];
        assert tail[..k - n] == chunk[n..] && tail[k - n..] == s[k..];
        assert CleanJoint(tail[..k - n], tail[k - n..]) by {
          if k > n { assert chunk[n..][k - n - 1] == chunk[k - 1]; }
        }
        GreedyChunk(tail, k - n, room - |e|);
        var (read, bytes) := Greedy(chunk[n..], room - |e|);
        OntoTwice(n, e, read, bytes, Greedy(s[k..], room - |e| - |bytes|));
      }
    }
  }

  lemma NoRoom(s: seq<Unit>)
    ensures Greedy(s, 0) == (0, [])
  {
  }

  /** End of the next chunk: bounded work per host call, never between the two halves of a
      pair unless there is no room for anything. */
  function ChunkEnd(source: seq<Unit>, read: nat, room: nat): (end: nat)
    requires read <= |source|
    ensures read <= end <= |source| && (read < |source| ==> read < end)
    ensures end - read <= 16384
    ensures room == 0 || CleanJoint(source[read..end], source[end..])
  {
    var limit := if room + 1 < 16384 then room + 1 else 16384;
    var end := if |source| < read + limit then |source| else read + limit;
    if end < |source| && end > read + 1 && IsHigh(source[end - 1]) then end - 1 else end
  }

  /** Where a greedy run stopped, another one does not move. */
  lemma GreedyStops(s: seq<Unit>, room: nat)
    ensures var (read, bytes) := Greedy(s, room); Greedy(s[read..], room - |bytes|) == (0, [])
  {
    GreedyIsMaximal(s, room);
    var (read, bytes) := Greedy(s, room);
    GreedyUnfold(s[read..], room - |bytes|);
  }

  /** One host call, seen from the whole source: if it stopped early, so does the source. */
  lemma ChunkStep(source: seq<Unit>, read: nat, room: nat, took: (nat, seq<Byte>))
    requires read <= |source| && took == Greedy(source[read..ChunkEnd(source, read, room)], room)
    ensures var rest := Greedy(source[read + took.0..], room - |took.1|);
            && Greedy(source[read..], room) == Onto(took.0, took.1, rest)
            && (took.0 == 0 || took.0 < ChunkEnd(source, read, room) - read ==> rest == (0, []))
  {
    hide Greedy, ChunkEnd;
    var end := ChunkEnd(source, read, room);
    var rest, k := source[read..], end - read;
    assert rest[..k] == source[read..end] && rest[k..] == source[end..];
    if room == 0 {
      NoRoom(source[read..end]);
      NoRoom(rest);
      OntoUnits(0, [], (0, []));
    } else {
      GreedyChunk(rest, k, room);
      assert rest[took.0..] == source[read + took.0..];
      if took.0 < k {
        GreedyStops(rest, room);
        OntoUnits(took.0, took.1, took);
      } else if took.0 == 0 {
        GreedyUnfold(source[end..], room);
      }
    }
  }

  lemma Exhausted(s: seq<Unit>, room: nat)
    requires s == [] || room == 0
    ensures Greedy(s, room) == (0, [])
  {
  }

  /** The chunked loop reads, writes and stops exactly where one unbounded call would. */
  method EncodeInto(source: seq<Unit>, destination: array<Byte>) returns (read: nat, written: nat)
    modifies destination
    ensures var (r, bytes) := Greedy(source, destination.Length);
            read == r && written == |bytes| && destination[..] == Splice(old(destination[..]), 0, bytes)
  {
    hide Greedy, Splice, ChunkEnd, CleanJoint;
    var capacity := destination.Length;
    read, written := 0, 0;
    ghost var out, before := [], destination[..];
    ScanInit(source, capacity, before, 0);
    while true
      invariant read <= |source| && |out| == written <= capacity == |before|
      invariant Greedy(source, capacity) == Onto(read, out, Greedy(source[read..], capacity - written))
      invariant destination[..] == Splice(before, 0, out)
      decreases |source| - read
    {
      ghost var room := capacity - written;
      var end := ChunkEnd(source, read, capacity - written);
      var chunk := source[read..end];
      ghost var took := Greedy(chunk, room);
      ChunkStep(source, read, room, took);
      SpliceAppend(before, 0, out, took.1);
      OntoTwice(read, out, took.0, took.1, Greedy(source[read + took.0..], room - |took.1|));
      var result := NativeEncodeInto(chunk, destination, written);
      var (r, w) := result.value;
      read, written, out := read + r, written + w, out + took.1;
      if r == 0 || r < |chunk| {
        break;
      }
      if !(read < |source| && written < capacity) {
        Exhausted(source[read..], capacity - written);
        break;
      }
    }
    OntoUnits(read, out, Greedy(source[read..], capacity - written));
  }

  // ---------------------------------------------------------------- TextEncoderStream

  /** `transform`: hold back a trailing high surrogate, encode the rest if there is any. */
  function Transform(pending: seq<Unit>, chunk: seq<Unit>): (seq<Unit>, seq<Byte>)
  {
    var text := pending + chunk;
    if text != [] && IsHigh(text[|text| - 1]) then
      (text[|text| - 1..], Encode(ToScalars(text[..|text| - 1])))
    else ([], Encode(ToScalars(text)))
  }

  class TextEncoderStream {
    var pending: seq<Unit>
    var output: seq<Byte>  // all that was enqueued, in order

    constructor ()
      ensures pending == [] && output == []
    {
      pending, output := [], [];
    }

    method Write(chunk: seq<Unit>)
      modifies this
      ensures (pending, output) ==
              (Transform(old(pending), chunk).0, old(output) + Transform(old(pending), chunk).1)
    {
      var text := pending + chunk;
      pending := [];
      if |text| > 0 && 0xD800 <= text[|text| - 1] <= 0xDBFF {
        pending := text[|text| - 1..];
        text := text[..|text| - 1];
      }
      EncodeNothing();
      assert output + [] == output;
      if text != [] {
        var encoded := EncodeText(text);
        output := output + encoded.value;
      }
    }

    method Flush()
      modifies this
      ensures pending == [] && output == old(output) + Encode(ToScalars(old(pending)))
    {
      if pending != [] {
        var encoded := EncodeText(pending);
        output := output + encoded.value;
      }
      pending := [];
    }
  }

  /** All the bytes of a stream written chunk by chunk and flushed. */
  function StreamBytes(pending: seq<Unit>, chunks: seq<seq<Unit>>): seq<Byte>
    decreases |chunks|
  {
    if chunks == [] then Encode(ToScalars(pending))
    else
      var (held, bytes) := Transform(pending, chunks[0]);
      bytes + StreamBytes(held, chunks[1..])
  }

  /** `transform` splits the text between code points: what it sends and what it holds. */
  lemma TransformSplits(pending: seq<Unit>, chunk: seq<Unit>) returns (sent: seq<Unit>)
    ensures var (held, bytes) := Transform(pending, chunk);
            && pending + chunk == sent + held
            && bytes == Encode(ToScalars(sent))
            && (if held == [] then sent == [] || !IsHigh(sent[|sent| - 1]) else IsHigh(held[0]))
  {
    var text := pending + chunk;
    sent := text[..|text| - |Transform(pending, chunk).0|];
    assert text[..|text|] == text;
  }

  /** For every way of cutting a string into chunks, the stream writes the encoding of the
      joined string. */
  lemma {:induction false} EncoderStreamIsOneShot(pending: seq<Unit>, chunks: seq<seq<Unit>>)
    ensures StreamBytes(pending, chunks) == Encode(ToScalars(pending + Flatten(chunks)))
    decreases |chunks|
  {
    hide Encode, ToScalars, Transform;
    if chunks == [] {
      assert pending + Flatten(chunks) == pending;
    } else {
      var rest := Flatten(chunks[1..]);
      var sent := TransformSplits(pending, chunks[0]);
      var held := Transform(pending, chunks[0]).0;
      EncoderStreamIsOneShot(held, chunks[1..]);
      assert pending + (chunks[0] + rest) == (pending + chunks[0]) + rest;
      assert (sent + held) + rest == sent + (held + rest);
      assert held != [] ==> (held + rest)[0] == held[0];
      ToScalarsConcat(sent, held + rest);
      EncodeConcat(ToScalars(sent), ToScalars(held + rest));
    }
  }
}
