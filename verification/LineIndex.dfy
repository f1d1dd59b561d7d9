/**
 The line index behind build diagnostics: byte offsets to lines and columns by a table of
 line starts instead of a scan of the source.
 */
module LineIndexes {
  import opened Unicode

  datatype Position = Position(line: nat, column: nat, byteOffset: nat)

  const FEED: Scalar := 10

  // ---------------------------------------------------------------- the scan it replaces

  /** One scalar value after the other, as long as they end by the offset. */
  function Scan(cs: seq<Scalar>, budget: nat, at: nat, line: nat, column: nat): (p: Position)
  {
    if cs == [] || |EncodeScalar(cs[0])| > budget then Position(line, column, at)
    else
      var n := |EncodeScalar(cs[0])|;
      if cs[0] == FEED then Scan(cs[1..], budget - n, at + n, line + 1, 1)
      else Scan(cs[1..], budget - n, at + n, line, column + 1)
  }

  function Naive(cs: seq<Scalar>, offset: nat): (p: Position) { Scan(cs, offset, 0, 1, 1) }

  function Feeds(cs: seq<Scalar>): (n: nat)
  {
    if cs == [] then 0 else Feeds(cs[..|cs| - 1]) + if cs[|cs| - 1] == FEED then 1 else 0
  }

  /** Scalar values since the last line feed. */
  function SinceFeed(cs: seq<Scalar>): (n: nat)
  {
    if cs == [] || cs[|cs| - 1] == FEED then 0 else SinceFeed(cs[..|cs| - 1]) + 1
  }

  function End(cs: seq<Scalar>, n: nat): (e: nat)
    requires n <= |cs|
  {
    |Encode(cs[..n])|
  }

  lemma EncodePush(cs: seq<Scalar>, n: nat)
    requires n < |cs|
    ensures cs[..n + 1] == cs[..n] + [cs[n]]
    ensures Encode(cs[..n + 1]) == Encode(cs[..n]) + EncodeScalar(cs[n])
    ensures End(cs, n + 1) == End(cs, n) + |EncodeScalar(cs[n])|
  {
    assert cs[..n + 1] == cs[..n] + [cs[n]];
    EncodeConcat(cs[..n], [cs[n]]);
    assert [cs[n]][1..] == [];
    assert EncodeScalar(cs[n]) + [] == EncodeScalar(cs[n]);
  }

  lemma {:induction false} EndGrows(cs: seq<Scalar>, m: nat, n: nat)
    requires m < n <= |cs|
    ensures End(cs, m) < End(cs, n)
    decreases n
  {
    EncodePush(cs, n - 1);
    if m < n - 1 { EndGrows(cs, m, n - 1); }
  }

  /** `n` is the number of scalar values that end by the offset. */
  predicate Fits(cs: seq<Scalar>, offset: nat, n: nat)
  {
    n <= |cs| && End(cs, n) <= offset && (n < |cs| ==> offset < End(cs, n + 1))
  }

  function At(cs: seq<Scalar>, n: nat): (p: Position)
    requires n <= |cs|
  {
    Position(1 + Feeds(cs[..n]), 1 + SinceFeed(cs[..n]), End(cs, n))
  }

  lemma ScanEnd(cs: seq<Scalar>, budget: nat, at: nat, line: nat, column: nat)
    ensures Scan(cs[|cs|..], budget, at, line, column) == Position(line, column, at)
  {
  }

  lemma CountPush(cs: seq<Scalar>, k: nat)
    requires k < |cs|
    ensures Feeds(cs[..k + 1]) == Feeds(cs[..k]) + if cs[k] == FEED then 1 else 0
    ensures SinceFeed(cs[..k + 1]) == if cs[k] == FEED then 0 else SinceFeed(cs[..k]) + 1
  {
    assert cs[..k + 1][..k] == cs[..k];
  }

  lemma ScanStep(cs: seq<Scalar>, k: nat, budget: nat, at: nat, line: nat, column: nat)
    requires k < |cs|
    ensures var n := |EncodeScalar(cs[k])|;
            Scan(cs[k..], budget, at, line, column) ==
            if n > budget then Position(line, column, at)
            else if cs[k] == FEED then Scan(cs[k + 1..], budget - n, at + n, line + 1, 1)
            else Scan(cs[k + 1..], budget - n, at + n, line, column + 1)
  {
    assert cs[k..][0] == cs[k] && cs[k..][1..] == cs[k + 1..];
  }

  lemma {:induction false} ScanFrom(cs: seq<Scalar>, offset: nat, k: nat) returns (n: nat)
    requires k <= |cs| && End(cs, k) <= offset
    ensures Fits(cs, offset, n)
    ensures Scan(cs[k..], offset - End(cs, k), End(cs, k), 1 + Feeds(cs[..k]), 1 + SinceFeed(cs[..k])) == At(cs, n)
    decreases |cs| - k
  {
    hide Scan, Feeds, SinceFeed, End, EncodeScalar;
    n := k;
    if k < |cs| {
      EncodePush(cs, k);
      CountPush(cs, k);
      ScanStep(cs, k, offset - End(cs, k), End(cs, k), 1 + Feeds(cs[..k]), 1 + SinceFeed(cs[..k]));
      if End(cs, k + 1) <= offset {
        n := ScanFrom(cs, offset, k + 1);
      }
    } else {
      ScanEnd(cs, offset - End(cs, k), End(cs, k), 1 + Feeds(cs[..k]), 1 + SinceFeed(cs[..k]));
    }
  }

  /** The scan gives the greatest end of a scalar value not past the offset, one plus the line
      feeds before it and one plus the scalar values since the last of them. */
  lemma NaiveMeans(cs: seq<Scalar>, offset: nat) returns (n: nat)
    ensures Fits(cs, offset, n) && Naive(cs, offset) == At(cs, n)
    ensures forall m :: 0 <= m <= |cs| && End(cs, m) <= offset ==> m <= n
  {
    assert cs[..0] == [] && cs[0..] == cs;
    n := ScanFrom(cs, offset, 0);
    forall m | 0 <= m <= |cs| && End(cs, m) <= offset ensures m <= n {
      if m > n && m != n + 1 { EndGrows(cs, n + 1, m); }
    }
  }

  // ---------------------------------------------------------------- the same on bytes

  predicate IsTail(b: Byte) { 0x80 <= b < 0xC0 }

  predicate AllTails(s: seq<Byte>) { forall i :: 0 <= i < |s| ==> IsTail(s[i]) }

  /** `chars().count()`: the bytes that begin a scalar value. */
  function Chars(s: seq<Byte>): (n: nat)
  {
    if s == [] then 0 else Chars(s[..|s| - 1]) + if IsTail(s[|s| - 1]) then 0 else 1
  }

  /** The offsets just past a line feed, in order. */
  function FeedEnds(s: seq<Byte>): (r: seq<nat>)
  {
    if s == [] then [] else FeedEnds(s[..|s| - 1]) + if s[|s| - 1] == FEED then [|s|] else []
  }

  function Starts(s: seq<Byte>): (r: seq<nat>) { [0] + FeedEnds(s) }

  lemma HeadAndTails(c: Scalar)
    ensures !IsTail(EncodeScalar(c)[0]) && AllTails(EncodeScalar(c)[1..])
    ensures EncodeScalar(c)[0] == FEED <==> c == FEED
    ensures c == FEED ==> EncodeScalar(c) == [FEED]
  {
  }

  lemma {:induction false} TailsAdd(a: seq<Byte>, t: seq<Byte>)
    requires AllTails(t)
    ensures Chars(a + t) == Chars(a) && FeedEnds(a + t) == FeedEnds(a)
    decreases |t|
  {
    if t == [] {
      assert a + t == a;
    } else {
      assert (a + t)[..|a + t| - 1] == a + t[..|t| - 1];
      TailsAdd(a, t[..|t| - 1]);
    }
  }

  lemma AddByte(a: seq<Byte>, b: Byte)
    ensures Chars(a + [b]) == Chars(a) + if IsTail(b) then 0 else 1
    ensures FeedEnds(a + [b]) == FeedEnds(a) + if b == FEED then [|a| + 1] else []
  {
    assert (a + [b])[..|a|] == a;
  }

  lemma AddScalar(a: seq<Byte>, c: Scalar)
    ensures Chars(a + EncodeScalar(c)) == Chars(a) + 1
    ensures FeedEnds(a + EncodeScalar(c)) == FeedEnds(a) + if c == FEED then [|a| + 1] else []
  {
    hide EncodeScalar, Chars, FeedEnds;
    HeadAndTails(c);
    var e := EncodeScalar(c);
    AddByte(a, e[0]);
    assert a + e == a + [e[0]] + e[1..];
    TailsAdd(a + [e[0]], e[1..]);
  }

  /** Where the last line begins. */
  function LastStart(s: seq<Byte>): (i: nat)
  {
    var starts := Starts(s);
    starts[|starts| - 1]
  }

  lemma {:induction false} FeedEndsBound(s: seq<Byte>)
    ensures forall i :: 0 <= i < |FeedEnds(s)| ==> 0 < FeedEnds(s)[i] <= |s|
  {
    if s != [] { FeedEndsBound(s[..|s| - 1]); }
  }

  /** Scalar values on the last line, counted by their first bytes. */
  function LastChars(s: seq<Byte>): (n: nat)
    requires LastStart(s) <= |s|
  {
    Chars(s[LastStart(s)..])
  }

  lemma LastStartIn(s: seq<Byte>)
    ensures LastStart(s) <= |s|
  {
    FeedEndsBound(s);
  }

  lemma Chars0()
    ensures Chars([]) == 0 && FeedEnds([]) == []
  {
  }

  lemma LastAddScalar(s: seq<Byte>, c: Scalar)
    requires LastStart(s) <= |s| && LastStart(s + EncodeScalar(c)) <= |s + EncodeScalar(c)|
    ensures LastChars(s + EncodeScalar(c)) == if c == FEED then 0 else LastChars(s) + 1
  {
    hide EncodeScalar, Chars, FeedEnds;
    AddScalar(s, c);
    var all := s + EncodeScalar(c);
    if c == FEED {
      HeadAndTails(c);
      assert all[|all|..] == [];
      Chars0();
    } else {
      var i := LastStart(s);
      assert all[i..] == s[i..] + EncodeScalar(c);
      AddScalar(s[i..], c);
    }
  }

  /** Counted on bytes or on scalar values, the same. */
  lemma {:induction false} BytesCount(cs: seq<Scalar>)
    ensures |FeedEnds(Encode(cs))| == Feeds(cs)
    ensures LastStart(Encode(cs)) <= |Encode(cs)| && LastChars(Encode(cs)) == SinceFeed(cs)
  {
    LastStartIn(Encode(cs));
    if cs != [] {
      var n := |cs| - 1;
      BytesCount(cs[..n]);
      EncodePush(cs, n);
      assert cs[..n + 1] == cs;
      hide Encode, EncodeScalar, FeedEnds, LastChars, LastStart;
      AddScalar(Encode(cs[..n]), cs[n]);
      LastAddScalar(Encode(cs[..n]), cs[n]);
    } else {
      Chars0();
    }
  }

  // ---------------------------------------------------------------- boundaries

  predicate IsBoundary(s: seq<Byte>, i: nat)
    requires i <= |s|
  {
    i == 0 || i == |s| || !IsTail(s[i])
  }

  lemma ScalarAt(cs: seq<Scalar>, n: nat)
    requires n < |cs|
    ensures End(cs, n) + |EncodeScalar(cs[n])| <= |Encode(cs)|
    ensures Encode(cs)[End(cs, n)..End(cs, n) + |EncodeScalar(cs[n])|] == EncodeScalar(cs[n])
  {
    EncodePush(cs, n);
    assert cs == cs[..n + 1] + cs[n + 1..];
    EncodeConcat(cs[..n + 1], cs[n + 1..]);
  }

  /** The boundaries are the ends of the scalar values and nothing between them. */
  lemma Boundaries(cs: seq<Scalar>, offset: nat, n: nat)
    requires Fits(cs, offset, n)
    ensures End(cs, n) <= |Encode(cs)| && IsBoundary(Encode(cs), End(cs, n))
    ensures forall i :: End(cs, n) < i <= offset && i <= |Encode(cs)| ==> !IsBoundary(Encode(cs), i)
  {
    hide EncodeScalar, Encode;
    var b := Encode(cs);
    if n < |cs| {
      ScalarAt(cs, n);
      EncodePush(cs, n);
      HeadAndTails(cs[n]);
      var from, e := End(cs, n), EncodeScalar(cs[n]);
      var here := b[from..from + |e|];
      assert b[from] == here[0];
      forall i | from < i <= offset ensures !IsBoundary(b, i) {
        assert b[i] == here[i - from] == e[1..][i - from - 1];
      }
    } else {
      assert cs[..n] == cs;
    }
  }

  // ---------------------------------------------------------------- the index

  /** `partition_point(|start| *start <= offset)` on an ascending table. */
  function UpTo(starts: seq<nat>, offset: nat): (n: nat)
    ensures n <= |starts|
  {
    if starts == [] || starts[0] > offset then 0 else 1 + UpTo(starts[1..], offset)
  }

  lemma {:induction false} UpToSplit(a: seq<nat>, b: seq<nat>, offset: nat)
    requires forall i :: 0 <= i < |a| ==> a[i] <= offset
    requires forall i :: 0 <= i < |b| ==> b[i] > offset
    ensures UpTo(a + b, offset) == |a|
    decreases |a|
  {
    if a == [] {
      assert a + b == b;
    } else {
      assert (a + b)[1..] == a[1..] + b;
      UpToSplit(a[1..], b, offset);
    }
  }

  lemma {:induction false} FeedEndsSplit(s: seq<Byte>, offset: nat) returns (later: seq<nat>)
    requires offset <= |s|
    ensures FeedEnds(s) == FeedEnds(s[..offset]) + later
    ensures forall i :: 0 <= i < |later| ==> later[i] > offset
  {
    if offset == |s| {
      assert s[..offset] == s;
      later := [];
    } else {
      var n := |s| - 1;
      later := FeedEndsSplit(s[..n], offset);
      assert s[..n][..offset] == s[..offset];
      later := later + if s[n] == FEED then [|s|] else [];
    }
  }

  /** The last start not past the end of the first `n` scalar values, and its number. */
  lemma StartsAt(cs: seq<Scalar>, n: nat)
    requires n <= |cs|
    ensures var s, e := Encode(cs), End(cs, n);
            && e <= |s| && UpTo(Starts(s), e) == Feeds(cs[..n]) + 1 && |Starts(s)| > Feeds(cs[..n])
            && Starts(s)[Feeds(cs[..n])] <= e
            && Chars(s[Starts(s)[Feeds(cs[..n])]..e]) == SinceFeed(cs[..n])
  {
    hide Encode, EncodeScalar, Chars, FeedEnds, SinceFeed, Feeds;
    var s, e := Encode(cs), End(cs, n);
    EncodeConcat(cs[..n], cs[n..]);
    assert cs == cs[..n] + cs[n..];
    assert s[..e] == Encode(cs[..n]);
    BytesCount(cs[..n]);
    FeedEndsBound(s[..e]);
    var later := FeedEndsSplit(s, e);
    var mine := Starts(s[..e]);
    assert Starts(s) == mine + later;
    UpToSplit(mine, later, e);
    var from := LastStart(s[..e]);
    assert s[from..e] == s[..e][from..];
  }

  class LineIndex {
    const starts: seq<nat>

    /** A start after every line feed. */
    constructor (source: seq<Byte>)
      ensures starts == Starts(source)
    {
      var table: seq<nat> := [0];
      assert source[..0] == [];
      for i := 0 to |source|
        invariant table == Starts(source[..i])
      {
        assert source[..i + 1][..i] == source[..i];
        if source[i] == FEED {
          table := table + [i + 1];
        }
      }
      assert source[..|source|] == source;
      starts := table;
    }

    /** The position the scan would give, for any offset into or past the source. */
    method Locate(source: seq<Byte>, byteOffset: nat, ghost cs: seq<Scalar>) returns (p: Position)
      requires source == Encode(cs) && starts == Starts(source)
      ensures p == Naive(cs, byteOffset)
    {
      hide Scan, Encode, EncodeScalar, Chars, FeedEnds, SinceFeed, Feeds;
      ghost var n := NaiveMeans(cs, byteOffset);
      Boundaries(cs, byteOffset, n);
      ghost var e := End(cs, n);
      var offset := if byteOffset < |source| then byteOffset else |source|;
      while !IsBoundary(source, offset)
        invariant e <= offset <= |source| && offset <= byteOffset
        decreases offset
      {
        offset := offset - 1;
      }
      assert offset == e;
      StartsAt(cs, n);
      var count := UpTo(starts, offset);
      var lineIndex := if count == 0 then 0 else count - 1;
      var lineStart := starts[lineIndex];
      p := Position(lineIndex + 1, Chars(source[lineStart..offset]) + 1, offset);
    }
  }
}
