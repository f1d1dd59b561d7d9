/**
 The streaming UTF-8 `TextDecoder`. A call with `stream` holds back the bytes of an
 unfinished sequence, found by looking at no more than the last four bytes, and joins
 them to the next input. However the input is cut, the pieces decode to the text of a
 single call.
 */
module TextDecoding {
  import opened ResultWrapper
  import opened Unicode

  datatype Options = Options(fatal: bool, ignoreBom: bool)

  /** What a decoder carries from one call to the next. */
  datatype Carry = Carry(pending: seq<Byte>, bomSeen: bool)

  const FRESH := Carry([], false)

  /** The host's `_utf8Decode`: with `fatal`, any malformed sequence is an exception. */
  function NativeDecode(bytes: seq<Byte>, fatal: bool): Result<seq<Unit>>
  {
    if fatal && Bad in Items(bytes) then Err else Ok(ToUnits(Lossy(Items(bytes))))
  }

  /** Length of the unfinished sequence the standard's decoder is in after `bytes`. */
  function Unfinished(bytes: seq<Byte>): (n: nat)
  {
    var s := Run(INIT, bytes).0;
    if s.needed == 0 then 0 else s.seen + 1
  }

  function StripBom(text: seq<Unit>, bomSeen: bool, ignoreBom: bool): seq<Unit>
  {
    if text != [] && !bomSeen && !ignoreBom && text[0] == BOM then text[1..] else text
  }

  function Text(items: seq<Item>): seq<Unit>
  {
    ToUnits(Lossy(items))
  }

  /** What a call makes of the items it decodes. */
  function Deliver(o: Options, bomSeen: bool, items: seq<Item>): Result<seq<Unit>>
  {
    if o.fatal && Bad in items then Err else Ok(StripBom(Text(items), bomSeen, o.ignoreBom))
  }

  predicate Continuation(b: Byte) { 0x80 <= b <= 0xBF }

  /** `bytes` is a lead byte and some, not all, of its continuation bytes. */
  predicate Prefix(bytes: seq<Byte>)
  {
    && 1 <= |bytes| <= Start(bytes[0]).0.needed
    && (|bytes| >= 2 ==> Start(bytes[0]).0.lower <= bytes[1] <= Start(bytes[0]).0.upper)
    && (|bytes| >= 3 ==> Continuation(bytes[2]))
  }

  lemma RunSnoc(bytes: seq<Byte>)
    requires bytes != []
    ensures Run(INIT, bytes).0 == Feed(Run(INIT, bytes[..|bytes| - 1]).0, bytes[|bytes| - 1]).0
  {
    var front, last := bytes[..|bytes| - 1], bytes[|bytes| - 1..];
    assert bytes == front + last;
    RunConcat(INIT, front, last);
    RunLast(Run(INIT, front).0, last);
  }

  lemma PrefixExtends(tail: seq<Byte>, s: State, b: Byte)
    requires Prefix(tail) && s.needed == Start(tail[0]).0.needed && s.seen == |tail| - 1
    requires |tail| == 1 ==> s == Start(tail[0]).0
    requires s.seen + 1 < s.needed && s.lower <= b <= s.upper
    ensures Prefix(tail + [b])
  {
  }

  /** A lead byte starts afresh in every state; a pending sequence becomes one error. */
  lemma LeadRestarts(s: State, bytes: seq<Byte>)
    requires bytes != [] && Start(bytes[0]).0.needed > 0
    ensures Run(s, bytes) ==
            (Run(INIT, bytes).0, (if s.needed == 0 then [] else [Bad]) + Run(INIT, bytes).1)
  {
    var b := bytes[0];
    var rest := Run(Start(b).0, bytes[1..]).1;
    assert Start(b).1 == [];
    if s.needed == 0 {
      assert [] + ([] + rest) == [] + rest;
    } else {
      assert ([Bad] + []) + rest == [Bad] + ([] + rest);
    }
  }

  /** After the lead byte alone the decoder has that lead byte's bounds. */
  lemma FirstBounds(bytes: seq<Byte>, tail: seq<Byte>)
    requires |tail| == 1 && |bytes| >= 1 && tail[0] == bytes[|bytes| - 1] && Start(tail[0]).0.needed > 0
    ensures Run(INIT, bytes).0 == Start(tail[0]).0
  {
    var front := bytes[..|bytes| - 1];
    assert bytes == front + tail;
    RunConcat(INIT, front, tail);
    LeadRestarts(Run(INIT, front).0, tail);
    RunLast(INIT, tail);
  }

  /** If the decoder ends inside a sequence, the last bytes are the prefix it has read. */
  lemma {:induction false} UnfinishedIsPrefix(bytes: seq<Byte>)
    requires Unfinished(bytes) > 0
    ensures Unfinished(bytes) <= |bytes|
    ensures Prefix(bytes[|bytes| - Unfinished(bytes)..])
    ensures Start(bytes[|bytes| - Unfinished(bytes)]).0.needed == Run(INIT, bytes).0.needed
    decreases |bytes|
  {
    RunSnoc(bytes);
    hide Run;
    var front, b := bytes[..|bytes| - 1], bytes[|bytes| - 1];
    var s := Run(INIT, front).0;
    if s.needed > 0 && s.lower <= b <= s.upper {
      UnfinishedIsPrefix(front);
      var tail := front[|front| - Unfinished(front)..];
      if |tail| == 1 { FirstBounds(front, tail); }
      PrefixExtends(tail, s, b);
      assert bytes[|bytes| - Unfinished(bytes)..] == tail + [b];
    }
  }

  lemma UnfinishedFits(bytes: seq<Byte>)
    ensures Unfinished(bytes) <= |bytes|
  {
    if Unfinished(bytes) > 0 { UnfinishedIsPrefix(bytes); }
  }

  /** One `decode` call: its result and what the decoder carries on. */
  function Call(o: Options, c: Carry, input: seq<Byte>, stream: bool): (Result<seq<Unit>>, Carry)
  {
    var view := c.pending + input;
    UnfinishedFits(view);
    var cut := if stream then |view| - Unfinished(view) else |view|;
    var items := Items(view[..cut]);
    var r := Deliver(o, c.bomSeen, items);
    (r, if r.Err? || !stream then FRESH else Carry(view[cut..], c.bomSeen || Text(items) != []))
  }

  // ---------------------------------------------------------------- the unfinished tail

  /** A prefix leaves the decoder in the middle of that very sequence. */
  lemma PrefixRuns(bytes: seq<Byte>)
    requires Prefix(bytes)
    ensures Run(INIT, bytes).0.needed == Start(bytes[0]).0.needed
    ensures Run(INIT, bytes).0.seen == |bytes| - 1
    ensures Run(INIT, bytes).1 == []
  {
    hide Run;
    if |bytes| == 1 {
      RunLast(INIT, bytes);
    } else {
      RunQuiet(INIT, bytes[0], bytes);
      var s1 := Start(bytes[0]).0;
      if |bytes| == 2 {
        RunLast(s1, bytes[1..]);
      } else {
        RunQuiet(s1, bytes[1], bytes[1..]);
        assert bytes[1..][1..] == bytes[2..];
        RunLast(Feed(s1, bytes[1]).0, bytes[2..]);
      }
    }
  }

  /** A prefix at the end is what the decoder is in the middle of, whatever came before. */
  lemma PrefixIsUnfinished(front: seq<Byte>, tail: seq<Byte>)
    requires Prefix(tail)
    ensures Unfinished(front + tail) == |tail|
  {
    RunConcat(INIT, front, tail);
    LeadRestarts(Run(INIT, front).0, tail);
    PrefixRuns(tail);
  }

  lemma PrefixShape(tail: seq<Byte>)
    requires Prefix(tail)
    ensures |tail| <= 3 && !Continuation(tail[0])
    ensures forall i :: 1 <= i < |tail| ==> Continuation(tail[i])
  {
  }

  /** Where the backward scan stops there is an unfinished sequence, or there is none. */
  lemma ScanFindsTail(view: seq<Byte>, start: nat)
    requires start < |view| <= start + 4
    requires forall i :: start < i < |view| ==> Continuation(view[i])
    requires start == 0 || !Continuation(view[start]) || |view| - start == 4
    ensures Unfinished(view) == if Prefix(view[start..]) then |view| - start else 0
  {
    hide Unfinished;
    var n := Unfinished(view);
    if Prefix(view[start..]) {
      assert view == view[..start] + view[start..];
      PrefixIsUnfinished(view[..start], view[start..]);
    }
    if n > 0 {
      UnfinishedIsPrefix(view);
      var tail := view[|view| - n..];
      PrefixShape(tail);
      assert view[|view| - n] == tail[0];
      assert forall i :: |view| - n < i < |view| ==> view[i] == tail[i - (|view| - n)];
      assert |view| - n == start;
    }
  }

  /** The backward scan over at most four bytes finds what a run over all of `view` would. */
  method HoldBack(view: seq<Byte>) returns (held: nat)
    ensures held == Unfinished(view)
  {
    if |view| == 0 { return 0; }
    hide Unfinished;
    var start := |view| - 1;
    while start > 0 && Continuation(view[start]) && |view| - start < 4
      invariant 0 <= start < |view| && |view| - start <= 4
      invariant forall i :: start < i < |view| ==> Continuation(view[i])
    {
      start := start - 1;
    }
    var lead := view[start];
    var required :=
      if 194 <= lead <= 223 then 2 else if 224 <= lead <= 239 then 3 else if 240 <= lead <= 244 then 4 else 0;
    var available := |view| - start;
    var validSecond := available < 2 ||
      (128 <= view[start + 1] <= 191
       && !(lead == 224 && view[start + 1] < 160) && !(lead == 237 && view[start + 1] > 159)
       && !(lead == 240 && view[start + 1] < 144) && !(lead == 244 && view[start + 1] > 143));
    ScanFindsTail(view, start);
    held := if required > available && validSecond then available else 0;
  }

  // ---------------------------------------------------------------- the decoder object

  lemma CallOn(o: Options, c: Carry, input: seq<Byte>, stream: bool, cut: nat)
    requires var view := c.pending + input;
             Unfinished(view) <= |view| && cut == if stream then |view| - Unfinished(view) else |view|
    ensures var view := c.pending + input;
            var r := Deliver(o, c.bomSeen, Items(view[..cut]));
            Call(o, c, input, stream) ==
            (r, if r.Err? || !stream then FRESH else Carry(view[cut..], c.bomSeen || Text(Items(view[..cut])) != []))
  {
    hide Items, Unfinished, Deliver;
  }

  class TextDecoder {
    const options: Options
    var pending: seq<Byte>
    var bomSeen: bool

    constructor (options: Options)
      ensures this.options == options && pending == FRESH.pending && bomSeen == FRESH.bomSeen
    {
      this.options := options;
      pending, bomSeen := [], false;
    }

    method Decode(input: seq<Byte>, stream: bool) returns (r: Result<seq<Unit>>)
      modifies this
      ensures (r, Carry(pending, bomSeen)) == Call(options, old(Carry(pending, bomSeen)), input, stream)
    {
      hide Items, Run, Unfinished, Lossy, ToUnits;
      var view := input;
      if |pending| > 0 { view := pending + view; }
      ghost var full := old(pending) + input;
      UnfinishedFits(full);
      assert view == full;
      pending := [];
      if stream && |view| > 0 {
        var held := HoldBack(view);
        pending := view[|view| - held..];
        view := view[..|view| - held];
      }
      ghost var cut := if stream then |full| - Unfinished(full) else |full|;
      assert view == full[..cut] && (stream ==> pending == full[cut..]);
      CallOn(options, old(Carry(pending, bomSeen)), input, stream, cut);
      hide Call;
      var decoded := NativeDecode(view, options.fatal);
      match decoded
      case Err =>
        pending, bomSeen := [], false;
        r := Err;
      case Ok(whole) =>
        var text := whole;
        if |text| > 0 && !bomSeen {
          bomSeen := true;
          if !options.ignoreBom && text[0] == 0xFEFF { text := text[1..]; }
        }
        if !stream { pending, bomSeen := [], false; }
        r := Ok(text);
    }
  }

  // ---------------------------------------------------------------- streaming is one-shot

  function Flatten<T>(parts: seq<seq<T>>): seq<T>
  {
    if parts == [] then [] else parts[0] + Flatten(parts[1..])
  }

  function Join(a: Result<seq<Unit>>, b: Result<seq<Unit>>): Result<seq<Unit>>
  {
    if a.Err? || b.Err? then Err else Ok(a.value + b.value)
  }

  /** Decode `chunks` with `stream`, then `last` without: the joined text, or the failure
      of the first call that throws, and the decoder left behind. */
  function Stream(o: Options, c: Carry, chunks: seq<seq<Byte>>, last: seq<Byte>)
    : (Result<seq<Unit>>, Carry)
    decreases |chunks|
  {
    if chunks == [] then Call(o, c, last, false)
    else
      var (first, c1) := Call(o, c, chunks[0], true);
      if first.Err? then (Err, c1)
      else
        var (rest, c2) := Stream(o, c1, chunks[1..], last);
        (Join(first, rest), c2)
  }

  /** Cutting before the unfinished tail splits the items exactly. */
  lemma CutItems(view: seq<Byte>, rest: seq<Byte>)
    ensures Unfinished(view) <= |view|
    ensures var cut := |view| - Unfinished(view);
            Items(view + rest) == Items(view[..cut]) + Items(view[cut..] + rest)
  {
    hide Run;
    UnfinishedFits(view);
    var cut := |view| - Unfinished(view);
    var body, tail := view[..cut], view[cut..] + rest;
    assert view + rest == body + tail;
    RunConcat(INIT, body, tail);
    if Unfinished(view) == 0 {
      assert body == view;
      assert tail == rest;
    } else {
      UnfinishedIsPrefix(view);
      assert tail[0] == view[cut];
      LeadRestarts(Run(INIT, body).0, tail);
    }
  }

  lemma StripConcat(a: seq<Unit>, b: seq<Unit>, seen: bool, ignoreBom: bool)
    ensures StripBom(a + b, seen, ignoreBom) ==
            StripBom(a, seen, ignoreBom) + StripBom(b, seen || a != [], ignoreBom)
  {
    if a == [] {
      assert a + b == b;
    } else {
      assert (a + b)[1..] == a[1..] + b;
    }
  }

  lemma DeliverConcat(o: Options, seen: bool, a: seq<Item>, b: seq<Item>)
    ensures Deliver(o, seen, a + b) == Join(Deliver(o, seen, a), Deliver(o, seen || Text(a) != [], b))
  {
    assert Bad in a + b <==> Bad in a || Bad in b;
    LossyConcat(a, b);
    ToUnitsConcat(Lossy(a), Lossy(b));
    StripConcat(Text(a), Text(b), seen, o.ignoreBom);
  }

  lemma FinalCall(o: Options, c: Carry, input: seq<Byte>)
    ensures Call(o, c, input, false) == (Deliver(o, c.bomSeen, Items(c.pending + input)), FRESH)
  {
    var view := c.pending + input;
    assert view[..|view|] == view;
  }

  /** One streamed call followed by a final one is the final call on the joined input. */
  lemma StreamStep(o: Options, c: Carry, chunk: seq<Byte>, last: seq<Byte>)
    ensures var (first, c1) := Call(o, c, chunk, true);
            && (first.Err? ==> Call(o, c, chunk + last, false).0.Err? && c1 == FRESH)
            && (first.Ok? ==> Call(o, c, chunk + last, false).0 == Join(first, Call(o, c1, last, false).0))
  {
    hide Deliver, Items, Unfinished, Text;
    var view := c.pending + chunk;
    CutItems(view, last);
    assert c.pending + (chunk + last) == view + last;
    var cut := |view| - Unfinished(view);
    var (first, c1) := Call(o, c, chunk, true);
    FinalCall(o, c, chunk + last);
    DeliverConcat(o, c.bomSeen, Items(view[..cut]), Items(view[cut..] + last));
    if first.Ok? { FinalCall(o, c1, last); }
  }

  /** For every way of cutting the input, from any carried state, with or without `fatal`:
      the stream yields the text of one call on the joined input, or fails when it does,
      and the decoder is fresh afterwards. */
  lemma {:induction false} StreamingIsOneShot(o: Options, c: Carry, chunks: seq<seq<Byte>>, last: seq<Byte>)
    ensures Stream(o, c, chunks, last).0 == Call(o, c, Flatten(chunks) + last, false).0
    ensures Stream(o, c, chunks, last).1 == FRESH
    decreases |chunks|
  {
    hide Call;
    if chunks == [] {
      assert Flatten(chunks) + last == last;
      FinalCall(o, c, last);
    } else {
      var (first, c1) := Call(o, c, chunks[0], true);
      var rest := Flatten(chunks[1..]) + last;
      assert Flatten(chunks) + last == chunks[0] + rest;
      StreamStep(o, c, chunks[0], rest);
      if first.Ok? {
        StreamingIsOneShot(o, c1, chunks[1..], last);
      }
    }
  }

  /** Decoding the encoding of well-formed text gives the text back, less one leading BOM. */
  lemma DecodesEncoded(o: Options, cs: seq<Scalar>)
    ensures Call(o, FRESH, Encode(cs), false) == (Ok(StripBom(ToUnits(cs), false, o.ignoreBom)), FRESH)
  {
    DecodeEncode(cs);
    FinalCall(o, FRESH, Encode(cs));
    assert FRESH.pending + Encode(cs) == Encode(cs);
  }
}
