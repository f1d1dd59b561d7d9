/**
 The version 3 source maps the bundler writes and reads: base64 VLQ numbers, mappings as
 deltas from the mapping before, lines separated by semicolons.
 */
module SourceMaps {
  import opened OptionWrapper
  import opened ResultWrapper
  import B = Base64

  type Code = int  // an ASCII character of the mappings string

  const COMMA: Code := 44
  const SEMICOLON: Code := 59

  // ---------------------------------------------------------------- VLQ

  /** Sign in the lowest bit. */
  function Fold(n: int): (v: nat) { if n < 0 then -n * 2 + 1 else n * 2 }

  function Unfold(v: nat): (n: int) { if v % 2 == 1 then -(v / 2) else v / 2 }

  /** Groups of five bits, low first, all but the last with the continuation bit. */
  function Groups(v: nat): (r: seq<Code>)
  {
    if v < 32 then [B.Digit(v)] else [B.Digit(v % 32 + 32)] + Groups(v / 32)
  }

  /** `encode_vlq`'s loop. */
  method EncodeVlq(value: int) returns (out: seq<Code>)
    ensures out == Groups(Fold(value))
  {
    var vlq := if value < 0 then -value * 2 + 1 else value * 2;
    out := [];
    ghost var all := Groups(Fold(value));
    assert [] + all == all;
    while true
      invariant vlq >= 0 && all == out + Groups(vlq)
      decreases vlq
    {
      var digit := vlq % 32;
      ghost var rest := Groups(vlq);
      vlq := vlq / 32;
      if vlq != 0 {
        digit := digit + 32;
      }
      out := out + [B.Digit(digit)];
      if vlq == 0 {
        break;
      }
    }
  }

  /** `decode_vlq` before the sign is taken out: the number read and the offset after it. */
  function ReadGroups(bytes: seq<Code>, offset: nat): (r: Result<(nat, nat)>)
    ensures r.Ok? ==> offset < r.value.1 <= |bytes|
    decreases |bytes| - offset
  {
    if offset >= |bytes| || !(0 <= bytes[offset] < 128) || B.IndexOf(bytes[offset]) < 0 then Err
    else
      var value := B.IndexOf(bytes[offset]);
      if value < 32 then Ok((value, offset + 1))
      else
        var rest := ReadGroups(bytes, offset + 1);
        if rest.Err? then Err else Ok((value - 32 + 32 * rest.value.0, rest.value.1))
  }

  function DecodeVlq(bytes: seq<Code>, offset: nat): (r: Result<(int, nat)>)
    ensures r.Ok? ==> offset < r.value.1 <= |bytes|
  {
    var g := ReadGroups(bytes, offset);
    if g.Err? then Err else Ok((Unfold(g.value.0), g.value.1))
  }

  /** `bytes` has `text` at `offset`. */
  predicate HasAt(bytes: seq<Code>, offset: nat, text: seq<Code>)
  {
    offset + |text| <= |bytes| && bytes[offset..offset + |text|] == text
  }

  lemma HasAtSplit(bytes: seq<Code>, offset: nat, a: seq<Code>, b: seq<Code>)
    ensures HasAt(bytes, offset, a + b) <==> HasAt(bytes, offset, a) && HasAt(bytes, offset + |a|, b)
  {
    var n := offset + |a| + |b|;
    if n <= |bytes| {
      var s := bytes[offset..n];
      assert s[..|a|] == bytes[offset..offset + |a|] && s[|a|..] == bytes[offset + |a|..n];
      assert s == s[..|a|] + s[|a|..];
      assert (a + b)[..|a|] == a && (a + b)[|a|..] == b;
    }
  }

  lemma {:induction false} GroupsRead(v: nat, bytes: seq<Code>, offset: nat)
    requires HasAt(bytes, offset, Groups(v))
    ensures ReadGroups(bytes, offset) == Ok((v, offset + |Groups(v)|))
    decreases v
  {
    var s := bytes[offset..offset + |Groups(v)|];
    assert bytes[offset] == s[0];
    if v >= 32 {
      HasAtSplit(bytes, offset, [B.Digit(v % 32 + 32)], Groups(v / 32));
      GroupsRead(v / 32, bytes, offset + 1);
    }
  }

  function Vlq(n: int): (r: seq<Code>) { Groups(Fold(n)) }

  /** A number written anywhere in the string is read back, whatever follows it. */
  lemma VlqReads(n: int, bytes: seq<Code>, offset: nat)
    requires HasAt(bytes, offset, Vlq(n))
    ensures DecodeVlq(bytes, offset) == Ok((n, offset + |Vlq(n)|))
  {
    GroupsRead(Fold(n), bytes, offset);
  }

  function Pow32(k: nat): (r: nat) { if k == 0 then 1 else 32 * Pow32(k - 1) }

  lemma {:induction false} GroupsLength(v: nat, k: nat)
    requires k >= 1 && v < Pow32(k)
    ensures |Groups(v)| <= k
    decreases k
  {
    if v >= 32 {
      GroupsLength(v / 32, k - 1);
    }
  }

  /** The difference of two 32-bit numbers takes at most seven digits, so the 64-bit
      arithmetic of the original never overflows. */
  lemma VlqIsShort(n: int)
    requires -0x1_0000_0000 < n < 0x1_0000_0000
    ensures |Vlq(n)| <= 7 && Fold(n) < 0x4_0000_0000
  {
    GroupsLength(Fold(n), 7);
  }

  lemma {:induction false} GroupsClean(v: nat)
    ensures forall i :: 0 <= i < |Groups(v)| ==> Groups(v)[i] != SEMICOLON && Groups(v)[i] != COMMA
    decreases v
  {
    if v >= 32 { GroupsClean(v / 32); }
  }

  function Scaled(r: Result<(int, nat)>, base: int, unit: int): Result<(int, nat)>
  {
    if r.Err? then Err else Ok((base + r.value.0 * unit, r.value.1))
  }

  lemma GroupStep(bytes: seq<Code>, offset: nat)
    ensures var ok := offset < |bytes| && 0 <= bytes[offset] < 128 && B.IndexOf(bytes[offset]) >= 0;
            && (!ok ==> ReadGroups(bytes, offset) == Err)
            && (ok && B.IndexOf(bytes[offset]) < 32 ==>
                  ReadGroups(bytes, offset) == Ok((B.IndexOf(bytes[offset]) % 32, offset + 1)))
            && (ok && B.IndexOf(bytes[offset]) >= 32 ==>
                  ReadGroups(bytes, offset) == Scaled(ReadGroups(bytes, offset + 1), B.IndexOf(bytes[offset]) % 32, 32))
  {
    hide B.IndexOf;
  }

  lemma ScaledStep(r: Result<(int, nat)>, base: int, unit: int, low: nat)
    ensures Scaled(Scaled(r, low, 32), base, unit) == Scaled(r, base + low * unit, unit * 32)
  {
    if r.Ok? {
      var x := r.value.0;
      assert (low + x * 32) * unit == low * unit + x * (unit * 32);
    }
  }

  /** `decode_vlq`'s loop over an offset and a growing shift. */
  method ReadVlq(bytes: seq<Code>, start: nat) returns (r: Result<(int, nat)>)
    ensures r == DecodeVlq(bytes, start)
  {
    hide ReadGroups;
    var result, unit, offset := 0, 1, start;
    while true
      invariant start <= offset && unit >= 1 && result >= 0
      invariant ReadGroups(bytes, start) == Scaled(ReadGroups(bytes, offset), result, unit)
      decreases |bytes| - offset
    {
      GroupStep(bytes, offset);
      if offset >= |bytes| { return Err; }
      var digit := bytes[offset];
      if !(0 <= digit < 128) || B.IndexOf(digit) < 0 { return Err; }
      var value := B.IndexOf(digit);
      offset := offset + 1;
      ScaledStep(ReadGroups(bytes, offset), result, unit, value % 32);
      result := result + value % 32 * unit;
      unit := unit * 32;
      if value < 32 { break; }
    }
    r := Ok((if result % 2 != 0 then -(result / 2) else result / 2, offset));
  }

  // ---------------------------------------------------------------- mappings

  /** One mapping within its generated line. */
  datatype Seg = Seg(column: nat, source: nat, line: nat, origColumn: nat)

  const ZERO := Seg(0, 0, 0, 0)

  /** What the deltas of a new line start from: the column is reset, the rest carries on. */
  function NewLine(prev: Seg): Seg { prev.(column := 0) }

  function SegText(prev: Seg, s: Seg): (r: seq<Code>)
  {
    Vlq(s.column - prev.column) + Vlq(s.source - prev.source)
      + Vlq(s.line - prev.line) + Vlq(s.origColumn - prev.origColumn)
  }

  function LineText(prev: Seg, segs: seq<Seg>): (r: seq<Code>)
    decreases |segs|
  {
    if segs == [] then []
    else SegText(prev, segs[0]) + (if |segs| == 1 then [] else [COMMA] + LineText(segs[0], segs[1..]))
  }

  function LineLast(prev: Seg, segs: seq<Seg>): (r: Seg) { if segs == [] then prev else segs[|segs| - 1] }

  /** The last mapping written, as the next delta sees it; `NewLine` of it after a line end. */
  function AllLast(lines: seq<seq<Seg>>): (r: Seg)
  {
    if lines == [] then ZERO
    else LineLast(NewLine(AllLast(lines[..|lines| - 1])), lines[|lines| - 1])
  }

  /** The closed lines, each with its semicolon. */
  function Closed(lines: seq<seq<Seg>>): (r: seq<Code>)
  {
    if lines == [] then []
    else
      var front, last := lines[..|lines| - 1], lines[|lines| - 1];
      Closed(front) + LineText(NewLine(AllLast(front)), last) + [SEMICOLON]
  }

  /** The mappings string: closed lines and the open one. */
  function AllText(closed: seq<seq<Seg>>, open: seq<Seg>): (r: seq<Code>)
  {
    Closed(closed) + LineText(NewLine(AllLast(closed)), open)
  }

  lemma AllLastPush(lines: seq<seq<Seg>>, segs: seq<Seg>)
    ensures AllLast(lines + [segs]) == LineLast(NewLine(AllLast(lines)), segs)
  {
    assert (lines + [segs])[..|lines|] == lines;
  }

  lemma {:induction false} LineTextPush(prev: Seg, segs: seq<Seg>, s: Seg)
    ensures LineText(prev, segs + [s]) ==
            LineText(prev, segs) + (if segs == [] then [] else [COMMA]) + SegText(LineLast(prev, segs), s)
    decreases |segs|
  {
    hide SegText;
    if segs == [] {
      assert [s][1..] == [];
    } else {
      LineTextPush(segs[0], segs[1..], s);
      assert (segs + [s])[1..] == segs[1..] + [s];
    }
  }

  lemma Regroup(a: seq<Code>, b: seq<Code>, c: seq<Code>, d: seq<Code>)
    ensures a + (b + c + d) == (a + b) + c + d
  {
  }

  lemma AllTextAdd(closed: seq<seq<Seg>>, open: seq<Seg>, s: Seg)
    ensures AllText(closed, open + [s]) ==
            AllText(closed, open) + (if open == [] then [] else [COMMA])
              + SegText(LineLast(NewLine(AllLast(closed)), open), s)
  {
    hide SegText, LineText, Closed, AllLast;
    var prev := NewLine(AllLast(closed));
    LineTextPush(prev, open, s);
    Regroup(Closed(closed), LineText(prev, open), if open == [] then [] else [COMMA], SegText(LineLast(prev, open), s));
  }

  lemma AllTextEndLine(closed: seq<seq<Seg>>, open: seq<Seg>)
    ensures AllText(closed + [open], []) == AllText(closed, open) + [SEMICOLON]
  {
    assert (closed + [open])[..|closed|] == closed;
    assert Closed(closed + [open]) + [] == Closed(closed + [open]);
  }

  class SourceMapWriter {
    var mappings: seq<Code>
    var needComma: bool
    var last: Seg
    ghost var closed: seq<seq<Seg>>
    ghost var open: seq<Seg>

    /** The string written so far is the text of the lines so far. */
    ghost predicate Valid()
      reads this
    {
      && mappings == AllText(closed, open) && last == LineLast(NewLine(AllLast(closed)), open)
      && (needComma <==> open != [])
    }

    constructor ()
      ensures Valid() && closed == [] && open == []
    {
      mappings, needComma, last, closed, open := [], false, ZERO, [], [];
    }

    method EndLine()
      requires Valid()
      modifies this
      ensures Valid() && closed == old(closed) + [old(open)] && open == []
    {
      AllTextEndLine(closed, open);
      AllLastPush(closed, open);
      mappings := mappings + [SEMICOLON];
      last := last.(column := 0);
      needComma := false;
      closed, open := closed + [open], [];
    }

    method Add(s: Seg)
      requires Valid()
      modifies this
      ensures Valid() && closed == old(closed) && open == old(open) + [s]
    {
      hide AllText, AllLast, Groups;
      AllTextAdd(closed, open, s);
      ghost var start := mappings;
      ghost var comma := if needComma then [COMMA] else [];
      assert start + [] == start;
      if needComma {
        mappings := mappings + [COMMA];
      }
      needComma := true;
      var a := EncodeVlq(s.column - last.column);
      var b := EncodeVlq(s.source - last.source);
      var c := EncodeVlq(s.line - last.line);
      var d := EncodeVlq(s.origColumn - last.origColumn);
      ghost var before := mappings;
      mappings := mappings + a + b + c + d;
      assert before == start + comma;
      assert mappings == before + (a + b + c + d);
      assert SegText(last, s) == a + b + c + d;
      last := s;
      open := open + [s];
    }
  }

  // ---------------------------------------------------------------- reading it back

  /** The running totals of the parser, which nothing keeps from being negative. */
  datatype Totals = Totals(column: int, source: int, line: int, origColumn: int)

  function Of(s: Seg): Totals { Totals(s.column, s.source, s.line, s.origColumn) }

  function Clamp(n: int): (r: nat) { if n < 0 then 0 else n }

  function ToSeg(t: Totals): (s: Seg) { Seg(Clamp(t.column), Clamp(t.source), Clamp(t.line), Clamp(t.origColumn)) }

  /** Four numbers, one after the other, added to the totals. */
  function ReadSeg(bytes: seq<Code>, offset: nat, t: Totals): (r: Result<(Totals, nat)>)
    ensures r.Ok? ==> offset < r.value.1 <= |bytes|
  {
    var a := DecodeVlq(bytes, offset);
    if a.Err? then Err else
    var b := DecodeVlq(bytes, a.value.1);
    if b.Err? then Err else
    var c := DecodeVlq(bytes, b.value.1);
    if c.Err? then Err else
    var d := DecodeVlq(bytes, c.value.1);
    if d.Err? then Err else
    Ok((Totals(t.column + a.value.0, t.source + b.value.0, t.line + c.value.0, t.origColumn + d.value.0), d.value.1))
  }

  function AfterComma(bytes: seq<Code>, offset: nat): (r: nat)
  {
    if offset < |bytes| && bytes[offset] == COMMA then offset + 1 else offset
  }

  function ParseLine(bytes: seq<Code>, offset: nat, t: Totals): (r: Result<(seq<Seg>, Totals)>)
    decreases |bytes| - offset
  {
    if offset >= |bytes| then Ok(([], t))
    else
      var one := ReadSeg(bytes, offset, t);
      if one.Err? then Err
      else
        var rest := ParseLine(bytes, AfterComma(bytes, one.value.1), one.value.0);
        if rest.Err? then Err else Ok(([ToSeg(one.value.0)] + rest.value.0, rest.value.1))
  }

  lemma SegReads(prev: Seg, s: Seg, bytes: seq<Code>, offset: nat)
    requires HasAt(bytes, offset, SegText(prev, s))
    ensures ReadSeg(bytes, offset, Of(prev)) == Ok((Of(s), offset + |SegText(prev, s)|))
  {
    hide Vlq, DecodeVlq;
    var a, b := Vlq(s.column - prev.column), Vlq(s.source - prev.source);
    var c, d := Vlq(s.line - prev.line), Vlq(s.origColumn - prev.origColumn);
    HasAtSplit(bytes, offset, a + b + c, d);
    HasAtSplit(bytes, offset, a + b, c);
    HasAtSplit(bytes, offset, a, b);
    VlqReads(s.column - prev.column, bytes, offset);
    VlqReads(s.source - prev.source, bytes, offset + |a|);
    VlqReads(s.line - prev.line, bytes, offset + |a| + |b|);
    VlqReads(s.origColumn - prev.origColumn, bytes, offset + |a| + |b| + |c|);
  }

  /** A line's text parses to the line. */
  lemma {:induction false} LineReads(prev: Seg, segs: seq<Seg>, bytes: seq<Code>, offset: nat)
    requires HasAt(bytes, offset, LineText(prev, segs)) && offset + |LineText(prev, segs)| == |bytes|
    ensures ParseLine(bytes, offset, Of(prev)) == Ok((segs, Of(LineLast(prev, segs))))
    decreases |segs|
  {
    hide SegText, ReadSeg;
    if segs != [] {
      var s, text := segs[0], SegText(prev, segs[0]);
      var rest := if |segs| == 1 then [] else [COMMA] + LineText(s, segs[1..]);
      HasAtSplit(bytes, offset, text, rest);
      SegReads(prev, s, bytes, offset);
      assert ToSeg(Of(s)) == s;
      var after := offset + |text|;
      if |segs| == 1 {
        assert segs == [s] == [s] + [];
        assert AfterComma(bytes, after) == after == |bytes|;
        assert ParseLine(bytes, after, Of(s)) == Ok(([], Of(s)));
      } else {
        HasAtSplit(bytes, after, [COMMA], LineText(s, segs[1..]));
        assert bytes[after] == bytes[after..after + 1][0] == COMMA;
        LineReads(s, segs[1..], bytes, after + 1);
        assert segs == [s] + segs[1..];
      }
    }
  }

  // ---------------------------------------------------------------- whole maps

  /** The parts between semicolons. */
  function Split(s: seq<Code>): (parts: seq<seq<Code>>)
    ensures parts != []
  {
    if s == [] then [[]]
    else
      var rest := Split(s[1..]);
      if s[0] == SEMICOLON then [[]] + rest else [[s[0]] + rest[0]] + rest[1..]
  }

  predicate NoSemicolon(s: seq<Code>) { forall i :: 0 <= i < |s| ==> s[i] != SEMICOLON }

  lemma {:induction false} SplitNone(s: seq<Code>)
    requires NoSemicolon(s)
    ensures Split(s) == [s]
  {
    if s != [] {
      SplitNone(s[1..]);
      assert s == [s[0]] + s[1..];
    }
  }

  lemma {:induction false} SplitPush(a: seq<Code>, b: seq<Code>)
    requires NoSemicolon(b)
    ensures Split(a + [SEMICOLON] + b) == Split(a) + [b]
    decreases |a|
  {
    if a == [] {
      assert ([] + [SEMICOLON] + b)[1..] == b;
      SplitNone(b);
    } else {
      SplitPush(a[1..], b);
      assert (a + [SEMICOLON] + b)[1..] == a[1..] + [SEMICOLON] + b;
      var rest := Split(a[1..]);
      assert (rest + [b])[1..] == rest[1..] + [b];
    }
  }

  /** Each part in turn, the column total starting again from zero. */
  function ParseLines(parts: seq<seq<Code>>, t: Totals): (r: Result<(seq<seq<Seg>>, Totals)>)
  {
    if parts == [] then Ok(([], t))
    else
      var first := ParseLine(parts[0], 0, t.(column := 0));
      if first.Err? then Err
      else
        var rest := ParseLines(parts[1..], first.value.1);
        if rest.Err? then Err else Ok(([first.value.0] + rest.value.0, rest.value.1))
  }

  lemma {:induction false} ParseLinesPush(parts: seq<seq<Code>>, p: seq<Code>, t: Totals)
    requires ParseLines(parts, t).Ok?
    ensures var (lines, t1) := ParseLines(parts, t).value;
            var last := ParseLine(p, 0, t1.(column := 0));
            ParseLines(parts + [p], t) == if last.Err? then Err else Ok((lines + [last.value.0], last.value.1))
  {
    hide ParseLine;
    if parts == [] {
      assert [] + [p] == [p] && [p][1..] == [];
      var last := ParseLine(p, 0, t.(column := 0));
      if last.Ok? {
        assert ParseLines([], last.value.1) == Ok(([], last.value.1));
        assert [last.value.0] + [] == [] + [last.value.0];
      }
    } else {
      var first := ParseLine(parts[0], 0, t.(column := 0));
      ParseLinesPush(parts[1..], p, first.value.1);
      assert (parts + [p])[1..] == parts[1..] + [p];
      var (rest, t1) := ParseLines(parts[1..], first.value.1).value;
      var last := ParseLine(p, 0, t1.(column := 0));
      if last.Ok? {
        assert [first.value.0] + (rest + [last.value.0]) == ([first.value.0] + rest) + [last.value.0];
      }
    }
  }

  lemma {:induction false} LineTextClean(prev: Seg, segs: seq<Seg>)
    ensures NoSemicolon(LineText(prev, segs))
    decreases |segs|
  {
    if segs != [] {
      var s := segs[0];
      GroupsClean(Fold(s.column - prev.column));
      GroupsClean(Fold(s.source - prev.source));
      GroupsClean(Fold(s.line - prev.line));
      GroupsClean(Fold(s.origColumn - prev.origColumn));
      assert NoSemicolon(SegText(prev, s));
      if |segs| > 1 { LineTextClean(s, segs[1..]); }
    }
  }

  lemma LineReadsBack(prev: Seg, segs: seq<Seg>)
    ensures ParseLine(LineText(prev, segs), 0, Of(prev)) == Ok((segs, Of(LineLast(prev, segs))))
  {
    var text := LineText(prev, segs);
    assert text[0..0 + |text|] == text;
    LineReads(prev, segs, text, 0);
  }

  lemma {:induction false} SplitText(closed: seq<seq<Seg>>, open: seq<Seg>) returns (parts: seq<seq<Code>>)
    ensures Split(AllText(closed, open)) == parts + [LineText(NewLine(AllLast(closed)), open)]
    ensures ParseLines(parts, Of(ZERO)) == Ok((closed, Of(AllLast(closed))))
    decreases |closed|
  {
    var text := LineText(NewLine(AllLast(closed)), open);
    LineTextClean(NewLine(AllLast(closed)), open);
    if closed == [] {
      parts := [];
      SplitNone(text);
      assert [] + text == text && [] + [text] == [text];
    } else {
      var front, line := closed[..|closed| - 1], closed[|closed| - 1];
      var prev := NewLine(AllLast(front));
      assert closed == front + [line];
      AllLastPush(front, line);
      var before := SplitText(front, line);
      assert AllText(closed, open) == AllText(front, line) + [SEMICOLON] + text;
      SplitPush(AllText(front, line), text);
      LineReadsBack(prev, line);
      hide ParseLine, LineText, Split, AllText, AllLast, ParseLines;
      ParseLinesPush(before, LineText(prev, line), Of(ZERO));
      parts := before + [LineText(prev, line)];
      assert Of(AllLast(front)).(column := 0) == Of(prev);
    }
  }

  /** Parsing what was written gives the lines back. */
  lemma AllReadsBack(closed: seq<seq<Seg>>, open: seq<Seg>)
    ensures ParseLines(Split(AllText(closed, open)), Of(ZERO)) ==
            Ok((closed + [open], Of(LineLast(NewLine(AllLast(closed)), open))))
  {
    var prev := NewLine(AllLast(closed));
    var parts := SplitText(closed, open);
    LineReadsBack(prev, open);
    hide ParseLine, LineText, Split, AllText, AllLast, ParseLines;
    ParseLinesPush(parts, LineText(prev, open), Of(ZERO));
    assert Of(AllLast(closed)).(column := 0) == Of(prev);
  }

  /** A mapping with its generated line, as the parsed map lists them. */
  datatype Mapping = Mapping(generatedLine: nat, seg: Seg)

  function Tag(g: nat, segs: seq<Seg>): (r: seq<Mapping>)
    ensures |r| == |segs| && forall i :: 0 <= i < |r| ==> r[i] == Mapping(g, segs[i])
  {
    seq(|segs|, i requires 0 <= i < |segs| => Mapping(g, segs[i]))
  }

  function Flat(lines: seq<seq<Seg>>): (r: seq<Mapping>)
    ensures forall i :: 0 <= i < |r| ==> r[i].generatedLine < |lines|
  {
    if lines == [] then [] else Flat(lines[..|lines| - 1]) + Tag(|lines| - 1, lines[|lines| - 1])
  }

  /** `parse_mappings`. */
  function ParseMappings(mappings: seq<Code>): (r: Result<seq<Mapping>>)
  {
    var p := ParseLines(Split(mappings), Of(ZERO));
    if p.Err? then Err else Ok(Flat(p.value.0))
  }

  /** Reading a written map back gives every mapping on its line, for any sequence of `add`
      and `end_line`. */
  lemma MapRoundTrip(closed: seq<seq<Seg>>, open: seq<Seg>)
    ensures ParseMappings(AllText(closed, open)) == Ok(Flat(closed + [open]))
  {
    AllReadsBack(closed, open);
  }

  // ---------------------------------------------------------------- lookup

  /** `partition_point`: how many leading mappings are on a line below `g`. */
  function LinesBelow(ms: seq<Mapping>, g: nat): (n: nat)
    ensures n <= |ms|
  {
    if ms == [] || ms[0].generatedLine >= g then 0 else 1 + LinesBelow(ms[1..], g)
  }

  function ColumnsUpTo(ms: seq<Mapping>, c: nat): (n: nat)
    ensures n <= |ms|
  {
    if ms == [] || ms[0].seg.column > c then 0 else 1 + ColumnsUpTo(ms[1..], c)
  }

  /** `lookup_mapping`. */
  function LookupMapping(ms: seq<Mapping>, line: nat, column: nat): (r: Option<Mapping>)
  {
    var from, to := LinesBelow(ms, line), LinesBelow(ms, line + 1);
    if from > to then None
    else
      var here := ms[from..to];
      var n := ColumnsUpTo(here, column);
      if n == 0 then None else Some(here[n - 1])
  }

  lemma {:induction false} BelowConcat(a: seq<Mapping>, b: seq<Mapping>, g: nat)
    requires forall i :: 0 <= i < |a| ==> a[i].generatedLine < g
    requires b == [] || b[0].generatedLine >= g
    ensures LinesBelow(a + b, g) == |a|
    decreases |a|
  {
    if a == [] {
      assert a + b == b;
    } else {
      assert (a + b)[1..] == a[1..] + b;
      BelowConcat(a[1..], b, g);
    }
  }

  /** The mappings of the lines before `g`, of `g` and of the lines after it. */
  lemma {:induction false} FlatAround(lines: seq<seq<Seg>>, g: nat) returns (rest: seq<Mapping>)
    requires g < |lines|
    ensures Flat(lines) == Flat(lines[..g]) + Tag(g, lines[g]) + rest
    ensures forall i :: 0 <= i < |rest| ==> rest[i].generatedLine > g
    decreases |lines|
  {
    var n := |lines| - 1;
    if g == n {
      rest := [];
    } else {
      rest := FlatAround(lines[..n], g);
      assert lines[..n][..g] == lines[..g];
      rest := rest + Tag(n, lines[n]);
    }
  }

  lemma LinesAround(a: seq<Mapping>, b: seq<Mapping>, rest: seq<Mapping>, g: nat)
    requires forall i :: 0 <= i < |a| ==> a[i].generatedLine < g
    requires forall i :: 0 <= i < |b| ==> b[i].generatedLine == g
    requires forall i :: 0 <= i < |rest| ==> rest[i].generatedLine > g
    ensures LinesBelow(a + b + rest, g) == |a| && LinesBelow(a + b + rest, g + 1) == |a + b|
  {
    hide LinesBelow;
    assert a + b + rest == a + (b + rest);
    BelowConcat(a, b + rest, g);
    BelowConcat(a + b, rest, g + 1);
  }

  /** The two partition points cut out the entries of the line. */
  lemma LookupAround(a: seq<Mapping>, b: seq<Mapping>, rest: seq<Mapping>, g: nat, column: nat)
    requires forall i :: 0 <= i < |a| ==> a[i].generatedLine < g
    requires forall i :: 0 <= i < |b| ==> b[i].generatedLine == g
    requires forall i :: 0 <= i < |rest| ==> rest[i].generatedLine > g
    ensures LookupMapping(a + b + rest, g, column) ==
            var n := ColumnsUpTo(b, column);
            if n == 0 then None else Some(b[n - 1])
  {
    hide LinesBelow, ColumnsUpTo;
    LinesAround(a, b, rest, g);
    assert (a + b + rest)[|a|..|a + b|] == b;
  }

  /** Looking up a position on line `g` searches exactly the mappings of that line. */
  lemma LookupOnLine(lines: seq<seq<Seg>>, g: nat, column: nat)
    requires g < |lines|
    ensures LookupMapping(Flat(lines), g, column) ==
            var n := ColumnsUpTo(Tag(g, lines[g]), column);
            if n == 0 then None else Some(Mapping(g, lines[g][n - 1]))
  {
    var rest := FlatAround(lines, g);
    LookupAround(Flat(lines[..g]), Tag(g, lines[g]), rest, g, column);
  }
}
