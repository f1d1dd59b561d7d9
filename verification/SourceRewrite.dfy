/**
 Rewriting a module's text by replacing spans of it, while recording for every line of the
 result where in the source it came from. Offsets count characters; the byte offsets of
 the original lie on character boundaries, where the two correspond one to one.
 */
module SourceRewrite {
  import opened ResultWrapper

  datatype Pos = Pos(line: nat, column: nat)

  const NL: char := '\n'

  // ---------------------------------------------------------------- positions

  function Utf16Width(c: char): (n: nat) { if c as int >= 0x1_0000 then 2 else 1 }

  /** Length in UTF-16 code units. */
  function Utf16Length(s: string): (n: nat)
  {
    if s == "" then 0 else Utf16Length(s[..|s| - 1]) + Utf16Width(s[|s| - 1])
  }

  function Newlines(s: string): (n: nat)
  {
    if s == "" then 0 else Newlines(s[..|s| - 1]) + if s[|s| - 1] == NL then 1 else 0
  }

  /** Where the line that `i` is on begins. */
  function LineStart(s: string, i: nat): (j: nat)
    requires i <= |s|
    ensures j <= i && (j == 0 || s[j - 1] == NL) && forall k :: j <= k < i ==> s[k] != NL
  {
    if i == 0 || s[i - 1] == NL then i else LineStart(s, i - 1)
  }

  /** The true position of offset `i`: newlines before it, code units since the last one. */
  function TruePos(s: string, i: nat): (p: Pos)
    requires i <= |s|
  {
    Pos(Newlines(s[..i]), Utf16Length(s[LineStart(s, i)..i]))
  }

  lemma TruePosStep(s: string, i: nat)
    requires i < |s|
    ensures TruePos(s, i + 1) ==
            if s[i] == NL then Pos(TruePos(s, i).line + 1, 0)
            else Pos(TruePos(s, i).line, TruePos(s, i).column + Utf16Width(s[i]))
  {
    assert s[..i + 1][..i] == s[..i];
    if s[i] != NL {
      var j := LineStart(s, i);
      assert s[j..i + 1][..i - j] == s[j..i];
    }
  }

  /** `pos_at`: one pass over the characters before the offset. */
  method PosAt(source: string, offset: nat) returns (p: Pos)
    ensures p == TruePos(source, if offset < |source| then offset else |source|)
  {
    var end := if offset < |source| then offset else |source|;
    var line: nat, column: nat := 0, 0;
    for i := 0 to end
      invariant Pos(line, column) == TruePos(source, i)
    {
      TruePosStep(source, i);
      if source[i] == NL {
        line := line + 1;
        column := 0;
      } else {
        column := column + Utf16Width(source[i]);
      }
    }
    p := Pos(line, column);
  }

  // ---------------------------------------------------------------- lines

  function FirstNewline(s: string): (i: nat)
    ensures i <= |s| && (i < |s| ==> s[i] == NL) && forall k :: 0 <= k < i ==> s[k] != NL
  {
    if s == "" || s[0] == NL then 0 else 1 + FirstNewline(s[1..])
  }

  function StripReturn(s: string): (r: string)
  {
    if s != "" && s[|s| - 1] == '\r' then s[..|s| - 1] else s
  }

  /** `str::lines`: the last line needs no newline, and a carriage return before one goes. */
  function Lines(s: string): (r: seq<string>)
  {
    if s == "" then []
    else
      var i := FirstNewline(s);
      if i == |s| then [s] else [StripReturn(s[..i])] + Lines(s[i + 1..])
  }

  // ---------------------------------------------------------------- text with provenance

  /** A character of the output and the source position it stands for. */
  datatype Tagged = Tagged(c: char, from: Pos)

  function Text(t: seq<Tagged>): (r: string)
    ensures |r| == |t| && forall i :: 0 <= i < |t| ==> r[i] == t[i].c
  {
    seq(|t|, i requires 0 <= i < |t| => t[i].c)
  }

  predicate StartsLine(t: seq<Tagged>, i: int)
    requires 0 <= i < |t|
  {
    i == 0 || t[i - 1].c == NL
  }

  /** The positions of the characters that begin a line, in order. */
  function LineTags(t: seq<Tagged>): (r: seq<Pos>)
  {
    if t == [] then []
    else
      var n := |t| - 1;
      LineTags(t[..n]) + if StartsLine(t, n) then [t[n].from] else []
  }

  /** Source characters, each standing for itself. */
  function Copied(source: string, from: nat, to: nat): (r: seq<Tagged>)
    requires from <= to <= |source|
    ensures |r| == to - from
  {
    seq(to - from, i requires 0 <= i < to - from => Tagged(source[from + i], TruePos(source, from + i)))
  }

  /** Replacement text, all of it standing for the start of the span it replaces. */
  function Stamped(text: string, p: Pos): (r: seq<Tagged>)
    ensures |r| == |text|
  {
    seq(|text|, i requires 0 <= i < |text| => Tagged(text[i], p))
  }

  datatype Edit = Edit(start: nat, end: nat, text: string)

  /** The text put in place of a span: a missing newline at its end is added. */
  function Inserted(text: string): (r: string)
  {
    if text != "" && text[|text| - 1] != NL then text + [NL] else text
  }

  /** The output with its provenance, for edits in order; none if two overlap or one does not
      lie in the source. */
  function Rewritten(source: string, cursor: nat, edits: seq<Edit>): (r: Result<seq<Tagged>>)
    requires cursor <= |source|
    decreases |edits|
  {
    if edits == [] then Ok(Copied(source, cursor, |source|))
    else
      var e := edits[0];
      if e.start < cursor || e.end > |source| || e.start > e.end then Err
      else
        var rest := Rewritten(source, e.end, edits[1..]);
        if rest.Err? then Err
        else Ok(Copied(source, cursor, e.start) + Stamped(Inserted(e.text), TruePos(source, e.start)) + rest.value)
  }

  // ---------------------------------------------------------------- one origin per line

  /** Index of the first character of line `k`, counting newlines; the length if there is none. */
  function LineHead(s: string, k: nat): (i: nat)
    ensures i <= |s|
  {
    if k == 0 then 0
    else
      var i := FirstNewline(s);
      if i == |s| then |s| else i + 1 + LineHead(s[i + 1..], k - 1)
  }

  lemma {:induction false} LineTagsFirst(t: seq<Tagged>)
    requires forall i :: 0 <= i < |t| ==> t[i].c != NL
    ensures LineTags(t) == if t == [] then [] else [t[0].from]
  {
    if |t| > 1 {
      LineTagsFirst(t[..|t| - 1]);
    }
  }

  lemma {:induction false} LineTagsCons(t: seq<Tagged>, k: nat)
    requires k < |t| && t[k].c == NL && forall i :: 0 <= i < k ==> t[i].c != NL
    ensures LineTags(t) == [t[0].from] + LineTags(t[k + 1..])
    decreases |t|
  {
    var n := |t| - 1;
    if n == k {
      LineTagsFirst(t[..n]);
      assert t[k + 1..] == [];
    } else {
      var front := t[..n];
      LineTagsCons(front, k);
      assert front[k + 1..] == t[k + 1..][..n - k - 1];
      var rest := t[k + 1..];
      assert rest[|rest| - 1] == t[n];
      assert StartsLine(t, n) <==> StartsLine(rest, |rest| - 1);
    }
  }

  lemma {:induction false} LinesCounted(t: seq<Tagged>)
    ensures |LineTags(t)| == |Lines(Text(t))|
    decreases |t|
  {
    hide Text, LineTags;
    var s := Text(t);
    var i := FirstNewline(s);
    if t == [] || i == |s| {
      LineTagsFirst(t);
    } else {
      LineTagsCons(t, i);
      assert Text(t[i + 1..]) == s[i + 1..];
      LinesCounted(t[i + 1..]);
    }
  }

  lemma LineHeadZero(s: string)
    ensures LineHead(s, 0) == 0
  {
  }

  lemma LineHeadStep(s: string, k: nat)
    requires k > 0 && FirstNewline(s) < |s|
    ensures LineHead(s, k) == FirstNewline(s) + 1 + LineHead(s[FirstNewline(s) + 1..], k - 1)
  {
  }

  lemma {:induction false} OriginOfLine(t: seq<Tagged>, k: nat)
    requires k < |LineTags(t)|
    ensures LineHead(Text(t), k) < |t| && LineTags(t)[k] == t[LineHead(Text(t), k)].from
    decreases |t|
  {
    hide Text, LineTags, FirstNewline, LineHead;
    var s := Text(t);
    var i := FirstNewline(s);
    if k == 0 {
      LineHeadZero(s);
    }
    if t == [] || i == |s| {
      LineTagsFirst(t);
    } else {
      LineTagsCons(t, i);
      if k > 0 {
        var rest := t[i + 1..];
        assert Text(rest) == s[i + 1..];
        OriginOfLine(rest, k - 1);
        LineHeadStep(s, k);
        assert LineTags(t)[k] == LineTags(rest)[k - 1];
        assert rest[LineHead(Text(rest), k - 1)] == t[LineHead(s, k)];
      }
    }
  }

  /** Exactly one position per output line, that of the line's first character. */
  lemma OneOriginPerLine(t: seq<Tagged>)
    ensures |LineTags(t)| == |Lines(Text(t))|
    ensures forall k :: 0 <= k < |LineTags(t)| ==>
              LineHead(Text(t), k) < |t| && LineTags(t)[k] == t[LineHead(Text(t), k)].from
  {
    LinesCounted(t);
    forall k | 0 <= k < |LineTags(t)|
      ensures LineHead(Text(t), k) < |t| && LineTags(t)[k] == t[LineHead(Text(t), k)].from
    {
      OriginOfLine(t, k);
    }
  }

  // ---------------------------------------------------------------- apply_replacements

  /** The output under construction: text, origins and whether a line is about to begin. */
  datatype Output = Output(text: string, origins: seq<Pos>, atLineStart: bool)

  /** The output stands for the tagged text `t`. */
  ghost predicate Shows(o: Output, t: seq<Tagged>)
  {
    && o.text == Text(t) && o.origins == LineTags(t)
    && (o.atLineStart <==> t == [] || t[|t| - 1].c == NL)
  }

  /** One turn of `append`. */
  function Push(o: Output, c: char, p: Pos): (r: Output)
  {
    Output(o.text + [c], if o.atLineStart then o.origins + [p] else o.origins, c == NL)
  }

  lemma PushShows(o: Output, t: seq<Tagged>, c: char, p: Pos)
    requires Shows(o, t)
    ensures Shows(Push(o, c, p), t + [Tagged(c, p)])
  {
    var r := t + [Tagged(c, p)];
    assert r[..|t|] == t;
    assert Text(r) == Text(t) + [c];
    assert StartsLine(r, |t|) <==> o.atLineStart;
  }

  method AppendCopy(source: string, from: nat, to: nat, before: Output, ghost t: seq<Tagged>) returns (o: Output)
    requires from <= to <= |source| && Shows(before, t)
    ensures Shows(o, t + Copied(source, from, to))
  {
    hide Shows, TruePos;
    o := before;
    ghost var all := Copied(source, from, to);
    assert t + all[..0] == t;
    for i := 0 to to - from
      invariant Shows(o, t + all[..i])
    {
      ghost var done := t + all[..i];
      var at := PosAt(source, from + i);
      PushShows(o, done, source[from + i], at);
      assert all[i] == Tagged(source[from + i], at);
      assert t + all[..i + 1] == done + [all[i]];
      o := Push(o, source[from + i], at);
    }
    assert all[..to - from] == all;
  }

  method AppendText(text: string, at: Pos, before: Output, ghost t: seq<Tagged>) returns (o: Output)
    requires Shows(before, t)
    ensures Shows(o, t + Stamped(text, at))
  {
    o := before;
    ghost var all := Stamped(text, at);
    assert t + all[..0] == t;
    for i := 0 to |text|
      invariant Shows(o, t + all[..i])
    {
      hide Shows;
      ghost var done := t + all[..i];
      PushShows(o, done, text[i], at);
      assert t + all[..i + 1] == done + [all[i]];
      o := Push(o, text[i], at);
    }
    assert all[..|text|] == all;
  }

  // ---------------------------------------------------------------- ordering the edits

  predicate Ordered(edits: seq<Edit>) { forall i, j :: 0 <= i < j < |edits| ==> edits[i].start <= edits[j].start }

  function Insert(e: Edit, edits: seq<Edit>): (r: seq<Edit>)
  {
    if edits == [] || e.start < edits[0].start then [e] + edits else [edits[0]] + Insert(e, edits[1..])
  }

  /** A stable sort by the start of the span. */
  function Sort(edits: seq<Edit>): (r: seq<Edit>)
  {
    if edits == [] then [] else Insert(edits[|edits| - 1], Sort(edits[..|edits| - 1]))
  }

  predicate AllFrom(edits: seq<Edit>, low: nat) { forall i :: 0 <= i < |edits| ==> low <= edits[i].start }

  lemma {:induction false} InsertFrom(e: Edit, edits: seq<Edit>, low: nat)
    requires AllFrom(edits, low) && low <= e.start
    ensures AllFrom(Insert(e, edits), low)
  {
    if edits != [] { InsertFrom(e, edits[1..], low); }
  }

  lemma {:induction false} InsertOrders(e: Edit, edits: seq<Edit>)
    requires Ordered(edits)
    ensures Ordered(Insert(e, edits))
  {
    if edits != [] && !(e.start < edits[0].start) {
      InsertOrders(e, edits[1..]);
      InsertFrom(e, edits[1..], edits[0].start);
    }
  }

  lemma {:induction false} InsertKeepsAll(e: Edit, edits: seq<Edit>)
    ensures multiset(Insert(e, edits)) == multiset(edits) + multiset{e}
  {
    if edits != [] {
      InsertKeepsAll(e, edits[1..]);
      assert edits == [edits[0]] + edits[1..];
    }
  }

  function IfAt(e: Edit, p: nat): (r: seq<Edit>) { if e.start == p then [e] else [] }

  /** The edits that start at `p`, in order: what stability is about. */
  function AtStart(edits: seq<Edit>, p: nat): (r: seq<Edit>)
  {
    if edits == [] then [] else IfAt(edits[0], p) + AtStart(edits[1..], p)
  }

  lemma {:induction false} NoneAtStart(edits: seq<Edit>, p: nat)
    requires forall i :: 0 <= i < |edits| ==> edits[i].start != p
    ensures AtStart(edits, p) == []
  {
    if edits != [] { NoneAtStart(edits[1..], p); }
  }

  /** Equal starts: the later edit goes behind. */
  lemma {:induction false} InsertIsStable(e: Edit, edits: seq<Edit>, p: nat)
    requires Ordered(edits)
    ensures AtStart(Insert(e, edits), p) == AtStart(edits, p) + IfAt(e, p)
  {
    if edits != [] && !(e.start < edits[0].start) {
      InsertIsStable(e, edits[1..], p);
      var r := Insert(e, edits[1..]);
      assert ([edits[0]] + r)[1..] == r;
    } else {
      assert ([e] + edits)[1..] == edits;
      if e.start == p { NoneAtStart(edits, p); }
    }
  }

  lemma {:induction false} AtStartPush(edits: seq<Edit>, e: Edit, p: nat)
    ensures AtStart(edits + [e], p) == AtStart(edits, p) + IfAt(e, p)
  {
    hide IfAt;
    if edits == [] {
      assert [e][1..] == [];
    } else {
      AtStartPush(edits[1..], e, p);
      assert (edits + [e])[0] == edits[0] && (edits + [e])[1..] == edits[1..] + [e];
      var head, tail, last := IfAt(edits[0], p), AtStart(edits[1..], p), IfAt(e, p);
      assert head + (tail + last) == (head + tail) + last;
    }
  }

  /** Ordered, the same edits, and edits with one start keep their order. */
  lemma {:induction false} SortSorts(edits: seq<Edit>)
    ensures Ordered(Sort(edits)) && multiset(Sort(edits)) == multiset(edits)
    ensures forall p: nat :: AtStart(Sort(edits), p) == AtStart(edits, p)
  {
    if edits != [] {
      var front, e := edits[..|edits| - 1], edits[|edits| - 1];
      assert edits == front + [e];
      SortSorts(front);
      InsertOrders(e, Sort(front));
      InsertKeepsAll(e, Sort(front));
      forall p: nat ensures AtStart(Sort(edits), p) == AtStart(edits, p) {
        InsertIsStable(e, Sort(front), p);
        AtStartPush(front, e, p);
      }
    }
  }

  function Prefixed(t: seq<Tagged>, r: Result<seq<Tagged>>): (p: Result<seq<Tagged>>)
  {
    if r.Err? then Err else Ok(t + r.value)
  }

  /** What one edit puts out: the text before its span, then its own. */
  function Piece(source: string, cursor: nat, e: Edit): (r: seq<Tagged>)
    requires cursor <= e.start <= e.end <= |source|
  {
    Copied(source, cursor, e.start) + Stamped(Inserted(e.text), TruePos(source, e.start))
  }

  lemma RewrittenStep(source: string, cursor: nat, edits: seq<Edit>, n: nat, t: seq<Tagged>)
    requires cursor <= |source| && n < |edits|
    ensures var e := edits[n];
            Prefixed(t, Rewritten(source, cursor, edits[n..])) ==
            if e.start < cursor || e.end > |source| || e.start > e.end then Err
            else Prefixed(t + Piece(source, cursor, e), Rewritten(source, e.end, edits[n + 1..]))
  {
    hide Copied, Stamped, TruePos, Inserted;
    var e := edits[n];
    assert edits[n..][0] == e && edits[n..][1..] == edits[n + 1..];
    if !(e.start < cursor || e.end > |source| || e.start > e.end) {
      var rest := Rewritten(source, e.end, edits[n + 1..]);
      if rest.Ok? {
        var p := Piece(source, cursor, e);
        assert t + (p + rest.value) == (t + p) + rest.value;
      }
    }
  }

  lemma ShowsNothing()
    ensures Shows(Output("", [], true), [])
  {
  }

  lemma ShowsFields(o: Output, t: seq<Tagged>)
    requires Shows(o, t)
    ensures o.text == Text(t) && o.origins == LineTags(t)
  {
  }

  method AppendInserted(text: string, at: Pos, before: Output, ghost t: seq<Tagged>) returns (o: Output)
    requires Shows(before, t)
    ensures Shows(o, t + Stamped(Inserted(text), at))
  {
    o := AppendText(text, at, before, t);
    if text != "" && text[|text| - 1] != NL {
      o := AppendText([NL], at, o, t + Stamped(text, at));
      assert Stamped(text + [NL], at) == Stamped(text, at) + Stamped([NL], at);
      assert t + Stamped(text, at) + Stamped([NL], at) == t + (Stamped(text, at) + Stamped([NL], at));
    }
  }

  method AppendPiece(source: string, cursor: nat, e: Edit, before: Output, ghost t: seq<Tagged>) returns (o: Output)
    requires cursor <= e.start <= e.end <= |source| && Shows(before, t)
    ensures Shows(o, t + Piece(source, cursor, e))
  {
    hide Shows, Copied, Stamped, TruePos, Inserted;
    o := AppendCopy(source, cursor, e.start, before, t);
    var at := PosAt(source, e.start);
    ghost var copy, stamp := Copied(source, cursor, e.start), Stamped(Inserted(e.text), at);
    o := AppendInserted(e.text, at, o, t + copy);
    assert t + copy + stamp == t + (copy + stamp);
  }

  /** Out comes the rewritten text and one origin per line of it. */
  method ApplyReplacements(source: string, replacements: seq<Edit>) returns (r: Result<(string, seq<Pos>)>)
    ensures match Rewritten(source, 0, Sort(replacements))
            case Err => r == Err
            case Ok(t) => r == Ok((Text(t), LineTags(t)))
  {
    hide Sort, Text, LineTags, Shows, Copied, Stamped, TruePos, Inserted;
    var edits := Sort(replacements);
    var o, cursor: nat := Output("", [], true), 0;
    ghost var t: seq<Tagged> := [];
    ghost var whole := Rewritten(source, 0, edits);
    assert whole == Prefixed(t, Rewritten(source, cursor, edits[0..])) by {
      assert edits[0..] == edits;
      assert whole.Ok? ==> t + whole.value == whole.value;
    }
    ShowsNothing();
    for n := 0 to |edits|
      invariant cursor <= |source| && Shows(o, t)
      invariant whole == Prefixed(t, Rewritten(source, cursor, edits[n..]))
    {
      hide Rewritten, Prefixed;
      var e := edits[n];
      RewrittenStep(source, cursor, edits, n, t);
      if e.start < cursor || e.end > |source| || e.start > e.end {
        return Err;
      }
      o := AppendPiece(source, cursor, e, o, t);
      t := t + Piece(source, cursor, e);
      cursor := e.end;
    }
    o := AppendCopy(source, cursor, |source|, o, t);
    assert edits[|edits|..] == [];
    ShowsFields(o, t + Copied(source, cursor, |source|));
    r := Ok((o.text, o.origins));
  }

  // ---------------------------------------------------------------- identity_origins

  /** A module left as it is: every line stands for itself. */
  function IdentityOrigins(source: string): (r: seq<Pos>)
    ensures |r| == |Lines(source)|
  {
    seq(|Lines(source)|, line requires 0 <= line => Pos(line, 0))
  }

  lemma {:induction false} TagCount(source: string, n: nat)
    requires n <= |source|
    ensures |LineTags(Copied(source, 0, n))| == Newlines(source[..n]) + (if n == 0 || source[n - 1] == NL then 0 else 1)
  {
    if n > 0 {
      TagCount(source, n - 1);
      assert Copied(source, 0, n)[..n - 1] == Copied(source, 0, n - 1);
      assert source[..n][..n - 1] == source[..n - 1];
    }
  }

  lemma {:induction false} LineTagsCopy(source: string, n: nat, k: nat)
    requires n <= |source| && k < |LineTags(Copied(source, 0, n))|
    ensures LineTags(Copied(source, 0, n))[k] == Pos(k, 0)
    ensures |LineTags(Copied(source, 0, n))| == Newlines(source[..n]) + (if n == 0 || source[n - 1] == NL then 0 else 1)
    decreases n
  {
    TagCount(source, n);
    var t := Copied(source, 0, n);
    assert t[..n - 1] == Copied(source, 0, n - 1);
    if k < |LineTags(t[..n - 1])| {
      LineTagsCopy(source, n - 1, k);
    } else {
      TagCount(source, n - 1);
      assert source[..n][..n - 1] == source[..n - 1];
      assert t[n - 1].from == TruePos(source, n - 1);
      assert source[n - 1..n - 1] == "";
    }
  }

  /** It is what rewriting with no edits gives. */
  lemma IdentityIsNoRewrite(source: string)
    ensures Text(Copied(source, 0, |source|)) == source
    ensures LineTags(Copied(source, 0, |source|)) == IdentityOrigins(source)
  {
    var t := Copied(source, 0, |source|);
    assert Text(t) == source;
    OneOriginPerLine(t);
    forall k | 0 <= k < |LineTags(t)| ensures LineTags(t)[k] == Pos(k, 0) {
      LineTagsCopy(source, |source|, k);
    }
  }
}
