/**
 Emission of the bundle: the text of the loader and of every module's factory, with a source
 map kept in step with it line by line.
 */
module BundleEmit {
  import opened OptionWrapper
  import R = SourceRewrite
  import M = SourceMaps

  // ---------------------------------------------------------------- js_string

  function Hex(n: nat): (c: char)
    requires n < 16
  {
    if n < 10 then '0' + n as char else 'a' + (n - 10) as char
  }

  function Escape(c: char): (r: string)
  {
    if c == '"' then "\\\"" else if c == '\\' then "\\\\"
    else if c == '\n' then "\\n" else if c == '\r' then "\\r" else if c == '\t' then "\\t"
    else if c == 8 as char then "\\b" else if c == 12 as char then "\\f"
    else if c < ' ' then "\\u00" + [Hex(c as int / 16), Hex(c as int % 16)]
    else [c]
  }

  function EscapeAll(s: string): (r: string) { if s == "" then "" else EscapeAll(s[..|s| - 1]) + Escape(s[|s| - 1]) }

  /** A JSON string literal. */
  function JsString(s: string): (r: string) { "\"" + EscapeAll(s) + "\"" }

  predicate OneLine(s: string) { forall i :: 0 <= i < |s| ==> s[i] != R.NL }

  lemma {:induction false} EscapedIsOneLine(s: string)
    ensures OneLine(EscapeAll(s))
  {
    if s != "" {
      EscapedIsOneLine(s[..|s| - 1]);
      assert OneLine(Escape(s[|s| - 1]));
    }
  }

  /** However many lines the value has, its literal is on one. */
  lemma JsStringIsOneLine(s: string)
    ensures OneLine(JsString(s))
  {
    EscapedIsOneLine(s);
  }

  // ---------------------------------------------------------------- modules

  /** The map of a transpiled module, back to its TypeScript. */
  datatype TsMap = TsMap(sources: nat, mappings: seq<M.Mapping>)

  datatype CompiledModule =
    CompiledModule(id: string, factory: string, origins: seq<R.Pos>, jsToTs: Option<TsMap>)

  /** `original_position`, lines and columns counted from one. */
  function OriginalPosition(map_: TsMap, line: nat, column: nat): (r: Option<R.Pos>)
  {
    match M.LookupMapping(map_.mappings, if line == 0 then 0 else line - 1, if column == 0 then 0 else column - 1)
    case None => None
    case Some(m) =>
      if m.seg.source < map_.sources then Some(R.Pos(m.seg.line + 1, m.seg.origColumn + 1)) else None
  }

  function OriginalForLine(m: CompiledModule, k: nat): (r: Option<R.Pos>)
  {
    if k >= |m.origins| then None
    else
      var p := m.origins[k];
      var found := if m.jsToTs.None? then None else OriginalPosition(m.jsToTs.value, p.line + 1, p.column + 1);
      if found.None? then Some(p)
      else Some(R.Pos(if found.value.line == 0 then 0 else found.value.line - 1,
                        if found.value.column == 0 then 0 else found.value.column - 1))
  }

  /** Where a position of the JavaScript came from: the TypeScript position its map gives, or
      itself where there is no map or no entry. */
  function Source(m: CompiledModule, p: R.Pos): (r: R.Pos)
  {
    match m.jsToTs
    case None => p
    case Some(ts) =>
      match M.LookupMapping(ts.mappings, p.line, p.column)
      case None => p
      case Some(found) => if found.seg.source < ts.sources then R.Pos(found.seg.line, found.seg.origColumn) else p
  }

  /** The shifts by one cancel. */
  lemma OriginalIsSource(m: CompiledModule, k: nat)
    ensures OriginalForLine(m, k) == if k < |m.origins| then Some(Source(m, m.origins[k])) else None
  {
  }

  // ---------------------------------------------------------------- the bundle as rows

  /** A line of the bundle and the mappings on it. */
  datatype Row = Row(text: string, segs: seq<M.Seg>)

  function RowText(r: Row): string { r.text + [R.NL] }

  function TextOf(rows: seq<Row>): (t: string)
  {
    if rows == [] then "" else TextOf(rows[..|rows| - 1]) + RowText(rows[|rows| - 1])
  }

  function SegsOf(rows: seq<Row>): (s: seq<seq<M.Seg>>)
    ensures |s| == |rows| && forall i :: 0 <= i < |rows| ==> s[i] == rows[i].segs
  {
    seq(|rows|, i requires 0 <= i < |rows| => rows[i].segs)
  }

  predicate Single(rows: seq<Row>) { forall i :: 0 <= i < |rows| ==> OneLine(rows[i].text) }

  function DefineText(): string { "  define(" }
  function FunctionText(): string { ", function (module, exports, require) {" }
  function CloseText(): string { "  });" }
  function ReturnText(): string { "  return require;" }
  function InvokeText(): string { "})();" }
  function EntryText(): string { "var __tysel_entry = __tysel_require(" }
  function EntryEndText(): string { ");" }
  function ExportText(): string
  {
    "export default __tysel_entry" + ".default !== void 0 ? " + "__tysel_entry.default : __tysel_entry;"
  }

  lemma OneLineConcat(a: string, b: string)
    ensures OneLine(a + b) <==> OneLine(a) && OneLine(b)
  {
    if OneLine(a + b) {
      forall i | 0 <= i < |a| ensures a[i] != R.NL { assert (a + b)[i] == a[i]; }
      forall i | 0 <= i < |b| ensures b[i] != R.NL { assert (a + b)[|a| + i] == b[i]; }
    }
  }

  lemma DefineIsOneLine() ensures OneLine(DefineText()) {}
  lemma FunctionIsOneLine() ensures OneLine(FunctionText()) {}
  lemma CloseIsOneLine() ensures OneLine(CloseText()) {}
  lemma ReturnIsOneLine() ensures OneLine(ReturnText()) {}
  lemma InvokeIsOneLine() ensures OneLine(InvokeText()) {}
  lemma EntryIsOneLine() ensures OneLine(EntryText()) {}
  lemma EntryEndIsOneLine() ensures OneLine(EntryEndText()) {}

  lemma ExportIsOneLine()
    ensures OneLine(ExportText())
  {
    var a, b, c := "export default __tysel_entry", ".default !== void 0 ? ", "__tysel_entry.default : __tysel_entry;";
    assert OneLine(a) && OneLine(b) && OneLine(c);
    OneLineConcat(a, b);
    OneLineConcat(a + b, c);
  }

  function Indented(line: string): (r: string) { "  " + line }

  /** A mapping from the first character of the line, if its origin is known. */
  function FactorySegs(index: nat, m: CompiledModule, line: string, k: nat): (r: seq<M.Seg>)
  {
    match OriginalForLine(m, k)
    case None => []
    case Some(p) => [M.Seg(if line == "" then 0 else 2, index, p.line, p.column)]
  }

  function FactoryRow(index: nat, m: CompiledModule, line: string, k: nat): (r: Row)
  {
    Row(Indented(line), FactorySegs(index, m, line, k))
  }

  function FactoryRows(index: nat, m: CompiledModule): (r: seq<Row>)
    ensures |r| == |R.Lines(m.factory)|
    ensures forall k :: 0 <= k < |r| ==> r[k] == FactoryRow(index, m, R.Lines(m.factory)[k], k)
  {
    var lines := R.Lines(m.factory);
    seq(|lines|, k requires 0 <= k < |lines| => FactoryRow(index, m, lines[k], k))
  }

  function HeadText(m: CompiledModule): (r: string) { DefineText() + JsString(m.id) + FunctionText() }

  function Head(m: CompiledModule): (r: Row) { Row(HeadText(m), []) }

  /** An empty factory still takes up a line. */
  function BodyRows(index: nat, m: CompiledModule): (r: seq<Row>)
  {
    if R.Lines(m.factory) == [] then [Row("", [])] else FactoryRows(index, m)
  }

  function ModuleRows(index: nat, m: CompiledModule): (r: seq<Row>)
  {
    [Head(m)] + BodyRows(index, m) + [Row(CloseText(), [])]
  }

  function AllModuleRows(modules: seq<CompiledModule>): (r: seq<Row>)
  {
    if modules == [] then []
    else AllModuleRows(modules[..|modules| - 1]) + ModuleRows(|modules| - 1, modules[|modules| - 1])
  }

  function Tail(entry: string): (r: seq<Row>)
  {
    [Row(ReturnText(), []), Row(InvokeText(), []),
     Row(EntryText() + JsString(entry) + EntryEndText(), []), Row(ExportText(), [])]
  }

  predicate WholeLines(text: string) { text == "" || text[|text| - 1] == R.NL }

  /** The lines of the loader, which has no mappings. */
  function PlainRows(text: string): (r: seq<Row>)
    requires WholeLines(text)
  {
    if text == "" then []
    else var i := R.FirstNewline(text); [Row(text[..i], [])] + PlainRows(text[i + 1..])
  }

  function BundleRows(runtime: string, modules: seq<CompiledModule>, entry: string): (r: seq<Row>)
    requires WholeLines(runtime)
  {
    PlainRows(runtime) + AllModuleRows(modules) + Tail(entry)
  }

  // ---------------------------------------------------------------- joining rows

  lemma {:induction false} TextOfConcat(a: seq<Row>, b: seq<Row>)
    ensures TextOf(a + b) == TextOf(a) + TextOf(b)
    decreases |b|
  {
    if b == [] {
      assert a + b == a && TextOf(a) + "" == TextOf(a);
    } else {
      var front, last := b[..|b| - 1], b[|b| - 1];
      TextOfConcat(a, front);
      assert (a + b)[..|a + b| - 1] == a + front;
      assert TextOf(a) + (TextOf(front) + RowText(last)) == (TextOf(a) + TextOf(front)) + RowText(last);
    }
  }

  lemma TextOfPush(rows: seq<Row>, r: Row)
    ensures TextOf(rows + [r]) == TextOf(rows) + r.text + [R.NL]
    ensures SegsOf(rows + [r]) == SegsOf(rows) + [r.segs]
  {
    assert (rows + [r])[..|rows|] == rows;
    assert TextOf(rows) + (r.text + [R.NL]) == TextOf(rows) + r.text + [R.NL];
  }

  lemma {:induction false} NewlinesConcat(a: string, b: string)
    ensures R.Newlines(a + b) == R.Newlines(a) + R.Newlines(b)
    decreases |b|
  {
    if b == "" {
      assert a + b == a;
    } else {
      assert (a + b)[..|a + b| - 1] == a + b[..|b| - 1];
      NewlinesConcat(a, b[..|b| - 1]);
    }
  }

  lemma {:induction false} OneLineHasNone(s: string)
    requires OneLine(s)
    ensures R.Newlines(s) == 0
  {
    if s != "" { OneLineHasNone(s[..|s| - 1]); }
  }

  lemma OneRowNewlines(s: string)
    requires OneLine(s)
    ensures R.Newlines(s + [R.NL]) == 1
  {
    OneLineHasNone(s);
    assert (s + [R.NL])[..|s|] == s;
  }

  /** One newline a row. */
  lemma {:induction false} NewlinesOf(rows: seq<Row>)
    requires Single(rows)
    ensures R.Newlines(TextOf(rows)) == |rows|
  {
    if rows != [] {
      var front, last := rows[..|rows| - 1], rows[|rows| - 1];
      NewlinesOf(front);
      OneRowNewlines(last.text);
      NewlinesConcat(TextOf(front), RowText(last));
    }
  }

  lemma PlainRowsStep(text: string) returns (i: nat)
    requires text != "" && WholeLines(text)
    ensures i < |text| && OneLine(text[..i]) && text == RowText(Row(text[..i], [])) + text[i + 1..]
    ensures WholeLines(text[i + 1..]) && PlainRows(text) == [Row(text[..i], [])] + PlainRows(text[i + 1..])
  {
    i := R.FirstNewline(text);
    assert text == text[..i] + [text[i]] + text[i + 1..];
  }

  lemma TextOfOne(r: Row)
    ensures TextOf([r]) == RowText(r)
  {
    assert [r][..0] == [];
  }

  lemma {:induction false} PlainRowsText(text: string)
    requires WholeLines(text)
    ensures TextOf(PlainRows(text)) == text
    decreases |text|
  {
    if text != "" {
      hide WholeLines, PlainRows, TextOf;
      var i := PlainRowsStep(text);
      PlainRowsText(text[i + 1..]);
      TextOfConcat([Row(text[..i], [])], PlainRows(text[i + 1..]));
      TextOfOne(Row(text[..i], []));
    }
  }

  predicate NoSegs(rows: seq<Row>) { forall i :: 0 <= i < |rows| ==> rows[i].segs == [] }

  lemma SingleConcat(a: seq<Row>, b: seq<Row>)
    requires Single(a) && Single(b)
    ensures Single(a + b)
  {
  }

  lemma {:induction false} PlainRowsSingle(text: string)
    requires WholeLines(text)
    ensures Single(PlainRows(text)) && NoSegs(PlainRows(text))
  {
    if text != "" {
      var i := R.FirstNewline(text);
      PlainRowsSingle(text[i + 1..]);
      SingleConcat([Row(text[..i], [])], PlainRows(text[i + 1..]));
    }
  }

  lemma {:induction false} LinesAreSingle(s: string)
    ensures forall k :: 0 <= k < |R.Lines(s)| ==> OneLine(R.Lines(s)[k])
  {
    if s != "" && R.FirstNewline(s) < |s| { LinesAreSingle(s[R.FirstNewline(s) + 1..]); }
  }

  lemma HeadSingle(m: CompiledModule)
    ensures OneLine(HeadText(m)) && Head(m) == Row(HeadText(m), [])
  {
    hide JsString, DefineText, FunctionText;
    JsStringIsOneLine(m.id);
    DefineIsOneLine();
    FunctionIsOneLine();
    OneLineConcat(DefineText(), JsString(m.id));
    OneLineConcat(DefineText() + JsString(m.id), FunctionText());
  }

  lemma BodySingle(index: nat, m: CompiledModule)
    ensures Single(BodyRows(index, m))
  {
    hide OriginalForLine, R.Lines;
    LinesAreSingle(m.factory);
    var rows := FactoryRows(index, m);
    forall k | 0 <= k < |rows| ensures OneLine(rows[k].text) {
      OneLineConcat("  ", R.Lines(m.factory)[k]);
    }
  }

  lemma ModuleRowsSingle(index: nat, m: CompiledModule)
    ensures Single(ModuleRows(index, m))
  {
    hide Head, BodyRows, CloseText;
    HeadSingle(m);
    BodySingle(index, m);
    CloseIsOneLine();
  }

  lemma {:induction false} AllModuleRowsSingle(modules: seq<CompiledModule>)
    ensures Single(AllModuleRows(modules))
  {
    if modules != [] {
      hide ModuleRows;
      AllModuleRowsSingle(modules[..|modules| - 1]);
      ModuleRowsSingle(|modules| - 1, modules[|modules| - 1]);
    }
  }

  lemma TailSingle(entry: string)
    ensures Single(Tail(entry))
  {
    hide JsString, ReturnText, InvokeText, EntryText, EntryEndText, ExportText;
    JsStringIsOneLine(entry);
    ReturnIsOneLine();
    InvokeIsOneLine();
    EntryIsOneLine();
    EntryEndIsOneLine();
    ExportIsOneLine();
    OneLineConcat(EntryText(), JsString(entry));
    OneLineConcat(EntryText() + JsString(entry), EntryEndText());
  }

  lemma BundleRowsSingle(runtime: string, modules: seq<CompiledModule>, entry: string)
    requires WholeLines(runtime)
    ensures Single(BundleRows(runtime, modules, entry))
  {
    hide Single, PlainRows, AllModuleRows, Tail;
    PlainRowsSingle(runtime);
    AllModuleRowsSingle(modules);
    TailSingle(entry);
    SingleConcat(PlainRows(runtime), AllModuleRows(modules));
    SingleConcat(PlainRows(runtime) + AllModuleRows(modules), Tail(entry));
  }

  // ---------------------------------------------------------------- emission

  /** Lines closed by writing text that starts on a line with mappings `open`. */
  function Blank(n: nat): (r: seq<seq<M.Seg>>)
    ensures |r| == n && forall i :: 0 <= i < n ==> r[i] == []
  {
    seq(n, i => [])
  }

  function ClosedBy(open: seq<M.Seg>, n: nat): (r: seq<seq<M.Seg>>)
    ensures |r| == n
  {
    if n == 0 then [] else [open] + Blank(n - 1)
  }

  lemma NoneClosed(closed: seq<seq<M.Seg>>)
    ensures closed + ClosedBy([], 0) == closed
  {
  }

  lemma EntryPieces(entry: string)
    ensures OneLine(EntryText() + JsString(entry))
  {
    hide EntryText, JsString;
    EntryIsOneLine();
    JsStringIsOneLine(entry);
  }

  lemma TextOfTwo(a: Row, b: Row)
    ensures TextOf([a, b]) == a.text + [R.NL] + b.text + [R.NL]
  {
    TextOfOne(a);
    TextOfPush([a], b);
    assert [a] + [b] == [a, b];
  }

  lemma BlankSegs(rows: seq<Row>, more: seq<Row>)
    requires NoSegs(more)
    ensures SegsOf(rows + more) == SegsOf(rows) + ClosedBy([], |more|)
  {
    var n := |more|;
    forall i | 0 <= i < n ensures ClosedBy([], n)[i] == [] { }
  }

  lemma IndentedText(out: string, line: string)
    requires OneLine(line)
    ensures out + "  " + line + [R.NL] == out + Indented(line) + [R.NL]
    ensures R.Newlines(out + "  " + line + [R.NL]) == R.Newlines(out) + 1
  {
    hide R.Newlines;
    OneLineConcat("  ", line);
    OneRowNewlines(Indented(line));
    NewlinesConcat(out, Indented(line) + [R.NL]);
    assert out + "  " + line + [R.NL] == out + Indented(line) + [R.NL];
    assert out + Indented(line) + [R.NL] == out + (Indented(line) + [R.NL]);
  }

  /** The effect of writing `text`. */
  ghost predicate Pushed(out0: string, closed0: seq<seq<M.Seg>>, open0: seq<M.Seg>, text: string,
                         out: string, closed: seq<seq<M.Seg>>, open: seq<M.Seg>)
  {
    && out == out0 + text && closed == closed0 + ClosedBy(open0, R.Newlines(text))
    && open == if R.Newlines(text) == 0 then open0 else []
  }

  lemma NewlinesPush(text: string, i: nat)
    requires i < |text|
    ensures R.Newlines(text[..i + 1]) == R.Newlines(text[..i]) + if text[i] == R.NL then 1 else 0
    ensures R.Newlines([text[i]]) == if text[i] == R.NL then 1 else 0
  {
    assert text[..i + 1][..i] == text[..i];
    assert [text[i]][..0] == "";
  }

  lemma ClosedByStep(open: seq<M.Seg>, n: nat)
    ensures ClosedBy(open, n + 1) == ClosedBy(open, n) + [if n == 0 then open else []]
  {
  }

  lemma PushedStep(out0: string, closed0: seq<seq<M.Seg>>, open0: seq<M.Seg>, text: string, i: nat,
                   out: string, closed: seq<seq<M.Seg>>, open: seq<M.Seg>)
    requires i < |text| && Pushed(out0, closed0, open0, text[..i], out, closed, open)
    ensures var c := text[i];
            Pushed(out0, closed0, open0, text[..i + 1], out + [c],
                   if c == R.NL then closed + [open] else closed, if c == R.NL then [] else open)
  {
    hide R.Newlines, ClosedBy;
    NewlinesPush(text, i);
    assert text[..i + 1] == text[..i] + [text[i]];
    assert out0 + (text[..i] + [text[i]]) == out0 + text[..i] + [text[i]];
    if text[i] == R.NL {
      ClosedByStep(open0, R.Newlines(text[..i]));
    }
  }

  class Bundle {
    var out: string
    const map_: M.SourceMapWriter

    ghost predicate Valid()
      reads this, map_
    {
      map_.Valid() && |map_.closed| == R.Newlines(out)
    }

    /** At the start of a line, having written `rows`. */
    ghost predicate Wrote(rows: seq<Row>)
      reads this, map_
    {
      Valid() && out == TextOf(rows) && map_.closed == SegsOf(rows) && map_.open == []
    }

    constructor ()
      ensures Wrote([]) && fresh(map_)
    {
      out := "";
      map_ := new M.SourceMapWriter();
    }

    method PushChar(c: char)
      requires Valid()
      modifies this, map_
      ensures Valid() && out == old(out) + [c]
      ensures map_.closed == if c == R.NL then old(map_.closed) + [old(map_.open)] else old(map_.closed)
      ensures map_.open == if c == R.NL then [] else old(map_.open)
    {
      hide R.Newlines, M.SourceMapWriter.Valid;
      NewlinesPush([c], 0);
      NewlinesConcat(out, [c]);
      assert [c][..1] == [c] && [c][..0] == "";
      out := out + [c];
      if c == R.NL {
        map_.EndLine();
      }
    }

    /** Every newline written closes a line of the map. */
    method PushUnmapped(text: string)
      requires Valid()
      modifies this, map_
      ensures Valid() && out == old(out) + text
      ensures map_.closed == old(map_.closed) + ClosedBy(old(map_.open), R.Newlines(text))
      ensures map_.open == if R.Newlines(text) == 0 then old(map_.open) else []
    {
      ghost var out0, closed0, open0 := out, map_.closed, map_.open;
      assert text[..0] == "" && out0 + "" == out0 && closed0 + [] == closed0;
      for i := 0 to |text|
        invariant Valid()
        invariant Pushed(out0, closed0, open0, text[..i], out, map_.closed, map_.open)
      {
        PushedStep(out0, closed0, open0, text, i, out, map_.closed, map_.open);
        hide Pushed, Valid;
        PushChar(text[i]);
      }
      assert text[..|text|] == text;
    }

    /** Whole lines without mappings. */
    method PushRows(text: string, ghost rows: seq<Row>, ghost more: seq<Row>)
      requires Wrote(rows) && text == TextOf(more) && Single(more) && NoSegs(more)
      modifies this, map_
      ensures Wrote(rows + more)
    {
      NewlinesOf(more);
      TextOfConcat(rows, more);
      BlankSegs(rows, more);
      hide R.Newlines, TextOf, SegsOf, ClosedBy, M.SourceMapWriter.Valid;
      PushUnmapped(text);
    }

    /** A line of its own. */
    method PushRow(text: string, ghost rows: seq<Row>)
      requires Wrote(rows) && OneLine(text)
      modifies this, map_
      ensures Wrote(rows + [Row(text, [])])
    {
      hide Wrote, TextOf;
      TextOfOne(Row(text, []));
      PushRows(text + [R.NL], rows, [Row(text, [])]);
    }

    method PushFactoryLine(index: nat, m: CompiledModule, line: string, k: nat, ghost rows: seq<Row>)
      requires Wrote(rows) && OneLine(line)
      modifies this, map_
      ensures Wrote(rows + [FactoryRow(index, m, line, k)])
    {
      ghost var row := FactoryRow(index, m, line, k);
      TextOfPush(rows, row);
      IndentedText(out, line);
      hide R.Newlines, TextOf, SegsOf, M.SourceMapWriter.Valid, OneLine, FactorySegs, Indented;
      out := out + "  ";
      out := out + line;
      AddMapping(index, m, line, k);
      out := out + [R.NL];
      map_.EndLine();
    }

    method AddMapping(index: nat, m: CompiledModule, line: string, k: nat)
      requires map_.Valid() && map_.open == []
      modifies map_
      ensures map_.Valid() && map_.closed == old(map_.closed) && map_.open == FactorySegs(index, m, line, k)
    {
      hide M.SourceMapWriter.Valid, OriginalForLine;
      match OriginalForLine(m, k) {
        case None =>
        case Some(p) =>
          ghost var was := map_.open;
          var s := M.Seg(if line == "" then 0 else 2, index, p.line, p.column);
          assert was + [s] == [s];
          map_.Add(s);
      }
    }

    method PushModule(index: nat, m: CompiledModule, ghost rows: seq<Row>)
      requires Wrote(rows)
      modifies this, map_
      ensures Wrote(rows + ModuleRows(index, m))
    {
      hide Wrote, R.Lines, Head, FactoryRow, CloseText;
      HeadSingle(m);
      PushRow(HeadText(m), rows);
      ghost var start := rows + [Head(m)];
      var lines := R.Lines(m.factory);
      ghost var body := FactoryRows(index, m);
      LinesAreSingle(m.factory);
      assert start + body[..0] == start;
      for k := 0 to |lines|
        invariant Wrote(start + body[..k])
      {
        PushFactoryLine(index, m, lines[k], k, start + body[..k]);
        assert body[..k + 1] == body[..k] + [body[k]];
        assert start + (body[..k] + [body[k]]) == start + body[..k] + [body[k]];
      }
      assert body[..|lines|] == body;
      if |lines| == 0 {
        assert start + body == start;
        PushRow("", start);
      }
      CloseIsOneLine();
      PushRow(CloseText(), start + BodyRows(index, m));
      assert start + BodyRows(index, m) + [Row(CloseText(), [])] == rows + ModuleRows(index, m);
    }

    /** The entry line is written in three pieces. */
    method PushTail(entry: string, ghost rows: seq<Row>)
      requires Wrote(rows)
      modifies this, map_
      ensures Wrote(rows + Tail(entry))
    {
      hide TextOf, R.Newlines, M.SourceMapWriter.Valid;
      hide JsString, ReturnText, InvokeText, EntryText, EntryEndText, ExportText, ClosedBy, SegsOf;
      ghost var tail := Tail(entry);
      TailSingle(entry);
      TextOfTwo(tail[0], tail[1]);
      PushRows(ReturnText() + [R.NL] + InvokeText() + [R.NL], rows, [tail[0], tail[1]]);
      ghost var half := rows + [tail[0], tail[1]];
      ghost var entryRows := [tail[2], tail[3]];
      TextOfTwo(tail[2], tail[3]);
      TextOfConcat(half, entryRows);
      BlankSegs(half, entryRows);
      NewlinesOf(entryRows);
      assert half + entryRows == rows + tail;
      NewlinesConcat(EntryText(), JsString(entry));
      OneLineHasNone(EntryText() + JsString(entry)) by { EntryPieces(entry); }
      var last := EntryEndText() + [R.NL] + ExportText() + [R.NL];
      NewlinesConcat(EntryText() + JsString(entry), last);
      assert TextOf(half) + EntryText() + JsString(entry) + last == TextOf(half) + TextOf(entryRows);
      assert EntryText() + JsString(entry) + last == TextOf(entryRows);
      NoneClosed(SegsOf(half));
      PushUnmapped(EntryText());
      PushUnmapped(JsString(entry));
      PushUnmapped(last);
    }
  }

  lemma AllModuleRowsStep(modules: seq<CompiledModule>, i: nat)
    requires i < |modules|
    ensures AllModuleRows(modules[..i + 1]) == AllModuleRows(modules[..i]) + ModuleRows(i, modules[i])
  {
    assert modules[..i + 1][..i] == modules[..i];
  }

  /** The text is that of the rows, and the map that of their mappings. */
  method EmitBundle(runtime: string, modules: seq<CompiledModule>, entry: string)
    returns (out: string, mappings: seq<M.Code>)
    requires WholeLines(runtime)
    ensures out == TextOf(BundleRows(runtime, modules, entry))
    ensures mappings == M.AllText(SegsOf(BundleRows(runtime, modules, entry)), [])
    ensures |SegsOf(BundleRows(runtime, modules, entry))| == R.Newlines(out)
  {
    hide PlainRows, ModuleRows, Tail, TextOf, SegsOf, Single, NoSegs, R.Newlines;
    hide M.AllText, WholeLines;
    var b := new Bundle();
    PlainRowsText(runtime);
    PlainRowsSingle(runtime);
    ghost var start := PlainRows(runtime);
    b.PushRows(runtime, [], start);
    assert [] + start == start == start + AllModuleRows([]);
    assert modules[..0] == [];
    for i := 0 to |modules|
      invariant b.Wrote(start + AllModuleRows(modules[..i])) && fresh(b) && fresh(b.map_)
    {
      hide Bundle.Wrote, AllModuleRows;
      AllModuleRowsStep(modules, i);
      var done := AllModuleRows(modules[..i]);
      assert start + done + ModuleRows(i, modules[i]) == start + (done + ModuleRows(i, modules[i]));
      b.PushModule(i, modules[i], start + AllModuleRows(modules[..i]));
    }
    assert modules[..|modules|] == modules;
    b.PushTail(entry, start + AllModuleRows(modules));
    out, mappings := b.out, b.map_.mappings;
  }

  // ---------------------------------------------------------------- lines of the text

  function NthLine(s: string, g: nat): (r: string)
  {
    var rest := s[R.LineHead(s, g)..];
    rest[..R.FirstNewline(rest)]
  }

  lemma FirstNewlineIs(s: string, i: nat)
    requires i < |s| && s[i] == R.NL && OneLine(s[..i])
    ensures R.FirstNewline(s) == i
  {
    assert forall j :: 0 <= j < i ==> s[..i][j] == s[j];
  }

  /** Row `g` is line `g` of the text. */
  lemma {:induction false} RowIsLine(rows: seq<Row>, g: nat)
    requires Single(rows) && g < |rows|
    ensures NthLine(TextOf(rows), g) == rows[g].text
  {
    hide TextOf, R.FirstNewline, R.LineHead;
    var s, rest := TextOf(rows), rows[1..];
    var n := |rows[0].text|;
    assert rows == [rows[0]] + rest;
    TextOfConcat([rows[0]], rest);
    TextOfOne(rows[0]);
    assert s == rows[0].text + [R.NL] + TextOf(rest);
    assert s[..n] == rows[0].text && s[n + 1..] == TextOf(rest);
    FirstNewlineIs(s, n);
    if g == 0 {
      R.LineHeadZero(s);
      assert s[0..] == s;
    } else {
      R.LineHeadStep(s, g);
      RowIsLine(rest, g - 1);
      assert s[n + 1 + R.LineHead(TextOf(rest), g - 1)..] == TextOf(rest)[R.LineHead(TextOf(rest), g - 1)..];
    }
  }

  // ---------------------------------------------------------------- where a factory line goes

  /** The line of the bundle that line `k` of module `i` is on. */
  function RowOf(runtime: string, modules: seq<CompiledModule>, i: nat, k: nat): (g: nat)
    requires WholeLines(runtime) && i < |modules|
  {
    |PlainRows(runtime)| + |AllModuleRows(modules[..i])| + 1 + k
  }

  lemma {:induction false} ModuleAt(modules: seq<CompiledModule>, i: nat)
    requires i < |modules|
    ensures AllModuleRows(modules[..i]) + ModuleRows(i, modules[i]) <= AllModuleRows(modules)
    decreases |modules|
  {
    hide ModuleRows;
    var n := |modules| - 1;
    AllModuleRowsStep(modules, n);
    assert modules[..n + 1] == modules;
    if i < n {
      ModuleAt(modules[..n], i);
      assert modules[..n][..i] == modules[..i];
    }
  }

  lemma FactoryRowAt(runtime: string, modules: seq<CompiledModule>, entry: string, i: nat, k: nat)
    requires WholeLines(runtime) && i < |modules| && k < |R.Lines(modules[i].factory)|
    ensures var g := RowOf(runtime, modules, i, k); var rows := BundleRows(runtime, modules, entry);
            g < |rows| && rows[g] == FactoryRow(i, modules[i], R.Lines(modules[i].factory)[k], k)
  {
    hide AllModuleRows, PlainRows, R.Lines, FactoryRow, Head, Tail;
    ModuleAt(modules, i);
    var before, mine, all := AllModuleRows(modules[..i]), ModuleRows(i, modules[i]), AllModuleRows(modules);
    assert mine[1 + k] == FactoryRows(i, modules[i])[k];
    assert all[|before| + 1 + k] == (before + mine)[|before| + 1 + k] == mine[1 + k];
  }

  predicate IsFactoryRow(runtime: string, modules: seq<CompiledModule>, g: nat, i: nat, k: nat)
    requires WholeLines(runtime)
  {
    i < |modules| && k < |R.Lines(modules[i].factory)| && g == RowOf(runtime, modules, i, k)
  }

  lemma ModuleMapped(index: nat, m: CompiledModule, j: nat)
    requires j < |ModuleRows(index, m)| && ModuleRows(index, m)[j].segs != []
    ensures 1 <= j <= |R.Lines(m.factory)|
  {
  }

  lemma {:induction false} MappedInModules(modules: seq<CompiledModule>, j: nat) returns (i: nat, k: nat)
    requires j < |AllModuleRows(modules)| && AllModuleRows(modules)[j].segs != []
    ensures i < |modules| && k < |R.Lines(modules[i].factory)| && j == |AllModuleRows(modules[..i])| + 1 + k
  {
    hide ModuleRows, R.Lines;
    var n := |modules| - 1;
    AllModuleRowsStep(modules, n);
    assert modules[..n + 1] == modules;
    var front := AllModuleRows(modules[..n]);
    if j < |front| {
      i, k := MappedInModules(modules[..n], j);
      assert modules[..n][..i] == modules[..i];
    } else {
      ModuleMapped(n, modules[n], j - |front|);
      i, k := n, j - |front| - 1;
    }
  }

  /** No other line of the bundle is mapped. */
  lemma OnlyFactoryLinesMapped(runtime: string, modules: seq<CompiledModule>, entry: string, g: nat)
    returns (i: nat, k: nat)
    requires WholeLines(runtime)
    requires g < |BundleRows(runtime, modules, entry)| && BundleRows(runtime, modules, entry)[g].segs != []
    ensures IsFactoryRow(runtime, modules, g, i, k)
  {
    hide AllModuleRows, PlainRows, R.Lines, JsString, ReturnText, InvokeText, EntryText, EntryEndText, ExportText;
    PlainRowsSingle(runtime);
    var start := PlainRows(runtime);
    i, k := MappedInModules(modules, g - |start|);
  }

  // ---------------------------------------------------------------- end to end

  function ColumnOf(line: string): (c: nat) { if line == "" then 0 else 2 }

  lemma LookupRow(rows: seq<Row>, g: nat, s: M.Seg, column: nat)
    requires g < |rows| && rows[g].segs == [s] && s.column <= column
    ensures M.LookupMapping(M.Flat(SegsOf(rows) + [[]]), g, column) == Some(M.Mapping(g, s))
  {
    hide M.LookupMapping, M.Flat;
    var lines := SegsOf(rows) + [[]];
    M.LookupOnLine(lines, g, column);
    var here := M.Tag(g, lines[g]);
    assert here[1..] == [];
    assert M.ColumnsUpTo(here, column) == 1;
  }

  /** Line `k` of module `i` is a line of the bundle, and the emitted map, read back, sends
      every position on it from its first character to the origin of that line. */
  lemma EveryFactoryLineMapsBack(runtime: string, modules: seq<CompiledModule>, entry: string,
                                 i: nat, k: nat, column: nat)
    requires WholeLines(runtime) && i < |modules| && k < |R.Lines(modules[i].factory)|
    requires k < |modules[i].origins| && ColumnOf(R.Lines(modules[i].factory)[k]) <= column
    ensures var m, line := modules[i], R.Lines(modules[i].factory)[k];
            var g, rows := RowOf(runtime, modules, i, k), BundleRows(runtime, modules, entry);
            var read := M.ParseMappings(M.AllText(SegsOf(rows), []));
            var from := Source(m, m.origins[k]);
            && NthLine(TextOf(rows), g) == Indented(line)
            && read.Ok? && M.LookupMapping(read.value, g, column) ==
                           Some(M.Mapping(g, M.Seg(ColumnOf(line), i, from.line, from.column)))
  {
    hide BundleRows, RowOf, R.Lines, Source, OriginalForLine,
         M.ParseMappings, M.AllText, M.LookupMapping, NthLine, TextOf;
    var m, line := modules[i], R.Lines(modules[i].factory)[k];
    var g, rows := RowOf(runtime, modules, i, k), BundleRows(runtime, modules, entry);
    FactoryRowAt(runtime, modules, entry, i, k);
    BundleRowsSingle(runtime, modules, entry);
    RowIsLine(rows, g);
    OriginalIsSource(m, k);
    M.MapRoundTrip(SegsOf(rows), []);
    LookupRow(rows, g, rows[g].segs[0], column);
  }

  // ---------------------------------------------------------------- how modules are compiled

  datatype Form =
    | Json(text: string)
    | Plain(javascript: string)
    | Esm(javascript: string, edits: seq<R.Edit>)

  function JsonText(): string { "module.exports = JSON.parse(" }
  function JsonEndText(): string { ");" }

  /** The three ways a module of the worklist becomes a factory with origins. */
  ghost predicate Compiled(m: CompiledModule, form: Form)
  {
    match form
    case Json(text) =>
      && m.factory == JsonText() + JsString(text) + JsonEndText()
      && m.origins == [R.Pos(0, 0)] && m.jsToTs.None?
    case Plain(js) => m.factory == js && m.origins == R.IdentityOrigins(js)
    case Esm(js, edits) =>
      var t := R.Rewritten(js, 0, R.Sort(edits));
      t.Ok? && m.factory == R.Text(t.value) && m.origins == R.LineTags(t.value)
  }

  lemma JsonIsOneLine(text: string)
    ensures |R.Lines(JsonText() + JsString(text) + JsonEndText())| == 1
  {
    var s := JsonText() + JsString(text) + JsonEndText();
    assert s != "";
    assert OneLine(s) by {
      hide JsString;
      JsStringIsOneLine(text);
      assert OneLine(JsonText()) && OneLine(JsonEndText());
      OneLineConcat(JsonText(), JsString(text));
      OneLineConcat(JsonText() + JsString(text), JsonEndText());
    }
    assert R.FirstNewline(s) == |s|;
  }

  /** However it was compiled, a module has one origin for every line of its factory. */
  lemma OriginsCoverFactory(m: CompiledModule, form: Form)
    requires Compiled(m, form)
    ensures |m.origins| == |R.Lines(m.factory)|
  {
    hide R.Lines, R.LineTags, R.Text, R.Rewritten, R.Sort, JsString;
    match form {
      case Json(text) => JsonIsOneLine(text);
      case Plain(js) =>
      case Esm(js, edits) => R.LinesCounted(R.Rewritten(js, 0, R.Sort(edits)).value);
    }
  }

  /** From generated line to source: for a rewritten module, the emitted map sends line `k` to
      the true position of the character that begins it, or of the span that was replaced. */
  lemma RewrittenLinesMapBack(runtime: string, modules: seq<CompiledModule>, entry: string,
                              i: nat, js: string, edits: seq<R.Edit>, k: nat)
    requires WholeLines(runtime) && i < |modules|
    requires Compiled(modules[i], Esm(js, edits)) && k < |R.Lines(modules[i].factory)|
    ensures var t := R.Rewritten(js, 0, R.Sort(edits)).value;
            var line := R.Lines(modules[i].factory)[k];
            var read := M.ParseMappings(M.AllText(SegsOf(BundleRows(runtime, modules, entry)), []));
            && read.Ok? && R.LineHead(modules[i].factory, k) < |t|
            && var from := Source(modules[i], t[R.LineHead(modules[i].factory, k)].from);
               var g := RowOf(runtime, modules, i, k);
               M.LookupMapping(read.value, g, ColumnOf(line)) ==
               Some(M.Mapping(g, M.Seg(ColumnOf(line), i, from.line, from.column)))
  {
    hide BundleRows, RowOf, R.Lines, Source, M.ParseMappings, M.AllText, M.LookupMapping, NthLine, TextOf;
    hide R.Rewritten, R.Sort, R.LineTags, R.Text, R.LineHead;
    var t := R.Rewritten(js, 0, R.Sort(edits)).value;
    OriginsCoverFactory(modules[i], Esm(js, edits));
    R.OriginOfLine(t, k);
    EveryFactoryLineMapsBack(runtime, modules, entry, i, k, ColumnOf(R.Lines(modules[i].factory)[k]));
  }
}
