/**
 The worklist that collects the modules of a bundle, from the entry along resolved
 specifiers. The file system, the transpiler, the parser and the resolver are parameters.
 */
module ModuleGraph {
  import opened ResultWrapper
  import Graphs
  import Sets

  type Path = string
  type Id = string

  const MAX_MODULES: nat := 2048

  /** A file as the bundler finds it. `imports` are the specifiers of the import and re-export
      statements that the rewrite turns into calls of `require`. */
  datatype Source =
    | Broken
    | Json(valid: bool)
    | Script(specifiers: seq<string>, dynamicImports: bool, esm: bool, imports: seq<string>, spansValid: bool)

  datatype Files = Files(canonical: map<Path, Path>, sources: map<Path, Source>, resolver: map<(Path, string), Path>)

  datatype Module = Module(path: Path, id: Id, requires_: seq<Id>)

  /** A canonical path is its own canonical path. */
  ghost predicate Settled(fs: Files)
  {
    forall p :: p in fs.canonical ==>
      fs.canonical[p] in fs.canonical && fs.canonical[fs.canonical[p]] == fs.canonical[p]
  }

  function ModuleId(p: Path): (id: Id)
    ensures |id| == |p| && forall i :: 0 <= i < |p| ==> id[i] == if p[i] == '\\' then '/' else p[i]
  {
    seq(|p|, i requires 0 <= i < |p| => if p[i] == '\\' then '/' else p[i])
  }

  /** Paths without backslashes have distinct ids. */
  lemma ModuleIdInjective(p: Path, q: Path)
    requires '\\' !in p && '\\' !in q
    ensures ModuleId(p) == ModuleId(q) <==> p == q
  {
    if ModuleId(p) == ModuleId(q) {
      forall i | 0 <= i < |p| ensures p[i] == q[i] {
        assert ModuleId(p)[i] == ModuleId(q)[i];
        assert p[i] in p && q[i] in q;
      }
    }
  }

  // ---------------------------------------------------------------- one module

  function Canonicalize(fs: Files, p: Path): (r: Result<Path>)
  {
    if p in fs.canonical then Ok(fs.canonical[p]) else Err
  }

  function ResolveSpecifier(fs: Files, importer: Path, specifier: string): (r: Result<Path>)
  {
    if "node:" <= specifier || (importer, specifier) !in fs.resolver then Err
    else Canonicalize(fs, fs.resolver[(importer, specifier)])
  }

  function ResolveAll(fs: Files, importer: Path, specifiers: seq<string>): (r: Result<seq<Path>>)
    ensures r.Ok? ==> |r.value| == |specifiers|
    ensures r.Ok? ==>
              forall i :: 0 <= i < |specifiers| ==> ResolveSpecifier(fs, importer, specifiers[i]) == Ok(r.value[i])
    ensures r.Err? ==> exists i :: 0 <= i < |specifiers| && ResolveSpecifier(fs, importer, specifiers[i]).Err?
  {
    if specifiers == [] then Ok([])
    else
      var n := |specifiers| - 1;
      var front, last := ResolveAll(fs, importer, specifiers[..n]), ResolveSpecifier(fs, importer, specifiers[n]);
      if front.Err? then
        var i :| 0 <= i < |specifiers[..n]| && ResolveSpecifier(fs, importer, specifiers[..n][i]).Err?;
        assert ResolveSpecifier(fs, importer, specifiers[i]).Err?;
        Err
      else if last.Err? then Err
      else Ok(front.value + [last.value])
  }

  /** The module can be compiled: every way the loop body can fail is excluded. */
  ghost predicate Good(fs: Files, p: Path)
  {
    && p in fs.sources
    && match fs.sources[p]
       case Broken => false
       case Json(valid) => valid
       case Script(specifiers, dynamicImports, esm, imports, spansValid) =>
         && !dynamicImports
         && (forall s :: s in specifiers ==> ResolveSpecifier(fs, p, s).Ok?)
         && (esm ==> spansValid && forall s :: s in imports ==> s in specifiers)
  }

  /** The files a module refers to. */
  function Links(fs: Files, p: Path): (r: seq<Path>)
  {
    if p in fs.sources && fs.sources[p].Script? then
      var all := ResolveAll(fs, p, fs.sources[p].specifiers);
      if all.Err? then [] else all.value
    else []
  }

  function IdOf(p: Result<Path>): (r: Result<Id>) { if p.Err? then Err else Ok(ModuleId(p.value)) }

  function IdsOf(fs: Files, p: Path, imports: seq<string>): (r: seq<Id>)
    requires forall s :: s in imports ==> ResolveSpecifier(fs, p, s).Ok?
    ensures |r| == |imports|
    ensures forall i :: 0 <= i < |r| ==> Ok(r[i]) == IdOf(ResolveSpecifier(fs, p, imports[i]))
  {
    if imports == [] then []
    else [ModuleId(ResolveSpecifier(fs, p, imports[0]).value)] + IdsOf(fs, p, imports[1..])
  }

  /** The ids its rewritten imports and re-exports pass to `require`. */
  function Required(fs: Files, p: Path): (r: seq<Id>)
    requires Good(fs, p)
    ensures fs.sources[p].Script? && fs.sources[p].esm ==> |r| == |fs.sources[p].imports|
    ensures fs.sources[p].Script? && fs.sources[p].esm ==>
              forall i :: 0 <= i < |r| ==>
                Ok(r[i]) == IdOf(ResolveSpecifier(fs, p, fs.sources[p].imports[i]))
  {
    match fs.sources[p]
    case Script(specifiers, dynamicImports, esm, imports, spansValid) =>
      if esm then IdsOf(fs, p, imports) else []
    case _ => []
  }

  function ModuleOf(fs: Files, p: Path): (m: Module)
    requires Good(fs, p)
  {
    Module(p, ModuleId(p), Required(fs, p))
  }

  lemma ResolvePush(fs: Files, p: Path, specifiers: seq<string>, n: nat)
    requires n < |specifiers| && ResolveAll(fs, p, specifiers[..n]).Ok? && ResolveSpecifier(fs, p, specifiers[n]).Ok?
    ensures ResolveAll(fs, p, specifiers[..n + 1]) ==
            Ok(ResolveAll(fs, p, specifiers[..n]).value + [ResolveSpecifier(fs, p, specifiers[n]).value])
  {
    hide ResolveSpecifier;
    assert specifiers[..n + 1][..n] == specifiers[..n];
  }

  /** The specifiers in turn: an id for each, and its file onto the queue. */
  method ResolveEach(fs: Files, p: Path, specifiers: seq<string>) returns (r: Result<(map<string, Id>, seq<Path>)>)
    ensures r.Ok? <==> forall s :: s in specifiers ==> ResolveSpecifier(fs, p, s).Ok?
    ensures r.Ok? ==> ResolveAll(fs, p, specifiers) == Ok(r.value.1)
    ensures r.Ok? ==> forall s :: s in r.value.0 <==> s in specifiers
    ensures r.Ok? ==> forall s :: s in r.value.0 ==> Ok(r.value.0[s]) == IdOf(ResolveSpecifier(fs, p, s))
  {
    hide ResolveSpecifier, ModuleId;
    var table: map<string, Id>, links: seq<Path> := map[], [];
    for n := 0 to |specifiers|
      invariant ResolveAll(fs, p, specifiers[..n]) == Ok(links)
      invariant forall s :: s in table <==> s in specifiers[..n]
      invariant forall s :: s in table ==> Ok(table[s]) == IdOf(ResolveSpecifier(fs, p, s))
    {
      hide ResolveAll;
      var one := ResolveSpecifier(fs, p, specifiers[n]);
      if one.Err? {
        assert specifiers[n] in specifiers;
        return Err;
      }
      ResolvePush(fs, p, specifiers, n);
      assert specifiers[..n + 1] == specifiers[..n] + [specifiers[n]];
      table := table[specifiers[n] := ModuleId(one.value)];
      links := links + [one.value];
    }
    assert specifiers[..|specifiers|] == specifiers;
    r := Ok((table, links));
  }

  /** The ids of the imports, unless one was not resolved. */
  method RewriteImports(table: map<string, Id>, imports: seq<string>) returns (r: Result<seq<Id>>)
    ensures r.Ok? <==> forall s :: s in imports ==> s in table
    ensures r.Ok? ==> |r.value| == |imports| && forall i :: 0 <= i < |imports| ==> r.value[i] == table[imports[i]]
  {
    var ids: seq<Id> := [];
    for n := 0 to |imports|
      invariant |ids| == n && forall i :: 0 <= i < n ==> imports[i] in table && ids[i] == table[imports[i]]
    {
      if imports[n] !in table { return Err; }
      ids := ids + [table[imports[n]]];
    }
    r := Ok(ids);
  }

  /** One turn of the loop after the `seen` check: the compiled module and what it adds to the queue. */
  method CompileOne(fs: Files, p: Path) returns (r: Result<(Module, seq<Path>)>)
    ensures r.Ok? <==> Good(fs, p)
    ensures r.Ok? ==> r.value == (ModuleOf(fs, p), Links(fs, p))
  {
    if p !in fs.sources { return Err; }
    match fs.sources[p] {
      case Broken => r := Err;
      case Json(valid) =>
        r := if valid then Ok((Module(p, ModuleId(p), []), [])) else Err;
      case Script(specifiers, dynamicImports, esm, imports, spansValid) =>
        if dynamicImports { return Err; }
        var found := ResolveEach(fs, p, specifiers);
        if found.Err? { return Err; }
        var (table, links) := found.value;
        if !esm { return Ok((Module(p, ModuleId(p), []), links)); }
        var ids := RewriteImports(table, imports);
        if ids.Err? || !spansValid {
          return Err;
        }
        assert forall s :: s in imports ==> s in specifiers;
        assert ids.value == Required(fs, p);
        r := Ok((Module(p, ModuleId(p), ids.value), links));
    }
  }

  // ---------------------------------------------------------------- reachability

  ghost function Linked(fs: Files): (edge: Graphs.Edges<Path>) { (p, q) => q in Links(fs, p) }

  ghost predicate Reachable(fs: Files, from: Path, to: Path) { Graphs.Reaches(Linked(fs), from, to) }

  lemma ReachesItself(fs: Files, p: Path)
    ensures Reachable(fs, p, p)
  {
    Graphs.ReachesItself(Linked(fs), p);
  }

  lemma ReachesLink(fs: Files, from: Path, p: Path, q: Path)
    requires Reachable(fs, from, p) && q in Links(fs, p)
    ensures Reachable(fs, from, q)
  {
    hide Links;
    Graphs.ReachesThenEdge(Linked(fs), from, p, q);
  }

  lemma AllReachableSeen(fs: Files, root: Path, seen: set<Path>)
    requires root in seen && forall p, q :: p in seen && q in Links(fs, p) ==> q in seen
    ensures forall p :: Reachable(fs, root, p) ==> p in seen
  {
    hide Links, Graphs.Reaches;
    Graphs.ReachableStays(Linked(fs), root, seen);
  }

  // ---------------------------------------------------------------- what can go wrong

  ghost predicate AllReachable(fs: Files, root: Path, s: set<Path>) { forall p :: p in s ==> Reachable(fs, root, p) }

  ghost predicate BadReachable(fs: Files, root: Path, p: Path) { Reachable(fs, root, p) && !Good(fs, p) }

  ghost predicate TooMany(fs: Files, root: Path, s: set<Path>) { |s| > MAX_MODULES && AllReachable(fs, root, s) }

  /** The entry does not exist, a reachable module does not compile, or there are too many. */
  ghost predicate CannotBundle(fs: Files, entry: Path)
  {
    || entry !in fs.canonical
    || var root := fs.canonical[entry];
       (exists p :: BadReachable(fs, root, p)) || (exists s :: TooMany(fs, root, s))
  }

  // ---------------------------------------------------------------- the worklist

  ghost predicate Distinct(modules: seq<Module>)
  {
    forall i, j :: 0 <= i < j < |modules| ==> modules[i].path != modules[j].path
  }

  /** What is collected is exactly what was seen, compiled. */
  ghost predicate Collected(fs: Files, seen: set<Path>, modules: seq<Module>)
  {
    && |modules| == |seen| && Distinct(modules)
    && (forall i :: 0 <= i < |modules| ==> modules[i].path in seen)
    && (forall i :: 0 <= i < |modules| ==> Good(fs, modules[i].path) && modules[i] == ModuleOf(fs, modules[i].path))
    && (forall p :: p in seen ==> Good(fs, p) && exists i :: 0 <= i < |modules| && modules[i].path == p)
  }

  /** Everything seen and queued is reachable, and every link of a seen module is seen or queued. */
  ghost predicate Frontier(fs: Files, entry: Path, seen: set<Path>, pending: seq<Path>)
    requires entry in fs.canonical
  {
    var root := fs.canonical[entry];
    && AllReachable(fs, root, seen)
    && (forall q :: q in pending ==> q in fs.canonical && Reachable(fs, root, fs.canonical[q]))
    && (forall q :: q in pending ==> q == entry || fs.canonical[q] == q)
    && (root in seen || entry in pending)
    && (forall p, q :: p in seen && q in Links(fs, p) ==> q in seen || q in pending)
  }

  lemma LinksAreCanonical(fs: Files, p: Path)
    requires Settled(fs)
    ensures forall q :: q in Links(fs, p) ==> q in fs.canonical && fs.canonical[q] == q
  {
  }

  /** A path seen before is dropped from the queue. */
  lemma FrontierDrop(fs: Files, entry: Path, seen: set<Path>, pending: seq<Path>)
    requires Settled(fs) && entry in fs.canonical && pending != [] && Frontier(fs, entry, seen, pending)
    requires fs.canonical[pending[0]] in seen
    ensures Frontier(fs, entry, seen, pending[1..])
  {
    hide Links, AllReachable, Reachable, Settled;
    var head := pending[0];
    assert pending == [head] + pending[1..];
    forall p, q | p in seen && q in Links(fs, p) ensures q in seen || q in pending[1..] {
      LinksAreCanonical(fs, p);
    }
  }

  /** A new path joins what was seen, its links the queue. */
  lemma FrontierVisit(fs: Files, entry: Path, seen: set<Path>, pending: seq<Path>)
    requires Settled(fs) && entry in fs.canonical && pending != [] && Frontier(fs, entry, seen, pending)
    ensures var c := fs.canonical[pending[0]];
            Frontier(fs, entry, seen + {c}, pending[1..] + Links(fs, c))
  {
    hide Links, Reachable, Settled;
    var c := fs.canonical[pending[0]];
    assert Reachable(fs, fs.canonical[entry], c);
    LinksAreCanonical(fs, c);
    forall q | q in Links(fs, c) ensures Reachable(fs, fs.canonical[entry], q) {
      ReachesLink(fs, fs.canonical[entry], c, q);
    }
    var next := pending[1..] + Links(fs, c);
    assert pending == [pending[0]] + pending[1..];
    forall p, q | p in seen + {c} && q in Links(fs, p) ensures q in seen + {c} || q in next {
      LinksAreCanonical(fs, p);
    }
  }

  lemma ModuleOfPath(fs: Files, p: Path)
    requires Good(fs, p)
    ensures ModuleOf(fs, p).path == p && ModuleOf(fs, p).id == ModuleId(p)
  {
  }

  lemma CollectedPush(fs: Files, seen: set<Path>, modules: seq<Module>, p: Path)
    requires Collected(fs, seen, modules) && p !in seen && Good(fs, p)
    ensures Collected(fs, seen + {p}, modules + [ModuleOf(fs, p)])
  {
    hide Good, ModuleOf;
    var all := modules + [ModuleOf(fs, p)];
    assert ModuleOf(fs, p).path == p by { ModuleOfPath(fs, p); }
    forall q | q in seen + {p} ensures Good(fs, q) && exists i :: 0 <= i < |all| && all[i].path == q {
      if q == p {
        assert all[|modules|].path == q;
      } else {
        var i :| 0 <= i < |modules| && modules[i].path == q;
        assert all[i].path == q;
      }
    }
  }

  /** Nothing is left to visit: what was seen is what is reachable. */
  lemma Finished(fs: Files, entry: Path, seen: set<Path>, modules: seq<Module>)
    requires entry in fs.canonical && Frontier(fs, entry, seen, []) && Collected(fs, seen, modules)
    requires |seen| <= MAX_MODULES
    ensures forall p :: Reachable(fs, fs.canonical[entry], p) <==> p in seen
    ensures !CannotBundle(fs, entry)
  {
    hide Links, Reachable, Good, ModuleOf;
    var root := fs.canonical[entry];
    AllReachableSeen(fs, root, seen);
    forall s | AllReachable(fs, root, s) ensures |s| <= MAX_MODULES {
      Sets.Fewer(s, seen);
    }
  }

  /** The modules are those reachable from the root, compiled, each once. */
  ghost predicate IsGraph(fs: Files, root: Path, modules: seq<Module>)
  {
    && Distinct(modules)
    && (forall i :: 0 <= i < |modules| ==> Good(fs, modules[i].path) && modules[i] == ModuleOf(fs, modules[i].path))
    && (forall i :: 0 <= i < |modules| ==> Reachable(fs, root, modules[i].path))
    && (forall p :: Reachable(fs, root, p) ==> exists i :: 0 <= i < |modules| && modules[i].path == p)
  }

  /** It ends, with every module reachable from the entry, compiled, once; or it fails, and
      exactly when one of them cannot be compiled or there are more than the limit. */
  method Collect(fs: Files, entry: Path) returns (r: Result<seq<Module>>)
    requires Settled(fs)
    ensures r.Err? <==> CannotBundle(fs, entry)
    ensures r.Ok? ==> |r.value| <= MAX_MODULES && IsGraph(fs, fs.canonical[entry], r.value)
  {
    var pending, seen: set<Path>, modules: seq<Module> := [entry], {}, [];
    if entry in fs.canonical { ReachesItself(fs, fs.canonical[entry]); }
    while pending != []
      invariant entry !in fs.canonical ==> pending == [entry]
      invariant entry in fs.canonical ==> Frontier(fs, entry, seen, pending) && Collected(fs, seen, modules)
      invariant |seen| <= MAX_MODULES
      decreases MAX_MODULES - |seen|, |pending|
    {
      hide Links, Reachable, Good, ModuleOf, Settled, Collected;
      var canonical := Canonicalize(fs, pending[0]);
      if canonical.Err? {
        return Err;
      }
      var path := canonical.value;
      if path in seen {
        FrontierDrop(fs, entry, seen, pending);
        pending := pending[1..];
        continue;
      }
      FrontierVisit(fs, entry, seen, pending);
      if |seen + {path}| > MAX_MODULES {
        assert TooMany(fs, fs.canonical[entry], seen + {path});
        return Err;
      }
      var one := CompileOne(fs, path);
      if one.Err? {
        assert BadReachable(fs, fs.canonical[entry], path);
        return Err;
      }
      CollectedPush(fs, seen, modules, path);
      seen := seen + {path};
      pending := pending[1..] + one.value.1;
      modules := modules + [one.value.0];
    }
    Finished(fs, entry, seen, modules);
    r := Ok(modules);
  }

  // ---------------------------------------------------------------- the bundle is closed

  predicate Defines(modules: seq<Module>, id: Id) { exists i :: 0 <= i < |modules| && modules[i].id == id }

  lemma RequiredIsLinked(fs: Files, p: Path, k: nat) returns (q: Path)
    requires Good(fs, p) && k < |Required(fs, p)|
    ensures q in Links(fs, p) && ModuleId(q) == Required(fs, p)[k]
  {
    var s := fs.sources[p].imports[k];
    var specifiers := fs.sources[p].specifiers;
    assert s in specifiers;
    var i :| 0 <= i < |specifiers| && specifiers[i] == s;
    q := ResolveAll(fs, p, specifiers).value[i];
  }

  lemma DefinedIfReachable(fs: Files, root: Path, modules: seq<Module>, p: Path)
    requires IsGraph(fs, root, modules) && Reachable(fs, root, p)
    ensures Defines(modules, ModuleId(p))
  {
    hide Reachable, Good, Required;
    var i :| 0 <= i < |modules| && modules[i].path == p;
    assert modules[i].id == ModuleId(p);
  }

  /** Every id that a rewritten import or re-export asks for is defined, and so is the entry. */
  lemma BundleIsClosed(fs: Files, root: Path, modules: seq<Module>)
    requires IsGraph(fs, root, modules)
    ensures Defines(modules, ModuleId(root))
    ensures forall i, k :: 0 <= i < |modules| && 0 <= k < |modules[i].requires_| ==>
              Defines(modules, modules[i].requires_[k])
  {
    hide Reachable, Links, Good, Required;
    ReachesItself(fs, root);
    DefinedIfReachable(fs, root, modules, root);
    forall i, k | 0 <= i < |modules| && 0 <= k < |modules[i].requires_|
      ensures Defines(modules, modules[i].requires_[k])
    {
      var p := modules[i].path;
      var q := RequiredIsLinked(fs, p, k);
      ReachesLink(fs, root, p, q);
      DefinedIfReachable(fs, root, modules, q);
    }
  }
}
