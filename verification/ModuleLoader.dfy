/**
 The loader at the top of every bundle: `define` and a caching `require`, run over factories
 that call `require` back in any order, on any condition, and may throw.
 */
module ModuleLoader {
  import G = ModuleGraph
  import opened Graphs
  import Sets

  type Id = string

  /** What a factory does with `require`: the next call depends on how the last one went. */
  datatype Body =
    | Return
    | Throw
    | Require(id: Id, loaded: Body, unfinished: Body, failed: Body)

  /** What a call of `require` gives back: the exports of a finished module, those of one whose
      factory has not returned, or an exception. */
  datatype Outcome = Loaded | Unfinished | Failed

  function Next(body: Body, o: Outcome): (next: Body)
    requires body.Require?
    ensures next < body
  {
    match o
    case Loaded => body.loaded
    case Unfinished => body.unfinished
    case Failed => body.failed
  }

  datatype Status = Running | Done | Abandoned

  /** The cache, with the factories called so far and the ids reported missing. */
  datatype State = State(cache: map<Id, Status>, runs: seq<Id>, missing: seq<Id>)

  type Definitions = map<Id, Body>

  const START := State(map[], [], [])

  function Uncached(defs: Definitions, st: State): (n: nat) { |defs.Keys - st.cache.Keys| }

  lemma UncachedShrinks(defs: Definitions, st: State, id: Id, running: Status)
    requires id in defs && id !in st.cache
    ensures Uncached(defs, st.(cache := st.cache[id := running], runs := st.runs + [id])) < Uncached(defs, st)
  {
    var next := st.cache[id := running];
    assert id in defs.Keys - st.cache.Keys && id !in defs.Keys - next.Keys;
    Sets.Fewer(defs.Keys - next.Keys, defs.Keys - st.cache.Keys);
  }

  lemma UncachedOf(defs: Definitions, a: State, b: State)
    requires a.cache.Keys <= b.cache.Keys
    ensures Uncached(defs, b) <= Uncached(defs, a)
  {
    Sets.Fewer(defs.Keys - b.cache.Keys, defs.Keys - a.cache.Keys);
  }

  // ---------------------------------------------------------------- what the loader does

  function Begin(st: State, id: Id): (r: State)
  {
    st.(cache := st.cache[id := Running], runs := st.runs + [id])
  }

  function End(st: State, id: Id, ok: bool): (r: State)
  {
    st.(cache := st.cache[id := if ok then Done else Abandoned])
  }

  /** A call of `require`. That this is a function at all says that it ends, for every graph. */
  function Load(defs: Definitions, id: Id, st: State): (r: (Outcome, State))
    ensures st.cache.Keys <= r.1.cache.Keys
    decreases Uncached(defs, st), 0
  {
    if id !in defs then (Failed, st.(missing := st.missing + [id]))
    else if id in st.cache then (if st.cache[id].Done? then Loaded else Unfinished, st)
    else
      UncachedShrinks(defs, st, id, Running);
      var (ok, after) := RunBody(defs, defs[id], Begin(st, id));
      (if ok then Loaded else Failed, End(after, id, ok))
  }

  /** The body of a factory. */
  function RunBody(defs: Definitions, body: Body, st: State): (r: (bool, State))
    ensures st.cache.Keys <= r.1.cache.Keys
    decreases Uncached(defs, st), 1, body
  {
    match body
    case Return => (true, st)
    case Throw => (false, st)
    case Require(id, _, _, _) =>
      var (o, after) := Load(defs, id, st);
      UncachedOf(defs, st, after);
      RunBody(defs, Next(body, o), after)
  }

  class Loader {
    const modules: Definitions
    var cache: map<Id, Status>
    ghost var runs: seq<Id>
    ghost var missing: seq<Id>

    constructor (modules: Definitions)
      ensures this.modules == modules && Now() == START
    {
      this.modules := modules;
      cache, runs, missing := map[], [], [];
    }

    ghost function Now(): (st: State)
      reads this
    {
      State(cache, runs, missing)
    }

    /** `require`: the cache is set before the factory is called. */
    method Require(id: Id) returns (o: Outcome)
      modifies this
      ensures (o, Now()) == Load(modules, id, old(Now()))
      decreases Uncached(modules, Now()), 0
    {
      if id !in modules {
        missing := missing + [id];
        return Failed;
      }
      if id in cache {
        return if cache[id].Done? then Loaded else Unfinished;
      }
      UncachedShrinks(modules, Now(), id, Running);
      cache := cache[id := Running];
      runs := runs + [id];
      var ok := Call(modules[id]);
      cache := cache[id := if ok then Done else Abandoned];
      o := if ok then Loaded else Failed;
    }

    method Call(body: Body) returns (ok: bool)
      modifies this
      ensures (ok, Now()) == RunBody(modules, body, old(Now()))
      decreases Uncached(modules, Now()), 1, body
    {
      match body {
        case Return => ok := true;
        case Throw => ok := false;
        case Require(id, _, _, _) =>
          ghost var before := Now();
          var o := Require(id);
          UncachedOf(modules, before, Now());
          ok := Call(Next(body, o));
      }
    }
  }

  // ---------------------------------------------------------------- at most once

  /** Every factory called is cached, and was called once. */
  ghost predicate Once(st: State)
  {
    Distinct(st.runs) && forall id :: id in st.runs <==> id in st.cache
  }

  lemma {:induction false} LoadOnce(defs: Definitions, id: Id, st: State)
    requires Once(st)
    ensures Once(Load(defs, id, st).1)
    decreases Uncached(defs, st), 0
  {
    if id in defs && id !in st.cache {
      UncachedShrinks(defs, st, id, Running);
      RunOnce(defs, defs[id], Begin(st, id));
    }
  }

  lemma {:induction false} RunOnce(defs: Definitions, body: Body, st: State)
    requires Once(st)
    ensures Once(RunBody(defs, body, st).1)
    decreases Uncached(defs, st), 1, body
  {
    if body.Require? {
      hide Once;
      LoadOnce(defs, body.id, st);
      var (o, after) := Load(defs, body.id, st);
      UncachedOf(defs, st, after);
      RunOnce(defs, Next(body, o), after);
    }
  }

  // ---------------------------------------------------------------- never missing

  /** The ids a body can ask for. */
  function Asks(body: Body): (ids: set<Id>)
  {
    match body
    case Require(id, loaded, unfinished, failed) => {id} + Asks(loaded) + Asks(unfinished) + Asks(failed)
    case _ => {}
  }

  ghost predicate ClosedDefs(defs: Definitions) { forall id :: id in defs ==> Asks(defs[id]) <= defs.Keys }

  lemma {:induction false} LoadFinds(defs: Definitions, id: Id, st: State)
    requires ClosedDefs(defs) && id in defs
    ensures Load(defs, id, st).1.missing == st.missing
    decreases Uncached(defs, st), 0
  {
    if id !in st.cache {
      UncachedShrinks(defs, st, id, Running);
      RunFinds(defs, defs[id], Begin(st, id));
    }
  }

  lemma {:induction false} RunFinds(defs: Definitions, body: Body, st: State)
    requires ClosedDefs(defs) && Asks(body) <= defs.Keys
    ensures RunBody(defs, body, st).1.missing == st.missing
    decreases Uncached(defs, st), 1, body
  {
    if body.Require? {
      LoadFinds(defs, body.id, st);
      var (o, after) := Load(defs, body.id, st);
      UncachedOf(defs, st, after);
      RunFinds(defs, Next(body, o), after);
    }
  }

  // ---------------------------------------------------------------- the loader of a bundle

  /** The definitions a bundle makes, in its order: a later one of the same id would win. */
  ghost function DefinitionsOf(modules: seq<G.Module>, bodies: seq<Body>): (d: Definitions)
    requires |modules| == |bodies|
  {
    if modules == [] then map[]
    else
      var n := |modules| - 1;
      DefinitionsOf(modules[..n], bodies[..n])[modules[n].id := bodies[n]]
  }

  /** Each body asks only for ids its module's imports were rewritten to. */
  ghost predicate BodiesOf(modules: seq<G.Module>, bodies: seq<Body>)
  {
    && |modules| == |bodies|
    && forall i, id :: 0 <= i < |modules| && id in Asks(bodies[i]) ==> id in modules[i].requires_
  }

  lemma {:induction false} DefinedIds(modules: seq<G.Module>, bodies: seq<Body>)
    requires |modules| == |bodies|
    ensures forall id :: id in DefinitionsOf(modules, bodies) <==> G.Defines(modules, id)
    ensures forall id :: id in DefinitionsOf(modules, bodies) ==>
              exists i :: 0 <= i < |modules| && modules[i].id == id && DefinitionsOf(modules, bodies)[id] == bodies[i]
  {
    if modules != [] {
      var n := |modules| - 1;
      var front := DefinitionsOf(modules[..n], bodies[..n]);
      DefinedIds(modules[..n], bodies[..n]);
      forall id | G.Defines(modules, id) ensures id in DefinitionsOf(modules, bodies) {
        if id != modules[n].id {
          var i :| 0 <= i < |modules| && modules[i].id == id;
          assert modules[..n][i].id == id;
        }
      }
      forall id | id in DefinitionsOf(modules, bodies)
        ensures exists i :: 0 <= i < |modules| && modules[i].id == id && DefinitionsOf(modules, bodies)[id] == bodies[i]
      {
        if id == modules[n].id {
          assert DefinitionsOf(modules, bodies)[id] == bodies[n];
        } else {
          var i :| 0 <= i < n && modules[..n][i].id == id && front[id] == bodies[..n][i];
          assert modules[i].id == id && front[id] == bodies[i];
        }
      }
    }
  }

  lemma LoadCaches(defs: Definitions, id: Id, st: State)
    requires id in defs
    ensures id in Load(defs, id, st).1.cache
  {
  }

  /** Loading the entry of a collected bundle: no factory is called twice, and no id its
      imports ask for is reported missing, whatever the factories do and whatever cycles
      there are. */
  lemma BundleLoads(fs: G.Files, root: G.Path, modules: seq<G.Module>, bodies: seq<Body>)
    requires G.IsGraph(fs, root, modules) && BodiesOf(modules, bodies)
    ensures var end := Load(DefinitionsOf(modules, bodies), G.ModuleId(root), START).1;
            Distinct(end.runs) && end.missing == [] && G.ModuleId(root) in end.runs
  {
    var defs := DefinitionsOf(modules, bodies);
    G.BundleIsClosed(fs, root, modules);
    DefinedIds(modules, bodies);
    hide Load, RunBody, G.IsGraph;
    forall id | id in defs ensures Asks(defs[id]) <= defs.Keys {
      var i :| 0 <= i < |modules| && modules[i].id == id && defs[id] == bodies[i];
      forall asked | asked in Asks(defs[id]) ensures asked in defs.Keys {
        assert asked in modules[i].requires_;
        var k :| 0 <= k < |modules[i].requires_| && modules[i].requires_[k] == asked;
        assert G.Defines(modules, modules[i].requires_[k]);
      }
    }
    LoadFinds(defs, G.ModuleId(root), START);
    LoadOnce(defs, G.ModuleId(root), START);
    LoadCaches(defs, G.ModuleId(root), START);
  }

  // ---------------------------------------------------------------- straight-line modules

  type Graph = map<Id, seq<Id>>

  /** The rewritten imports of a module run one after the other; what they give back may be
      the exports of an unfinished module. */
  function Straight(ids: seq<Id>): (b: Body)
  {
    if ids == [] then Return else var rest := Straight(ids[1..]); Require(ids[0], rest, rest, Throw)
  }

  function Straights(g: Graph): (d: Definitions) { map id | id in g :: Straight(g[id]) }

  ghost predicate ClosedGraph(g: Graph) { forall id, e :: id in g && e in g[id] ==> e in g }

  ghost function Imports(g: Graph): (edge: Edges<Id>) { (a, b) => a in g && b in g[a] }

  /** Outside the factories still running, what a cached module asks for is cached. */
  ghost predicate Settled(g: Graph, st: State, running: set<Id>)
  {
    forall d, e :: d in st.cache && d !in running && d in g && e in g[d] ==> e in st.cache
  }

  ghost predicate NewFrom(g: Graph, from: Id, st: State, after: State)
  {
    forall d :: d in after.cache ==> d in st.cache || Reaches(Imports(g), from, d)
  }

  lemma {:induction false} LoadStraight(g: Graph, id: Id, st: State, running: set<Id>)
    requires ClosedGraph(g) && id in g && Settled(g, st, running)
    ensures var (o, after) := Load(Straights(g), id, st);
            && !o.Failed? && (id !in st.cache ==> o.Loaded?)
            && id in after.cache && Settled(g, after, running) && NewFrom(g, id, st, after)
    decreases Uncached(Straights(g), st), 0
  {
    var defs := Straights(g);
    ReachesItself(Imports(g), id);
    if id !in st.cache {
      UncachedShrinks(defs, st, id, Running);
      forall e | e in g[id] ensures e in g && Reaches(Imports(g), id, e) {
        BelowEdge(Imports(g), id, e);
        BelowReaches(Imports(g), id, e);
      }
      hide Reaches;
      var begun := Begin(st, id);
      assert Settled(g, begun, running + {id});
      hide ClosedGraph, RunBody, Straight, Uncached;
      RunStraight(g, g[id], begun, running + {id}, id);
    }
  }

  lemma {:induction false} RunStraight(g: Graph, ids: seq<Id>, st: State, running: set<Id>, from: Id)
    requires ClosedGraph(g) && Settled(g, st, running)
    requires forall e :: e in ids ==> e in g && Reaches(Imports(g), from, e)
    ensures var (ok, after) := RunBody(Straights(g), Straight(ids), st);
            && ok && (forall e :: e in ids ==> e in after.cache)
            && Settled(g, after, running) && NewFrom(g, from, st, after)
    decreases Uncached(Straights(g), st), 1, Straight(ids)
  {
    if ids != [] {
      hide Reaches, Settled;
      var defs, e, rest := Straights(g), ids[0], ids[1..];
      LoadStraight(g, e, st, running);
      var (o, mid) := Load(defs, e, st);
      UncachedOf(defs, st, mid);
      RunStraight(g, rest, mid, running, from);
      var after := RunBody(defs, Straight(rest), mid).1;
      assert RunBody(defs, Straight(ids), st) == RunBody(defs, Straight(rest), mid);
      forall d | d in after.cache ensures d in st.cache || Reaches(Imports(g), from, d) {
        if d !in st.cache && d in mid.cache { ReachesOn(Imports(g), from, e, d); }
      }
    }
  }

  /** Loading the entry calls exactly the factories reachable from it, each once, cycles or not. */
  lemma RunsTheReachable(g: Graph, entry: Id)
    requires ClosedGraph(g) && entry in g
    ensures var (o, end) := Load(Straights(g), entry, START);
            o.Loaded? && Distinct(end.runs) && forall d :: d in end.runs <==> Reaches(Imports(g), entry, d)
  {
    var defs := Straights(g);
    LoadStraight(g, entry, START, {});
    LoadOnce(defs, entry, START);
    var end := Load(defs, entry, START).1;
    hide Load, RunBody, Reaches;
    ReachableStays(Imports(g), entry, end.cache.Keys);
  }

  // ---------------------------------------------------------------- cycles

  /** A module that gives up when an import hands it unfinished exports. */
  function Strict(ids: seq<Id>): (b: Body)
  {
    if ids == [] then Return else Require(ids[0], Strict(ids[1..]), Throw, Throw)
  }

  function Stricts(g: Graph): (d: Definitions) { map id | id in g :: Strict(g[id]) }

  /** Everything the entry leads to is defined, and nothing it leads to imports itself. */
  ghost predicate NoCycle(g: Graph, entry: Id)
  {
    forall d :: Reaches(Imports(g), entry, d) ==> d in g && !Below(Imports(g), d, d)
  }

  ghost predicate Open(st: State, d: Id) { d in st.cache && !st.cache[d].Done? }

  /** The unfinished modules import `id`, near or far. */
  ghost predicate AllAbove(g: Graph, st: State, id: Id) { forall d :: Open(st, d) ==> Below(Imports(g), d, id) }

  /** The unfinished modules are `id` and those that import it. */
  ghost predicate AllLead(g: Graph, st: State, id: Id) { forall d :: Open(st, d) ==> Reaches(Imports(g), d, id) }

  /** No more unfinished modules than before. */
  ghost predicate FinishedMore(st: State, after: State) { forall d :: Open(after, d) ==> Open(st, d) }

  lemma LoadStep(defs: Definitions, id: Id, st: State)
    requires id in defs && id !in st.cache
    ensures var (ok, mid) := RunBody(defs, defs[id], Begin(st, id));
            Load(defs, id, st) == (if ok then Loaded else Failed, End(mid, id, ok))
  {
  }

  lemma RunStep(defs: Definitions, body: Body, st: State)
    requires body.Require?
    ensures var (o, mid) := Load(defs, body.id, st);
            st.cache.Keys <= mid.cache.Keys &&
            RunBody(defs, body, st) == RunBody(defs, Next(body, o), mid)
  {
    hide Load;
  }

  lemma StrictStep(defs: Definitions, ids: seq<Id>, st: State)
    requires ids != []
    ensures var (o, mid) := Load(defs, ids[0], st);
            if o.Loaded? then RunBody(defs, Strict(ids), st) == RunBody(defs, Strict(ids[1..]), mid)
            else !RunBody(defs, Strict(ids), st).0
  {
    hide Load;
  }

  lemma BegunLeads(g: Graph, st: State, id: Id)
    requires AllAbove(g, st, id)
    ensures AllLead(g, Begin(st, id), id)
  {
    hide Reaches, Below;
    forall d | Open(Begin(st, id), d) ensures Reaches(Imports(g), d, id) {
      if d == id {
        ReachesItself(Imports(g), id);
      } else {
        assert Open(st, d);
        BelowReaches(Imports(g), d, id);
      }
    }
  }

  lemma LeadsAbove(g: Graph, st: State, id: Id, e: Id)
    requires AllLead(g, st, id) && id in g && e in g[id]
    ensures AllAbove(g, st, e)
  {
    hide Reaches, Below;
    forall d | Open(st, d) ensures Below(Imports(g), d, e) { ReachesThenEdge(Imports(g), d, id, e); }
  }

  lemma LeadsKept(g: Graph, st: State, after: State, id: Id)
    requires AllLead(g, st, id) && FinishedMore(st, after)
    ensures AllLead(g, after, id)
  {
  }

  lemma EndFinishes(st: State, id: Id, mid: State)
    requires FinishedMore(Begin(st, id), mid)
    ensures FinishedMore(st, End(mid, id, true))
  {
    forall d | Open(End(mid, id, true), d) ensures Open(st, d) { assert Open(mid, d); }
  }

  lemma FinishedTwice(a: State, b: State, c: State)
    requires FinishedMore(a, b) && FinishedMore(b, c)
    ensures FinishedMore(a, c)
  {
  }

  lemma {:induction false} LoadAcyclic(g: Graph, entry: Id, id: Id, st: State)
    requires NoCycle(g, entry) && Reaches(Imports(g), entry, id) && AllAbove(g, st, id)
    ensures var (o, after) := Load(Stricts(g), id, st);
            o.Loaded? && FinishedMore(st, after)
    decreases Uncached(Stricts(g), st), 0
  {
    if id in st.cache {
      assert !Open(st, id);
    } else {
      var begun := Begin(st, id);
      UncachedShrinks(Stricts(g), st, id, Running);
      BegunLeads(g, st, id);
      LoadStep(Stricts(g), id, st);
      hide Uncached, Strict, Load, RunBody, AllLead, FinishedMore, Below, Reaches;
      RunAcyclic(g, entry, id, g[id], begun);
      EndFinishes(st, id, RunBody(Stricts(g), Strict(g[id]), begun).1);
    }
  }

  lemma {:induction false} RunAcyclic(g: Graph, entry: Id, id: Id, ids: seq<Id>, st: State)
    requires NoCycle(g, entry) && Reaches(Imports(g), entry, id) && id in g && AllLead(g, st, id)
    requires forall e :: e in ids ==> e in g[id]
    ensures var (ok, after) := RunBody(Stricts(g), Strict(ids), st);
            ok && FinishedMore(st, after)
    decreases Uncached(Stricts(g), st), 1, Strict(ids)
  {
    if ids != [] {
      hide NoCycle, Load, RunBody, Uncached, AllAbove, AllLead, FinishedMore, Below, Reaches;
      var defs, e, rest := Stricts(g), ids[0], ids[1..];
      StrictStep(defs, ids, st);
      LeadsAbove(g, st, id, e);
      ReachesThenEdge(Imports(g), entry, id, e);
      LoadAcyclic(g, entry, e, st);
      var mid := Load(defs, e, st).1;
      UncachedOf(defs, st, mid);
      LeadsKept(g, st, mid, id);
      RunAcyclic(g, entry, id, rest, mid);
      FinishedTwice(st, mid, RunBody(defs, Strict(rest), mid).1);
    } else {
      assert RunBody(Stricts(g), Strict(ids), st) == (true, st);
    }
  }

  // The other way: as long as no import is unfinished, the modules finish in an order in which
  // each comes after those it imports, and what is in such an order is on no cycle.

  /** What was cached keeps its status. */
  ghost predicate Keeps(st: State, after: State)
  {
    forall d :: d in st.cache ==> d in after.cache && after.cache[d] == st.cache[d]
  }

  lemma KeepsItself(st: State)
    ensures Keeps(st, st)
  {
  }

  lemma KeepsTwice(a: State, b: State, c: State)
    requires Keeps(a, b) && Keeps(b, c)
    ensures Keeps(a, c)
  {
  }

  lemma {:induction false} LoadKeeps(defs: Definitions, id: Id, st: State)
    ensures Keeps(st, Load(defs, id, st).1)
    decreases Uncached(defs, st), 0
  {
    if id in defs && id !in st.cache {
      UncachedShrinks(defs, st, id, Running);
      LoadStep(defs, id, st);
      hide Load, RunBody, Uncached;
      RunKeeps(defs, defs[id], Begin(st, id));
    }
  }

  lemma {:induction false} RunKeeps(defs: Definitions, body: Body, st: State)
    ensures Keeps(st, RunBody(defs, body, st).1)
    decreases Uncached(defs, st), 1, body
  {
    KeepsItself(st);
    hide Keeps;
    if body.Require? {
      hide Load, RunBody, Uncached, Next;
      RunStep(defs, body, st);
      LoadKeeps(defs, body.id, st);
      var (o, mid) := Load(defs, body.id, st);
      UncachedOf(defs, st, mid);
      RunKeeps(defs, Next(body, o), mid);
      KeepsTwice(st, mid, RunBody(defs, Next(body, o), mid).1);
    }
  }

  /** The finished modules, each after those it imports. */
  ghost predicate Ordered(g: Graph, st: State, order: seq<Id>)
  {
    Topological(Imports(g), order) && forall d :: d in order <==> d in g && d in st.cache && st.cache[d].Done?
  }

  lemma OrderBegins(g: Graph, st: State, id: Id, order: seq<Id>)
    requires Ordered(g, st, order) && id !in st.cache
    ensures Ordered(g, Begin(st, id), order)
  {
    hide Topological;
  }

  lemma OrderEnds(g: Graph, begun: State, mid: State, id: Id, order: seq<Id>)
    requires Ordered(g, mid, order) && id in g && (forall e :: e in g[id] ==> e in order)
    requires Keeps(begun, mid) && id in begun.cache && begun.cache[id].Running?
    ensures Ordered(g, End(mid, id, true), order + [id])
  {
    hide Topological;
    TopologicalPush(Imports(g), order, id);
  }

  lemma {:induction false} LoadInOrder(g: Graph, id: Id, st: State, order: seq<Id>) returns (later: seq<Id>)
    requires Ordered(g, st, order) && Load(Stricts(g), id, st).0.Loaded?
    ensures Ordered(g, Load(Stricts(g), id, st).1, later) && id in later
    decreases Uncached(Stricts(g), st), 0
  {
    hide Topological;
    if id in st.cache {
      later := order;
    } else {
      var defs := Stricts(g);
      UncachedShrinks(defs, st, id, Running);
      LoadStep(defs, id, st);
      var begun := Begin(st, id);
      var mid := RunBody(defs, defs[id], begun).1;
      RunKeeps(defs, defs[id], begun);
      hide Load, RunBody, Uncached, Strict, Ordered;
      OrderBegins(g, st, id, order);
      var most := RunInOrder(g, g[id], begun, order);
      later := most + [id];
      OrderEnds(g, begun, mid, id, most);
    }
  }

  lemma {:induction false} RunInOrder(g: Graph, ids: seq<Id>, st: State, order: seq<Id>) returns (later: seq<Id>)
    requires Ordered(g, st, order) && RunBody(Stricts(g), Strict(ids), st).0
    ensures Ordered(g, RunBody(Stricts(g), Strict(ids), st).1, later)
    ensures forall e :: e in ids ==> e in later
    decreases Uncached(Stricts(g), st), 1, Strict(ids)
  {
    if ids == [] {
      later := order;
    } else {
      var defs, e, rest := Stricts(g), ids[0], ids[1..];
      StrictStep(defs, ids, st);
      var mid := Load(defs, e, st).1;
      UncachedOf(defs, st, mid);
      RunKeeps(defs, Strict(rest), mid);
      hide Load, RunBody, Uncached, Topological;
      var first := LoadInOrder(g, e, st, order);
      later := RunInOrder(g, rest, mid, first);
    }
  }

  lemma LoadedHasNoCycle(g: Graph, entry: Id)
    requires Load(Stricts(g), entry, START).0.Loaded?
    ensures NoCycle(g, entry)
  {
    hide Load, RunBody;
    var order := LoadInOrder(g, entry, START, []);
    hide Topological, Reaches, Below;
    forall d | Reaches(Imports(g), entry, d) ensures d in g && !Below(Imports(g), d, d) {
      OrderIsClosed(Imports(g), order, entry, d);
      OrderHasNoCycle(Imports(g), order, d);
    }
  }

  /** Every import gives back a finished module just when everything the entry leads to is
      defined and on no cycle. */
  lemma ImportsAreFinished(g: Graph, entry: Id)
    ensures Load(Stricts(g), entry, START).0.Loaded? <==> NoCycle(g, entry)
  {
    hide Load, RunBody, NoCycle;
    if NoCycle(g, entry) {
      ReachesItself(Imports(g), entry);
      LoadAcyclic(g, entry, entry, START);
    } else if Load(Stricts(g), entry, START).0.Loaded? {
      LoadedHasNoCycle(g, entry);
    }
  }

  /** On a cycle a module that uses its imports at once fails, and one that does not loads. */
  lemma CycleSeesUnfinished()
    ensures var g := map["a" := ["b"], "b" := ["a"]];
            && Load(Stricts(g), "a", START).0.Failed?
            && Load(Straights(g), "a", START).0.Loaded?
  {
    var g: Graph := map["a" := ["b"], "b" := ["a"]];
    var defs := Stricts(g);
    var inA := Begin(START, "a");
    var inB := Begin(inA, "b");
    assert ["b"][1..] == [] && ["a"][1..] == [];
    assert defs["a"] == Require("b", Return, Throw, Throw) && defs["b"] == Require("a", Return, Throw, Throw);
    assert RunBody(defs, defs["b"], inB) == (false, inB);
    assert Load(defs, "b", inA).0.Failed?;
    assert !RunBody(defs, defs["a"], inA).0;
    LoadStraight(g, "a", START, {});
  }
}
