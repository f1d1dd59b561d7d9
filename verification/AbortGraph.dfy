/**
 `AbortSignal` and its dependency graph. `any` makes a signal that follows others; aborting
 a signal marks everything that follows it, then unlinks what was marked, and only then
 runs listeners. Listeners are user code: they may make and abort further signals while
 the dispatch of an earlier abort is still under way.
 */
module AbortGraph {
  import opened OptionWrapper
  import Graphs

  type Id = nat
  type Reason = int

  /** `followers` is the JavaScript `Set` in its insertion order; `links` holds the distinct
      sources while the signal is linked to them. */
  datatype Signal = Signal(aborted: bool, reason: Option<Reason>, followers: seq<Id>, links: seq<Id>)

  const FRESH := Signal(false, None, [], [])

  /** `new Set(list)`: first occurrences, in order. */
  function Dedupe(list: seq<Id>): (r: seq<Id>)
    ensures Graphs.Distinct(r) && forall x :: x in r <==> x in list
  {
    if list == [] then []
    else
      var rest := Dedupe(list[..|list| - 1]);
      var x := list[|list| - 1];
      assert forall y :: y in list <==> y in list[..|list| - 1] || y == x;
      if x in rest then rest else rest + [x]
  }

  /** `fs` without the members of `gone`. */
  function Without(fs: seq<Id>, gone: seq<Id>): (r: seq<Id>)
    ensures forall x :: x in r <==> x in fs && x !in gone
    ensures Graphs.Distinct(fs) ==> Graphs.Distinct(r)
  {
    if fs == [] then []
    else
      var rest := Without(fs[..|fs| - 1], gone);
      var x := fs[|fs| - 1];
      assert forall y :: y in fs <==> y in fs[..|fs| - 1] || y == x;
      if x in gone then rest else rest + [x]
  }

  lemma {:induction false} WithoutTwice(fs: seq<Id>, a: seq<Id>, x: Id)
    ensures Without(Without(fs, a), [x]) == Without(fs, a + [x])
  {
    if fs != [] {
      WithoutTwice(fs[..|fs| - 1], a, x);
      var y := fs[|fs| - 1];
      if y !in a {
        var r := Without(fs[..|fs| - 1], a);
        assert (r + [y])[..|r|] == r;
      }
    }
  }

  lemma {:induction false} WithoutNone(fs: seq<Id>, gone: seq<Id>)
    requires forall x :: x in fs ==> x !in gone
    ensures Without(fs, gone) == fs
  {
    if fs != [] {
      var front, x := fs[..|fs| - 1], fs[|fs| - 1];
      assert fs == front + [x] && x in fs;
      assert forall y :: y in front ==> y in fs;
      WithoutNone(front, gone);
    }
  }

  // ---------------------------------------------------------------- reachability

  predicate Follows(g: seq<Signal>, s: Id, d: Id) { s < |g| && d in g[s].followers }
  predicate HasLink(g: seq<Signal>, d: Id, s: Id) { d < |g| && s in g[d].links }

  ghost function Following(g: seq<Signal>): (edge: Graphs.Edges<Id>) { (s: Id, d: Id) => Follows(g, s, d) }

  ghost predicate Reaches(g: seq<Signal>, a: Id, b: Id) { Graphs.Reaches(Following(g), a, b) }

  /** `pending` is what an abort of `root` marks: `root` first, each signal once, and exactly
      what is reachable from it. */
  ghost predicate Marks(g: seq<Signal>, root: Id, pending: seq<Id>)
  {
    && pending != [] && pending[0] == root && Graphs.Distinct(pending)
    && (forall x :: x in pending ==> x < |g| && !g[x].aborted)
    && forall x :: x in pending <==> Reaches(g, root, x)
  }

  ghost predicate ClosedUnderFollowers(g: seq<Signal>, s: seq<Id>)
  {
    forall x, y :: x in s && Follows(g, x, y) ==> y in s
  }

  lemma ReachesStaysInside(g: seq<Signal>, s: seq<Id>, a: Id)
    requires ClosedUnderFollowers(g, s) && a in s
    ensures forall b: Id :: Reaches(g, a, b) ==> b in s
  {
    hide Graphs.Reaches;
    Graphs.ReachableStays(Following(g), a, set x | x in s);
  }

  // ---------------------------------------------------------------- what one abort leaves

  function AfterOne(s: Signal, x: Id, pending: seq<Id>, reason: Reason): (r: Signal)
  {
    if x in pending then Signal(true, Some(reason), [], [])
    else s.(followers := Without(s.followers, pending))
  }

  /** The signal table after marking and unlinking `pending`. */
  function After(g: seq<Signal>, pending: seq<Id>, reason: Reason): (r: seq<Signal>)
    ensures |r| == |g|
  {
    seq(|g|, x requires 0 <= x < |g| => AfterOne(g[x], x, pending, reason))
  }

  function MarkedOne(s: Signal, x: Id, pending: seq<Id>, cleared: seq<Id>, reason: Reason): (r: Signal)
  {
    if x in pending then Signal(true, Some(reason), if x in cleared then [] else s.followers, s.links) else s
  }

  /** The table after marking only: marked signals lose their followers as they are visited. */
  function Marked(g: seq<Signal>, pending: seq<Id>, cleared: seq<Id>, reason: Reason): (r: seq<Signal>)
    ensures |r| == |g|
  {
    seq(|g|, x requires 0 <= x < |g| => MarkedOne(g[x], x, pending, cleared, reason))
  }

  // ---------------------------------------------------------------- the invariant of the table

  /** A signal is its controller's, or was made by `any` from a list of signals. */
  datatype Origin = Controller | AnyOf(list: seq<Id>)

  /** Every follower is linked back. */
  ghost predicate FollowersLink(g: seq<Signal>)
  {
    forall s: Id, d: Id :: Follows(g, s, d) ==> HasLink(g, d, s)
  }

  /** Every link leads to an older signal that knows its follower. */
  ghost predicate LinksFollow(g: seq<Signal>)
  {
    forall s: Id, d: Id :: HasLink(g, d, s) ==> s < d && Follows(g, s, d)
  }

  /** A signal is linked to its distinct sources until it is aborted. */
  ghost predicate LinksAreSources(g: seq<Signal>, made: seq<Origin>)
  {
    |made| == |g| && forall d: Id :: d < |g| ==>
      g[d].links == if g[d].aborted || made[d].Controller? then [] else Dedupe(made[d].list)
  }

  ghost predicate Tidy(g: seq<Signal>)
  {
    forall s: Id :: s < |g| ==>
      && Graphs.Distinct(g[s].followers)
      && (g[s].aborted ==> g[s].followers == [])
      && (g[s].aborted <==> g[s].reason.Some?)
  }

  ghost predicate SourcesOlder(made: seq<Origin>)
  {
    forall d: Id, s: Id :: d < |made| && made[d].AnyOf? && s in made[d].list ==> s < d
  }

  /** Followers and links are two views of the same edges, from older to newer signals, and
      only between signals that are not aborted. */
  ghost predicate Linked(g: seq<Signal>, made: seq<Origin>)
  {
    FollowersLink(g) && LinksFollow(g) && LinksAreSources(g, made) && Tidy(g) && SourcesOlder(made)
  }

  /** A dependent signal is aborted if and only if one of its sources is. */
  ghost predicate SomeSourceAborted(g: seq<Signal>, list: seq<Id>)
  {
    exists s: Id :: s in list && s < |g| && g[s].aborted
  }

  ghost predicate Exact(g: seq<Signal>, made: seq<Origin>)
  {
    forall d: Id :: d < |g| && d < |made| && made[d].AnyOf? ==>
      (g[d].aborted <==> SomeSourceAborted(g, made[d].list))
  }

  lemma MarksAreClosed(g: seq<Signal>, root: Id, pending: seq<Id>)
    requires Marks(g, root, pending)
    ensures ClosedUnderFollowers(g, pending)
  {
    forall x, y | x in pending && Follows(g, x, y) ensures y in pending {
      Graphs.ReachesThenEdge(Following(g), root, x, y);
    }
  }

  lemma AfterKeepsFollowers(g: seq<Signal>, pending: seq<Id>, reason: Reason)
    requires FollowersLink(g)
    ensures FollowersLink(After(g, pending, reason))
  {
    var r := After(g, pending, reason);
    forall s: Id, d: Id | Follows(r, s, d) ensures HasLink(r, d, s) {
      assert Follows(g, s, d) && d !in pending;
      assert HasLink(g, d, s);
    }
  }

  lemma AfterKeepsLinks(g: seq<Signal>, pending: seq<Id>, reason: Reason)
    requires LinksFollow(g) && ClosedUnderFollowers(g, pending)
    ensures LinksFollow(After(g, pending, reason))
  {
    var r := After(g, pending, reason);
    forall s: Id, d: Id | HasLink(r, d, s) ensures s < d && Follows(r, s, d) {
      assert d !in pending && HasLink(g, d, s);
      assert Follows(g, s, d);
      assert s !in pending;
    }
  }

  lemma AfterKeepsTidy(g: seq<Signal>, made: seq<Origin>, pending: seq<Id>, reason: Reason)
    requires Tidy(g) && LinksAreSources(g, made)
    ensures Tidy(After(g, pending, reason)) && LinksAreSources(After(g, pending, reason), made)
  {
  }

  lemma AfterKeepsLinked(g: seq<Signal>, made: seq<Origin>, root: Id, pending: seq<Id>, reason: Reason)
    requires Linked(g, made) && Marks(g, root, pending)
    ensures Linked(After(g, pending, reason), made)
  {
    MarksAreClosed(g, root, pending);
    AfterKeepsFollowers(g, pending, reason);
    AfterKeepsLinks(g, pending, reason);
    AfterKeepsTidy(g, made, pending, reason);
  }

  /** Only the root is marked without one of its sources being marked. */
  lemma MarkedHasSource(g: seq<Signal>, root: Id, x: Id) returns (s: Id)
    requires Reaches(g, root, x) && x != root
    ensures Reaches(g, root, s) && Follows(g, s, x)
  {
    s := Graphs.LastEdge(Following(g), root, x);
  }

  /** One dependent signal, before and after. */
  lemma DependentStaysExact(g: seq<Signal>, made: seq<Origin>, root: Id, pending: seq<Id>, reason: Reason, d: Id)
    requires Linked(g, made) && Exact(g, made) && Marks(g, root, pending) && ClosedUnderFollowers(g, pending)
    requires d < |g| && made[d].AnyOf? && d != root
    ensures After(g, pending, reason)[d].aborted <==> SomeSourceAborted(After(g, pending, reason), made[d].list)
  {
    hide Reaches, Tidy;
    var r, list := After(g, pending, reason), made[d].list;
    if d in pending {
      var s := MarkedHasSource(g, root, d);
      assert HasLink(g, d, s) && s in list && r[s].aborted;
    } else if g[d].aborted {
      var s: Id :| s in list && s < |g| && g[s].aborted;
      assert r[s].aborted;
    } else {
      forall s: Id | s in list && s < |r| ensures !r[s].aborted {
        assert HasLink(g, d, s) && Follows(g, s, d);
      }
    }
  }

  lemma AfterKeepsExact(g: seq<Signal>, made: seq<Origin>, root: Id, pending: seq<Id>, reason: Reason)
    requires Linked(g, made) && Exact(g, made) && Marks(g, root, pending)
    requires root < |made| && made[root].Controller?
    ensures Exact(After(g, pending, reason), made)
  {
    MarksAreClosed(g, root, pending);
    hide Linked, Marks, ClosedUnderFollowers, SomeSourceAborted;
    forall d: Id | d < |g| && d < |made| && made[d].AnyOf?
      ensures After(g, pending, reason)[d].aborted <==> SomeSourceAborted(After(g, pending, reason), made[d].list)
    {
      DependentStaysExact(g, made, root, pending, reason, d);
    }
  }

  // ---------------------------------------------------------------- _abort: mark, then unlink

  ghost predicate FollowersLive(g: seq<Signal>)
  {
    forall s: Id, d: Id :: Follows(g, s, d) ==> d < |g| && !g[d].aborted
  }

  function ToSet(s: seq<Id>): (r: set<Id>)
  {
    set x | x in s
  }

  lemma {:induction false} DistinctSize(s: seq<Id>)
    requires Graphs.Distinct(s)
    ensures |ToSet(s)| == |s|
  {
    if s != [] {
      var front := s[..|s| - 1];
      DistinctSize(front);
      assert ToSet(s) == ToSet(front) + {s[|s| - 1]};
    }
  }

  /** Distinct ids below `n` are at most `n`: the worklist cannot outgrow the table. */
  lemma {:induction false} DistinctBounded(s: set<Id>, n: nat)
    requires forall x :: x in s ==> x < n
    ensures |s| <= n
  {
    if n > 0 {
      DistinctBounded(s - {n - 1}, n - 1);
    } else {
      assert s == {};
    }
  }

  /** The worklist so far: `root` first, each signal once, all reachable and not yet aborted. */
  ghost predicate Frontier(g: seq<Signal>, root: Id, pending: seq<Id>)
  {
    && pending != [] && pending[0] == root && Graphs.Distinct(pending)
    && forall x :: x in pending ==> x < |g| && !g[x].aborted && Reaches(g, root, x)
  }

  lemma FrontierGrows(g: seq<Signal>, root: Id, pending: seq<Id>, from: Id, next: Id)
    requires Frontier(g, root, pending) && FollowersLive(g)
    requires from in pending && Follows(g, from, next) && next !in pending
    ensures Frontier(g, root, pending + [next])
  {
    hide Graphs.Reaches;
    Graphs.ReachesThenEdge(Following(g), root, from, next);
  }

  lemma FrontierComplete(g: seq<Signal>, root: Id, pending: seq<Id>)
    requires Frontier(g, root, pending) && ClosedUnderFollowers(g, pending)
    ensures Marks(g, root, pending)
  {
    hide Reaches;
    ReachesStaysInside(g, pending, root);
  }

  lemma FrontierInit(g: seq<Signal>, root: Id)
    requires root < |g| && !g[root].aborted
    ensures Frontier(g, root, [root])
  {
    Graphs.ReachesItself(Following(g), root);
  }

  /** One turn of the worklist: mark the followers of `current` that are not marked yet. */
  method MarkFollowers(ghost g: seq<Signal>, ghost root: Id, ghost cleared: seq<Id>,
                       table: seq<Signal>, worklist: seq<Id>, current: Id, value: Reason)
    returns (out: seq<Signal>, pending: seq<Id>)
    requires Frontier(g, root, worklist) && FollowersLive(g)
    requires table == Marked(g, worklist, cleared, value) && current in worklist && current !in cleared
    requires forall x :: x in cleared ==> x in worklist
    ensures Frontier(g, root, pending) && worklist <= pending
    ensures out == Marked(g, pending, cleared, value)
    ensures forall y :: Follows(g, current, y) ==> y in pending
  {
    out, pending := table, worklist;
    var followers := table[current].followers;
    for j := 0 to |followers|
      invariant Frontier(g, root, pending) && worklist <= pending
      invariant out == Marked(g, pending, cleared, value)
      invariant forall y :: y in followers[..j] ==> y in pending
    {
      hide Frontier, Marks, Reaches;
      var next := followers[j];
      assert Follows(g, current, next);
      assert forall y :: y in followers[..j + 1] ==> y in followers[..j] || y == next;
      if !out[next].aborted {
        FrontierGrows(g, root, pending, current, next);
        var grown := pending + [next];
        assert Marked(g, grown, cleared, value) ==
               out[next := out[next].(aborted := true, reason := Some(value))] by {
          assert forall x :: x in grown <==> x in pending || x == next;
        }
        out := out[next := out[next].(aborted := true, reason := Some(value))];
        pending := grown;
      }
    }
    assert followers[..|followers|] == followers;
  }

  lemma FrontierBound(g: seq<Signal>, root: Id, pending: seq<Id>)
    requires Frontier(g, root, pending)
    ensures |pending| <= |g|
  {
    hide Reaches;
    DistinctSize(pending);
    DistinctBounded(ToSet(pending), |g|);
  }

  method MarkAll(g: seq<Signal>, root: Id, value: Reason) returns (out: seq<Signal>, pending: seq<Id>)
    requires FollowersLive(g) && root < |g| && !g[root].aborted
    ensures Marks(g, root, pending) && out == Marked(g, pending, pending, value)
  {
    pending := [root];
    out := g[root := g[root].(aborted := true, reason := Some(value))];
    FrontierInit(g, root);
    var i := 0;
    while i < |pending|
      invariant 0 <= i <= |pending| && Frontier(g, root, pending)
      invariant out == Marked(g, pending, pending[..i], value)
      invariant forall x, y :: x in pending[..i] && Follows(g, x, y) ==> y in pending
      decreases |g| - i
    {
      ghost var before := pending;
      var current := pending[i];
      out, pending := MarkFollowers(g, root, pending[..i], out, pending, current, value);
      FrontierBound(g, root, pending);
      assert pending[..i] == before[..i] && pending[i] == current;
      assert pending[..i + 1] == pending[..i] + [current];
      out := out[current := out[current].(followers := [])];
      i := i + 1;
    }
    assert pending[..i] == pending;
    assert ClosedUnderFollowers(g, pending);
    FrontierComplete(g, root, pending);
  }

  /** A table on its way from marked to unlinked: `done` of `pending` have let go. */
  ghost predicate Unlinking(g: seq<Signal>, pending: seq<Id>, done: seq<Id>, value: Reason, out: seq<Signal>)
  {
    |out| == |g| && forall x: Id :: x < |g| ==>
      out[x] == if x in pending then Signal(true, Some(value), [], if x in done then [] else g[x].links)
                else g[x].(followers := Without(g[x].followers, done))
  }

  method UnlinkOne(ghost g: seq<Signal>, ghost pending: seq<Id>, ghost done: seq<Id>, ghost value: Reason,
                   table: seq<Signal>, signal: Id)
    returns (out: seq<Signal>)
    requires Unlinking(g, pending, done, value, table) && signal in pending && signal !in done && signal < |g|
    requires FollowersLink(g) && LinksFollow(g) && Graphs.Distinct(g[signal].links)
    ensures Unlinking(g, pending, done + [signal], value, out)
  {
    hide Without;
    WithoutNone([], [signal]);
    out := table;
    var links := table[signal].links;
    for j := 0 to |links|
      invariant |out| == |g|
      invariant forall x: Id :: x < |g| && x in pending ==> out[x] == table[x]
      invariant forall x: Id :: x < |g| && x !in pending ==>
                  out[x] == if x in links[..j] then table[x].(followers := Without(g[x].followers, done + [signal]))
                            else table[x]
    {
      var parent := links[j];
      assert HasLink(g, signal, parent);
      assert forall x :: x in links[..j + 1] <==> x in links[..j] || x == parent;
      assert parent !in links[..j];
      WithoutTwice(g[parent].followers, done, signal);
      out := out[parent := out[parent].(followers := Without(out[parent].followers, [signal]))];
    }
    out := out[signal := out[signal].(links := [])];
    forall x: Id | x < |g| && x !in pending && x !in links
      ensures Without(g[x].followers, done + [signal]) == Without(g[x].followers, done)
    {
      assert !HasLink(g, signal, x);
      assert !Follows(g, x, signal);
      WithoutTwice(g[x].followers, done, signal);
      WithoutNone(Without(g[x].followers, done), [signal]);
    }
    assert links[..|links|] == links;
  }

  method UnlinkAll(g: seq<Signal>, table: seq<Signal>, pending: seq<Id>, value: Reason) returns (out: seq<Signal>)
    requires table == Marked(g, pending, pending, value) && Graphs.Distinct(pending)
    requires FollowersLink(g) && LinksFollow(g) && forall x :: x in pending ==> x < |g| && Graphs.Distinct(g[x].links)
    ensures out == After(g, pending, value)
  {
    out := table;
    forall x: Id | x < |g| ensures Without(g[x].followers, []) == g[x].followers {
      WithoutNone(g[x].followers, []);
    }
    for k := 0 to |pending|
      invariant Unlinking(g, pending, pending[..k], value, out)
    {
      hide Unlinking;
      assert pending[..k + 1] == pending[..k] + [pending[k]];
      out := UnlinkOne(g, pending, pending[..k], value, out, pending[k]);
    }
    assert pending[..|pending|] == pending;
  }

  lemma LinkedIsLive(g: seq<Signal>, made: seq<Origin>)
    requires Linked(g, made)
    ensures FollowersLive(g)
    ensures forall x: Id :: x < |g| ==> Graphs.Distinct(g[x].links)
  {
    forall s: Id, d: Id | Follows(g, s, d) ensures d < |g| && !g[d].aborted {
      assert HasLink(g, d, s);
    }
  }

  // ---------------------------------------------------------------- runs

  /** The whole runtime: the table, how each signal came about, the dispatch loops that are
      under way (the innermost last) and every event dispatched so far. */
  datatype World = World(signals: seq<Signal>, made: seq<Origin>, frames: seq<seq<Id>>, log: seq<Id>)

  const START := World([], [], [], [])

  datatype Op = New | Any(list: seq<Id>) | Abort(id: Id, reason: Reason) | Dispatch

  predicate Known(g: seq<Signal>, list: seq<Id>) { forall i :: 0 <= i < |list| ==> list[i] < |g| }

  function FirstAborted(g: seq<Signal>, list: seq<Id>): (r: Option<Id>)
    requires Known(g, list)
    ensures r.Some? ==> r.value in list && g[r.value].aborted
    ensures r.None? ==> forall s :: s in list ==> !g[s].aborted
  {
    if list == [] then None
    else if g[list[0]].aborted then Some(list[0])
    else FirstAborted(g, list[1..])
  }

  /** The table after `any(list)` with no aborted source: each distinct source gains a follower. */
  function Follow(g: seq<Signal>, list: seq<Id>): (r: seq<Signal>)
    ensures |r| == |g| + 1
  {
    seq(|g|, x requires 0 <= x < |g| => if x in list then g[x].(followers := g[x].followers + [|g|]) else g[x])
      + [Signal(false, None, [], Dedupe(list))]
  }

  function AfterAny(w: World, list: seq<Id>): (r: World)
    requires Known(w.signals, list)
  {
    match FirstAborted(w.signals, list)
    case Some(s) =>
      w.(signals := w.signals + [Signal(true, w.signals[s].reason, [], [])],
         made := w.made + [AnyOf(list)], log := w.log + [|w.signals|])
    case None => w.(signals := Follow(w.signals, list), made := w.made + [AnyOf(list)])
  }

  ghost predicate AbortsTo(w: World, id: Id, reason: Reason, pending: seq<Id>, w': World)
  {
    && Marks(w.signals, id, pending)
    && w' == w.(signals := After(w.signals, pending, reason), frames := w.frames + [pending])
  }

  /** What user code can do, at top level or inside a listener, and the next turn of the
      innermost dispatch loop. A dependent signal has no controller to abort it with. */
  ghost predicate Step(w: World, op: Op, w': World)
  {
    match op
    case New => w' == w.(signals := w.signals + [FRESH], made := w.made + [Controller])
    case Any(list) => Known(w.signals, list) && w' == AfterAny(w, list)
    case Abort(id, reason) =>
      && id < |w.signals| && id < |w.made| && w.made[id].Controller?
      && (w.signals[id].aborted ==> w' == w)
      && (!w.signals[id].aborted ==> exists pending :: AbortsTo(w, id, reason, pending, w'))
    case Dispatch =>
      && w.frames != []
      && var outer, frame := w.frames[..|w.frames| - 1], w.frames[|w.frames| - 1];
         if frame == [] then w' == w.(frames := outer)
         else w' == w.(frames := outer + [frame[1..]], log := w.log + [frame[0]])
  }

  function Waiting(frames: seq<seq<Id>>): (r: multiset<Id>)
  {
    if frames == [] then multiset{} else Waiting(frames[..|frames| - 1]) + multiset(frames[|frames| - 1])
  }

  /** Events to come and events past. */
  function Booked(w: World): (r: multiset<Id>) { Waiting(w.frames) + multiset(w.log) }

  /** Every aborted signal, and no other, is in a dispatch loop or in the log, once in all. */
  ghost predicate Books(w: World)
  {
    forall x: Id :: Booked(w)[x] == if x < |w.signals| && w.signals[x].aborted then 1 else 0
  }

  ghost predicate Inv(w: World)
  {
    Linked(w.signals, w.made) && Exact(w.signals, w.made) && Books(w)
  }

  lemma SourcesSeeOld(g: seq<Signal>, r: seq<Signal>, list: seq<Id>)
    requires |r| >= |g| && forall x: Id :: x < |g| ==> r[x].aborted == g[x].aborted
    requires Known(g, list)
    ensures SomeSourceAborted(g, list) <==> SomeSourceAborted(r, list)
  {
    if SomeSourceAborted(g, list) {
      var x: Id :| x in list && x < |g| && g[x].aborted;
      assert r[x].aborted;
    }
    if SomeSourceAborted(r, list) {
      var x: Id :| x in list && x < |r| && r[x].aborted;
      assert g[x].aborted;
    }
  }

  lemma SourcesKnown(made: seq<Origin>, d: Id, g: seq<Signal>)
    requires SourcesOlder(made) && d < |made| == |g| && made[d].AnyOf?
    ensures Known(g, made[d].list)
  {
    forall i | 0 <= i < |made[d].list| ensures made[d].list[i] < |g| {
      assert made[d].list[i] in made[d].list;
    }
  }

  lemma AppendKeepsTable(g: seq<Signal>, made: seq<Origin>, s: Signal, o: Origin)
    requires Linked(g, made) && Exact(g, made)
    requires s.followers == [] && s.links == [] && (s.aborted <==> s.reason.Some?)
    requires o.AnyOf? ==> s.aborted && SomeSourceAborted(g, o.list) && Known(g, o.list)
    ensures Linked(g + [s], made + [o]) && Exact(g + [s], made + [o])
  {
    var r, m := g + [s], made + [o];
    forall a: Id, d: Id ensures Follows(r, a, d) ==> Follows(g, a, d) {}
    forall a: Id, d: Id ensures HasLink(r, d, a) ==> HasLink(g, d, a) {}
    assert FollowersLink(r) by {
      forall a: Id, d: Id | Follows(r, a, d) ensures HasLink(r, d, a) { assert HasLink(g, d, a); }
    }
    assert LinksFollow(r) by {
      forall a: Id, d: Id | HasLink(r, d, a) ensures a < d && Follows(r, a, d) { assert Follows(g, a, d); }
    }
    forall d: Id | d < |r| && m[d].AnyOf? ensures r[d].aborted <==> SomeSourceAborted(r, m[d].list) {
      if d < |g| {
        SourcesKnown(made, d, g);
        SourcesSeeOld(g, r, m[d].list);
      } else {
        var x: Id :| x in o.list && x < |g| && g[x].aborted;
        assert r[x].aborted;
      }
    }
  }

  lemma FollowEdges(g: seq<Signal>, list: seq<Id>)
    requires FollowersLink(g) && LinksFollow(g) && Known(g, list)
    ensures FollowersLink(Follow(g, list)) && LinksFollow(Follow(g, list))
  {
    var r, n := Follow(g, list), |g|;
    forall s: Id, d: Id | Follows(r, s, d) ensures HasLink(r, d, s) {
      if d == n && s in list {
        assert HasLink(r, n, s);
      } else {
        assert Follows(g, s, d);
        assert HasLink(g, d, s);
      }
    }
    forall s: Id, d: Id | HasLink(r, d, s) ensures s < d && Follows(r, s, d) {
      if d < n {
        assert HasLink(g, d, s);
        assert Follows(g, s, d);
      } else {
        assert s in list;
        assert Follows(r, s, n);
      }
    }
  }

  lemma FollowKeepsTidy(g: seq<Signal>, made: seq<Origin>, list: seq<Id>)
    requires Tidy(g) && FollowersLink(g) && LinksAreSources(g, made) && Known(g, list)
    requires forall s :: s in list ==> !g[s].aborted
    ensures Tidy(Follow(g, list)) && LinksAreSources(Follow(g, list), made + [AnyOf(list)])
  {
    var r := Follow(g, list);
    forall s: Id | s < |g| ensures Graphs.Distinct(r[s].followers) {
      if s in list {
        assert !HasLink(g, |g|, s);
        assert !Follows(g, s, |g|);
      }
    }
  }

  lemma FollowKeepsExact(g: seq<Signal>, made: seq<Origin>, list: seq<Id>)
    requires Exact(g, made) && SourcesOlder(made) && |made| == |g| && Known(g, list)
    requires forall s :: s in list ==> !g[s].aborted
    ensures Exact(Follow(g, list), made + [AnyOf(list)])
  {
    var r, m := Follow(g, list), made + [AnyOf(list)];
    forall d: Id | d < |r| && m[d].AnyOf? ensures r[d].aborted <==> SomeSourceAborted(r, m[d].list) {
      if d < |g| {
        SourcesKnown(made, d, g);
        SourcesSeeOld(g, r, m[d].list);
      } else {
        SourcesSeeOld(g, r, list);
      }
    }
  }

  lemma ListOlder(g: seq<Signal>, made: seq<Origin>, list: seq<Id>)
    requires SourcesOlder(made) && |made| == |g| && Known(g, list)
    ensures SourcesOlder(made + [AnyOf(list)])
  {
  }

  lemma FollowKeepsTable(g: seq<Signal>, made: seq<Origin>, list: seq<Id>)
    requires Linked(g, made) && Exact(g, made) && Known(g, list)
    requires forall s :: s in list ==> !g[s].aborted
    ensures Linked(Follow(g, list), made + [AnyOf(list)]) && Exact(Follow(g, list), made + [AnyOf(list)])
  {
    FollowEdges(g, list);
    FollowKeepsTidy(g, made, list);
    FollowKeepsExact(g, made, list);
    ListOlder(g, made, list);
  }

  // ---------------------------------------------------------------- the books

  lemma {:induction false} DistinctOnce(s: seq<Id>, x: Id)
    requires Graphs.Distinct(s)
    ensures multiset(s)[x] == if x in s then 1 else 0
  {
    if s != [] {
      var front, y := s[..|s| - 1], s[|s| - 1];
      assert s == front + [y];
      DistinctOnce(front, x);
    }
  }

  lemma WaitingPush(frames: seq<seq<Id>>, frame: seq<Id>)
    ensures Waiting(frames + [frame]) == Waiting(frames) + multiset(frame)
  {
    assert (frames + [frame])[..|frames|] == frames;
  }

  lemma AbortKeepsBooks(w: World, id: Id, reason: Reason, pending: seq<Id>, w': World)
    requires Books(w) && AbortsTo(w, id, reason, pending, w')
    ensures Books(w')
  {
    hide Reaches;
    WaitingPush(w.frames, pending);
    assert Booked(w') == Booked(w) + multiset(pending);
    hide Booked;
    forall x: Id ensures Booked(w')[x] == if x < |w'.signals| && w'.signals[x].aborted then 1 else 0 {
      DistinctOnce(pending, x);
    }
  }

  lemma DispatchKeepsBooks(w: World, w': World)
    requires Books(w) && Step(w, Dispatch, w')
    ensures Books(w')
  {
    var outer, frame := w.frames[..|w.frames| - 1], w.frames[|w.frames| - 1];
    assert w.frames == outer + [frame];
    WaitingPush(outer, frame);
    if frame != [] {
      WaitingPush(outer, frame[1..]);
      assert frame == [frame[0]] + frame[1..];
      assert multiset(w'.log) == multiset(w.log) + multiset{frame[0]};
      assert Booked(w') == Booked(w);
    } else {
      assert Waiting(w'.frames) == Waiting(w.frames);
    }
  }

  lemma NewKeepsBooks(w: World, w': World)
    requires Books(w) && Step(w, New, w')
    ensures Books(w')
  {
    assert Booked(w') == Booked(w);
  }

  lemma AnyKeepsBooks(w: World, list: seq<Id>, w': World)
    requires Books(w) && Step(w, Any(list), w')
    ensures Books(w')
  {
    var g, id: Id := w.signals, |w.signals|;
    if FirstAborted(g, list).Some? {
      assert Booked(w') == Booked(w) + multiset{id};
    } else {
      assert Booked(w') == Booked(w);
    }
  }

  lemma ReasonKnown(g: seq<Signal>, made: seq<Origin>, s: Id)
    requires Linked(g, made) && s < |g| && g[s].aborted
    ensures g[s].reason.Some?
  {
  }

  lemma AnyKeepsTable(w: World, list: seq<Id>, w': World)
    requires Linked(w.signals, w.made) && Exact(w.signals, w.made) && Step(w, Any(list), w')
    ensures Linked(w'.signals, w'.made) && Exact(w'.signals, w'.made)
  {
    hide Linked, Exact;
    var g := w.signals;
    match FirstAborted(g, list)
    case Some(s) =>
      assert SomeSourceAborted(g, list);
      ReasonKnown(g, w.made, s);
      AppendKeepsTable(g, w.made, Signal(true, g[s].reason, [], []), AnyOf(list));
    case None =>
      FollowKeepsTable(g, w.made, list);
  }

  /** Every step keeps the graph exact and the books straight. */
  lemma StepKeepsInv(w: World, op: Op, w': World)
    requires Inv(w) && Step(w, op, w')
    ensures Inv(w')
  {
    hide Linked, Exact, Books;
    match op
    case New =>
      AppendKeepsTable(w.signals, w.made, FRESH, Controller);
      NewKeepsBooks(w, w');
    case Any(list) =>
      AnyKeepsTable(w, list, w');
      AnyKeepsBooks(w, list, w');
    case Abort(id, reason) =>
      if !w.signals[id].aborted {
        var pending :| AbortsTo(w, id, reason, pending, w');
        AfterKeepsLinked(w.signals, w.made, id, pending, reason);
        AfterKeepsExact(w.signals, w.made, id, pending, reason);
        AbortKeepsBooks(w, id, reason, pending, w');
      }
    case Dispatch => DispatchKeepsBooks(w, w');
  }

  /** A run from the start: worlds joined by steps. */
  ghost predicate IsRun(ws: seq<World>, ops: seq<Op>)
  {
    && |ws| == |ops| + 1 && ws[0] == START
    && forall i :: 0 <= i < |ops| ==> Step(ws[i], ops[i], ws[i + 1])
  }

  lemma {:induction false} RunKeepsInv(ws: seq<World>, ops: seq<Op>, i: nat)
    requires IsRun(ws, ops) && i < |ws|
    ensures Inv(ws[i])
  {
    if i > 0 {
      RunKeepsInv(ws, ops, i - 1);
      StepKeepsInv(ws[i - 1], ops[i - 1], ws[i]);
    }
  }

  /** In every run: a dependent signal is aborted exactly when one of its sources is. */
  lemma DependentsExact(ws: seq<World>, ops: seq<Op>, i: nat, d: Id)
    requires IsRun(ws, ops) && i < |ws| && d < |ws[i].signals| && d < |ws[i].made| && ws[i].made[d].AnyOf?
    ensures ws[i].signals[d].aborted <==> SomeSourceAborted(ws[i].signals, ws[i].made[d].list)
  {
    RunKeepsInv(ws, ops, i);
  }

  predicate MadeFrom(w: World, d: Id, s: Id)
  {
    d < |w.signals| && d < |w.made| && w.made[d].AnyOf? && s in w.made[d].list
  }

  lemma TwiceCounts(s: seq<Id>, j: int, k: int)
    requires 0 <= j < k < |s|
    ensures s[j] == s[k] ==> multiset(s)[s[j]] >= 2
  {
    var a, b, c := s[..j + 1], s[j + 1..k + 1], s[k + 1..];
    assert s == a + b + c;
    assert a[j] == s[j] && b[k - j - 1] == s[k];
    assert multiset(s) == multiset(a) + multiset(b) + multiset(c);
    assert s[j] in a && s[k] in b;
  }

  /** In every run: no signal ever gets two events, one that got an event is aborted, and so
      is everything made from it by then: listeners never see a half-marked graph. */
  lemma OneEventEach(ws: seq<World>, ops: seq<Op>, i: nat)
    requires IsRun(ws, ops) && i < |ws|
    ensures Graphs.Distinct(ws[i].log)
    ensures forall x :: x in ws[i].log ==> x < |ws[i].signals| && ws[i].signals[x].aborted
    ensures forall x, d: Id :: x in ws[i].log && MadeFrom(ws[i], d, x) ==> ws[i].signals[d].aborted
  {
    RunKeepsInv(ws, ops, i);
    var w := ws[i];
    forall j, k | 0 <= j < k < |w.log| ensures w.log[j] != w.log[k] {
      TwiceCounts(w.log, j, k);
      assert Booked(w)[w.log[j]] >= multiset(w.log)[w.log[j]];
    }
    forall x | x in w.log ensures x < |w.signals| && w.signals[x].aborted {
      assert Booked(w)[x] >= multiset(w.log)[x] >= 1;
    }
  }

  /** Once no dispatch loop is under way, every aborted signal has had its event. */
  lemma AllEventsDispatched(ws: seq<World>, ops: seq<Op>, i: nat, x: Id)
    requires IsRun(ws, ops) && i < |ws| && ws[i].frames == []
    ensures x in ws[i].log <==> x < |ws[i].signals| && ws[i].signals[x].aborted
  {
    RunKeepsInv(ws, ops, i);
    assert Booked(ws[i])[x] == multiset(ws[i].log)[x];
  }

  lemma StepKeepsAborted(w: World, op: Op, w': World, x: Id)
    requires Step(w, op, w') && x < |w.signals| && w.signals[x].aborted
    ensures x < |w'.signals| && w'.signals[x].aborted && w'.signals[x].reason == w.signals[x].reason
  {
    hide Reaches;
  }

  /** An abort is final, with its reason, whatever happens later. */
  lemma {:induction false} AbortIsFinal(ws: seq<World>, ops: seq<Op>, i: nat, j: nat, x: Id)
    requires IsRun(ws, ops) && i <= j < |ws| && x < |ws[i].signals| && ws[i].signals[x].aborted
    ensures x < |ws[j].signals| && ws[j].signals[x].aborted && ws[j].signals[x].reason == ws[i].signals[x].reason
    decreases j
  {
    if i < j {
      AbortIsFinal(ws, ops, i, j - 1, x);
      StepKeepsAborted(ws[j - 1], ops[j - 1], ws[j], x);
    }
  }

  // ---------------------------------------------------------------- the runtime object

  method AllSignals(g: seq<Signal>, list: seq<Id>) returns (ok: bool)
    ensures ok <==> Known(g, list)
  {
    for n := 0 to |list|
      invariant forall i :: 0 <= i < n ==> list[i] < |g|
    {
      if list[n] >= |g| { return false; }
    }
    ok := true;
  }

  lemma MarksShape(g: seq<Signal>, root: Id, pending: seq<Id>)
    requires Marks(g, root, pending)
    ensures Graphs.Distinct(pending) && forall x :: x in pending ==> x < |g|
  {
  }

  class AbortRuntime {
    var signals: seq<Signal>
    var made: seq<Origin>
    var frames: seq<seq<Id>>
    var log: seq<Id>

    ghost function State(): World
      reads this
    {
      World(signals, made, frames, log)
    }

    constructor ()
      ensures State() == START
    {
      signals, made, frames, log := [], [], [], [];
    }

    method NewSignal() returns (id: Id)
      modifies this
      ensures Step(old(State()), New, State()) && id == old(|signals|)
    {
      id := |signals|;
      signals, made := signals + [FRESH], made + [Controller];
    }

    /** `AbortSignal.any`: an argument that is no signal is an error, before anything is made. */
    method AnySignal(list: seq<Id>) returns (r: Option<Id>)
      modifies this
      ensures old(Known(signals, list)) ==>
                Step(old(State()), Any(list), State()) && r == Some(old(|signals|))
      ensures !old(Known(signals, list)) ==> State() == old(State()) && r == None
    {
      var known := AllSignals(signals, list);
      if !known { return None; }
      var id := |signals|;
      r := Some(id);
      made := made + [AnyOf(list)];
      var first := FirstAborted(signals, list);
      if first.Some? {
        signals := signals + [Signal(true, signals[first.value].reason, [], [])];
        log := log + [id];  // nobody listens yet
        return;
      }
      ghost var g := signals;
      var distinct := Dedupe(list);
      for j := 0 to |distinct|
        invariant |signals| == |g|
        invariant forall x: Id :: x < |g| ==>
                    signals[x] == if x in distinct[..j] then g[x].(followers := g[x].followers + [id]) else g[x]
        invariant made == old(made) + [AnyOf(list)] && frames == old(frames) && log == old(log)
      {
        var source := distinct[j];
        assert source in list && source < |g| && source !in distinct[..j];
        assert forall x :: x in distinct[..j + 1] <==> x in distinct[..j] || x == source;
        signals := signals[source := signals[source].(followers := signals[source].followers + [id])];
      }
      assert distinct[..|distinct|] == distinct;
      signals := signals + [Signal(false, None, [], distinct)];
      assert signals == Follow(g, list);
    }

    /** `_abort` up to its dispatch loop, which `DispatchNext` runs. */
    method AbortSignal(id: Id, reason: Reason)
      requires Inv(State()) && id < |signals| && made[id].Controller?
      modifies this
      ensures Step(old(State()), Abort(id, reason), State())
    {
      if signals[id].aborted { return; }
      hide Marks, Reaches, Exact, Books;
      LinkedIsLive(signals, made);
      var marked, pending := MarkAll(signals, id, reason);
      MarksShape(signals, id, pending);
      var after := UnlinkAll(signals, marked, pending, reason);
      signals, frames := after, frames + [pending];
      assert AbortsTo(old(State()), id, reason, pending, State());
    }

    method DispatchNext()
      requires frames != []
      modifies this
      ensures Step(old(State()), Dispatch, State())
    {
      var frame := frames[|frames| - 1];
      frames := frames[..|frames| - 1];
      if frame != [] {
        frames, log := frames + [frame[1..]], log + [frame[0]];
      }
    }
  }
}
