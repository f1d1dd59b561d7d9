/**
 Pooling benchmark rounds: per workload, samples of every round are appended to separate
 lists, which are later zipped. Measurements are reals; runtimes, toolchains and the
 statistics drawn from the lists are not part of this model.
 */
module Benchmarks {
  import opened OptionWrapper

  datatype Round = Round(rps: real, latency: seq<real>, serverCpu: Option<real>, clientCpu: Option<real>,
                         peakMemory: Option<real>, memoryKind: Option<string>)

  datatype Key = Key(id: string, concurrency: nat)

  datatype Workload = Workload(key: Key, path: string, duration: nat, rounds: seq<Round>,
                               rpsSamples: seq<real>, latencySamples: seq<real>, errors: nat)

  datatype Accumulator = Accumulator(path: string, duration: nat, rounds: nat, rps: seq<real>, latency: seq<real>,
                                     serverCpu: seq<real>, clientCpu: seq<real>, peakMemory: seq<real>,
                                     memoryKind: Option<string>)

  // ---------------------------------------------------------------- columns of rounds

  function Rps(rs: seq<Round>): (r: seq<real>)
    ensures |r| == |rs| && forall i :: 0 <= i < |rs| ==> r[i] == rs[i].rps
  {
    seq(|rs|, i requires 0 <= i < |rs| => rs[i].rps)
  }

  function Latencies(rs: seq<Round>): (r: seq<real>)
  {
    if rs == [] then [] else Latencies(rs[..|rs| - 1]) + rs[|rs| - 1].latency
  }

  function Cpus(rs: seq<Round>): (r: seq<Option<real>>)
    ensures |r| == |rs| && forall i :: 0 <= i < |rs| ==> r[i] == rs[i].serverCpu
  {
    seq(|rs|, i requires 0 <= i < |rs| => rs[i].serverCpu)
  }

  function Clients(rs: seq<Round>): (r: seq<Option<real>>)
    ensures |r| == |rs| && forall i :: 0 <= i < |rs| ==> r[i] == rs[i].clientCpu
  {
    seq(|rs|, i requires 0 <= i < |rs| => rs[i].clientCpu)
  }

  function Peaks(rs: seq<Round>): (r: seq<Option<real>>)
    ensures |r| == |rs| && forall i :: 0 <= i < |rs| ==> r[i] == rs[i].peakMemory
  {
    seq(|rs|, i requires 0 <= i < |rs| => rs[i].peakMemory)
  }

  /** The samples that are there, in order. */
  function Present(xs: seq<Option<real>>): (r: seq<real>)
    ensures |r| <= |xs|
  {
    if xs == [] then []
    else Present(xs[..|xs| - 1]) + if xs[|xs| - 1].Some? then [xs[|xs| - 1].value] else []
  }

  /** The first memory kind, if any round has one. */
  function Kind(rs: seq<Round>): (r: Option<string>)
  {
    if rs == [] then None
    else if Kind(rs[..|rs| - 1]).Some? then Kind(rs[..|rs| - 1])
    else rs[|rs| - 1].memoryKind
  }

  ghost predicate OneKind(rs: seq<Round>)
  {
    forall i, j :: 0 <= i < |rs| && 0 <= j < |rs| && rs[i].memoryKind.Some? && rs[j].memoryKind.Some? ==>
      rs[i].memoryKind == rs[j].memoryKind
  }

  /** What the accumulator of a workload holds after the rounds `rs`. */
  function Pooled(path: string, duration: nat, rs: seq<Round>): (a: Accumulator)
  {
    Accumulator(path, duration, |rs|, Rps(rs), Latencies(rs),
                Present(Cpus(rs)), Present(Clients(rs)), Present(Peaks(rs)), Kind(rs))
  }

  // ---------------------------------------------------------------- pairing

  /** Exactly all samples are there if as many are there as there are rounds; then each is at
      the place of its round. */
  lemma {:induction false} FullMeansAligned(xs: seq<Option<real>>)
    ensures |Present(xs)| == |xs| <==> forall i :: 0 <= i < |xs| ==> xs[i].Some?
    ensures |Present(xs)| == |xs| ==> forall i :: 0 <= i < |xs| ==> Some(Present(xs)[i]) == xs[i]
  {
    if xs != [] {
      var front := xs[..|xs| - 1];
      FullMeansAligned(front);
      if forall i :: 0 <= i < |xs| ==> xs[i].Some? {
        assert forall i :: 0 <= i < |front| ==> front[i].Some?;
      }
      if |Present(xs)| == |xs| {
        assert |Present(front)| == |front| && xs[|xs| - 1].Some?;
        forall i | 0 <= i < |xs| ensures Some(Present(xs)[i]) == xs[i] {
          if i < |front| { assert front[i] == xs[i] && Present(xs)[i] == Present(front)[i]; }
        }
      }
    }
  }

  /** The round that sample `k` of a list came from. */
  function RoundOf(xs: seq<Option<real>>, k: nat): (i: nat)
    requires k < |Present(xs)|
    ensures i < |xs| && xs[i] == Some(Present(xs)[k]) && k <= i
  {
    var n := |xs| - 1;
    if k < |Present(xs[..n])| then RoundOf(xs[..n], k) else n
  }

  /** No round without a sample comes before one with a sample. */
  ghost predicate NoGap(xs: seq<Option<real>>) { forall i, j :: 0 <= i < j < |xs| && xs[j].Some? ==> xs[i].Some? }

  ghost predicate Aligned(xs: seq<Option<real>>) { forall k :: 0 <= k < |Present(xs)| ==> RoundOf(xs, k) == k }

  /** Zipping a full list with the samples that are there pairs each sample with its own round
      just when there is no gap. */
  lemma {:induction false} AlignedIffNoGap(xs: seq<Option<real>>)
    ensures Aligned(xs) <==> NoGap(xs)
  {
    if xs != [] {
      var n := |xs| - 1;
      var front := xs[..n];
      var p := |Present(front)|;
      AlignedIffNoGap(front);
      FullMeansAligned(front);
      assert forall k :: 0 <= k < p ==> RoundOf(xs, k) == RoundOf(front, k);
      if NoGap(xs) {
        assert NoGap(front);
        if xs[n].Some? {
          assert forall i :: 0 <= i < n ==> front[i].Some?;
          assert p == n && RoundOf(xs, n) == n;
        }
      }
      if Aligned(xs) {
        forall k | 0 <= k < p ensures RoundOf(front, k) == k { assert RoundOf(xs, k) == k; }
        assert NoGap(front);
        if xs[n].Some? {
          assert RoundOf(xs, p) == n;
          assert forall i :: 0 <= i < n ==> front[i].Some? && front[i] == xs[i];
        } else {
          assert forall i :: 0 <= i < n ==> front[i] == xs[i];
        }
      }
    }
  }

  function Zip(a: seq<real>, b: seq<real>): (r: seq<(real, real)>)
    ensures |r| == (if |a| < |b| then |a| else |b|) && forall i :: 0 <= i < |r| ==> r[i] == (a[i], b[i])
  {
    var n := if |a| < |b| then |a| else |b|;
    seq(n, i requires 0 <= i < n => (a[i], b[i]))
  }

  /** A gap in a concrete case: the first round's throughput is paired with the second's CPU. */
  lemma GapMispairs(a: Round, b: Round)
    requires a.serverCpu.None? && b.serverCpu.Some?
    ensures Zip(Rps([a, b]), Present(Cpus([a, b]))) == [(a.rps, b.serverCpu.value)]
  {
    var xs := Cpus([a, b]);
    assert xs == [None, b.serverCpu];
    assert xs[..1] == [None] && xs[..1][..0] == [];
    assert Present(xs) == [b.serverCpu.value];
  }

  /** Requests per server CPU second, of the pairs with some CPU. */
  function Efficiencies(pairs: seq<(real, real)>): (r: seq<real>)
  {
    if pairs == [] then []
    else
      var (rps, cpu) := pairs[|pairs| - 1];
      Efficiencies(pairs[..|pairs| - 1]) + if cpu > 0.0 then [rps / (cpu / 100.0)] else []
  }

  /** The same, round by round. */
  function RoundEfficiencies(rs: seq<Round>): (r: seq<real>)
  {
    if rs == [] then []
    else
      var last := rs[|rs| - 1];
      RoundEfficiencies(rs[..|rs| - 1])
        + if last.serverCpu.Some? && last.serverCpu.value > 0.0 then [last.rps / (last.serverCpu.value / 100.0)] else []
  }

  lemma {:induction false} EfficienciesByRound(rs: seq<Round>, pairs: seq<(real, real)>)
    requires |pairs| == |rs| &&
             forall i :: 0 <= i < |rs| ==> rs[i].serverCpu == Some(pairs[i].1) && rs[i].rps == pairs[i].0
    ensures Efficiencies(pairs) == RoundEfficiencies(rs)
  {
    if rs != [] { EfficienciesByRound(rs[..|rs| - 1], pairs[..|pairs| - 1]); }
  }

  /** The final count check is enough: every efficiency sample is one round's throughput over
      that same round's CPU. */
  lemma EachSampleIsOneRound(path: string, duration: nat, rs: seq<Round>)
    requires |Pooled(path, duration, rs).serverCpu| == Pooled(path, duration, rs).rounds
    ensures forall i :: 0 <= i < |rs| ==> rs[i].serverCpu.Some?
    ensures var a := Pooled(path, duration, rs);
            Efficiencies(Zip(a.rps, a.serverCpu)) == RoundEfficiencies(rs)
  {
    FullMeansAligned(Cpus(rs));
    var a := Pooled(path, duration, rs);
    forall i | 0 <= i < |rs| ensures Some(a.serverCpu[i]) == rs[i].serverCpu { assert Cpus(rs)[i] == rs[i].serverCpu; }
    EfficienciesByRound(rs, Zip(a.rps, a.serverCpu));
  }

  /** The samples drawn from the two lists of a workload. */
  function PooledEfficiencies(rs: seq<Round>): (r: seq<real>) { Efficiencies(Zip(Rps(rs), Present(Cpus(rs)))) }

  /** Without a gap, too, each sample is of one round. */
  lemma {:induction false} NoGapMeansByRound(rs: seq<Round>)
    requires NoGap(Cpus(rs))
    ensures PooledEfficiencies(rs) == RoundEfficiencies(rs)
  {
    if rs != [] {
      var n := |rs| - 1;
      var xs, front := Cpus(rs), rs[..n];
      assert xs[..n] == Cpus(front);
      if xs[n].Some? {
        FullMeansAligned(xs);
        EachSampleIsOneRound("", 0, rs);
      } else {
        assert NoGap(Cpus(front));
        NoGapMeansByRound(front);
        assert Zip(Rps(rs), Present(xs)) == Zip(Rps(front), Present(Cpus(front)));
      }
    }
  }

  // ---------------------------------------------------------------- pooling one workload

  lemma {:induction false} PresentConcat(a: seq<Option<real>>, b: seq<Option<real>>)
    ensures Present(a + b) == Present(a) + Present(b)
    decreases |b|
  {
    if b == [] {
      assert a + b == a;
    } else {
      assert (a + b)[..|a + b| - 1] == a + b[..|b| - 1];
      PresentConcat(a, b[..|b| - 1]);
    }
  }

  lemma {:induction false} LatenciesConcat(a: seq<Round>, b: seq<Round>)
    ensures Latencies(a + b) == Latencies(a) + Latencies(b)
    decreases |b|
  {
    if b == [] {
      assert a + b == a;
    } else {
      assert (a + b)[..|a + b| - 1] == a + b[..|b| - 1];
      LatenciesConcat(a, b[..|b| - 1]);
    }
  }

  lemma KindPush(rs: seq<Round>, r: Round)
    ensures Kind(rs + [r]) == if Kind(rs).Some? then Kind(rs) else r.memoryKind
  {
    assert (rs + [r])[..|rs|] == rs;
  }

  lemma {:induction false} KindIsOne(rs: seq<Round>)
    ensures Kind(rs).None? <==> forall i :: 0 <= i < |rs| ==> rs[i].memoryKind.None?
    ensures Kind(rs).Some? ==> exists i :: 0 <= i < |rs| && rs[i].memoryKind == Kind(rs)
  {
    if rs != [] {
      var front := rs[..|rs| - 1];
      KindIsOne(front);
      assert forall i :: 0 <= i < |front| ==> front[i] == rs[i];
      if Kind(front).Some? {
        var i :| 0 <= i < |front| && front[i].memoryKind == Kind(front);
        assert rs[i].memoryKind == Kind(rs);
      }
    }
  }

  /** Appending a round's samples to the lists that have a place for them. */
  function Push(a: Accumulator, r: Round): (b: Accumulator)
  {
    a.(serverCpu := a.serverCpu + Present([r.serverCpu]), clientCpu := a.clientCpu + Present([r.clientCpu]),
       peakMemory := a.peakMemory + Present([r.peakMemory]),
       memoryKind := if a.memoryKind.Some? then a.memoryKind else r.memoryKind)
  }

  /** The lists filled round by round hold `done`; those filled at once already hold all of `rs`. */
  ghost predicate Filled(a: Accumulator, path: string, duration: nat, all: seq<Round>, done: seq<Round>)
  {
    a == Pooled(path, duration, all).(serverCpu := Present(Cpus(done)), clientCpu := Present(Clients(done)),
                                      peakMemory := Present(Peaks(done)), memoryKind := Kind(done))
  }

  lemma FilledPush(a: Accumulator, path: string, duration: nat, all: seq<Round>, done: seq<Round>, r: Round)
    requires Filled(a, path, duration, all, done)
    ensures Filled(Push(a, r), path, duration, all, done + [r])
  {
    hide Present, Pooled, Kind;
    PresentConcat(Cpus(done), [r.serverCpu]);
    PresentConcat(Clients(done), [r.clientCpu]);
    PresentConcat(Peaks(done), [r.peakMemory]);
    KindPush(done, r);
    assert Cpus(done + [r]) == Cpus(done) + [r.serverCpu];
    assert Clients(done + [r]) == Clients(done) + [r.clientCpu];
    assert Peaks(done + [r]) == Peaks(done) + [r.peakMemory];
  }

  lemma OneKindPush(rs: seq<Round>, r: Round)
    requires OneKind(rs)
    ensures OneKind(rs + [r]) <==> (r.memoryKind.Some? && Kind(rs).Some? ==> r.memoryKind == Kind(rs))
  {
    KindIsOne(rs);
    var all := rs + [r];
    assert all[|rs|] == r;
    if Kind(rs).Some? {
      var i :| 0 <= i < |rs| && rs[i].memoryKind == Kind(rs);
      assert all[i].memoryKind == Kind(rs);
      if r.memoryKind.Some? && r.memoryKind == Kind(rs) {
        forall j | 0 <= j < |rs| && rs[j].memoryKind.Some? ensures rs[j].memoryKind == Kind(rs) { }
      }
    }
  }

  lemma OneKindPrefix(a: seq<Round>, b: seq<Round>)
    requires OneKind(a + b)
    ensures OneKind(a)
  {
    assert forall i :: 0 <= i < |a| ==> (a + b)[i] == a[i];
  }

  /** The samples of a report agree with its rounds. */
  ghost predicate Agrees(w: Workload)
  {
    w.errors == 0 && Rps(w.rounds) == w.rpsSamples && Latencies(w.rounds) == w.latencySamples
  }

  lemma FilledKind(a: Accumulator, path: string, duration: nat, all: seq<Round>, done: seq<Round>)
    requires Filled(a, path, duration, all, done)
    ensures a.memoryKind == Kind(done)
  {
  }

  lemma FilledAll(a: Accumulator, path: string, duration: nat, all: seq<Round>)
    requires Filled(a, path, duration, all, all)
    ensures a == Pooled(path, duration, all)
  {
  }

  /** The samples that a round need not have, round by round. */
  method PushRounds(acc: Accumulator, w: Workload, ghost before: seq<Round>) returns (r: Option<Accumulator>)
    requires OneKind(before) && Filled(acc, w.path, w.duration, before + w.rounds, before)
    ensures r.Some? <==> OneKind(before + w.rounds)
    ensures r.Some? ==> r.value == Pooled(w.path, w.duration, before + w.rounds)
  {
    hide OneKind, Pooled, Filled;
    ghost var all := before + w.rounds;
    var a := acc;
    assert before + w.rounds[..0] == before;
    for n := 0 to |w.rounds|
      invariant Filled(a, w.path, w.duration, all, before + w.rounds[..n]) && OneKind(before + w.rounds[..n])
    {
      var round := w.rounds[n];
      ghost var done := before + w.rounds[..n];
      assert before + w.rounds[..n + 1] == done + [round];
      OneKindPush(done, round);
      FilledKind(a, w.path, w.duration, all, done);
      FilledPush(a, w.path, w.duration, all, done, round);
      if round.memoryKind.Some? && a.memoryKind.Some? && round.memoryKind != a.memoryKind {
        assert all == (done + [round]) + w.rounds[n + 1..];
        if OneKind(all) { OneKindPrefix(done + [round], w.rounds[n + 1..]); }
        return None;
      }
      a := Push(a, round);
    }
    assert w.rounds[..|w.rounds|] == w.rounds;
    FilledAll(a, w.path, w.duration, all);
    r := Some(a);
  }

  lemma FilledStart(acc: Accumulator, w: Workload, before: seq<Round>)
    requires acc == Pooled(w.path, w.duration, before)
    ensures Filled(acc.(rounds := acc.rounds + |w.rounds|, rps := acc.rps + Rps(w.rounds),
                        latency := acc.latency + Latencies(w.rounds)),
                   w.path, w.duration, before + w.rounds, before)
  {
    hide Present, Kind, Latencies;
    LatenciesConcat(before, w.rounds);
    assert Rps(before + w.rounds) == Rps(before) + Rps(w.rounds);
  }

  /** One workload into its accumulator, which holds the rounds `before`. */
  method AddRounds(acc: Accumulator, w: Workload, ghost before: seq<Round>) returns (r: Option<Accumulator>)
    requires w.errors == 0 && OneKind(before) && acc == Pooled(w.path, w.duration, before)
    ensures r.Some? <==> Agrees(w) && OneKind(before + w.rounds)
    ensures r.Some? ==> r.value == Pooled(w.path, w.duration, before + w.rounds)
  {
    hide OneKind, Pooled, Filled, Latencies, Rps;
    var roundRps, roundLatency := Rps(w.rounds), Latencies(w.rounds);
    if roundRps != w.rpsSamples || roundLatency != w.latencySamples { return None; }
    FilledStart(acc, w, before);
    var a := acc.(rounds := acc.rounds + |w.rounds|, rps := acc.rps + roundRps, latency := acc.latency + roundLatency);
    r := PushRounds(a, w, before);
  }

  // ---------------------------------------------------------------- pooling a runtime's workloads

  /** All rounds of the workloads with one key, in order. */
  function RoundsOf(ws: seq<Workload>, key: Key): (r: seq<Round>)
  {
    if ws == [] then []
    else RoundsOf(ws[..|ws| - 1], key) + if ws[|ws| - 1].key == key then ws[|ws| - 1].rounds else []
  }

  ghost predicate HasKey(ws: seq<Workload>, key: Key) { exists i :: 0 <= i < |ws| && ws[i].key == key }

  ghost predicate SameShape(a: Workload, b: Workload)
  {
    a.key == b.key ==> a.path == b.path && a.duration == b.duration
  }

  /** What the checks in the loops come to. */
  ghost predicate Acceptable(ws: seq<Workload>)
  {
    && (forall i :: 0 <= i < |ws| ==> Agrees(ws[i]))
    && (forall i, j :: 0 <= i < |ws| && 0 <= j < |ws| ==> SameShape(ws[i], ws[j]))
    && (forall key :: OneKind(RoundsOf(ws, key)))
  }

  ghost predicate HoldsFor(acc: map<Key, Accumulator>, ws: seq<Workload>, w: Workload)
  {
    w.key in acc && acc[w.key] == Pooled(w.path, w.duration, RoundsOf(ws, w.key))
  }

  /** Every key has an accumulator, with all its rounds. */
  ghost predicate Holds(acc: map<Key, Accumulator>, ws: seq<Workload>)
  {
    && (forall key :: key in acc <==> HasKey(ws, key))
    && (forall i :: 0 <= i < |ws| ==> HoldsFor(acc, ws, ws[i]))
  }

  lemma RoundsOfPush(ws: seq<Workload>, w: Workload, key: Key)
    ensures RoundsOf(ws + [w], key) == RoundsOf(ws, key) + if w.key == key then w.rounds else []
  {
    assert (ws + [w])[..|ws|] == ws;
  }

  lemma {:induction false} RoundsOfNone(ws: seq<Workload>, key: Key)
    requires !HasKey(ws, key)
    ensures RoundsOf(ws, key) == []
  {
    if ws != [] {
      assert ws[|ws| - 1].key != key;
      assert forall i :: 0 <= i < |ws| - 1 ==> ws[..|ws| - 1][i] == ws[i];
      RoundsOfNone(ws[..|ws| - 1], key);
    }
  }

  lemma {:induction false} RoundsOfPrefix(ws: seq<Workload>, n: nat, key: Key)
    requires n <= |ws|
    ensures RoundsOf(ws[..n], key) <= RoundsOf(ws, key)
  {
    if n == |ws| {
      assert ws[..n] == ws;
    } else {
      RoundsOfPrefix(ws[..|ws| - 1], n, key);
      assert ws[..|ws| - 1][..n] == ws[..n];
    }
  }

  lemma AcceptablePrefix(ws: seq<Workload>, n: nat)
    requires n <= |ws| && Acceptable(ws)
    ensures Acceptable(ws[..n])
  {
    hide Agrees, SameShape, OneKind;
    var front := ws[..n];
    assert forall i :: 0 <= i < n ==> front[i] == ws[i];
    forall key ensures OneKind(RoundsOf(front, key)) {
      RoundsOfPrefix(ws, n, key);
      var rest := RoundsOf(ws, key)[|RoundsOf(front, key)|..];
      assert RoundsOf(ws, key) == RoundsOf(front, key) + rest;
      OneKindPrefix(RoundsOf(front, key), rest);
    }
  }

  lemma AcceptablePush(ws: seq<Workload>, w: Workload)
    requires Acceptable(ws)
    ensures Acceptable(ws + [w]) <==>
            && Agrees(w) && (forall i :: 0 <= i < |ws| ==> SameShape(ws[i], w))
            && OneKind(RoundsOf(ws, w.key) + w.rounds)
  {
    hide Agrees, OneKind, RoundsOf;
    var all := ws + [w];
    assert all[|ws|] == w && forall i :: 0 <= i < |ws| ==> all[i] == ws[i];
    forall key ensures RoundsOf(all, key) == RoundsOf(ws, key) + if w.key == key then w.rounds else [] {
      RoundsOfPush(ws, w, key);
    }
    if Agrees(w) && (forall i :: 0 <= i < |ws| ==> SameShape(ws[i], w)) && OneKind(RoundsOf(ws, w.key) + w.rounds) {
      forall key ensures OneKind(RoundsOf(all, key)) {
        assert RoundsOf(ws, key) + [] == RoundsOf(ws, key);
      }
    }
  }

  lemma HoldsPush(acc: map<Key, Accumulator>, ws: seq<Workload>, w: Workload)
    requires Holds(acc, ws) && forall i :: 0 <= i < |ws| ==> SameShape(ws[i], w)
    ensures Holds(acc[w.key := Pooled(w.path, w.duration, RoundsOf(ws, w.key) + w.rounds)], ws + [w])
  {
    hide Pooled, RoundsOf;
    var all := ws + [w];
    var next := acc[w.key := Pooled(w.path, w.duration, RoundsOf(ws, w.key) + w.rounds)];
    assert all[|ws|] == w && forall i :: 0 <= i < |ws| ==> all[i] == ws[i];
    forall i | 0 <= i < |all| ensures HoldsFor(next, all, all[i]) {
      RoundsOfPush(ws, w, all[i].key);
      if i < |ws| {
        assert HoldsFor(acc, ws, ws[i]);
        assert RoundsOf(ws, ws[i].key) + [] == RoundsOf(ws, ws[i].key);
      }
    }
    forall key ensures key in next <==> HasKey(all, key) {
      if HasKey(ws, key) {
        var i :| 0 <= i < |ws| && ws[i].key == key;
        assert all[i].key == key;
      }
    }
  }

  /** The accumulator has the shape of the workloads seen, and their rounds. */
  lemma ShapeKnown(acc: map<Key, Accumulator>, ws: seq<Workload>, w: Workload)
    requires Acceptable(ws) && Holds(acc, ws)
    ensures var mine := if w.key in acc then acc[w.key]
                        else Accumulator(w.path, w.duration, 0, [], [], [], [], [], None);
            && ((forall i :: 0 <= i < |ws| ==> SameShape(ws[i], w))
                   <==> mine.path == w.path && mine.duration == w.duration)
            && (mine.path == w.path && mine.duration == w.duration ==>
                  mine == Pooled(w.path, w.duration, RoundsOf(ws, w.key)))
            && OneKind(RoundsOf(ws, w.key))
  {
    hide OneKind, Agrees;
    if w.key in acc {
      var i :| 0 <= i < |ws| && ws[i].key == w.key;
      assert HoldsFor(acc, ws, ws[i]);
      forall j | 0 <= j < |ws| && ws[j].key == w.key
        ensures ws[j].path == ws[i].path && ws[j].duration == ws[i].duration
      {
        assert SameShape(ws[j], ws[i]);
      }
      assert SameShape(ws[i], w) <==> ws[i].path == w.path && ws[i].duration == w.duration;
    } else {
      RoundsOfNone(ws, w.key);
      forall i | 0 <= i < |ws| ensures SameShape(ws[i], w) { assert HasKey(ws, ws[i].key); }
    }
  }

  /** One turn of the inner loop. */
  method AddWorkload(acc: map<Key, Accumulator>, w: Workload, ghost ws: seq<Workload>)
    returns (r: Option<map<Key, Accumulator>>)
    requires Acceptable(ws) && Holds(acc, ws)
    ensures r.Some? <==> Acceptable(ws + [w])
    ensures r.Some? ==> Holds(r.value, ws + [w])
  {
    AcceptablePush(ws, w);
    if w.errors != 0 { return None; }
    var mine := if w.key in acc then acc[w.key] else Accumulator(w.path, w.duration, 0, [], [], [], [], [], None);
    ShapeKnown(acc, ws, w);
    hide Acceptable, Holds, OneKind, RoundsOf, Pooled;
    if mine.path != w.path || mine.duration != w.duration { return None; }
    var added := AddRounds(mine, w, RoundsOf(ws, w.key));
    if added.None? { return None; }
    HoldsPush(acc, ws, w);
    r := Some(acc[w.key := added.value]);
  }

  // ---------------------------------------------------------------- aggregation

  function Flat(inputs: seq<seq<Workload>>): (r: seq<Workload>)
  {
    if inputs == [] then [] else Flat(inputs[..|inputs| - 1]) + inputs[|inputs| - 1]
  }

  function Keys(ws: seq<Workload>): (r: set<Key>) { set i | 0 <= i < |ws| :: ws[i].key }

  lemma FlatPush(inputs: seq<seq<Workload>>, n: nat)
    requires n < |inputs|
    ensures Flat(inputs[..n + 1]) == Flat(inputs[..n]) + inputs[n]
  {
    assert inputs[..n + 1][..n] == inputs[..n];
  }

  lemma {:induction false} FlatPrefix(inputs: seq<seq<Workload>>, n: nat)
    requires n <= |inputs|
    ensures Flat(inputs[..n]) <= Flat(inputs)
  {
    if n == |inputs| {
      assert inputs[..n] == inputs;
    } else {
      FlatPrefix(inputs[..|inputs| - 1], n);
      assert inputs[..|inputs| - 1][..n] == inputs[..n];
    }
  }

  /** What failed on a part fails on the whole. */
  lemma NotAcceptable(inputs: seq<seq<Workload>>, n: nat, k: nat)
    requires n < |inputs| && k <= |inputs[n]| && !Acceptable(Flat(inputs[..n]) + inputs[n][..k])
    ensures !Acceptable(Flat(inputs))
  {
    FlatPush(inputs, n);
    FlatPrefix(inputs, n + 1);
    hide Acceptable, Flat;
    var part, whole := Flat(inputs[..n]) + inputs[n][..k], Flat(inputs);
    assert part <= Flat(inputs[..n + 1]);
    assert whole[..|part|] == part;
    if Acceptable(whole) { AcceptablePrefix(whole, |part|); }
  }

  ghost predicate SameKeys(inputs: seq<seq<Workload>>)
  {
    forall n :: 0 <= n < |inputs| ==> Keys(inputs[n]) == Keys(inputs[0])
  }

  /** The workloads of one runtime in every input, pooled by key. */
  method PoolAll(inputs: seq<seq<Workload>>) returns (r: Option<map<Key, Accumulator>>)
    requires inputs != []
    ensures r.Some? <==> SameKeys(inputs) && Acceptable(Flat(inputs))
    ensures r.Some? ==> Holds(r.value, Flat(inputs))
  {
    var acc: map<Key, Accumulator> := map[];
    for n := 0 to |inputs|
      invariant Acceptable(Flat(inputs[..n])) && Holds(acc, Flat(inputs[..n]))
      invariant forall m :: 0 <= m < n ==> Keys(inputs[m]) == Keys(inputs[0])
    {
      hide Acceptable, Holds;
      if Keys(inputs[n]) != Keys(inputs[0]) { return None; }
      ghost var before := Flat(inputs[..n]);
      assert before + inputs[n][..0] == before;
      for k := 0 to |inputs[n]|
        invariant Acceptable(before + inputs[n][..k]) && Holds(acc, before + inputs[n][..k])
      {
        var w := inputs[n][k];
        var added := AddWorkload(acc, w, before + inputs[n][..k]);
        assert before + inputs[n][..k] + [w] == before + inputs[n][..k + 1];
        if added.None? {
          NotAcceptable(inputs, n, k + 1);
          return None;
        }
        acc := added.value;
      }
      assert inputs[n][..|inputs[n]|] == inputs[n];
      FlatPush(inputs, n);
    }
    assert inputs[..|inputs|] == inputs;
    r := Some(acc);
  }

  /** The count check made on Linux evidence. */
  predicate Complete(a: Accumulator)
  {
    |a.serverCpu| == a.rounds && |a.clientCpu| == a.rounds && |a.peakMemory| == a.rounds && a.memoryKind.Some?
  }

  method CheckComplete(acc: map<Key, Accumulator>) returns (ok: bool)
    ensures ok <==> forall key :: key in acc ==> Complete(acc[key])
  {
    var rest := acc.Keys;
    while rest != {}
      invariant rest <= acc.Keys && forall key :: key in acc && key !in rest ==> Complete(acc[key])
      decreases |rest|
    {
      var key :| key in rest;
      if !Complete(acc[key]) { return false; }
      rest := rest - {key};
    }
    ok := true;
  }

  /** Every round was measured in full. */
  ghost predicate Measured(rs: seq<Round>)
  {
    && (forall i :: 0 <= i < |rs| ==> rs[i].serverCpu.Some? && rs[i].clientCpu.Some? && rs[i].peakMemory.Some?)
    && exists i :: 0 <= i < |rs| && rs[i].memoryKind.Some?
  }

  lemma CompleteMeansMeasured(path: string, duration: nat, rs: seq<Round>)
    ensures Complete(Pooled(path, duration, rs)) <==> Measured(rs)
  {
    FullMeansAligned(Cpus(rs));
    FullMeansAligned(Clients(rs));
    FullMeansAligned(Peaks(rs));
    KindIsOne(rs);
    if Complete(Pooled(path, duration, rs)) {
      forall i | 0 <= i < |rs| ensures rs[i].serverCpu.Some? && rs[i].clientCpu.Some? && rs[i].peakMemory.Some? {
        assert Cpus(rs)[i].Some? && Clients(rs)[i].Some? && Peaks(rs)[i].Some?;
      }
    }
  }

  lemma MeasuredHasNoGap(rs: seq<Round>)
    requires Measured(rs)
    ensures NoGap(Cpus(rs))
  {
  }

  ghost predicate AllMeasured(ws: seq<Workload>) { forall key :: HasKey(ws, key) ==> Measured(RoundsOf(ws, key)) }

  ghost predicate Summary(acc: map<Key, Accumulator>, ws: seq<Workload>, key: Key)
    requires key in acc
  {
    && (Complete(acc[key]) <==> Measured(RoundsOf(ws, key)))
    && Efficiencies(Zip(acc[key].rps, acc[key].serverCpu)) == PooledEfficiencies(RoundsOf(ws, key))
  }

  lemma Summarised(acc: map<Key, Accumulator>, ws: seq<Workload>, key: Key)
    requires Holds(acc, ws) && key in acc
    ensures Summary(acc, ws, key)
  {
    hide Measured, RoundsOf, Efficiencies;
    var i :| 0 <= i < |ws| && ws[i].key == key;
    assert HoldsFor(acc, ws, ws[i]);
    CompleteMeansMeasured(ws[i].path, ws[i].duration, RoundsOf(ws, key));
  }

  /** The CPU efficiency samples of every workload. Each sample is one round's throughput over
      that round's CPU where no round without a CPU sample comes before one with; on Linux
      evidence it succeeds only when every round was measured, so there it always is. */
  method Aggregate(inputs: seq<seq<Workload>>, linux: bool) returns (r: Option<map<Key, seq<real>>>)
    requires inputs != []
    ensures r.Some? <==> SameKeys(inputs) && Acceptable(Flat(inputs)) && (linux ==> AllMeasured(Flat(inputs)))
    ensures r.Some? ==> forall key :: key in r.value <==> HasKey(Flat(inputs), key)
    ensures r.Some? ==> forall key :: key in r.value ==>
              r.value[key] == PooledEfficiencies(RoundsOf(Flat(inputs), key))
    ensures r.Some? ==> forall key :: key in r.value && (linux || NoGap(Cpus(RoundsOf(Flat(inputs), key)))) ==>
              r.value[key] == RoundEfficiencies(RoundsOf(Flat(inputs), key))
  {
    hide Acceptable, Measured, Complete, Pooled, Efficiencies, RoundEfficiencies, RoundsOf, Flat, SameKeys;
    hide PooledEfficiencies, NoGap;
    var pooled := PoolAll(inputs);
    if pooled.None? { return None; }
    var acc := pooled.value;
    ghost var ws := Flat(inputs);
    forall key | key in acc ensures Summary(acc, ws, key) { Summarised(acc, ws, key); }
    if linux {
      var complete := CheckComplete(acc);
      if !complete {
        var key :| key in acc && !Complete(acc[key]);
        assert Summary(acc, ws, key);
        return None;
      }
    }
    r := Some(map key | key in acc :: Efficiencies(Zip(acc[key].rps, acc[key].serverCpu)));
    forall key | key in acc ensures r.value[key] == PooledEfficiencies(RoundsOf(ws, key)) {
      assert Summary(acc, ws, key);
    }
    forall key | key in acc && (linux || NoGap(Cpus(RoundsOf(ws, key))))
      ensures r.value[key] == RoundEfficiencies(RoundsOf(ws, key))
    {
      assert Summary(acc, ws, key);
      if linux { MeasuredHasNoGap(RoundsOf(ws, key)); }
      NoGapMeansByRound(RoundsOf(ws, key));
    }
  }
}
