/**
 Workflows that catch exceptions and go on: one that handles every exception alike is replayed
 past the boundaries that threw, one that repeats a boundary and later acts on the exception is
 not.
 */
module DurableCatching {
  import opened OptionWrapper
  import opened DurableMachine
  import opened DurableFaithful
  import opened DurableReplay
  import opened DurableMismatch
  import opened DurableExact

  // ---------------------------------------------------------------- handling exceptions alike

  predicate AlikeResponse(a: Response, b: Response)
  {
    (a.Threw? && b.Threw?) || (a.Got? && b.Got? && a.v.json == b.v.json)
  }

  predicate AlikeHeard(h: seq<Response>, g: seq<Response>)
  {
    |h| == |g| && forall i :: 0 <= i < |h| ==> AlikeResponse(h[i], g[i])
  }

  /** The workflow starts no retries, and looks neither at what was thrown nor at what JSON loses
      of a value. */
  ghost predicate Blind(flow: Flow)
  {
    (forall h :: !flow(h).Retry?) && forall h, g :: AlikeHeard(h, g) ==> flow(h) == flow(g)
  }

  /** What a run that has heard `h` has recorded. */
  function Events(flow: Flow, h: seq<Response>): (log: seq<Event>)
  {
    if h == [] then []
    else
      var front, last := h[..|h| - 1], h[|h| - 1];
      Events(flow, front) +
      if last.Got? && flow(front).Call? then [Event(Called(flow(front).c), Data(last.v.json))] else []
  }

  /** Every response so far was that of a boundary, and none came late. */
  ghost predicate CallsOnly(flow: Flow, h: seq<Response>)
  {
    forall i :: 0 <= i < |h| ==> flow(h[..i]).Call? && (h[i].Got? || h[i].Threw?)
  }

  lemma EventsPush(flow: Flow, h: seq<Response>, r: Response)
    ensures Events(flow, h + [r]) ==
            Events(flow, h) + if r.Got? && flow(h).Call? then [Event(Called(flow(h).c), Data(r.v.json))] else []
  {
    assert (h + [r])[..|h|] == h;
  }

  lemma CallsPush(flow: Flow, h: seq<Response>, r: Response)
    requires CallsOnly(flow, h) && flow(h).Call? && (r.Got? || r.Threw?)
    ensures CallsOnly(flow, h + [r])
  {
    forall i | 0 <= i < |h + [r]| ensures flow((h + [r])[..i]).Call? { assert (h + [r])[..i] == h[..i] || i == |h|; }
    assert (h + [r])[..|h|] == h;
  }

  /** A first run: what it has recorded follows from what it has heard. */
  ghost predicate FirstRun(flow: Flow, m: Machine)
  {
    m.history == [] && m.frames == [] && CallsOnly(flow, m.hist) && m.appended == Events(flow, m.hist)
  }

  lemma FirstStep(flow: Flow, m: Machine, live: Live)
    requires FirstRun(flow, m) && !flow(m.hist).Retry? && !live.FailLate?
    ensures FirstRun(flow, StepOnce(flow, m, live))
  {
    hide CallsOnly, Events;
    if m.status.Active? && flow(m.hist).Call? {
      var r := if live.Ok? then Got(live.v) else Threw(Error(live.e));
      CallsPush(flow, m.hist, r);
      EventsPush(flow, m.hist, r);
      assert Events(flow, m.hist) + [] == Events(flow, m.hist);
    }
  }

  lemma {:induction false} FirstRunRecords(flow: Flow, m: Machine, lives: seq<Live>)
    requires (forall h :: !flow(h).Retry?) && (forall i :: 0 <= i < |lives| ==> !lives[i].FailLate?)
    requires FirstRun(flow, m)
    ensures FirstRun(flow, Run(flow, m, lives))
    decreases |lives|
  {
    if lives != [] {
      FirstStep(flow, m, lives[0]);
      hide StepOnce, FirstRun;
      FirstRunRecords(flow, StepOnce(flow, m, lives[0]), lives[1..]);
    }
  }

  // ---------------------------------------------------------------- the re-run

  /** The boundary that threw is not the next one recorded. */
  ghost predicate GoesOn(flow: Flow, h: seq<Response>, i: nat, j: nat)
    requires i < |h| && j < |h|
  {
    i < j && h[i].Threw? && h[j].Got? && (forall k :: i < k < j ==> h[k].Threw?) ==> flow(h[..i]) != flow(h[..j])
  }

  ghost predicate AlwaysGoesOn(flow: Flow, h: seq<Response>)
  {
    forall i, j :: 0 <= i < |h| && 0 <= j < |h| ==> GoesOn(flow, h, i, j)
  }

  /** The re-run has heard like what the first run had heard at `i`. */
  ghost predicate Follows(flow: Flow, h: seq<Response>, i: nat, n: Machine)
    requires i <= |h|
  {
    && n.history == Events(flow, h) && n.position == |Events(flow, h[..i])| && n.appended == []
    && n.frames == [] && n.status.Active? && AlikeHeard(n.hist, h[..i])
  }

  lemma {:induction false} EventsPrefix(flow: Flow, h: seq<Response>, i: nat)
    requires i <= |h|
    ensures Events(flow, h[..i]) <= Events(flow, h)
  {
    if i == |h| {
      assert h[..i] == h;
    } else {
      EventsPrefix(flow, h[..|h| - 1], i);
      assert h[..|h| - 1][..i] == h[..i];
    }
  }

  lemma {:induction false} NothingRecorded(flow: Flow, h: seq<Response>, i: nat, j: nat)
    requires i <= j <= |h| && forall k :: i <= k < j ==> h[k].Threw?
    ensures Events(flow, h[..j]) == Events(flow, h[..i])
    decreases j
  {
    if i < j {
      assert h[..j][..j - 1] == h[..j - 1];
      NothingRecorded(flow, h, i, j - 1);
    }
  }

  /** The next event of the log, seen from `i`. */
  lemma NextRecorded(flow: Flow, h: seq<Response>, i: nat, j: nat)
    requires CallsOnly(flow, h) && i <= j < |h| && h[j].Got? && forall k :: i <= k < j ==> h[k].Threw?
    ensures |Events(flow, h[..i])| < |Events(flow, h)|
    ensures Events(flow, h)[|Events(flow, h[..i])|] == Event(Called(flow(h[..j]).c), Data(h[j].v.json))
  {
    NothingRecorded(flow, h, i, j);
    EventsPrefix(flow, h, j + 1);
    assert h[..j + 1] == h[..j] + [h[j]];
    EventsPush(flow, h[..j], h[j]);
  }

  lemma AlikePush(h: seq<Response>, g: seq<Response>, a: Response, b: Response)
    requires AlikeHeard(h, g) && AlikeResponse(a, b)
    ensures AlikeHeard(h + [a], g + [b])
  {
  }

  lemma FollowsOn(flow: Flow, h: seq<Response>, i: nat, j: nat, n: Machine, live: Live)
    requires Blind(flow) && CallsOnly(flow, h) && AlwaysGoesOn(flow, h)
    requires i <= j < |h| && h[j].Got? && (forall k :: i <= k < j ==> h[k].Threw?) && Follows(flow, h, i, n)
    ensures Follows(flow, h, i + 1, StepOnce(flow, n, live))
  {
    NextRecorded(flow, h, i, j);
    var t, e := StepOnce(flow, n, live), n.history[n.position];
    assert h[..i + 1] == h[..i] + [h[i]] && flow(n.hist) == flow(h[..i]);
    EventsPush(flow, h[..i], h[i]);
    hide Events, AlikeHeard;
    if i == j {
      AlikePush(n.hist, h[..i], Got(ValueOf(e.payload)), h[i]);
    } else {
      assert GoesOn(flow, h, i, j);
      assert Events(flow, h[..i]) + [] == Events(flow, h[..i]);
      AlikePush(n.hist, h[..i], Threw(ReplayMismatch(n.position, e.key, Called(flow(n.hist).c))), h[i]);
    }
  }

  /** The first place from `i` on where something was recorded. */
  lemma FirstGot(flow: Flow, h: seq<Response>, i: nat, last: nat) returns (j: nat)
    requires CallsOnly(flow, h) && i <= last < |h| && h[last].Got?
    ensures i <= j <= last && h[j].Got? && forall k :: i <= k < j ==> h[k].Threw?
  {
    j := i;
    while !h[j].Got?
      invariant i <= j <= last && forall k :: i <= k < j ==> h[k].Threw?
      decreases last - j
    {
      j := j + 1;
    }
  }

  lemma {:induction false} FollowsToTheEnd(flow: Flow, h: seq<Response>, i: nat, last: nat, n: Machine,
                                           lives: seq<Live>)
    requires Blind(flow) && CallsOnly(flow, h) && AlwaysGoesOn(flow, h)
    requires i <= last + 1 <= |h| && h[last].Got? && Follows(flow, h, i, n) && |lives| == last + 1 - i
    ensures Follows(flow, h, last + 1, Run(flow, n, lives))
    decreases |lives|
  {
    if lives != [] {
      var j := FirstGot(flow, h, i, last);
      FollowsOn(flow, h, i, j, n, lives[0]);
      hide Blind, CallsOnly, AlwaysGoesOn, Follows, StepOnce;
      FollowsToTheEnd(flow, h, i + 1, last, StepOnce(flow, n, lives[0]), lives[1..]);
    }
  }

  /** A workflow that handles every exception alike and then goes on to another boundary: each
      re-run over the log it left meets a mismatch where it had met an exception, handles it as
      it had handled that, and gets to the end of the log. `last` is the last response that was
      recorded. */
  lemma CatchAndGoOn(flow: Flow, worlds: seq<Live>, last: nat, lives: seq<Live>)
    requires Blind(flow) && (forall i :: 0 <= i < |worlds| ==> !worlds[i].FailLate?) && |lives| == last + 1
    requires var h := Run(flow, Boot([]), worlds).hist;
             last < |h| && h[last].Got? && (forall k :: last < k < |h| ==> h[k].Threw?) && AlwaysGoesOn(flow, h)
    ensures var m := Run(flow, Boot([]), worlds);
            var n := Run(flow, Boot(Log(m)), lives);
            && n.position == |Log(m)| && n.appended == [] && n.status.Active?
            && AlikeHeard(n.hist, m.hist[..last + 1]) && flow(n.hist) == flow(m.hist[..last + 1])
  {
    var m := Run(flow, Boot([]), worlds);
    var h := m.hist;
    FirstRunRecords(flow, Boot([]), worlds);
    NothingRecorded(flow, h, last + 1, |h|);
    assert [] + m.appended == m.appended && h[..0] == [] && h[..|h|] == h;
    assert Follows(flow, h, 0, Boot(Log(m)));
    hide Run, CallsOnly, AlwaysGoesOn;
    FollowsToTheEnd(flow, h, 0, last, Boot(Log(m)), lives);
  }

  // ---------------------------------------------------------------- two workflows

  const A := Named(Step, "a")
  const B := Named(Step, "b")
  const CLEANUP := Named(Step, "cleanup")

  /** Tries a step and cleans up if it throws. */
  function TriesAndCleans(h: seq<Response>): (a: Action)
  {
    if h == [] then Call(A) else if |h| == 1 && h[0].Threw? then Call(CLEANUP) else End(Done(Parsed("ok")))
  }

  lemma CleanupRecords(m: Machine, v: Value)
    requires m.status.Active? && m.history == [] && m.appended == [] && m.frames == []
    requires |m.hist| == 1 && m.hist[0].Threw?
    ensures Log(StepOnce(TriesAndCleans, m, Ok(v))) == [Event(Called(CLEANUP), Data(v.json))]
  {
  }

  lemma CleanupRuns(x: string, v: Value)
    ensures Log(Run(TriesAndCleans, Boot([]), [Fail(x), Ok(v)])) == [Event(Called(CLEANUP), Data(v.json))]
  {
    var m := Boot([]).(hist := [Threw(Error(x))]);
    assert [] + [Threw(Error(x))] == [Threw(Error(x))];
    assert StepOnce(TriesAndCleans, Boot([]), Fail(x)) == m;
    assert [Fail(x), Ok(v)][1..] == [Ok(v)] && [Ok(v)][1..] == [];
    hide StepOnce;
    var t := StepOnce(TriesAndCleans, m, Ok(v));
    assert Run(TriesAndCleans, m, [Ok(v)]) == Run(TriesAndCleans, t, []) == t;
    assert Log(t) == [Event(Called(CLEANUP), Data(v.json))] by { CleanupRecords(m, v); }
  }

  lemma CleanupSteps(log: seq<Event>, v: Value, a: Live, b: Live, c: Live)
    requires log == [Event(Called(CLEANUP), Data(v.json))]
    ensures var n := StepOnce(TriesAndCleans, StepOnce(TriesAndCleans, StepOnce(TriesAndCleans, Boot(log), a), b), c);
            n.status == Finished(Done(Parsed("ok"))) && n.appended == [] && n.mismatched
  {
    var mm, got := Threw(ReplayMismatch(0, Called(CLEANUP), Called(A))), Got(Parsed(v.json));
    var one := Boot(log).(mismatched := true, hist := [mm]);
    assert [] + [mm] == [mm] && [mm] + [got] == [mm, got];
    assert StepOnce(TriesAndCleans, Boot(log), a) == one;
    assert StepOnce(TriesAndCleans, one, b) == one.(hist := [mm, got], position := 1);
  }

  lemma ThreeSteps(flow: Flow, m: Machine, lives: seq<Live>)
    requires |lives| >= 3
    ensures Run(flow, m, lives) ==
            Run(flow, StepOnce(flow, StepOnce(flow, StepOnce(flow, m, lives[0]), lives[1]), lives[2]), lives[3..])
  {
    hide StepOnce;
    var a := StepOnce(flow, m, lives[0]);
    var b := StepOnce(flow, a, lives[1]);
    assert lives[1..][0] == lives[1] && lives[1..][1..] == lives[2..];
    assert lives[2..][0] == lives[2] && lives[2..][1..] == lives[3..];
    assert Run(flow, m, lives) == Run(flow, a, lives[1..]) == Run(flow, b, lives[2..]);
  }

  /** The log holds the cleanup only. The re-run asks for the step, is handed the mismatch, asks
      for the cleanup as before and completes. */
  lemma CleanupReplays(x: string, v: Value, lives: seq<Live>)
    requires |lives| >= 3
    ensures var log := Log(Run(TriesAndCleans, Boot([]), [Fail(x), Ok(v)]));
            var n := Run(TriesAndCleans, Boot(log), lives);
            && log == [Event(Called(CLEANUP), Data(v.json))]
            && n.status == Finished(Done(Parsed("ok"))) && n.appended == [] && n.mismatched
  {
    CleanupRuns(x, v);
    var log := [Event(Called(CLEANUP), Data(v.json))];
    CleanupSteps(log, v, lives[0], lives[1], lives[2]);
    hide StepOnce;
    ThreeSteps(TriesAndCleans, Boot(log), lives);
    var b := Boot(log);
    RunStopped(TriesAndCleans, StepOnce(TriesAndCleans, StepOnce(TriesAndCleans,
      StepOnce(TriesAndCleans, b, lives[0]), lives[1]), lives[2]), lives[3..]);
  }

  /** Tries a step again if it throws, but remembers that it did. */
  function Remembers(h: seq<Response>): (a: Action)
  {
    if h == [] || (|h| == 1 && h[0].Threw?) then Call(A)
    else if |h| == 1 then Call(B)
    else if |h| == 2 && h[0].Threw? then Call(CLEANUP)
    else End(Done(Parsed("")))
  }

  function AfterThrow(x: string): Machine { Boot([]).(hist := [Threw(Error(x))]) }

  function AfterRepeat(x: string, v: Value): Machine
  {
    Boot([]).(hist := [Threw(Error(x)), Got(v)], appended := [Event(Called(A), Data(v.json))])
  }

  lemma RemembersRuns(x: string, v: Value)
    ensures StepOnce(Remembers, Boot([]), Fail(x)) == AfterThrow(x)
    ensures StepOnce(Remembers, AfterThrow(x), Ok(v)) == AfterRepeat(x, v)
  {
    var t := Threw(Error(x));
    assert [] + [t] == [t] && [t] + [Got(v)] == [t, Got(v)];
  }

  lemma RememberedHistories(x: string, v: Value)
    ensures Strip([]) == [] && Strip([Threw(Error(x))]) == []
    ensures Strip([Threw(Error(x)), Got(v)]) == [Got(Parsed(v.json))]
  {
    var t := Threw(Error(x));
    assert [] + [t] == [t] && [t] + [Got(v)] == [t, Got(v)];
    StripPush([], t);
    StripPush([t], Got(v));
  }

  lemma RemembersFaithfully(x: string, v: Value)
    ensures Faithful(Remembers, AfterRepeat(x, v))
  {
    RememberedHistories(x, v);
    RemembersRuns(x, v);
    EmptyMeaning(Remembers);
    BootFaithful(Remembers, []);
    hide Faithful, Meaning, Strip, StepOnce;
    StepKeepsFaithful(Remembers, Boot([]), Fail(x));
    StepKeepsFaithful(Remembers, AfterThrow(x), Ok(v));
  }

  /** Without the exception it asks for another step, and handed a mismatch it ends. */
  lemma NeverAsksForCleanup(v: Value, p: nat, k: nat)
    ensures !Meets(Remembers, Stall(0, [Got(v)], []), p, Called(CLEANUP), k)
  {
    var s, x := Stall(0, [Got(v)], []), ReplayMismatch(p, Called(CLEANUP), Called(B));
    assert Asked(Remembers, s) == Some(Called(B));
    assert [Got(v)] + [Threw(x)] == [Got(v), Threw(x)];
    assert Asked(Remembers, Bounce(Remembers, s, x)) == None;
  }

  /** It asks for the same boundary again after the exception, and no re-run gets through what
      follows all the same. */
  lemma RepeatingIsNotEnough(x: string, v: Value, w: Value)
    ensures var log := Log(Run(Remembers, Boot([]), [Fail(x), Ok(v), Ok(w)]));
            && Remembers([]) == Remembers([Threw(Error(x))]) == Call(A)
            && log == [Event(Called(A), Data(v.json)), Event(Called(CLEANUP), Data(w.json))]
            && !Replays(Remembers, log)
  {
    var m, e := AfterRepeat(x, v), Event(Called(CLEANUP), Data(w.json));
    RememberedHistories(x, v);
    RemembersRuns(x, v);
    RemembersFaithfully(x, v);
    hide Faithful, Meaning, Strip, StepOnce, Meets, Replays;
    ThreeSteps(Remembers, Boot([]), [Fail(x), Ok(v), Ok(w)]);
    CaughtThrow(Remembers, m, CLEANUP, w, seq(8, _ => Fail("")));
    forall k: nat ensures !Meets(Remembers, OnTop(m), 1, e.key, k) { NeverAsksForCleanup(Parsed(v.json), 1, k); }
    assert Log(m) + [e] == [Event(Called(A), Data(v.json)), e];
  }
}
