/**
 Exactly when a re-run goes amiss and when it gets through all the same: for any workflow, any
 log that can be read and any event behind it. What becomes of a workflow that has caught an
 exception the log knows nothing of follows from that.
 */
module DurableExact {
  import opened OptionWrapper
  import opened DurableMachine
  import opened DurableFaithful
  import opened DurableReplay
  import opened DurableMismatch

  // ---------------------------------------------------------------- the programs at the end of a log

  function AsStall(a: Rest): (s: Stall) { Stall(a.next, a.hist, a.frames) }

  lemma SettlingAlike(flow: Flow, a: Rest)
    requires |a.frames| <= 1
    ensures Alike(flow, AsStall(a), AsStall(Settling(flow, a)))
  {
    hide DelayMs;
    var b := Settling(flow, a);
    if a.frames != [] { assert a.frames[..0] == []; }
    if b.frames != [] { assert b.frames[..0] == []; }
  }

  lemma FindingAlike(flow: Flow, a: Rest, f: Frame)
    requires a.frames == [f] && (f.phase.Running? ==> Strip(f.phase.h) == f.phase.h) && !f.phase.Recording?
    ensures Alike(flow, AsStall(a), AsStall(a.(frames := [f.(phase := RestPhase(f.phase))])))
  {
    hide DelayMs;
    var g := f.(phase := RestPhase(f.phase));
    if f.phase.Finding? {
      assert [f][..0] == [] && [g][..0] == [];
    } else {
      assert g == f;
    }
  }

  lemma ReplayingShape(flow: Flow, n: Machine)
    requires Replaying(flow, n)
    ensures |n.frames| <= 1 && Strip(n.hist) == n.hist && n.status.Active? && !n.mismatched
    ensures n.frames != [] ==>
              var f := n.frames[0];
              n.frames == [f] && !f.phase.Recording? && (f.phase.Running? ==> Strip(f.phase.h) == f.phase.h)
  {
    if n.frames != [] { assert n.frames[0] in n.frames; }
  }

  /** A re-run asks for what the log it has read determines. */
  lemma RestAlike(flow: Flow, n: Machine)
    requires Replaying(flow, n)
    ensures Alike(flow, Here(n), AsStall(Abstract(flow, n)))
  {
    ReplayingShape(flow, n);
    hide Replaying, Strip, Asked, Bounce, Settling, RestPhase;
    var a := Rest(n.nextRetry, n.hist, n.frames);
    if n.frames == [] {
      SettlingAlike(flow, a);
    } else {
      var f := n.frames[0];
      FindingAlike(flow, a, f);
      SettlingAlike(flow, a.(frames := [f.(phase := RestPhase(f.phase))]));
    }
  }

  function With(n: Machine, e: Event): (r: Machine) { n.(history := n.history + [e]) }

  lemma QuietWith(flow: Flow, n: Machine, e: Event)
    requires Replaying(flow, n) && AtEnd(n) && Later(flow, n.history, [e])
    ensures Before(With(n, e))
  {
    forall f | f in n.frames && f.phase.Finding?
      ensures FindFrom(n.history + [e], n.position, OutcomeKey(f)) == None
    {
      assert n.frames == [f];
      FindingHasBegun(flow, n, f);
      hide Meaning, Begun;
      assert [e][0] == e;
      FindUnseen(n.history, [e], n.position, OutcomeKey(f));
    }
  }

  lemma AtEndMeans(flow: Flow, n: Machine)
    requires Replaying(flow, n) && AtEnd(n)
    ensures Meaning(flow, n.history) == Some(Abstract(flow, n))
  {
    assert n.history[..|n.history|] == n.history;
    assert Consumed(n) == n.history;
  }

  // ---------------------------------------------------------------- amiss, and getting through

  /** After `j` steps the re-run has read the log and stands before the event, its programs like `s`. */
  ghost predicate Arrived(flow: Flow, log: seq<Event>, e: Event, s: Stall, lives: seq<Live>, j: nat, q: Machine)
  {
    && j <= |lives| && Run(flow, Boot(log + [e]), lives) == Run(flow, q, lives[j..])
    && Before(q) && q.history == log + [e] && q.position == |log| && !q.mismatched && Alike(flow, Here(q), s)
  }

  ghost predicate ArrivesBy(flow: Flow, log: seq<Event>, e: Event, s: Stall, bound: nat, lives: seq<Live>)
  {
    |lives| >= bound ==> exists j: nat, q :: Arrived(flow, log, e, s, lives, j, q) && j <= bound
  }

  /** Every re-run does so within `bound` steps. */
  ghost predicate Arrives(flow: Flow, log: seq<Event>, e: Event, s: Stall, bound: nat)
  {
    forall lives :: ArrivesBy(flow, log, e, s, bound, lives)
  }

  /** A re-run over the log gets to its end. */
  ghost predicate Reads(flow: Flow, log: seq<Event>, lives: seq<Live>)
  {
    Run(flow, Boot(log), lives).position >= |log|
  }

  ghost predicate Replays(flow: Flow, log: seq<Event>) { exists lives :: Reads(flow, log, lives) }

  /** Every re-run long enough goes amiss if and only if something else is asked for. */
  lemma ArrivedAmiss(flow: Flow, log: seq<Event>, e: Event, s: Stall, bound: nat, lives: seq<Live>)
    requires Arrives(flow, log, e, s, bound) && |lives| >= bound + 3
    ensures Amiss(Run(flow, Boot(log + [e]), lives)) <==> Asked(flow, s) != Some(e.key)
  {
    hide Asked, Bounce, Quiet, Amiss, Run;
    assert ArrivesBy(flow, log, e, s, bound, lives);
    var j: nat, q :| Arrived(flow, log, e, s, lives, j, q) && j <= bound;
    assert (log + [e])[|log|] == e;
    AmissIffNotAsked(flow, q, lives[j..]);
  }

  /** Every re-run long enough gets through if the programs come to ask for the event. */
  lemma ArrivedReads(flow: Flow, log: seq<Event>, e: Event, s: Stall, bound: nat, k: nat, lives: seq<Live>)
    requires Arrives(flow, log, e, s, bound) && Meets(flow, s, |log|, e.key, k) && |lives| >= bound + 3 * k + 3
    ensures Reads(flow, log + [e], lives)
  {
    hide Meets, Quiet, Run;
    assert ArrivesBy(flow, log, e, s, bound, lives);
    var j: nat, q :| Arrived(flow, log, e, s, lives, j, q) && j <= bound;
    assert (log + [e])[|log|] == e;
    MeetsAlike(flow, Here(q), s, |log|, e.key, k);
    MeetsGetsPast(flow, q, k, lives[j..]);
  }

  /** And none does if they do not. */
  lemma ArrivedMeets(flow: Flow, log: seq<Event>, e: Event, s: Stall, bound: nat, lives: seq<Live>)
    requires Arrives(flow, log, e, s, bound) && Reads(flow, log + [e], lives)
    ensures ComesToAsk(flow, s, |log|, e.key)
  {
    hide Meets, Quiet;
    var more := lives + seq(bound, _ => Fail(""));
    RunSplit(flow, Boot(log + [e]), more, |lives|);
    assert more[..|lives|] == lives;
    RunForward(flow, Run(flow, Boot(log + [e]), lives), more[|lives|..]);
    hide Run;
    assert ArrivesBy(flow, log, e, s, bound, more);
    var j: nat, q :| Arrived(flow, log, e, s, more, j, q) && j <= bound;
    assert (log + [e])[|log|] == e;
    var k := GetsPastMeets(flow, q, more[j..]);
    MeetsAlike(flow, Here(q), s, |log|, e.key, k);
  }

  /** What becomes of a re-run over `log` with `e` behind it, the programs being at `s`. */
  ghost predicate Decides(flow: Flow, log: seq<Event>, e: Event, s: Stall, lives: seq<Live>)
  {
    && (Amiss(Run(flow, Boot(log + [e]), lives)) <==> Asked(flow, s) != Some(e.key))
    && (Replays(flow, log + [e]) <==> ComesToAsk(flow, s, |log|, e.key))
  }

  lemma ArrivedDecides(flow: Flow, log: seq<Event>, e: Event, s: Stall, bound: nat, lives: seq<Live>)
    requires Arrives(flow, log, e, s, bound) && |lives| >= bound + 3
    ensures Decides(flow, log, e, s, lives)
  {
    hide Arrives, Meets, Reads, Asked, Run, Amiss;
    ArrivedAmiss(flow, log, e, s, bound, lives);
    if some :| Reads(flow, log + [e], some) { ArrivedMeets(flow, log, e, s, bound, some); }
    if k: nat :| Meets(flow, s, |log|, e.key, k) {
      var some := seq(bound + 3 * k + 3, _ => Fail(""));
      ArrivedReads(flow, log, e, s, bound, k, some);
      assert Reads(flow, log + [e], some);
    }
  }

  lemma ReadsUpTo(flow: Flow, log: seq<Event>, e: Event, lives: seq<Live>)
    requires Meaning(flow, log).Some? && Later(flow, log, [e])
    ensures ArrivesBy(flow, log, e, AsStall(Meaning(flow, log).value), 3 * |log| + 2, lives)
  {
    if |lives| >= 3 * |log| + 2 {
      BootReplays(flow, log);
      var k := ReplayReachesEnd(flow, Boot(log), lives, [e]);
      var n := Run(flow, Boot(log), lives[..k]);
      assert Boot(log + [e]) == Boot(log).(history := log + [e]);
      RunSplit(flow, Boot(log + [e]), lives, k);
      AtEndMeans(flow, n);
      ReplayingShape(flow, n);
      hide Meaning, Replaying, Abstract, Later, Alike, Before, Run;
      RestAlike(flow, n);
      QuietWith(flow, n, e);
      assert Arrived(flow, log, e, AsStall(Meaning(flow, log).value), lives, k, With(n, e));
    }
  }

  /** For any workflow, any log that can be read and any event behind it but an outcome of a retry
      the log has begun: every re-run long enough goes amiss if and only if the state the log
      determines asks for another event; and a re-run gets through all the same if and only if
      the programs, handed some number of mismatches, come to ask for that event. */
  lemma LogDecides(flow: Flow, log: seq<Event>, e: Event, lives: seq<Live>)
    requires Meaning(flow, log).Some? && Later(flow, log, [e]) && |lives| >= 3 * |log| + 5
    ensures Decides(flow, log, e, AsStall(Meaning(flow, log).value), lives)
  {
    hide Meaning, Later, ArrivesBy, Decides;
    var s, bound: nat := AsStall(Meaning(flow, log).value), 3 * |log| + 2;
    forall any ensures ArrivesBy(flow, log, e, s, bound, any) { ReadsUpTo(flow, log, e, any); }
    ArrivedDecides(flow, log, e, s, bound, lives);
  }

  // ---------------------------------------------------------------- amiss means no meaning

  /** A callback that asks for a retry of its own is another matter if the event starts one. */
  predicate Plain(a: Rest, e: Event)
  {
    e.key.Start? && a.frames != [] && a.frames[0].phase.Running? ==>
      !a.frames[0].body(a.frames[0].attempt, a.frames[0].phase.h).Retry?
  }

  ghost predicate AtRest(flow: Flow, a: Rest)
  {
    |a.frames| <= 1 && Settling(flow, a) == a &&
    (a.frames != [] ==> var p := a.frames[0].phase; p.Starting? || p.Running? || p.Waiting?)
  }

  lemma AcceptRests(flow: Flow, a: Rest, e: Event)
    requires AtRest(flow, a) && Accept(flow, a, e).Some?
    ensures AtRest(flow, Accept(flow, a, e).value)
  {
    hide DelayMs, Settled;
  }

  lemma {:induction false} MeaningRests(flow: Flow, log: seq<Event>)
    requires Meaning(flow, log).Some?
    ensures AtRest(flow, Meaning(flow, log).value)
  {
    if log != [] {
      MeaningRests(flow, log[..|log| - 1]);
      AcceptRests(flow, Meaning(flow, log[..|log| - 1]).value, log[|log| - 1]);
    }
  }

  lemma AcceptsWhatIsAsked(flow: Flow, a: Rest, e: Event)
    requires AtRest(flow, a) && !e.key.Outcome? && Plain(a, e)
    ensures Accept(flow, a, e).Some? <==> Asked(flow, AsStall(a)) == Some(e.key)
  {
    hide DelayMs, SettleRest;
  }

  /** So it goes amiss if and only if the log with that event has no meaning. */
  lemma AmissIffNoMeaning(flow: Flow, log: seq<Event>, e: Event, lives: seq<Live>)
    requires Meaning(flow, log).Some? && !e.key.Outcome? && Plain(Meaning(flow, log).value, e)
    requires |lives| >= 3 * |log| + 5
    ensures Amiss(Run(flow, Boot(log + [e]), lives)) <==> Meaning(flow, log + [e]).None?
  {
    MeaningRests(flow, log);
    MeaningSnoc(flow, log, e);
    LogDecides(flow, log, e, lives);
    hide Meaning, Asked;
    AcceptsWhatIsAsked(flow, Meaning(flow, log).value, e);
  }

  // ---------------------------------------------------------------- caught exceptions

  lemma AtEndLog(flow: Flow, m: Machine)
    requires Faithful(flow, m) && AtEnd(m) && Unbroken(m.hist)
    ensures Meaning(flow, Log(m)) == Some(Abstract(flow, m))
  {
    assert m.history[..|m.history|] == m.history;
    assert Consumed(m) == Log(m);
  }

  lemma StallDecides(flow: Flow, log: seq<Event>, e: Event, a: Rest, lives: seq<Live>)
    requires |a.frames| <= 1 && Meaning(flow, log) == Some(Settling(flow, a)) && !e.key.Outcome?
    requires |lives| >= 3 * |log| + 5
    ensures Decides(flow, log, e, AsStall(a), lives)
  {
    hide Meaning, Settling, AsStall, Asked, Bounce, ComesToAsk, Amiss, Run, Replays;
    LogDecides(flow, log, e, lives);
    SettlingAlike(flow, a);
    var s, t := AsStall(a), AsStall(Settling(flow, a));
    ComesToAskAlike(flow, s, t, |log|, e.key);
  }

  /** Where a re-run of the workflow, between retries, gets to with the responses of its log. */
  function OnTop(m: Machine): (s: Stall) { Stall(m.nextRetry, Strip(m.hist), []) }

  /** Between retries, with any number of caught exceptions behind it, the workflow gets through
      its next boundary. Every re-run over that log goes amiss if and only if with the responses
      of the log it asks for something else there; and it gets through all the same if and only
      if, handed mismatches, it comes to ask for that boundary. */
  lemma CaughtThrow(flow: Flow, m: Machine, next: CallKey, v: Value, lives: seq<Live>)
    requires Faithful(flow, m) && m.status.Active? && AtEnd(m) && m.frames == [] && Unbroken(m.hist)
    requires flow(m.hist) == Call(next) && |lives| >= 3 * |Log(m)| + 5
    ensures var e := Event(Called(next), Data(v.json));
            && Log(StepOnce(flow, m, Ok(v))) == Log(m) + [e]
            && Decides(flow, Log(m), e, OnTop(m), lives)
            && (Asked(flow, OnTop(m)) == Some(e.key) <==> flow(Strip(m.hist)) == Call(next))
  {
    var e, a := Event(Called(next), Data(v.json)), Rest(m.nextRetry, Strip(m.hist), []);
    AtEndLog(flow, m);
    assert m.history + (m.appended + [e]) == Log(m) + [e];
    hide Meaning, Faithful, Decides;
    StallDecides(flow, Log(m), e, a, lives);
  }

  lemma RetryStarts(flow: Flow, m: Machine, live: Live, live2: Live)
    requires m.status.Active? && m.position >= |m.history| && m.frames == [] && flow(m.hist).Retry?
    ensures Log(StepOnce(flow, StepOnce(flow, m, live), live2)) ==
            Log(m) + [Event(Start(m.nextRetry, flow(m.hist).policy, 1), AttemptNo(1))]
  {
    var p, s := flow(m.hist).policy, StepOnce(flow, m, live);
    var e := Event(Start(m.nextRetry, p, 1), AttemptNo(1));
    assert s == m.(nextRetry := m.nextRetry + 1, frames := [Frame(m.nextRetry, p, flow(m.hist).body, 1, Starting)]);
    assert m.history + (m.appended + [e]) == Log(m) + [e];
  }

  /** The same if it goes on to a retry. */
  lemma CaughtThrowThenRetry(flow: Flow, m: Machine, live: Live, live2: Live, lives: seq<Live>)
    requires Faithful(flow, m) && m.status.Active? && AtEnd(m) && m.frames == [] && Unbroken(m.hist)
    requires flow(m.hist).Retry? && |lives| >= 3 * |Log(m)| + 5
    ensures var p := flow(m.hist).policy;
            var e := Event(Start(m.nextRetry, p, 1), AttemptNo(1));
            && Log(StepOnce(flow, StepOnce(flow, m, live), live2)) == Log(m) + [e]
            && Decides(flow, Log(m), e, OnTop(m), lives)
            && (Asked(flow, OnTop(m)) == Some(e.key) <==>
                flow(Strip(m.hist)).Retry? && flow(Strip(m.hist)).policy == p)
  {
    var e := Event(Start(m.nextRetry, flow(m.hist).policy, 1), AttemptNo(1));
    var a := Rest(m.nextRetry, Strip(m.hist), []);
    AtEndLog(flow, m);
    RetryStarts(flow, m, live, live2);
    hide Meaning, Faithful, Strip, StepOnce, Decides;
    StallDecides(flow, Log(m), e, a, lives);
  }

  lemma CallbackRecords(flow: Flow, m: Machine, f: Frame, next: CallKey, v: Value)
    requires m.status.Active? && m.position >= |m.history| && m.frames == [f]
    requires f.phase.Running? && f.body(f.attempt, f.phase.h) == Call(next)
    ensures Log(StepOnce(flow, m, Ok(v))) == Log(m) + [Event(Called(next), Data(v.json))]
  {
    var e := Event(Called(next), Data(v.json));
    assert m.history + (m.appended + [e]) == Log(m) + [e];
  }

  /** The same inside a retry's callback, as long as the outcome of the attempt is not recorded.
      If the callback ends while the event is left, the workflow hears of the next mismatch. */
  lemma CaughtThrowInCallback(flow: Flow, m: Machine, f: Frame, next: CallKey, v: Value, lives: seq<Live>)
    requires InFrame(flow, m, f) && AtEnd(m) && f.phase.Running? && f.body(f.attempt, f.phase.h) == Call(next)
    requires |lives| >= 3 * |Log(m)| + 5
    ensures var e := Event(Called(next), Data(v.json));
            var s := OnTop(m).(frames := [f.(phase := Running(Strip(f.phase.h)))]);
            && Log(StepOnce(flow, m, Ok(v))) == Log(m) + [e]
            && Decides(flow, Log(m), e, s, lives)
            && (Asked(flow, s) == Some(e.key) <==> f.body(f.attempt, Strip(f.phase.h)) == Call(next))
  {
    var e, g := Event(Called(next), Data(v.json)), f.(phase := Running(Strip(f.phase.h)));
    var a := Rest(m.nextRetry, Strip(m.hist), [g]);
    AtEndLog(flow, m);
    RunningRests(flow, a);
    CallbackRecords(flow, m, f, next, v);
    hide Meaning, Faithful, Strip, StepOnce, Decides;
    StallDecides(flow, Log(m), e, a, lives);
  }

  /** The log after the wait has failed. */
  function LogAfter(m: Machine, f: Frame, bad: Live): (log: seq<Event>)
  {
    Log(m) + if bad.FailLate? then [Event(Called(SleepFor(DelayMs(f.policy, f.attempt))), Data(""))] else []
  }

  lemma BackoffMeans(flow: Flow, m: Machine, f: Frame, bad: Live)
    requires f.phase.Waiting? && DelayMs(f.policy, f.attempt) > 0
    requires Meaning(flow, Log(m)) == Some(Rest(m.nextRetry, Strip(m.hist), [f]))
    ensures var a := Rest(m.nextRetry, Strip(m.hist), [if bad.FailLate? then NextAttempt(f) else f]);
            && Settling(flow, a) == a
            && Meaning(flow, LogAfter(m, f, bad)) == Some(a)
  {
    hide DelayMs, Strip;
    var slept := Event(Called(SleepFor(DelayMs(f.policy, f.attempt))), Data(""));
    MeaningSnoc(flow, Log(m), slept);
    assert Log(m) + [] == Log(m);
    hide Meaning;
  }

  lemma BackoffFails(flow: Flow, m: Machine, f: Frame, bad: Live, next: CallKey, v: Value)
    requires m.status.Active? && m.position >= |m.history| && m.frames == [f] && f.phase.Waiting?
    requires DelayMs(f.policy, f.attempt) > 0 && !bad.Ok? && flow(m.hist + [Broken(bad.e)]) == Call(next)
    ensures var failed := StepOnce(flow, m, bad);
            && Log(failed) == LogAfter(m, f, bad) && |Log(failed)| <= |Log(m)| + 1
            && Log(StepOnce(flow, failed, Ok(v))) == Log(failed) + [Event(Called(next), Data(v.json))]
  {
    hide DelayMs;
    var e, failed := Event(Called(next), Data(v.json)), StepOnce(flow, m, bad);
    assert failed == m.(frames := [], hist := m.hist + [Broken(bad.e)], appended := failed.appended);
    assert failed.history + (failed.appended + [e]) == Log(failed) + [e];
    assert bad.FailLate? ==> m.history + failed.appended == LogAfter(m, f, bad);
  }

  /** The wait between two attempts fails, before or after it was recorded, the workflow catches
      that and goes on to a boundary: the re-run is still in the retry. */
  lemma CaughtBackoff(flow: Flow, m: Machine, f: Frame, bad: Live, next: CallKey, v: Value, lives: seq<Live>)
    requires InFrame(flow, m, f) && AtEnd(m) && f.phase.Waiting? && DelayMs(f.policy, f.attempt) > 0 && !bad.Ok?
    requires flow(m.hist + [Broken(bad.e)]) == Call(next) && |lives| >= 3 * |Log(m)| + 8
    ensures var e, failed := Event(Called(next), Data(v.json)), StepOnce(flow, m, bad);
            var s := OnTop(m).(frames := [if bad.FailLate? then NextAttempt(f) else f]);
            && Log(StepOnce(flow, failed, Ok(v))) == Log(failed) + [e]
            && Decides(flow, Log(failed), e, s, lives)
            && (Asked(flow, s) == Some(e.key) <==> bad.Fail? && next == SleepFor(DelayMs(f.policy, f.attempt)))
  {
    var e, failed := Event(Called(next), Data(v.json)), StepOnce(flow, m, bad);
    var a := Rest(m.nextRetry, Strip(m.hist), [if bad.FailLate? then NextAttempt(f) else f]);
    AtEndLog(flow, m);
    assert Abstract(flow, m) == Rest(m.nextRetry, Strip(m.hist), [f]);
    BackoffFails(flow, m, f, bad, next, v);
    BackoffMeans(flow, m, f, bad);
    hide Meaning, Faithful, Strip, DelayMs, StepOnce, Decides;
    StallDecides(flow, Log(failed), e, a, lives);
  }
}
