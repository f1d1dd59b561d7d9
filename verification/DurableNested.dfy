/**
 Retries inside a retry's callback. The re-run passes over a callback whose outcome is recorded,
 and with it over the numbers that the retries inside took; the next retry is then out of step.
 */
module DurableNested {
  import opened OptionWrapper
  import opened DurableMachine
  import opened DurableFaithful
  import opened DurableReplay
  import opened DurableMismatch
  import opened DurableExact
  import opened DurableTrack

  // ---------------------------------------------------------------- what a retry records

  /** Not an event of the retry `id`, nor of an earlier one. */
  predicate Foreign(k: Key, id: nat)
  {
    match k
    case Called(_) => true
    case Start(n, _, _) => n > id
    case Outcome(n, _, _) => n > id
  }

  /** Inside the callback of `outer`: the retries above it have later numbers, and only foreign
      events have been recorded behind `base`. */
  ghost predicate Deep(outer: Frame, base: seq<Event>, h: seq<Response>, m: Machine)
  {
    && m.frames != [] && m.frames[0] == outer.(phase := m.frames[0].phase) && m.frames[0].phase.Running?
    && m.nextRetry > outer.id && (forall i :: 0 < i < |m.frames| ==> m.frames[i].id > outer.id)
    && m.hist == h && base <= m.appended
    && forall i :: |base| <= i < |m.appended| ==> Foreign(m.appended[i].key, outer.id)
  }

  lemma SetTopDeep(outer: Frame, base: seq<Event>, h: seq<Response>, m: Machine, g: Frame)
    requires Deep(outer, base, h, m) && |m.frames| > 1 && g.id > outer.id
    ensures Deep(outer, base, h, SetTop(m, g))
  {
  }

  lemma RespondDeep(outer: Frame, base: seq<Event>, h: seq<Response>, m: Machine, r: Response)
    requires Deep(outer, base, h, m) && |m.frames| > 1
    ensures Deep(outer, base, h, Respond(Pop(m), r))
  {
    var below := Pop(m);
    assert below.frames[0] == m.frames[0];
    if |below.frames| == 1 {
      var t := Respond(below, r);
      assert t.frames == [m.frames[0].(phase := Running(m.frames[0].phase.h + [r]))];
    } else {
      assert forall i :: 0 < i < |below.frames| ==> below.frames[i] == m.frames[i];
    }
  }

  lemma PushDeep(outer: Frame, base: seq<Event>, h: seq<Response>, m: Machine, p: Policy,
                 body: (nat, seq<Response>) -> Action)
    requires Deep(outer, base, h, m)
    ensures Deep(outer, base, h, Push(m, p, body))
  {
  }

  lemma SettleDeep(outer: Frame, base: seq<Event>, h: seq<Response>, m: Machine, g: Frame, r: Result)
    requires Deep(outer, base, h, m) && |m.frames| > 1 && g.id > outer.id
    ensures Deep(outer, base, h, Settle(m, g, r))
  {
    hide Deep, Settled, Respond, SetTop;
    match Settled(g, r)
    case Some(response) => RespondDeep(outer, base, h, m, response);
    case None => SetTopDeep(outer, base, h, m, g.(phase := Waiting));
  }

  lemma MarkDeep(outer: Frame, base: seq<Event>, h: seq<Response>, m: Machine, position: nat)
    requires Deep(outer, base, h, m)
    ensures Deep(outer, base, h, m.(mismatched := true)) && Deep(outer, base, h, m.(position := position))
  {
  }

  lemma AppendDeep(outer: Frame, base: seq<Event>, h: seq<Response>, m: Machine, e: Event)
    requires Deep(outer, base, h, m) && Foreign(e.key, outer.id)
    ensures Deep(outer, base, h, Append(m, e))
  {
  }

  lemma AskDeep(outer: Frame, base: seq<Event>, h: seq<Response>, m: Machine, c: CallKey, live: Live, key: Key,
                payload: Payload)
    requires Deep(outer, base, h, m) && Foreign(key, outer.id)
    ensures var a := AskCall(m, c, live); a.Answered? ==> Deep(outer, base, h, a.m) && a.m.frames == m.frames
    ensures var a := AskRetry(m, key, payload); a.Answered? ==> Deep(outer, base, h, a.m) && a.m.frames == m.frames
  {
    hide Deep;
    MarkDeep(outer, base, h, m, m.position + 1);
    AppendDeep(outer, base, h, m, Event(key, payload));
    AppendDeep(outer, base, h, m, Event(Called(c), Data("")));
    if live.Ok? { AppendDeep(outer, base, h, m, Event(Called(c), Data(live.v.json))); }
  }

  lemma RaiseDeep(outer: Frame, base: seq<Event>, h: seq<Response>, m: Machine, x: Fault)
    requires Deep(outer, base, h, m) && |m.frames| > 1
    ensures Deep(outer, base, h, Raise(Pop(m), x))
  {
    MarkDeep(outer, base, h, m, 0);
    RespondDeep(outer, base, h, m.(mismatched := true), Threw(x));
    assert Pop(m).(mismatched := true) == Pop(m.(mismatched := true));
  }

  lemma DeepRunning(outer: Frame, base: seq<Event>, h: seq<Response>, m: Machine, g: Frame, live: Live)
    requires Deep(outer, base, h, m) && |m.frames| > 1 && g.id > outer.id && g.phase.Running?
    ensures Deep(outer, base, h, StepFrame(m, g, live))
  {
    hide Deep, AskCall, SetTop, Push;
    var heard := g.phase.h;
    match g.body(g.attempt, heard)
    case Call(c) =>
      AskDeep(outer, base, h, m, c, live, OutcomeKey(g), AttemptNo(0));
      MarkDeep(outer, base, h, m, 0);
      match AskCall(m, c, live) {
        case Answered(r, _, m1) => SetTopDeep(outer, base, h, m1, g.(phase := Running(heard + [r])));
        case Differs(x) => SetTopDeep(outer, base, h, m.(mismatched := true), g.(phase := Running(heard + [Threw(x)])));
        case Thrown(e) => SetTopDeep(outer, base, h, m, g.(phase := Running(heard + [Threw(Error(e))])));
      }
    case Retry(p, b) => PushDeep(outer, base, h, m, p, b);
    case End(r) => SetTopDeep(outer, base, h, m, g.(phase := Recording(heard, r)));
  }

  /** A step of a retry inside. */
  lemma DeepStep(outer: Frame, base: seq<Event>, h: seq<Response>, m: Machine, g: Frame, live: Live)
    requires Deep(outer, base, h, m) && |m.frames| > 1 && g.id > outer.id
    ensures Deep(outer, base, h, StepFrame(m, g, live))
  {
    hide Deep, DelayMs, Settle, FindFrom, AskCall, AskRetry, Respond, SetTop, Push;
    MarkDeep(outer, base, h, m, 0);
    match g.phase
    case Starting =>
      AskDeep(outer, base, h, m, SleepFor(0), live, StartKey(g), AttemptNo(g.attempt));
      match AskRetry(m, StartKey(g), AttemptNo(g.attempt)) {
        case Answered(_, _, m1) => SetTopDeep(outer, base, h, m1, g.(phase := Finding));
        case Differs(x) => RaiseDeep(outer, base, h, m, x);
        case _ =>
      }
    case Finding =>
      var found := FindFrom(m.history, m.position, OutcomeKey(g));
      if found.Some? {
        MarkDeep(outer, base, h, m, found.value + 1);
        SettleDeep(outer, base, h, m.(position := found.value + 1), g, ResultOf(m.history[found.value].payload));
      } else {
        SetTopDeep(outer, base, h, m, g.(phase := Running([])));
      }
    case Running(_) => DeepRunning(outer, base, h, m, g, live);
    case Recording(_, r) =>
      AskDeep(outer, base, h, m, SleepFor(0), live, OutcomeKey(g), Ended(Recorded(r)));
      match AskRetry(m, OutcomeKey(g), Ended(Recorded(r))) {
        case Answered(_, _, m1) => SettleDeep(outer, base, h, m1, g, r);
        case Differs(x) => RaiseDeep(outer, base, h, m, x);
        case _ =>
      }
    case Waiting =>
      var c := SleepFor(DelayMs(g.policy, g.attempt));
      AskDeep(outer, base, h, m, c, live, OutcomeKey(g), AttemptNo(0));
      SetTopDeep(outer, base, h, m, NextAttempt(g));
      match AskCall(m, c, live) {
        case Answered(r, _, m1) =>
          if r.Late? {
            RespondDeep(outer, base, h, m1, Broken(r.e));
          } else {
            SetTopDeep(outer, base, h, m1, NextAttempt(g));
          }
        case Differs(x) => RaiseDeep(outer, base, h, m, x);
        case Thrown(e) => RespondDeep(outer, base, h, m, Broken(e));
      }
  }

  // ---------------------------------------------------------------- the retry itself

  function TrackOf(f: Frame): (t: Track)
  {
    match f.phase
    case Starting => Ready(f.attempt)
    case Waiting => Calm(f.policy, f.attempt)
    case _ => Inside(f.attempt)
  }

  /** The events recorded behind `base` bring the retry to `t`. None is of an earlier retry. */
  ghost predicate Traced(id: nat, p: Policy, base: seq<Event>, log: seq<Event>, t: Track)
  {
    && base <= log && Follow(id, p, Ready(1), log[|base|..]) == Some(t)
    && forall i :: |base| <= i < |log| ==> log[i].key.Called? || log[i].key.id >= id
  }

  lemma TracedPush(id: nat, p: Policy, base: seq<Event>, log: seq<Event>, t: Track, e: Event)
    requires Traced(id, p, base, log, t) && Next(id, p, t, e).Some? && (e.key.Called? || e.key.id >= id)
    ensures Traced(id, p, base, log + [e], Next(id, p, t, e).value)
  {
    hide Next, Follow;
    FollowSnoc(id, p, Ready(1), log[|base|..], e);
    assert (log + [e])[|base|..] == log[|base|..] + [e];
  }

  /** The process is in the retry, past the end of its history. */
  ghost predicate Working(id: nat, p: Policy, base: seq<Event>, h: seq<Response>, m: Machine)
  {
    && m.status.Active? && m.position >= |m.history| && m.hist == h && m.nextRetry > id
    && m.frames != [] && m.frames[0].id == id && m.frames[0].policy == p
    && (forall i :: 0 < i < |m.frames| ==> m.frames[i].id > id)
    && (|m.frames| > 1 ==> m.frames[0].phase.Running?)
    && Traced(id, p, base, m.appended, TrackOf(m.frames[0]))
  }

  /** The retry is over, and its events say so, unless the wait between two attempts failed. */
  ghost predicate CameOut(id: nat, p: Policy, base: seq<Event>, h: seq<Response>, m: Machine)
  {
    && m.status.Active? && m.position >= |m.history| && m.nextRetry > id && m.frames == []
    && |m.hist| == |h| + 1 && m.hist[..|h|] == h
    && var r := m.hist[|h|];
       !r.Broken? ==> |Kept(r)| == 1 && Traced(id, p, base, m.appended, Over(Kept(r)[0]))
  }

  ghost predicate Onward(id: nat, p: Policy, base: seq<Event>, h: seq<Response>, m: Machine)
  {
    if m.frames == [] then CameOut(id, p, base, h, m) else Working(id, p, base, h, m)
  }

  lemma WorkInside(flow: Flow, id: nat, p: Policy, base: seq<Event>, h: seq<Response>, m: Machine, live: Live)
    requires Working(id, p, base, h, m) && |m.frames| > 1
    ensures Onward(id, p, base, h, StepOnce(flow, m, live))
  {
    var f, g, t := m.frames[0], m.frames[|m.frames| - 1], StepOnce(flow, m, live);
    assert f.(phase := f.phase) == f;
    assert Deep(f, m.appended, h, m);
    DeepStep(f, m.appended, h, m, g, live);
    FrameForward(m, g, live);
    StepForward(flow, m, live);
    StepKeepsLog(flow, m, live);
    hide StepOnce, StepFrame, Traced;
    if t.appended != m.appended {
      var e := t.appended[|m.appended|];
      assert t.appended == m.appended + [e];
      TracedPush(id, p, base, m.appended, Inside(f.attempt), e);
    }
  }

  lemma WorkStarting(flow: Flow, id: nat, p: Policy, base: seq<Event>, h: seq<Response>, m: Machine, f: Frame,
                     live: Live)
    requires Working(id, p, base, h, m) && m.frames == [f] && (f.phase.Starting? || f.phase.Finding?)
    ensures Onward(id, p, base, h, StepOnce(flow, m, live))
  {
    hide Traced;
    if f.phase.Starting? {
      TracedPush(id, p, base, m.appended, Ready(f.attempt), Event(StartKey(f), AttemptNo(f.attempt)));
    }
  }

  lemma WorkRunning(flow: Flow, id: nat, p: Policy, base: seq<Event>, h: seq<Response>, m: Machine, f: Frame,
                    live: Live)
    requires Working(id, p, base, h, m) && m.frames == [f] && f.phase.Running?
    ensures Onward(id, p, base, h, StepOnce(flow, m, live))
  {
    hide Traced;
    var act := f.body(f.attempt, f.phase.h);
    if act.Call? {
      var a := AskCall(m, act.c, live);
      if a.Answered? { TracedPush(id, p, base, m.appended, Inside(f.attempt), Event(Called(act.c), a.payload)); }
    }
  }

  lemma WorkRecording(flow: Flow, id: nat, p: Policy, base: seq<Event>, h: seq<Response>, m: Machine, f: Frame,
                      live: Live)
    requires Working(id, p, base, h, m) && m.frames == [f] && f.phase.Recording?
    ensures Onward(id, p, base, h, StepOnce(flow, m, live))
  {
    hide Traced, DelayMs;
    var r := f.phase.r;
    var e := Event(OutcomeKey(f), Ended(Recorded(r)));
    TracedPush(id, p, base, m.appended, Inside(f.attempt), e);
    assert StepOnce(flow, m, live) == Settle(Append(m, e), f, r);
    match Settled(f, r)
    case Some(response) => assert Verdict(p, f.attempt, Recorded(r)) == Some(Kept(response)[0]);
    case None => assert Verdict(p, f.attempt, Recorded(r)) == None;
  }

  lemma WorkWaiting(flow: Flow, id: nat, p: Policy, base: seq<Event>, h: seq<Response>, m: Machine, f: Frame,
                    live: Live)
    requires Working(id, p, base, h, m) && m.frames == [f] && f.phase.Waiting?
    ensures Onward(id, p, base, h, StepOnce(flow, m, live))
  {
    hide Traced, DelayMs;
    var d := DelayMs(p, f.attempt);
    if d > 0 {
      var a := AskCall(m, SleepFor(d), live);
      if a.Answered? { TracedPush(id, p, base, m.appended, Pausing(f.attempt), Event(Called(SleepFor(d)), a.payload)); }
    }
  }

  lemma WorkStep(flow: Flow, id: nat, p: Policy, base: seq<Event>, h: seq<Response>, m: Machine, live: Live)
    requires Working(id, p, base, h, m)
    ensures Onward(id, p, base, h, StepOnce(flow, m, live))
  {
    hide StepOnce, Onward, Traced;
    if |m.frames| > 1 {
      WorkInside(flow, id, p, base, h, m, live);
    } else {
      var f := m.frames[0];
      assert m.frames == [f];
      match f.phase
      case Running(_) => WorkRunning(flow, id, p, base, h, m, f, live);
      case Recording(_, _) => WorkRecording(flow, id, p, base, h, m, f, live);
      case Waiting => WorkWaiting(flow, id, p, base, h, m, f, live);
      case _ => WorkStarting(flow, id, p, base, h, m, f, live);
    }
  }

  /** The run takes the process from inside a retry to just behind it. */
  ghost predicate Leaves(flow: Flow, m: Machine, worlds: seq<Live>, after: Machine)
    decreases |worlds|
  {
    if m.frames == [] then worlds == [] && after == m
    else worlds != [] && Leaves(flow, StepOnce(flow, m, worlds[0]), worlds[1..], after)
  }

  lemma {:induction false} WorkIsTraced(flow: Flow, id: nat, p: Policy, base: seq<Event>, h: seq<Response>, m: Machine,
                                        worlds: seq<Live>, after: Machine)
    requires Working(id, p, base, h, m) && Leaves(flow, m, worlds, after)
    ensures CameOut(id, p, base, h, after) && after.history == m.history
    decreases |worlds|
  {
    var t := StepOnce(flow, m, worlds[0]);
    StepKeepsLog(flow, m, worlds[0]);
    WorkStep(flow, id, p, base, h, m, worlds[0]);
    hide StepOnce, CameOut;
    if t.frames != [] { WorkIsTraced(flow, id, p, base, h, t, worlds[1..], after); }
  }

  // ---------------------------------------------------------------- the re-run behind the retry

  /** The workflow asks for a retry, and would with the responses of its log. */
  ghost predicate AsksRetry(flow: Flow, m: Machine)
  {
    && Faithful(flow, m) && m.status.Active? && AtEnd(m) && m.frames == [] && Unbroken(m.hist)
    && flow(m.hist).Retry? && flow(Strip(m.hist)).Retry? && flow(Strip(m.hist)).policy == flow(m.hist).policy
  }

  /** From there to `after`, where the retry has been settled: after any number of attempts, with
      any retries inside. */
  ghost predicate OuterRan(flow: Flow, m: Machine, first: Live, worlds: seq<Live>, after: Machine)
  {
    && AsksRetry(flow, m) && Leaves(flow, StepOnce(flow, m, first), worlds, after)
    && after.hist != [] && !after.hist[|after.hist| - 1].Broken?
  }

  /** What the retry has recorded. */
  function Written(m: Machine, after: Machine): (x: seq<Event>)
    requires |m.appended| <= |after.appended|
  {
    after.appended[|m.appended|..]
  }

  /** The run as a whole, in terms of its log. */
  ghost predicate Wrote(flow: Flow, m: Machine, after: Machine, r: Response)
  {
    && flow(m.hist).Retry? && m.appended <= after.appended && after.history == m.history && after.frames == []
    && after.status.Active? && after.position >= |after.history| && after.nextRetry > m.nextRetry
    && after.hist != [] && Strip(after.hist) == Strip(m.hist) + [r]
    && Finishes(m.nextRetry, flow(m.hist).policy, Ready(1), Written(m, after), r)
    && forall y :: y in Written(m, after) ==> y.key.Called? || y.key.id >= m.nextRetry
  }

  lemma WorkBegins(flow: Flow, m: Machine, first: Live)
    requires m.status.Active? && AtEnd(m) && m.frames == [] && flow(m.hist).Retry?
    ensures Working(m.nextRetry, flow(m.hist).policy, m.appended, m.hist, StepOnce(flow, m, first))
    ensures StepOnce(flow, m, first).history == m.history
  {
    var id, p := m.nextRetry, flow(m.hist).policy;
    var t := StepOnce(flow, m, first);
    assert t == m.(nextRetry := id + 1, frames := [Frame(id, p, flow(m.hist).body, 1, Starting)]);
    assert m.appended[|m.appended|..] == [];
  }

  lemma WorkWrote(flow: Flow, m: Machine, after: Machine) returns (r: Response)
    requires flow(m.hist).Retry? && after.history == m.history
    requires CameOut(m.nextRetry, flow(m.hist).policy, m.appended, m.hist, after)
    requires after.hist != [] && !after.hist[|after.hist| - 1].Broken?
    ensures Wrote(flow, m, after, r)
  {
    hide Follow, Strip;
    var last := after.hist[|m.hist|];
    assert after.hist == m.hist + [last];
    StripPush(m.hist, last);
    r := Kept(last)[0];
    assert Kept(last) == [r];
  }

  lemma OuterWrites(flow: Flow, m: Machine, first: Live, worlds: seq<Live>, after: Machine) returns (r: Response)
    requires OuterRan(flow, m, first, worlds, after)
    ensures Wrote(flow, m, after, r)
  {
    hide Faithful, StepOnce, Working, Leaves, CameOut, Wrote, Strip;
    WorkBegins(flow, m, first);
    var id, p, t := m.nextRetry, flow(m.hist).policy, StepOnce(flow, m, first);
    WorkIsTraced(flow, id, p, m.appended, m.hist, t, worlds, after);
    r := WorkWrote(flow, m, after);
  }

  /** The retry as the re-run starts it. */
  function Again(flow: Flow, m: Machine): (f: Frame)
    requires flow(Strip(m.hist)).Retry?
  {
    Frame(m.nextRetry, flow(Strip(m.hist)).policy, flow(Strip(m.hist)).body, 1, Starting)
  }

  lemma OuterMeans(flow: Flow, m: Machine)
    requires AsksRetry(flow, m)
    ensures Meaning(flow, Log(m)) == Some(Rest(m.nextRetry + 1, Strip(m.hist), [Again(flow, m)]))
  {
    AtEndLog(flow, m);
    hide Meaning, Faithful, Strip;
  }

  /** The place of a re-run at the end of the log that the retry found. */
  ghost predicate AtOuter(flow: Flow, m: Machine, n: Machine)
    requires flow(Strip(m.hist)).Retry?
  {
    && n.status.Active? && !n.mismatched && n.history == Log(m) && AtEnd(n) && n.hist == Strip(m.hist)
    && ((n.frames == [] && n.nextRetry == m.nextRetry) ||
        (n.frames == [Again(flow, m)] && n.nextRetry == m.nextRetry + 1))
  }

  lemma StartingPlace(flow: Flow, n: Machine, h: seq<Response>, f: Frame)
    requires Replaying(flow, n) && Abstract(flow, n) == Rest(f.id + 1, h, [f]) && f.phase.Starting? && f.attempt == 1
    ensures n.hist == h
    ensures (n.frames == [] && n.nextRetry == f.id) || (n.frames == [f] && n.nextRetry == f.id + 1)
  {
    ReplayingShape(flow, n);
    if n.frames != [] { assert n.frames[0] in n.frames && FrameOk(n, n.frames[0]); }
    hide Replaying, DelayMs, Strip;
  }

  lemma OuterPlace(flow: Flow, m: Machine, n: Machine)
    requires AsksRetry(flow, m) && Replaying(flow, n) && AtEnd(n) && n.history == Log(m)
    ensures AtOuter(flow, m, n)
  {
    hide Meaning, Faithful, Clean, Strip, Abstract;
    OuterMeans(flow, m);
    AtEndMeans(flow, n);
    ReplayingShape(flow, n);
    StartingPlace(flow, n, Strip(m.hist), Again(flow, m));
  }

  lemma OuterIsLater(flow: Flow, m: Machine, x: seq<Event>)
    requires AsksRetry(flow, m) && forall e :: e in x ==> e.key.Called? || e.key.id >= m.nextRetry
    ensures Meaning(flow, Log(m)).Some? && Later(flow, Log(m), x)
  {
    OuterMeans(flow, m);
    hide Meaning, Faithful, Strip;
  }

  /** The re-run behind the retry, one number on. */
  function Passed(m: Machine, n: Machine, x: seq<Event>, e: Event, r: Response): (q: Machine)
  {
    n.(history := n.history + (x + [e]), position := |Log(m)| + |x|, nextRetry := m.nextRetry + 1, frames := [],
       hist := n.hist + [r])
  }

  lemma OuterIsPassed(flow: Flow, m: Machine, n: Machine, x: seq<Event>, e: Event, r: Response, lives: seq<Live>)
    returns (k: nat)
    requires flow(Strip(m.hist)).Retry? && AtOuter(flow, m, n) && |lives| >= 3 * |x| + 1
    requires Finishes(m.nextRetry, flow(Strip(m.hist)).policy, Ready(1), x, r)
    ensures k <= 3 * |x| + 1
    ensures Run(flow, n.(history := n.history + (x + [e])), lives[..k]) == Passed(m, n, x, e, r)
  {
    hide Finishes, Strip;
    var q, f := n.(history := n.history + (x + [e])), Again(flow, m);
    assert q.history[q.position..] == x + [e];
    if n.frames == [] {
      var t := StepOnce(flow, q, lives[0]);
      assert t == q.(nextRetry := m.nextRetry + 1, frames := [f]);
      hide StepOnce;
      var more := RetryIsSkipped(flow, t, f, x, [e], r, lives[1..]);
      k := more + 1;
      assert lives[..k][1..] == lives[1..][..more];
    } else {
      k := RetryIsSkipped(flow, q, f, x, [e], r, lives);
    }
  }

  function Behind(m: Machine, after: Machine): (s: Stall) { Stall(m.nextRetry + 1, Strip(after.hist), []) }

  lemma BehindArrived(flow: Flow, m: Machine, n: Machine, after: Machine, r: Response, e: Event)
    requires Wrote(flow, m, after, r) && flow(Strip(m.hist)).Retry? && AtOuter(flow, m, n)
    ensures var q := Passed(m, n, Written(m, after), e, r);
            && Before(q) && q.history == Log(after) + [e] && q.position == |Log(after)| && !q.mismatched
            && Here(q) == Behind(m, after)
  {
    hide Finishes, Strip;
    assert Log(after) == Log(m) + Written(m, after);
  }

  /** Reading the log up to the retry. */
  lemma ReadsToOuter(flow: Flow, m: Machine, all: seq<Event>, lives: seq<Live>) returns (i: nat, n: Machine)
    requires AsksRetry(flow, m) && |lives| >= 3 * |Log(m)| + 2
    requires forall y :: y in all ==> y.key.Called? || y.key.id >= m.nextRetry
    ensures AtOuter(flow, m, n) && i <= 3 * |Log(m)| + 2
    ensures Run(flow, Boot(Log(m) + all), lives) == Run(flow, n.(history := n.history + all), lives[i..])
  {
    hide Meaning, Faithful, Clean, Later, Strip, StepOnce;
    OuterIsLater(flow, m, all);
    BootReplays(flow, Log(m));
    i := ReplayReachesEnd(flow, Boot(Log(m)), lives, all);
    n := Run(flow, Boot(Log(m)), lives[..i]);
    assert Boot(Log(m) + all) == Boot(Log(m)).(history := Log(m) + all);
    hide Run;
    OuterPlace(flow, m, n);
    RunSplit(flow, Boot(Log(m) + all), lives, i);
  }

  /** And passing over it. */
  lemma ReadsBehind(flow: Flow, m: Machine, x: seq<Event>, e: Event, r: Response, lives: seq<Live>)
    returns (k: nat, n: Machine)
    requires AsksRetry(flow, m) && Finishes(m.nextRetry, flow(m.hist).policy, Ready(1), x, r)
    requires forall y :: y in x + [e] ==> y.key.Called? || y.key.id >= m.nextRetry
    requires |lives| >= 3 * |Log(m)| + 3 * |x| + 3
    ensures AtOuter(flow, m, n) && k <= 3 * |Log(m)| + 3 * |x| + 3
    ensures Run(flow, Boot(Log(m) + (x + [e])), lives) == Run(flow, Passed(m, n, x, e, r), lives[k..])
  {
    hide Faithful, Strip, Finishes, Run, AtOuter, Log;
    var i;
    i, n := ReadsToOuter(flow, m, x + [e], lives);
    var j := OuterIsPassed(flow, m, n, x, e, r, lives[i..]);
    RunSplit(flow, n.(history := n.history + (x + [e])), lives[i..], j);
    assert lives[i..][j..] == lives[i + j..];
    k := i + j;
  }

  lemma ArrivesBehind(flow: Flow, m: Machine, after: Machine, r: Response, e: Event, lives: seq<Live>)
    requires AsksRetry(flow, m) && Wrote(flow, m, after, r) && e.key.Start? && e.key.id >= m.nextRetry
    ensures ArrivesBy(flow, Log(after), e, Behind(m, after), 3 * |Log(after)| + 3, lives)
  {
    hide Finishes, Strip, Faithful, Run, AtOuter;
    var x, log := Written(m, after), Log(after);
    assert log == Log(m) + x;
    assert log + [e] == Log(m) + (x + [e]);
    if |lives| >= 3 * |log| + 3 {
      var k, n := ReadsBehind(flow, m, x, e, r, lives);
      BehindArrived(flow, m, n, after, r, e);
      assert Arrived(flow, log, e, Behind(m, after), lives, k, Passed(m, n, x, e, r));
    }
  }

  lemma BehindDecides(flow: Flow, m: Machine, after: Machine, r: Response, e: Event, lives: seq<Live>)
    requires AsksRetry(flow, m) && Wrote(flow, m, after, r) && e.key.Start? && e.key.id >= m.nextRetry
    requires |lives| >= 3 * |Log(after)| + 6
    ensures Decides(flow, Log(after), e, Behind(m, after), lives)
  {
    hide AsksRetry, Wrote, ArrivesBy, Decides, Log, Behind;
    var bound: nat := 3 * |Log(after)| + 3;
    forall any ensures ArrivesBy(flow, Log(after), e, Behind(m, after), bound, any) {
      ArrivesBehind(flow, m, after, r, e, any);
    }
    ArrivedDecides(flow, Log(after), e, Behind(m, after), bound, lives);
  }

  /** The event that the next retry records. */
  function NextStart(flow: Flow, after: Machine): (e: Event)
    requires flow(after.hist).Retry?
  {
    Event(Start(after.nextRetry, flow(after.hist).policy, 1), AttemptNo(1))
  }

  /** After a retry, settled by any number of attempts with any retries inside, another one starts
      and is recorded. A re-run has passed over the first and is one number on. Every re-run long
      enough goes amiss if and only if it then asks for something else: a retry of the same policy
      is something else just when retries were started inside the first. And a re-run gets through
      all the same if and only if, handed mismatches, it comes to ask for that very retry. */
  lemma NestingLosesCount(flow: Flow, m: Machine, first: Live, worlds: seq<Live>, after: Machine, a: Live, b: Live,
                          lives: seq<Live>)
    requires OuterRan(flow, m, first, worlds, after) && flow(after.hist).Retry? && |lives| >= 3 * |Log(after)| + 6
    ensures var e, act := NextStart(flow, after), flow(Strip(after.hist));
            && Log(StepOnce(flow, StepOnce(flow, after, a), b)) == Log(after) + [e]
            && Decides(flow, Log(after), e, Behind(m, after), lives)
            && (Asked(flow, Behind(m, after)) == Some(e.key) <==>
                act.Retry? && act.policy == e.key.policy && after.nextRetry == m.nextRetry + 1)
  {
    hide Faithful, Strip, StepOnce, Leaves, Decides, Finishes, Written;
    var r := OuterWrites(flow, m, first, worlds, after);
    RetryStarts(flow, after, a, b);
    BehindDecides(flow, m, after, r, NextStart(flow, after), lives);
  }

  // ---------------------------------------------------------------- catching up

  /** A mismatch uses up at most one number, so as many are needed as were lost. */
  lemma {:induction false} MeetsCounts(flow: Flow, s: Stall, p: nat, id: nat, policy: Policy, k: nat)
    requires s.frames == [] && Meets(flow, s, p, Start(id, policy, 1), k)
    ensures s.next <= id <= s.next + k
    decreases k
  {
    if k > 0 {
      var t := Bounce(flow, s, ReplayMismatch(p, Start(id, policy, 1), Asked(flow, s).value));
      assert t.frames == [] && s.next <= t.next <= s.next + 1;
      MeetsCounts(flow, t, p, id, policy, k - 1);
    }
  }

  predicate AllThrew(g: seq<Response>) { forall i :: 0 <= i < |g| ==> g[i].Threw? }

  /** Whatever is thrown at it, the workflow starts the retry again. */
  ghost predicate KeepsTrying(flow: Flow, h: seq<Response>, policy: Policy)
  {
    forall g :: AllThrew(g) ==> flow(h + g).Retry? && flow(h + g).policy == policy
  }

  lemma TryAgain(flow: Flow, h: seq<Response>, policy: Policy, x: Fault)
    requires KeepsTrying(flow, h, policy)
    ensures flow(h).Retry? && flow(h).policy == policy && KeepsTrying(flow, h + [Threw(x)], policy)
  {
    assert AllThrew([]) && h + [] == h;
    forall g | AllThrew(g)
      ensures flow(h + [Threw(x)] + g).Retry? && flow(h + [Threw(x)] + g).policy == policy
    {
      assert AllThrew([Threw(x)] + g) && h + [Threw(x)] + g == h + ([Threw(x)] + g);
    }
  }

  lemma {:induction false} TryingMeets(flow: Flow, s: Stall, p: nat, id: nat, policy: Policy)
    requires s.frames == [] && s.next <= id && KeepsTrying(flow, s.hist, policy)
    ensures Meets(flow, s, p, Start(id, policy, 1), id - s.next)
    decreases id - s.next
  {
    var x := ReplayMismatch(p, Start(id, policy, 1), Start(s.next, policy, 1));
    TryAgain(flow, s.hist, policy, x);
    hide KeepsTrying;
    if s.next < id { TryingMeets(flow, Stall(s.next + 1, s.hist + [Threw(x)], []), p, id, policy); }
  }

  /** So a workflow that starts the retry again whenever that throws gets through, whatever retries
      there were inside the one before: each try takes the next number, until they agree. */
  lemma TryingAgainCatchesUp(flow: Flow, m: Machine, first: Live, worlds: seq<Live>, after: Machine)
    requires OuterRan(flow, m, first, worlds, after) && flow(after.hist).Retry?
    requires KeepsTrying(flow, Strip(after.hist), flow(after.hist).policy)
    ensures Replays(flow, Log(after) + [NextStart(flow, after)])
  {
    hide Faithful, Strip, StepOnce, Leaves, Finishes, Written, KeepsTrying, Meets;
    var r := OuterWrites(flow, m, first, worlds, after);
    BehindDecides(flow, m, after, r, NextStart(flow, after), seq(3 * |Log(after)| + 6, _ => Fail("")));
    TryingMeets(flow, Behind(m, after), |Log(after)|, after.nextRetry, flow(after.hist).policy);
  }
}
