/** Crashes and re-runs: what a re-run keeps, skips and returns, and that it gets through its log. */
module DurableReplay {
  import opened DurableMachine
  import opened DurableFaithful

  // ---------------------------------------------------------------- crashes and re-runs

  /** The log only grows, at its end, by at most one event. */
  predicate Grows(m: Machine, r: Machine)
  {
    r.history == m.history &&
    (r.appended == m.appended || (|r.appended| == |m.appended| + 1 && m.appended < r.appended))
  }

  lemma SettleGrows(m: Machine, m1: Machine, f: Frame, r: Result)
    requires Grows(m, m1) && m1.frames != []
    ensures Grows(m, Settle(m1, f, r))
  {
    hide Settled;
  }

  lemma RespondGrows(m: Machine, m1: Machine, r: Response)
    requires Grows(m, m1) && m1.frames != []
    ensures Grows(m, Respond(Pop(m1), r)) && (r.Threw? ==> Grows(m, Raise(Pop(m1), r.x)))
  {
  }

  lemma AskGrows(m: Machine, c: CallKey, live: Live, key: Key, payload: Payload)
    ensures var a := AskCall(m, c, live);
            a.Answered? ==> Grows(m, a.m) && a.m.frames == m.frames
    ensures var a := AskRetry(m, key, payload);
            a.Answered? ==> Grows(m, a.m) && a.m.frames == m.frames
  {
  }

  lemma FrameGrows(m: Machine, f: Frame, live: Live)
    requires m.frames != []
    ensures Grows(m, StepFrame(m, f, live))
  {
    hide DelayMs, Settle, FindFrom, AskCall, AskRetry, Respond, Raise;
    match f.phase
    case Starting =>
      AskGrows(m, SleepFor(0), live, StartKey(f), AttemptNo(f.attempt));
      var a := AskRetry(m, StartKey(f), AttemptNo(f.attempt));
      if a.Differs? { RespondGrows(m, m, Threw(a.x)); }
    case Finding =>
      var found := FindFrom(m.history, m.position, OutcomeKey(f));
      if found.Some? {
        SettleGrows(m, m.(position := found.value + 1), f, ResultOf(m.history[found.value].payload));
      }
    case Running(h) =>
      if f.body(f.attempt, h).Call? { AskGrows(m, f.body(f.attempt, h).c, live, OutcomeKey(f), AttemptNo(0)); }
    case Recording(h, r) =>
      AskGrows(m, SleepFor(0), live, OutcomeKey(f), Ended(Recorded(r)));
      var answer := AskRetry(m, OutcomeKey(f), Ended(Recorded(r)));
      if answer.Answered? { SettleGrows(m, answer.m, f, r); }
      if answer.Differs? { RespondGrows(m, m, Threw(answer.x)); }
    case Waiting =>
      var c := SleepFor(DelayMs(f.policy, f.attempt));
      AskGrows(m, c, live, OutcomeKey(f), AttemptNo(0));
      match AskCall(m, c, live) {
        case Differs(x) => RespondGrows(m, m, Threw(x));
        case Answered(r, _, m1) => if r.Late? { RespondGrows(m, m1, Broken(r.e)); }
        case Thrown(e) => RespondGrows(m, m, Broken(e));
      }
  }

  lemma StepKeepsLog(flow: Flow, m: Machine, live: Live)
    ensures Grows(m, StepOnce(flow, m, live))
  {
    hide StepFrame;
    if m.frames != [] { FrameGrows(m, m.frames[|m.frames| - 1], live); }
  }

  lemma {:induction false} RunKeepsLog(flow: Flow, m: Machine, lives: seq<Live>)
    ensures Run(flow, m, lives).history == m.history && m.appended <= Run(flow, m, lives).appended
    decreases |lives|
  {
    hide StepOnce;
    if lives != [] {
      StepKeepsLog(flow, m, lives[0]);
      RunKeepsLog(flow, StepOnce(flow, m, lives[0]), lives[1..]);
    }
  }

  /** The log after a series of processes, each killed after as many steps as the world had
      answers for it, each starting from the log the one before it left. */
  function AfterCrashes(flow: Flow, worlds: seq<seq<Live>>): (log: seq<Event>)
  {
    if worlds == [] then []
    else Log(Run(flow, Boot(AfterCrashes(flow, worlds[..|worlds| - 1])), worlds[|worlds| - 1]))
  }

  lemma FaithfulLog(flow: Flow, m: Machine)
    requires Faithful(flow, m)
    ensures Meaning(flow, Log(m)).Some? && !m.mismatched && !m.status.Leftover?
  {
    if m.appended == [] {
      assert Log(m) == m.history;
    } else {
      assert m.history[..m.position] == m.history;
      assert Log(m) == Consumed(m);
    }
  }

  lemma BootTolerant(history: seq<Event>)
    ensures BodiesTolerant(Boot(history))
  {
  }

  lemma EmptyMeaning(flow: Flow)
    ensures Meaning(flow, []).Some?
  {
  }

  lemma {:induction false} CrashesLeaveMeaning(flow: Flow, worlds: seq<seq<Live>>)
    requires Replayable(flow)
    ensures Meaning(flow, AfterCrashes(flow, worlds)).Some?
  {
    hide Meaning, Faithful, Replayable, Run, Boot, Log;
    if worlds == [] {
      EmptyMeaning(flow);
    } else {
      var before := AfterCrashes(flow, worlds[..|worlds| - 1]);
      CrashesLeaveMeaning(flow, worlds[..|worlds| - 1]);
      BootFaithful(flow, before);
      BootTolerant(before);
      RunKeepsFaithful(flow, Boot(before), worlds[|worlds| - 1]);
      FaithfulLog(flow, Run(flow, Boot(before), worlds[|worlds| - 1]));
    }
  }

  /** For every replayable workflow, after any number of crashes at any points: the next run
      keeps the log it found, adds to it only at the end, meets no mismatch and never ends
      before the log is used up; and so on for ever, since what it leaves has meaning again. */
  lemma ReplayIsFaithful(flow: Flow, worlds: seq<seq<Live>>, lives: seq<Live>)
    requires Replayable(flow)
    ensures var log := AfterCrashes(flow, worlds);
            var m := Run(flow, Boot(log), lives);
            && log <= Log(m) && m.history == log
            && !m.mismatched && !m.status.Leftover?
            && Faithful(flow, m)
  {
    hide Meaning, Replayable, Faithful;
    var log := AfterCrashes(flow, worlds);
    CrashesLeaveMeaning(flow, worlds);
    BootFaithful(flow, log);
    BootTolerant(log);
    RunKeepsFaithful(flow, Boot(log), lives);
    FaithfulLog(flow, Run(flow, Boot(log), lives));
    RunKeepsLog(flow, Boot(log), lives);
  }

  // ---------------------------------------------------------------- what replay does not do

  /** While there is history left, no boundary's function is called: the step does not depend
      on what the world would answer. */
  lemma ReplayCallsNothing(flow: Flow, m: Machine, live: Live, other: Live)
    requires m.position < |m.history|
    ensures StepOnce(flow, m, live) == StepOnce(flow, m, other)
  {
    hide DelayMs, Settle, FindFrom, Respond;
  }

  /** A boundary that is in the log gives back its recorded payload, and records nothing. */
  lemma ReplayReturnsRecorded(flow: Flow, m: Machine, live: Live)
    requires Faithful(flow, m) && m.status.Active? && m.position < |m.history|
    requires m.frames == [] && flow(m.hist).Call?
    ensures m.history[m.position].key == Called(flow(m.hist).c)
    ensures StepOnce(flow, m, live) ==
            m.(position := m.position + 1, hist := m.hist + [Got(ValueOf(m.history[m.position].payload))])
  {
    hide Meaning, Accept;
    var c, a := flow(m.hist).c, Abstract(flow, m);
    assert a == Rest(m.nextRetry, m.hist, []);
    NextFits(flow, m);
    AcceptTopCall(flow, a, c, m.history[m.position]);
  }

  lemma CallbackReturnsRecorded(flow: Flow, m: Machine, f: Frame, live: Live)
    requires InFrame(flow, m, f) && m.position < |m.history|
    requires f.phase.Running? && f.body(f.attempt, f.phase.h).Call?
    ensures m.history[m.position].key == Called(f.body(f.attempt, f.phase.h).c)
    ensures StepOnce(flow, m, live) ==
            m.(position := m.position + 1,
               frames := [f.(phase := Running(f.phase.h + [Got(ValueOf(m.history[m.position].payload))]))])
  {
    hide Meaning, Accept, Settling, Unbroken;
    assert f in m.frames && FrameOk(m, f);
    var h := f.phase.h;
    assert Strip(h) == h;
    var c, g := f.body(f.attempt, h).c, f.(phase := Running(Strip(h)));
    var a := Rest(m.nextRetry, Strip(m.hist), [g]);
    RunningRests(flow, a);
    NextFits(flow, m);
    AcceptRunning(flow, a, g, c, m.history[m.position]);
  }

  /** The log has moved past an attempt. */
  predicate Passed(a: Rest, id: nat, attempt: nat)
  {
    && id < a.next
    && (a.frames != [] ==>
          var f := a.frames[0];
          id < f.id || (id == f.id && (attempt < f.attempt || (attempt == f.attempt && f.phase.Waiting?))))
  }

  predicate Ordered(a: Rest)
  {
    |a.frames| <= 1 && (a.frames != [] ==> a.frames[0].id < a.next && a.frames[0].attempt >= 1)
  }

  lemma AcceptMovesOn(flow: Flow, a: Rest, e: Event, id: nat, attempt: nat)
    requires Ordered(a) && Accept(flow, a, e).Some?
    requires Passed(a, id, attempt) || (e.key.Outcome? && e.key.id == id && e.key.attempt == attempt)
    ensures Ordered(Accept(flow, a, e).value) && Passed(Accept(flow, a, e).value, id, attempt)
  {
    hide DelayMs;
  }

  lemma AcceptOrdered(flow: Flow, a: Rest, e: Event)
    requires Ordered(a) && Accept(flow, a, e).Some?
    ensures Ordered(Accept(flow, a, e).value)
  {
    hide DelayMs;
  }

  lemma {:induction false} MeaningOrdered(flow: Flow, log: seq<Event>)
    requires Meaning(flow, log).Some?
    ensures Ordered(Meaning(flow, log).value)
  {
    if log != [] {
      MeaningOrdered(flow, log[..|log| - 1]);
      AcceptOrdered(flow, Meaning(flow, log[..|log| - 1]).value, log[|log| - 1]);
    }
  }

  lemma {:induction false} OutcomesArePassed(flow: Flow, log: seq<Event>, j: nat)
    requires Meaning(flow, log).Some? && j < |log| && log[j].key.Outcome?
    ensures Passed(Meaning(flow, log).value, log[j].key.id, log[j].key.attempt)
  {
    hide Accept;
    var front, e := log[..|log| - 1], log[|log| - 1];
    MeaningOrdered(flow, front);
    if j < |front| { OutcomesArePassed(flow, front, j); }
    AcceptMovesOn(flow, Meaning(flow, front).value, e, log[j].key.id, log[j].key.attempt);
  }

  /** The log has begun the retry `id`: it is past the start of its first attempt. */
  predicate Begun(a: Rest, id: nat)
  {
    && id < a.next
    && (a.frames != [] && a.frames[0].id <= id ==>
          a.frames[0].id == id && !(a.frames[0].attempt == 1 && a.frames[0].phase.Starting?))
  }

  lemma AcceptKeepsBegun(flow: Flow, a: Rest, e: Event, id: nat)
    requires Ordered(a) && Accept(flow, a, e).Some? && Begun(a, id)
    ensures Begun(Accept(flow, a, e).value, id)
  {
    hide DelayMs;
  }

  lemma {:induction false} LogKeepsBegun(flow: Flow, log: seq<Event>, k: nat, id: nat)
    requires Meaning(flow, log).Some? && k <= |log|
    requires Meaning(flow, log[..k]).Some? && Begun(Meaning(flow, log[..k]).value, id)
    ensures Begun(Meaning(flow, log).value, id)
    decreases |log|
  {
    if k == |log| {
      assert log[..k] == log;
    } else {
      var front := log[..|log| - 1];
      assert front[..k] == log[..k];
      MeaningOrdered(flow, front);
      LogKeepsBegun(flow, front, k, id);
      hide Accept, Begun;
      AcceptKeepsBegun(flow, Meaning(flow, front).value, log[|log| - 1], id);
    }
  }

  /** A callback runs only for an attempt whose outcome is nowhere in the history, and at
      most `maxAttempts` times. */
  lemma RecordedOutcomeSkipsCallback(flow: Flow, m: Machine, f: Frame, j: nat)
    requires InFrame(flow, m, f) && f.phase.Running? && j < |m.history|
    ensures m.history[j].key != OutcomeKey(f)
    ensures 1 <= f.attempt <= f.policy.maxAttempts
  {
    assert f in m.frames && FrameOk(m, f);
    if j < m.position && m.history[j].key == OutcomeKey(f) {
      var log := Consumed(m);
      assert log[j] == m.history[j];
      OutcomesArePassed(flow, log, j);
      assert false;
    }
  }

  // ---------------------------------------------------------------- replay gets through

  /** No failure unknown to the log is in play, and nothing has been appended. */
  ghost predicate Clean(m: Machine)
  {
    && m.appended == [] && Strip(m.hist) == m.hist && Unbroken(m.hist)
    && forall f :: f in m.frames ==> !f.phase.Recording? && (f.phase.Running? ==> Strip(f.phase.h) == f.phase.h)
  }

  /** Steps a replay may still take before it has consumed another event. */
  function Rank(m: Machine): (n: nat)
  {
    if m.frames == [] then 2
    else
      match m.frames[0].phase
      case Waiting => 2
      case Starting => 1
      case Finding => 1
      case _ => 0
  }

  function Left(m: Machine): (n: nat)
    requires m.position <= |m.history|
  {
    3 * (|m.history| - m.position) + Rank(m)
  }

  ghost predicate Replaying(flow: Flow, m: Machine)
  {
    Faithful(flow, m) && m.status.Active? && Clean(m)
  }

  /** With history left the workflow does not end. */
  lemma TopAsks(flow: Flow, m: Machine, live: Live)
    requires Faithful(flow, m) && m.status.Active? && m.frames == [] && m.position < |m.history|
    ensures !flow(m.hist).End?
  {
    hide Faithful;
    if flow(m.hist).End? {
      TopEndKeeps(flow, m, live);
      assert false;
    }
  }

  ghost predicate Closer(m: Machine, s: Machine)
  {
    && Clean(s) && s.status.Active? && s.history == m.history
    && s.position <= |s.history| && m.position <= |m.history| && Left(s) < Left(m)
  }

  lemma TopCallCloser(flow: Flow, m: Machine, live: Live)
    requires Clean(m) && m.status.Active? && m.frames == [] && flow(m.hist).Call? && m.position < |m.history|
    requires !StepOnce(flow, m, live).mismatched
    ensures Closer(m, StepOnce(flow, m, live))
  {
    hide Strip;
    StripPushKept(m.hist, Got(ValueOf(m.history[m.position].payload)));
  }

  lemma TopRetryCloser(flow: Flow, m: Machine, live: Live)
    requires Clean(m) && m.status.Active? && m.frames == [] && flow(m.hist).Retry? && m.position < |m.history|
    ensures Closer(m, StepOnce(flow, m, live))
  {
    hide Strip;
  }

  lemma TopProgresses(flow: Flow, m: Machine, live: Live)
    requires Replaying(flow, m) && m.position < |m.history| && m.frames == []
    requires Faithful(flow, StepOnce(flow, m, live))
    ensures Replaying(flow, StepOnce(flow, m, live)) && Left(StepOnce(flow, m, live)) < Left(m)
  {
    TopAsks(flow, m, live);
    FaithfulLog(flow, StepOnce(flow, m, live));
    hide Faithful, StepOnce, Clean;
    if flow(m.hist).Call? { TopCallCloser(flow, m, live); } else { TopRetryCloser(flow, m, live); }
  }

  /** What a replay step in the retry frame `f` starts from. */
  ghost predicate Midway(flow: Flow, m: Machine, f: Frame, live: Live)
  {
    && m.frames == [f] && Clean(m) && m.status.Active? && m.position < |m.history|
    && !StepOnce(flow, m, live).mismatched
  }

  lemma StartingCloser(flow: Flow, m: Machine, f: Frame, live: Live)
    requires Midway(flow, m, f, live) && f.phase.Starting?
    ensures Closer(m, StepOnce(flow, m, live))
  {
    hide Strip;
  }

  lemma SettleClean(m: Machine, f: Frame, r: Result)
    requires m.frames == [f] && m.status.Active? && Strip(m.hist) == m.hist && m.appended == [] && Unbroken(m.hist)
    requires Recorded(r) == r
    ensures Clean(Settle(m, f, r)) && Settle(m, f, r).status.Active?
    ensures Settle(m, f, r).position == m.position && Settle(m, f, r).history == m.history
    ensures Rank(Settle(m, f, r)) <= 2
  {
    hide Strip, Unbroken, DelayMs;
    match Settled(f, r)
    case Some(response) =>
      StripPushKept(m.hist, response);
      UnbrokenPush(m.hist, response);
    case None =>
  }

  lemma FindingCloser(flow: Flow, m: Machine, f: Frame, live: Live)
    requires Midway(flow, m, f, live) && f.phase.Finding?
    ensures Closer(m, StepOnce(flow, m, live))
  {
    hide Settle;
    assert Strip([]) == [];
    hide Strip;
    var found := FindFrom(m.history, m.position, OutcomeKey(f));
    if found.Some? { SettleClean(m.(position := found.value + 1), f, ResultOf(m.history[found.value].payload)); }
  }

  lemma RunningCloser(flow: Flow, m: Machine, f: Frame, live: Live)
    requires Midway(flow, m, f, live) && f.phase.Running? && f.body(f.attempt, f.phase.h).Call?
    ensures Closer(m, StepOnce(flow, m, live))
  {
    hide Strip;
    assert f in m.frames;
    StripPushKept(f.phase.h, Got(ValueOf(m.history[m.position].payload)));
  }

  lemma WaitingCloser(flow: Flow, m: Machine, f: Frame, live: Live)
    requires Midway(flow, m, f, live) && f.phase.Waiting?
    ensures Closer(m, StepOnce(flow, m, live))
  {
    hide Strip, DelayMs;
  }

  lemma FrameProgresses(flow: Flow, m: Machine, live: Live)
    requires Replaying(flow, m) && m.position < |m.history| && m.frames != []
    requires Faithful(flow, StepOnce(flow, m, live))
    ensures Replaying(flow, StepOnce(flow, m, live)) && Left(StepOnce(flow, m, live)) < Left(m)
  {
    var f := m.frames[0];
    assert f in m.frames && FrameOk(m, f) && m.frames == [f];
    assert !f.phase.Recording?;
    if f.phase.Running? { RunningMustCall(flow, m, f); }
    assert Midway(flow, m, f, live);
    hide Midway, FrameOk, StepOnce;
    match f.phase
    case Starting => StartingCloser(flow, m, f, live);
    case Finding => FindingCloser(flow, m, f, live);
    case Running(_) => RunningCloser(flow, m, f, live);
    case Waiting => WaitingCloser(flow, m, f, live);
    case _ =>
  }

  /** Replay moves on: with history left, every step keeps the machine clean and active and
      brings it closer to the end of the history. */
  lemma ReplayProgresses(flow: Flow, m: Machine, live: Live)
    requires Replaying(flow, m) && m.position < |m.history|
    ensures Replaying(flow, StepOnce(flow, m, live))
    ensures Left(StepOnce(flow, m, live)) < Left(m)
  {
    assert Tolerates(flow, m.hist);
    forall f | f in m.frames && f.phase.Running? ensures BodyTolerates(f.body, f.attempt, f.phase.h) {
      assert m.frames == [f];
      RunningMustCall(flow, m, f);
    }
    StepKeepsFaithful(flow, m, live);
    hide Faithful, Meaning;
    if m.frames == [] {
      TopProgresses(flow, m, live);
    } else {
      FrameProgresses(flow, m, live);
    }
  }

  lemma {:induction false} RunSplit(flow: Flow, m: Machine, lives: seq<Live>, k: nat)
    requires k <= |lives|
    ensures Run(flow, m, lives) == Run(flow, Run(flow, m, lives[..k]), lives[k..])
    decreases k
  {
    hide StepOnce;
    if k == 0 {
      assert lives[0..] == lives && lives[..0] == [];
    } else {
      RunSplit(flow, StepOnce(flow, m, lives[0]), lives[1..], k - 1);
      assert lives[1..][..k - 1] == lives[..k][1..] && lives[1..][k - 1..] == lives[k..];
    }
  }

  lemma SettleUnseen(m: Machine, history: seq<Event>, f: Frame, r: Result)
    requires m.frames == [f]
    ensures Settle(m.(history := history), f, r) == Settle(m, f, r).(history := history)
  {
    hide Settled;
  }

  lemma {:induction false} FindUnseen(history: seq<Event>, extra: seq<Event>, from: nat, key: Key)
    requires from <= |history| && forall i :: 0 <= i < |extra| ==> extra[i].key != key
    ensures FindFrom(history + extra, from, key) == FindFrom(history, from, key)
    decreases |history| - from
  {
    if from < |history| {
      assert (history + extra)[from] == history[from];
      FindUnseen(history, extra, from + 1, key);
    }
  }

  lemma FindingUnseen(m: Machine, extra: seq<Event>, f: Frame, live: Live)
    requires m.frames == [f] && f.phase.Finding? && m.position <= |m.history|
    requires forall i :: 0 <= i < |extra| ==> extra[i].key != OutcomeKey(f)
    ensures StepFrame(m.(history := m.history + extra), f, live) ==
            StepFrame(m, f, live).(history := m.history + extra)
  {
    hide Settle;
    var more, found := m.history + extra, FindFrom(m.history, m.position, OutcomeKey(f));
    FindUnseen(m.history, extra, m.position, OutcomeKey(f));
    if found.Some? {
      assert more[found.value] == m.history[found.value];
      SettleUnseen(m.(position := found.value + 1), more, f, ResultOf(m.history[found.value].payload));
    }
  }

  /** The answer as it would be with another history around it. */
  function Within(a: Answer, history: seq<Event>): (r: Answer)
  {
    if a.Answered? then a.(m := a.m.(history := history)) else a
  }

  lemma AskUnseen(m: Machine, extra: seq<Event>, c: CallKey, live: Live, key: Key, payload: Payload)
    requires m.position < |m.history|
    ensures var n := m.(history := m.history + extra);
            && AskCall(n, c, live) == Within(AskCall(m, c, live), n.history)
            && AskRetry(n, key, payload) == Within(AskRetry(m, key, payload), n.history)
  {
    assert (m.history + extra)[m.position] == m.history[m.position];
  }

  lemma RunningUnseen(m: Machine, extra: seq<Event>, f: Frame, live: Live)
    requires m.frames == [f] && m.position < |m.history| && f.phase.Running?
    ensures StepFrame(m.(history := m.history + extra), f, live) ==
            StepFrame(m, f, live).(history := m.history + extra)
  {
    hide AskCall, AskRetry;
    var h := f.phase.h;
    if f.body(f.attempt, h).Call? {
      AskUnseen(m, extra, f.body(f.attempt, h).c, live, OutcomeKey(f), AttemptNo(0));
      AskOnlyLogs(m, f.body(f.attempt, h).c, live, OutcomeKey(f), AttemptNo(0));
    }
  }

  lemma WaitingUnseen(m: Machine, extra: seq<Event>, f: Frame, live: Live)
    requires m.frames == [f] && m.position < |m.history| && f.phase.Waiting?
    ensures StepFrame(m.(history := m.history + extra), f, live) ==
            StepFrame(m, f, live).(history := m.history + extra)
  {
    hide AskCall, AskRetry, DelayMs;
    var c := SleepFor(DelayMs(f.policy, f.attempt));
    AskUnseen(m, extra, c, live, OutcomeKey(f), AttemptNo(0));
    AskOnlyLogs(m, c, live, OutcomeKey(f), AttemptNo(0));
  }

  lemma FrameUnseen(m: Machine, extra: seq<Event>, f: Frame, live: Live)
    requires m.frames == [f] && m.position < |m.history| && !f.phase.Finding?
    ensures StepFrame(m.(history := m.history + extra), f, live) ==
            StepFrame(m, f, live).(history := m.history + extra)
  {
    hide AskCall, AskRetry, DelayMs, Settle;
    match f.phase
    case Starting => AskUnseen(m, extra, SleepFor(0), live, StartKey(f), AttemptNo(f.attempt));
    case Running(h) => RunningUnseen(m, extra, f, live);
    case Recording(_, r) =>
      AskUnseen(m, extra, SleepFor(0), live, OutcomeKey(f), Ended(Recorded(r)));
      var a := AskRetry(m, OutcomeKey(f), Ended(Recorded(r)));
      AskOnlyLogs(m, SleepFor(0), live, OutcomeKey(f), Ended(Recorded(r)));
      if a.Answered? { SettleUnseen(a.m, m.history + extra, f, r); }
    case Waiting => WaitingUnseen(m, extra, f, live);
    case _ =>
  }

  /** The events hold no outcome of a retry the log has begun. */
  ghost predicate Later(flow: Flow, log: seq<Event>, extra: seq<Event>)
    requires Meaning(flow, log).Some?
  {
    forall i :: 0 <= i < |extra| && extra[i].key.Outcome? ==> !Begun(Meaning(flow, log).value, extra[i].key.id)
  }

  lemma FindingHasBegun(flow: Flow, m: Machine, f: Frame)
    requires Replaying(flow, m) && m.frames == [f] && f.phase.Finding?
    ensures Begun(Meaning(flow, m.history).value, f.id)
  {
    assert Consumed(m) == m.history[..m.position];
    MeaningOrdered(flow, Consumed(m));
    hide Meaning;
    LogKeepsBegun(flow, m.history, m.position, f.id);
  }

  lemma TopUnseen(flow: Flow, m: Machine, extra: seq<Event>, live: Live)
    requires m.frames == [] && m.position < |m.history|
    ensures StepOnce(flow, m.(history := m.history + extra), live) ==
            StepOnce(flow, m, live).(history := m.history + extra)
  {
    assert (m.history + extra)[m.position] == m.history[m.position];
  }

  lemma ReplayWithin(flow: Flow, m: Machine)
    requires Replaying(flow, m) && !AtEnd(m)
    ensures m.position < |m.history| && |m.frames| <= 1
  {
  }

  /** Events behind the history do not change how it is replayed. */
  lemma ExtraUnseen(flow: Flow, m: Machine, extra: seq<Event>, live: Live)
    requires Replaying(flow, m) && m.position < |m.history| && Later(flow, m.history, extra)
    ensures StepOnce(flow, m.(history := m.history + extra), live) ==
            StepOnce(flow, m, live).(history := m.history + extra)
  {
    ReplayWithin(flow, m);
    if m.frames == [] {
      TopUnseen(flow, m, extra, live);
    } else {
      var f := m.frames[0];
      if f.phase.Finding? {
        FindingHasBegun(flow, m, f);
        hide StepFrame, Faithful, Clean, Begun, Meaning;
        FindingUnseen(m, extra, f, live);
      } else {
        hide StepFrame, Faithful, Clean, Begun, Meaning;
        FrameUnseen(m, extra, f, live);
      }
    }
  }

  /** Replay gets to the end of its history, in a bounded number of steps, and would get
      there the same way if more events were recorded behind it. */
  lemma {:induction false} ReplayReachesEnd(flow: Flow, m: Machine, lives: seq<Live>, extra: seq<Event>)
    returns (k: nat)
    requires Replaying(flow, m) && |lives| >= Left(m) && Later(flow, m.history, extra)
    ensures k <= Left(m) && k <= |lives|
    ensures Replaying(flow, Run(flow, m, lives[..k])) && AtEnd(Run(flow, m, lives[..k]))
    ensures Run(flow, m, lives[..k]).history == m.history
    ensures Run(flow, m.(history := m.history + extra), lives[..k]) ==
            Run(flow, m, lives[..k]).(history := m.history + extra)
    decreases |lives|
  {
    hide StepOnce, Faithful, Clean, Later;
    if AtEnd(m) {
      k := 0;
    } else {
      ReplayWithin(flow, m);
      var s, live := StepOnce(flow, m, lives[0]), lives[0];
      ReplayProgresses(flow, m, live);
      StepKeepsLog(flow, m, live);
      ExtraUnseen(flow, m, extra, live);
      k := ReplayReachesEnd(flow, s, lives[1..], extra);
      k := k + 1;
      assert lives[..k][1..] == lives[1..][..k - 1];
    }
  }

  lemma BootReplays(flow: Flow, history: seq<Event>)
    requires Meaning(flow, history).Some?
    ensures Replaying(flow, Boot(history)) && Left(Boot(history)) == 3 * |history| + 2
  {
    BootFaithful(flow, history);
  }

  /** A replay that has used up a log at whose end the workflow is between retries is where the
      run that wrote the log was, but for the failures the log knows nothing of. */
  lemma SamePlace(flow: Flow, m: Machine, n: Machine)
    requires Faithful(flow, m) && m.frames == [] && Unbroken(m.hist) && !flow(Strip(m.hist)).Retry?
    requires Replaying(flow, n) && AtEnd(n) && AtEnd(m) && Log(m) == n.history
    ensures n.frames == [] && n.hist == Strip(m.hist) && n.nextRetry == m.nextRetry
  {
    hide Meaning;
    assert n.history[..|n.history|] == n.history;
    assert Consumed(n) == n.history;
    assert m.history[..|m.history|] == m.history;
    assert Consumed(m) == Log(m);
    assert Abstract(flow, m) == Rest(m.nextRetry, Strip(m.hist), []);
    assert Abstract(flow, n) == Abstract(flow, m);
  }

  lemma {:induction false} RunStopped(flow: Flow, m: Machine, lives: seq<Live>)
    requires !m.status.Active?
    ensures Run(flow, m, lives) == m
    decreases |lives|
  {
    if lives != [] { RunStopped(flow, m, lives[1..]); }
  }

  /** A workflow that has completed completes again when it is run over its log, if it completes
      with the responses of the log: the same result, nothing recorded and no function called. */
  lemma CompletedRunReplays(flow: Flow, m: Machine, r: Result, lives: seq<Live>)
    requires Faithful(flow, m) && m.status.Active? && AtEnd(m) && m.frames == [] && Unbroken(m.hist)
    requires flow(m.hist) == flow(Strip(m.hist)) == End(r) && |lives| >= 3 * |Log(m)| + 3
    ensures var s := Run(flow, Boot(Log(m)), lives);
            s.status == Finished(r) && s.hist == Strip(m.hist) && s.appended == [] && !s.mismatched
  {
    var log := Log(m);
    FaithfulLog(flow, m);
    BootReplays(flow, log);
    var k := ReplayReachesEnd(flow, Boot(log), lives, []);
    var n := Run(flow, Boot(log), lives[..k]);
    SamePlace(flow, m, n);
    RunSplit(flow, Boot(log), lives, k);
    hide Meaning;
    var done := StepOnce(flow, n, lives[k..][0]);
    assert done == n.(status := Finished(r));
    RunStopped(flow, done, lives[k..][1..]);
  }
}
