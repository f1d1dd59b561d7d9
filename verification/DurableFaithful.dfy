/**
 What a log of a workflow means, and that every step of a process keeps to it: the state a log
 determines is the state of any process that has consumed or written it.
 */
module DurableFaithful {
  import opened OptionWrapper
  import opened DurableMachine

  // ---------------------------------------------------------------- workflows that can be replayed

  /** What the log makes of a response: nothing of an exception it knows nothing of, the
      recorded value of a sleep that failed late, and of a value what JSON keeps. */
  function Kept(r: Response): (k: seq<Response>)
  {
    match r
    case Threw(_) => []
    case Got(v) => [Got(Parsed(v.json))]
    case Late(_) => [Got(Parsed(""))]
    case _ => [r]
  }

  /** The responses as a re-run gets them from the log. */
  function Strip(h: seq<Response>): (r: seq<Response>)
  {
    if h == [] then [] else Strip(h[..|h| - 1]) + Kept(h[|h| - 1])
  }

  predicate Unbroken(h: seq<Response>) { forall i :: 0 <= i < |h| ==> !h[i].Broken? }

  /** The program ends, or goes on as it would with the responses of the log. After a boundary's
      function has thrown, trying it again is fine, moving on to another boundary is not. */
  ghost predicate Tolerates(flow: Flow, h: seq<Response>)
  {
    flow(h).End? || (Unbroken(h) && flow(h) == flow(Strip(h)))
  }

  /** The same for a retry's callback, which does not start a retry of its own. */
  ghost predicate BodyTolerates(body: (nat, seq<Response>) -> Action, n: nat, h: seq<Response>)
  {
    body(n, h).End? || (body(n, h).Call? && body(n, h) == body(n, Strip(h)))
  }

  ghost predicate TolerantBody(body: (nat, seq<Response>) -> Action)
  {
    forall n, h :: BodyTolerates(body, n, h)
  }

  ghost predicate RetriesTolerantly(flow: Flow, h: seq<Response>)
  {
    flow(h).Retry? ==> TolerantBody(flow(h).body)
  }

  ghost predicate Replayable(flow: Flow)
  {
    forall h :: Tolerates(flow, h) && RetriesTolerantly(flow, h)
  }

  // ---------------------------------------------------------------- what a log means

  /** The state a log determines: at rest, waiting for the next recorded event. Only
      `Starting`, `Running` and `Waiting` frames rest. */
  datatype Rest = Rest(next: nat, hist: seq<Response>, frames: seq<Frame>)

  /** Take the steps that neither record nor consume an event. */
  function Settling(flow: Flow, a: Rest): (r: Rest)
  {
    if a.frames == [] then
      var act := flow(a.hist);
      if act.Retry? then Rest(a.next + 1, a.hist, [Frame(a.next, act.policy, act.body, 1, Starting)]) else a
    else if a.frames[0].phase.Waiting? && DelayMs(a.frames[0].policy, a.frames[0].attempt) == 0 then
      a.(frames := [NextAttempt(a.frames[0])])
    else a
  }

  function SettleRest(a: Rest, f: Frame, r: Result): (s: Rest)
  {
    match Settled(f, r)
    case Some(response) => Rest(a.next, a.hist + [response], [])
    case None => a.(frames := [f.(phase := Waiting)])
  }

  /** The state after one more event, if the event can come next. */
  function Accept(flow: Flow, a: Rest, e: Event): (r: Option<Rest>)
  {
    if a.frames == [] then
      var act := flow(a.hist);
      if act.Call? && e.key == Called(act.c) then
        Some(Settling(flow, a.(hist := a.hist + [Got(ValueOf(e.payload))])))
      else None
    else
      var f := a.frames[0];
      match f.phase
      case Starting => if e.key == StartKey(f) then Some(a.(frames := [f.(phase := Running([]))])) else None
      case Running(h) =>
        var act := f.body(f.attempt, h);
        if e.key == OutcomeKey(f) then Some(Settling(flow, SettleRest(a, f, ResultOf(e.payload))))
        else if act.Call? && e.key == Called(act.c) then
          Some(a.(frames := [f.(phase := Running(h + [Got(ValueOf(e.payload))]))]))
        else None
      case Waiting =>
        if e.key == Called(SleepFor(DelayMs(f.policy, f.attempt))) then Some(a.(frames := [NextAttempt(f)]))
        else None
      case _ => None
  }

  /** The state a whole log determines; none if no run can have left it. */
  function Meaning(flow: Flow, log: seq<Event>): (r: Option<Rest>)
  {
    if log == [] then Some(Settling(flow, Rest(0, [], [])))
    else
      var before := Meaning(flow, log[..|log| - 1]);
      if before.None? then None else Accept(flow, before.value, log[|log| - 1])
  }

  lemma {:induction false} PrefixHasMeaning(flow: Flow, log: seq<Event>, k: nat)
    requires Meaning(flow, log).Some? && k <= |log|
    ensures Meaning(flow, log[..k]).Some?
    decreases |log|
  {
    if k == |log| {
      assert log[..k] == log;
    } else {
      PrefixHasMeaning(flow, log[..|log| - 1], k);
      assert log[..|log| - 1][..k] == log[..k];
    }
  }

  /** The event at `k` of a log with meaning is one that could come next. */
  lemma NextAccepted(flow: Flow, log: seq<Event>, k: nat)
    requires Meaning(flow, log).Some? && k < |log|
    ensures Meaning(flow, log[..k]).Some?
    ensures Meaning(flow, log[..k + 1]).Some?
    ensures Meaning(flow, log[..k + 1]) == Accept(flow, Meaning(flow, log[..k]).value, log[k])
  {
    PrefixHasMeaning(flow, log, k);
    PrefixHasMeaning(flow, log, k + 1);
    assert log[..k + 1][..k] == log[..k];
  }

  // ---------------------------------------------------------------- the machine against the log

  function RestPhase(p: Phase): (r: Phase)
  {
    match p
    case Finding => Running([])
    case Running(h) => Running(Strip(h))
    case Recording(h, _) => Running(Strip(h))
    case _ => p
  }

  /** The state of rest the machine is in or on its way to. */
  function Abstract(flow: Flow, m: Machine): (r: Rest)
  {
    Settling(flow, Rest(m.nextRetry, Strip(m.hist),
                        if m.frames == [] then [] else [m.frames[0].(phase := RestPhase(m.frames[0].phase))]))
  }

  function Consumed(m: Machine): (r: seq<Event>)
    requires m.position <= |m.history|
  {
    m.history[..m.position] + m.appended
  }

  predicate AtEnd(m: Machine) { m.position == |m.history| }

  /** No later event of the history ends the attempt the frame is in. */
  predicate NoOutcomeAhead(m: Machine, f: Frame)
  {
    forall j :: m.position <= j < |m.history| ==> m.history[j].key != OutcomeKey(f)
  }

  ghost predicate FrameOk(m: Machine, f: Frame)
  {
    && 1 <= f.attempt <= f.policy.maxAttempts
    && (f.phase.Waiting? ==> f.attempt < f.policy.maxAttempts)
    && (f.phase.Running? ==> NoOutcomeAhead(m, f) && (Strip(f.phase.h) != f.phase.h ==> AtEnd(m)))
    && (f.phase.Recording? ==> AtEnd(m))
  }

  /** The machine keeps to the log. After a broken retry it can only end. */
  ghost predicate Faithful(flow: Flow, m: Machine)
  {
    && m.position <= |m.history| && (m.appended != [] ==> AtEnd(m))
    && Meaning(flow, m.history).Some?
    && |m.frames| <= 1 && (forall f :: f in m.frames ==> FrameOk(m, f))
    && (Strip(m.hist) != m.hist ==> AtEnd(m))
    && (m.status.Active? || m.status.Finished?) && !m.mismatched
    && (if Unbroken(m.hist) then Meaning(flow, Consumed(m)) == Some(Abstract(flow, m))
        else m.frames == [] && AtEnd(m) && Meaning(flow, Consumed(m)).Some?)
  }

  lemma StripPush(h: seq<Response>, r: Response)
    ensures Strip(h + [r]) == Strip(h) + Kept(r)
  {
    assert (h + [r])[..|h|] == h;
  }

  lemma StripPushThrew(h: seq<Response>, x: Fault)
    ensures Strip(h + [Threw(x)]) == Strip(h)
  {
    StripPush(h, Threw(x));
  }

  lemma StripPushKept(h: seq<Response>, r: Response)
    requires Kept(r) == [r]
    ensures Strip(h + [r]) == h + [r] <==> Strip(h) == h
  {
    StripPush(h, r);
    if Strip(h + [r]) == h + [r] {
      assert (Strip(h) + [r])[..|Strip(h)|] == Strip(h);
      assert (h + [r])[..|h|] == h;
    }
  }

  lemma MeaningSnoc(flow: Flow, log: seq<Event>, e: Event)
    requires Meaning(flow, log).Some?
    ensures Meaning(flow, log + [e]) == Accept(flow, Meaning(flow, log).value, e)
  {
    assert (log + [e])[..|log|] == log;
  }

  /** Consuming the next event of the history, or appending one at its end. */
  lemma ConsumeNext(flow: Flow, m: Machine)
    requires m.position < |m.history| && m.appended == [] && Meaning(flow, m.history).Some?
    requires Meaning(flow, Consumed(m)).Some?
    ensures var m1 := m.(position := m.position + 1);
            && Accept(flow, Meaning(flow, Consumed(m)).value, m.history[m.position]).Some?
            && Meaning(flow, Consumed(m1)) == Accept(flow, Meaning(flow, Consumed(m)).value, m.history[m.position])
  {
    NextAccepted(flow, m.history, m.position);
    assert m.history[..m.position] + [] == m.history[..m.position];
    assert m.history[..m.position + 1] + [] == m.history[..m.position + 1];
  }

  lemma AppendNext(flow: Flow, m: Machine, e: Event)
    requires AtEnd(m) && Meaning(flow, Consumed(m)).Some?
    ensures Meaning(flow, Consumed(Append(m, e))) == Accept(flow, Meaning(flow, Consumed(m)).value, e)
  {
    assert Consumed(Append(m, e)) == Consumed(m) + [e];
    MeaningSnoc(flow, Consumed(m), e);
  }

  // ---------------------------------------------------------------- every step is faithful

  /** `m1` is `m` with `e` replayed from the history or appended at its end. */
  ghost predicate Advanced(m: Machine, m1: Machine, e: Event)
  {
    if m.position < |m.history| then
      m.history[m.position] == e && m1 == m.(position := m.position + 1)
    else m1 == Append(m, e)
  }

  /** What holds of every faithful machine whatever its programs do. */
  ghost predicate Sound(flow: Flow, m: Machine)
  {
    && m.position <= |m.history| && (m.appended != [] ==> AtEnd(m))
    && Meaning(flow, m.history).Some? && Meaning(flow, Consumed(m)).Some?
  }

  lemma AdvanceMeaning(flow: Flow, m: Machine, m1: Machine, e: Event)
    requires Sound(flow, m) && Advanced(m, m1, e)
    ensures m1.position <= |m1.history| && (m1.appended != [] ==> AtEnd(m1))
    ensures Meaning(flow, Consumed(m1)) == Accept(flow, Meaning(flow, Consumed(m)).value, e)
  {
    if m.position < |m.history| {
      ConsumeNext(flow, m);
    } else {
      AppendNext(flow, m, e);
    }
  }

  /** The next event of the history is one the state determined so far can accept. */
  lemma NextFits(flow: Flow, m: Machine)
    requires Sound(flow, m) && m.position < |m.history|
    ensures Accept(flow, Meaning(flow, Consumed(m)).value, m.history[m.position]).Some?
  {
    ConsumeNext(flow, m);
  }

  /** A replayed response is the recorded value; a live one is recorded as what JSON keeps of it. */
  lemma CallAnswers(m: Machine, c: CallKey, live: Live)
    requires m.position < |m.history| ==> m.history[m.position].key == Called(c)
    ensures var a := AskCall(m, c, live);
            && !a.Differs?
            && (a.Answered? ==>
                  && Advanced(m, a.m, Event(Called(c), a.payload)) && !a.r.Broken?
                  && Kept(a.r) == [Got(ValueOf(a.payload))]
                  && (m.position < |m.history| ==> Kept(a.r) == [a.r]))
            && (a.Thrown? ==> m.position >= |m.history|)
  {
  }

  lemma RetryAnswers(m: Machine, key: Key, payload: Payload)
    requires m.position < |m.history| ==> m.history[m.position].key == key
    ensures var a := AskRetry(m, key, payload);
            && a.Answered?
            && Advanced(m, a.m, Event(key, a.payload))
            && (m.position >= |m.history| ==> a.payload == payload)
  {
  }

  lemma AcceptTopCall(flow: Flow, a: Rest, c: CallKey, e: Event)
    requires a.frames == [] && flow(a.hist) == Call(c)
    ensures Accept(flow, a, e) ==
            if e.key == Called(c) then Some(Settling(flow, a.(hist := a.hist + [Got(ValueOf(e.payload))]))) else None
  {
  }

  lemma TopCallAsks(flow: Flow, m: Machine)
    requires Tolerates(flow, m.hist) && Faithful(flow, m) && m.frames == [] && flow(m.hist).Call?
    ensures Unbroken(m.hist) && flow(Strip(m.hist)) == flow(m.hist)
    ensures Abstract(flow, m) == Rest(m.nextRetry, Strip(m.hist), [])
    ensures m.position < |m.history| ==> m.history[m.position].key == Called(flow(m.hist).c)
  {
    hide Meaning, Accept, Strip;
    if m.position < |m.history| {
      NextFits(flow, m);
      AcceptTopCall(flow, Abstract(flow, m), flow(m.hist).c, m.history[m.position]);
    }
  }

  lemma UnbrokenPush(h: seq<Response>, r: Response)
    ensures Unbroken(h + [r]) <==> Unbroken(h) && !r.Broken?
  {
    assert (h + [r])[|h|] == r;
    assert forall i :: 0 <= i < |h| ==> (h + [r])[i] == h[i];
  }

  lemma TopCallKeeps(flow: Flow, m: Machine, live: Live)
    requires Tolerates(flow, m.hist) && Faithful(flow, m) && m.status.Active? && m.frames == [] && flow(m.hist).Call?
    ensures Faithful(flow, StepOnce(flow, m, live))
  {
    hide Meaning, Accept, Strip, Unbroken, Tolerates, Settling;
    TopCallAsks(flow, m);
    var c, a := flow(m.hist).c, Rest(m.nextRetry, Strip(m.hist), []);
    CallAnswers(m, c, live);
    match AskCall(m, c, live)
    case Answered(r, p, m1) =>
      var e := Event(Called(c), p);
      AdvanceMeaning(flow, m, m1, e);
      AcceptTopCall(flow, a, c, e);
      StripPush(m.hist, r);
      if m.position < |m.history| { StripPushKept(m.hist, r); }
      UnbrokenPush(m.hist, r);
    case Thrown(x) =>
      StripPushThrew(m.hist, Error(x));
      UnbrokenPush(m.hist, Threw(Error(x)));
  }

  lemma TopRetryKeeps(flow: Flow, m: Machine, live: Live)
    requires Tolerates(flow, m.hist)
    requires Faithful(flow, m) && m.status.Active? && m.frames == [] && flow(m.hist).Retry?
    ensures Faithful(flow, StepOnce(flow, m, live))
  {
    hide Meaning, Accept;
  }

  lemma TopEndKeeps(flow: Flow, m: Machine, live: Live)
    requires Faithful(flow, m) && m.status.Active? && m.frames == [] && flow(m.hist).End?
    ensures Faithful(flow, StepOnce(flow, m, live)) && StepOnce(flow, m, live).status.Finished? && AtEnd(m)
  {
    if m.position < |m.history| {
      NextFits(flow, m);
      assert false;
    }
  }

  /** A faithful machine in the retry frame `f`. */
  ghost predicate InFrame(flow: Flow, m: Machine, f: Frame)
  {
    Faithful(flow, m) && m.status.Active? && m.frames == [f]
  }

  lemma StartingKeeps(flow: Flow, m: Machine, f: Frame, live: Live)
    requires InFrame(flow, m, f) && f.phase.Starting?
    ensures Faithful(flow, StepOnce(flow, m, live))
  {
    hide Meaning, Strip, Unbroken;
    var a := Abstract(flow, m);
    assert f in m.frames && FrameOk(m, f);
    assert a == Rest(m.nextRetry, Strip(m.hist), [f]);
    if m.position < |m.history| { NextFits(flow, m); }
    RetryAnswers(m, StartKey(f), AttemptNo(f.attempt));
    var answer := AskRetry(m, StartKey(f), AttemptNo(f.attempt));
    AdvanceMeaning(flow, m, answer.m, Event(StartKey(f), answer.payload));
  }

  lemma AcceptRunning(flow: Flow, a: Rest, g: Frame, c: CallKey, e: Event)
    requires a.frames == [g] && g.phase.Running? && g.body(g.attempt, g.phase.h) == Call(c)
    requires e.key != OutcomeKey(g)
    ensures Accept(flow, a, e) ==
            if e.key == Called(c) then Some(a.(frames := [g.(phase := Running(g.phase.h + [Got(ValueOf(e.payload))]))]))
            else None
  {
  }

  lemma RunningRests(flow: Flow, a: Rest)
    requires |a.frames| == 1 && a.frames[0].phase.Running?
    ensures Settling(flow, a) == a
  {
  }

  lemma RunningCallKeeps(flow: Flow, m: Machine, f: Frame, live: Live)
    requires InFrame(flow, m, f) && f.phase.Running? && f.body(f.attempt, f.phase.h).Call?
    requires BodyTolerates(f.body, f.attempt, f.phase.h)
    ensures Faithful(flow, StepOnce(flow, m, live))
  {
    hide Meaning, Unbroken, Accept, Settling, Strip;
    assert f in m.frames && FrameOk(m, f);
    var h := f.phase.h;
    var c, g := f.body(f.attempt, h).c, f.(phase := Running(Strip(h)));
    var a := Rest(m.nextRetry, Strip(m.hist), [g]);
    RunningRests(flow, a);
    if m.position < |m.history| {
      NextFits(flow, m);
      AcceptRunning(flow, a, g, c, m.history[m.position]);
    }
    CallAnswers(m, c, live);
    match AskCall(m, c, live)
    case Answered(r, p, m1) =>
      var e, h1 := Event(Called(c), p), h + [r];
      AdvanceMeaning(flow, m, m1, e);
      AcceptRunning(flow, a, g, c, e);
      StripPush(h, r);
      if m.position < |m.history| { StripPushKept(h, r); }
      RunningRests(flow, a.(frames := [f.(phase := Running(Strip(h1)))]));
    case Thrown(x) =>
      StripPushThrew(h, Error(x));
  }

  /** With history left and no outcome in it, the callback still has a boundary to ask for. */
  lemma RunningMustCall(flow: Flow, m: Machine, f: Frame)
    requires InFrame(flow, m, f) && f.phase.Running? && m.position < |m.history|
    ensures f.body(f.attempt, f.phase.h).Call?
  {
    hide Meaning, Unbroken;
    assert f in m.frames && FrameOk(m, f);
    var g := f.(phase := Running(Strip(f.phase.h)));
    assert Abstract(flow, m) == Rest(m.nextRetry, Strip(m.hist), [g]);
    assert OutcomeKey(g) == OutcomeKey(f);
    NextFits(flow, m);
  }

  lemma RunningEndKeeps(flow: Flow, m: Machine, f: Frame, live: Live)
    requires InFrame(flow, m, f) && f.phase.Running? && f.body(f.attempt, f.phase.h).End?
    ensures Faithful(flow, StepOnce(flow, m, live))
  {
    hide Meaning, Accept, Unbroken;
    assert f in m.frames && FrameOk(m, f);
    if m.position < |m.history| { RunningMustCall(flow, m, f); }
    assert AtEnd(m);
  }

  /** Settling an attempt, in the machine and in the state its log determines. */
  lemma SettleAgrees(flow: Flow, m: Machine, f: Frame, g: Frame, r: Result)
    requires m.frames == [f] && g == f.(phase := g.phase) && m.status.Active?
    ensures Abstract(flow, Settle(m, f, r)) ==
            Settling(flow, SettleRest(Rest(m.nextRetry, Strip(m.hist), [g]), g, Recorded(r)))
  {
    hide Settling, DelayMs, Strip;
    match Settled(f, r)
    case Some(response) =>
      StripPush(m.hist, response);
      assert Settled(g, Recorded(r)) == Some(Kept(response)[0]) && Kept(response) == [Kept(response)[0]];
    case None => assert f.(phase := Waiting) == g.(phase := Waiting);
  }

  lemma SettleShape(flow: Flow, m: Machine, f: Frame, r: Result)
    requires m.frames == [f] && m.status.Active? && Unbroken(m.hist) && FrameOk(m, f)
    requires Strip(m.hist) != m.hist || Recorded(r) != r ==> AtEnd(m)
    ensures var s := Settle(m, f, r);
            && s == m.(frames := s.frames, hist := s.hist)
            && |s.frames| <= 1 && (forall x :: x in s.frames ==> FrameOk(s, x))
            && Unbroken(s.hist) && (Strip(s.hist) != s.hist ==> AtEnd(s))
  {
    hide Strip, Unbroken, DelayMs;
    match Settled(f, r)
    case Some(response) =>
      UnbrokenPush(m.hist, response);
      if Recorded(r) == r { StripPushKept(m.hist, response); }
    case None =>
  }

  lemma AcceptOutcome(flow: Flow, a: Rest, g: Frame, e: Event)
    requires a.frames == [g] && g.phase.Running? && e.key == OutcomeKey(g)
    ensures Accept(flow, a, e) == Some(Settling(flow, SettleRest(a, g, ResultOf(e.payload))))
  {
  }

  lemma RecordingKeeps(flow: Flow, m: Machine, f: Frame, live: Live)
    requires InFrame(flow, m, f) && f.phase.Recording?
    ensures Faithful(flow, StepOnce(flow, m, live))
  {
    hide Meaning, Strip, Settle, SettleRest, Settling;
    assert f in m.frames && FrameOk(m, f);
    var a, g := Abstract(flow, m), f.(phase := Running(Strip(f.phase.h)));
    assert a == Rest(m.nextRetry, Strip(m.hist), [g]) by { RunningRests(flow, Rest(m.nextRetry, Strip(m.hist), [g])); }
    var payload := Ended(Recorded(f.phase.r));
    RetryAnswers(m, OutcomeKey(f), payload);
    var answer := AskRetry(m, OutcomeKey(f), payload);
    var e := Event(OutcomeKey(f), answer.payload);
    AdvanceMeaning(flow, m, answer.m, e);
    AcceptOutcome(flow, a, g, e);
    SettleAgrees(flow, answer.m, f, g, f.phase.r);
    SettleShape(flow, answer.m, f, f.phase.r);
  }

  lemma WaitingKeeps(flow: Flow, m: Machine, f: Frame, live: Live)
    requires InFrame(flow, m, f) && f.phase.Waiting?
    ensures Faithful(flow, StepOnce(flow, m, live))
  {
    hide Meaning, Strip, DelayMs;
    assert f in m.frames && FrameOk(m, f);
    var d := DelayMs(f.policy, f.attempt);
    if d > 0 {
      var a := Abstract(flow, m);
      assert a == Rest(m.nextRetry, Strip(m.hist), [f]);
      if m.position < |m.history| { NextFits(flow, m); }
      CallAnswers(m, SleepFor(d), live);
      match AskCall(m, SleepFor(d), live)
      case Answered(r, p, m1) =>
        AdvanceMeaning(flow, m, m1, Event(Called(SleepFor(d)), p));
        if r.Late? { UnbrokenPush(m.hist, Broken(r.e)); }
      case Thrown(x) => UnbrokenPush(m.hist, Broken(x));
    }
  }

  /** Until its outcome is recorded, an attempt stays under way: the events in between are
      the callback's own. */
  lemma {:induction false} InteriorStays(flow: Flow, history: seq<Event>, p: nat, k: nat, a: Rest, g: Frame)
    returns (h: seq<Response>)
    requires Meaning(flow, history).Some? && p <= k <= |history|
    requires Meaning(flow, history[..p]) == Some(a) && a.frames == [g] && g.phase.Running?
    requires forall j :: p <= j < k ==> history[j].key != OutcomeKey(g)
    ensures Meaning(flow, history[..k]) == Some(a.(frames := [g.(phase := Running(h))]))
    decreases k
  {
    if p == k {
      h := g.phase.h;
    } else {
      h := InteriorStays(flow, history, p, k - 1, a, g);
      NextAccepted(flow, history, k - 1);
      hide Meaning;
      var b := a.(frames := [g.(phase := Running(h))]);
      var e := history[k - 1];
      assert OutcomeKey(g.(phase := Running(h))) == OutcomeKey(g);
      assert Accept(flow, b, e).Some?;
      h := h + [Got(ValueOf(e.payload))];
    }
  }

  lemma FindingKeeps(flow: Flow, m: Machine, f: Frame, live: Live)
    requires InFrame(flow, m, f) && f.phase.Finding?
    ensures Faithful(flow, StepOnce(flow, m, live))
  {
    hide Meaning, Settle, SettleRest, Settling, Accept;
    assert f in m.frames && FrameOk(m, f);
    var g := f.(phase := Running([]));
    var a := Rest(m.nextRetry, Strip(m.hist), [g]);
    RunningRests(flow, a);
    assert Meaning(flow, Consumed(m)) == Some(a);
    match FindFrom(m.history, m.position, OutcomeKey(f))
    case None =>
      assert Strip([]) == [];
    case Some(j) =>
      var m1, r, e := m.(position := j + 1), ResultOf(m.history[j].payload), m.history[j];
      assert m.appended == [];
      assert m.history[..m.position] + [] == m.history[..m.position];
      assert m.history[..j + 1] + [] == m.history[..j + 1];
      var h := InteriorStays(flow, m.history, m.position, j, a, g);
      NextAccepted(flow, m.history, j);
      var b, q := a.(frames := [g.(phase := Running(h))]), g.(phase := Running(h));
      AcceptOutcome(flow, b, q, e);
      SettleAgrees(flow, m1, f, q, r);
      SettleShape(flow, m1, f, r);
  }

  /** The callback under way, if any, goes on as if no boundary of its own had thrown. */
  ghost predicate FramesTolerate(m: Machine)
  {
    forall f :: f in m.frames && f.phase.Running? ==> BodyTolerates(f.body, f.attempt, f.phase.h)
  }

  /** Whatever the world answers, a faithful machine stays faithful: in particular it never
      meets an event it did not ask for, and never ends with events left over. */
  lemma StepKeepsFaithful(flow: Flow, m: Machine, live: Live)
    requires Tolerates(flow, m.hist) && FramesTolerate(m) && Faithful(flow, m)
    ensures Faithful(flow, StepOnce(flow, m, live))
  {
    if m.status.Active? {
      if m.frames == [] {
        hide Faithful, Tolerates, StepOnce;
        match flow(m.hist)
        case Call(_) => TopCallKeeps(flow, m, live);
        case Retry(_, _) => TopRetryKeeps(flow, m, live);
        case End(_) => TopEndKeeps(flow, m, live);
      } else {
        var f := m.frames[0];
        assert m.frames == [f] && FrameOk(m, f);
        if f.phase.Running? { assert BodyTolerates(f.body, f.attempt, f.phase.h); }
        hide Faithful, Tolerates, StepOnce, FrameOk;
        match f.phase
        case Starting => StartingKeeps(flow, m, f, live);
        case Finding => FindingKeeps(flow, m, f, live);
        case Running(h) =>
          if f.body(f.attempt, h).Call? {
            RunningCallKeeps(flow, m, f, live);
          } else {
            RunningEndKeeps(flow, m, f, live);
          }
        case Recording(_, _) => RecordingKeeps(flow, m, f, live);
        case Waiting => WaitingKeeps(flow, m, f, live);
      }
    }
  }

  lemma BootFaithful(flow: Flow, history: seq<Event>)
    requires Meaning(flow, history).Some?
    ensures Faithful(flow, Boot(history))
  {
    assert history[..0] == [];
    assert Consumed(Boot(history)) == [];
  }

  ghost predicate BodiesTolerant(m: Machine) { forall f :: f in m.frames ==> TolerantBody(f.body) }

  /** A retry's program stays the same until the retry is over. */
  ghost predicate KeepsBody(f: Frame, s: Machine)
  {
    s.frames == [] || (|s.frames| == 1 && s.frames[0].body == f.body)
  }

  lemma SettleKeepsBody(m: Machine, f: Frame, r: Result)
    requires m.frames == [f]
    ensures KeepsBody(f, Settle(m, f, r))
  {
    hide Settled;
  }

  lemma FrameKeepsBody(m: Machine, f: Frame, live: Live)
    requires m.frames == [f] && !(f.phase.Running? && f.body(f.attempt, f.phase.h).Retry?)
    ensures KeepsBody(f, StepFrame(m, f, live))
  {
    hide DelayMs, FindFrom, AskCall, AskRetry, Settle;
    match f.phase
    case Starting =>
      AskOnlyLogs(m, SleepFor(0), live, StartKey(f), AttemptNo(f.attempt));
    case Finding =>
      var found := FindFrom(m.history, m.position, OutcomeKey(f));
      if found.Some? {
        SettleKeepsBody(m.(position := found.value + 1), f, ResultOf(m.history[found.value].payload));
      }
    case Running(h) =>
      if f.body(f.attempt, h).Call? { AskOnlyLogs(m, f.body(f.attempt, h).c, live, OutcomeKey(f), AttemptNo(0)); }
    case Recording(_, r) =>
      AskOnlyLogs(m, SleepFor(0), live, OutcomeKey(f), Ended(Recorded(r)));
      var a := AskRetry(m, OutcomeKey(f), Ended(Recorded(r)));
      if a.Answered? { SettleKeepsBody(a.m, f, r); }
    case Waiting =>
      AskOnlyLogs(m, SleepFor(DelayMs(f.policy, f.attempt)), live, OutcomeKey(f), AttemptNo(0));
  }

  lemma BodyAt(body: (nat, seq<Response>) -> Action, n: nat, h: seq<Response>)
    requires TolerantBody(body)
    ensures BodyTolerates(body, n, h)
  {
  }

  lemma BodiesTolerate(m: Machine)
    requires BodiesTolerant(m)
    ensures FramesTolerate(m)
  {
    hide TolerantBody, BodyTolerates;
    forall f | f in m.frames && f.phase.Running? ensures BodyTolerates(f.body, f.attempt, f.phase.h) {
      BodyAt(f.body, f.attempt, f.phase.h);
    }
  }

  lemma TopKeepsBodies(flow: Flow, m: Machine, live: Live)
    requires RetriesTolerantly(flow, m.hist) && m.frames == []
    ensures BodiesTolerant(StepOnce(flow, m, live))
  {
    hide AskCall, TolerantBody;
    if flow(m.hist).Call? { AskOnlyLogs(m, flow(m.hist).c, live, Called(flow(m.hist).c), AttemptNo(0)); }
  }

  lemma FrameKeepsBodies(m: Machine, f: Frame, live: Live)
    requires m.frames == [f] && TolerantBody(f.body)
    ensures BodiesTolerant(StepFrame(m, f, live))
  {
    hide StepFrame, TolerantBody, Strip;
    if f.phase.Running? { BodyAt(f.body, f.attempt, f.phase.h); }
    FrameKeepsBody(m, f, live);
  }

  /** Frames come from the workflow, whose callbacks start no retry of their own. */
  lemma StepKeepsBodies(flow: Flow, m: Machine, live: Live)
    requires RetriesTolerantly(flow, m.hist) && BodiesTolerant(m) && |m.frames| <= 1
    ensures BodiesTolerant(StepOnce(flow, m, live)) && FramesTolerate(m)
  {
    BodiesTolerate(m);
    hide FramesTolerate, TolerantBody, StepFrame, RetriesTolerantly;
    if m.frames == [] {
      TopKeepsBodies(flow, m, live);
    } else if m.status.Active? {
      assert m.frames[0] in m.frames && m.frames == [m.frames[0]];
      FrameKeepsBodies(m, m.frames[0], live);
      hide BodiesTolerant;
    }
  }

  lemma {:induction false} RunKeepsFaithful(flow: Flow, m: Machine, lives: seq<Live>)
    requires Replayable(flow) && Faithful(flow, m) && BodiesTolerant(m)
    ensures Faithful(flow, Run(flow, m, lives)) && BodiesTolerant(Run(flow, m, lives))
    decreases |lives|
  {
    if lives != [] {
      assert |m.frames| <= 1;
      hide Faithful, Tolerates, RetriesTolerantly, StepOnce, BodiesTolerant, FramesTolerate;
      assert Tolerates(flow, m.hist) && RetriesTolerantly(flow, m.hist);
      StepKeepsBodies(flow, m, lives[0]);
      StepKeepsFaithful(flow, m, lives[0]);
      RunKeepsFaithful(flow, StepOnce(flow, m, lives[0]), lives[1..]);
    }
  }
}
