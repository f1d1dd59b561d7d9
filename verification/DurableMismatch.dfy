/**
 A re-run before an event it may not ask for. A mismatch is an exception like any other: the
 program that asked can catch it and ask for something else, while the event stays where it is.
 What happens is told from the programs alone, and the machine is shown to do just that.
 */
module DurableMismatch {
  import opened OptionWrapper
  import opened DurableMachine
  import opened DurableReplay

  // ---------------------------------------------------------------- programs that hear of it

  /** The programs, with what they have heard, and the number the next retry will take. */
  datatype Stall = Stall(next: nat, hist: seq<Response>, frames: seq<Frame>)

  /** The exception comes to the program on top. */
  function Hear(s: Stall, x: Fault): (r: Stall)
  {
    if s.frames == [] then s.(hist := s.hist + [Threw(x)])
    else
      var n := |s.frames| - 1;
      var f := s.frames[n];
      if f.phase.Running? then s.(frames := s.frames[..n] + [f.(phase := Running(f.phase.h + [Threw(x)]))]) else s
  }

  /** What the callback of an attempt has heard so far. */
  function Heard(f: Frame): (h: seq<Response>) { if f.phase.Running? then f.phase.h else [] }

  predicate InCallback(f: Frame) { f.phase.Running? || f.phase.Finding? }

  /** The event a program asks for with its next action. */
  function AskedBy(act: Action, next: nat): (r: Option<Key>)
  {
    match act
    case Call(c) => Some(Called(c))
    case Retry(p, _) => Some(Start(next, p, 1))
    case End(_) => None
  }

  /** The next event that is asked for: by the workflow or a callback, or by a retry for the
      start of an attempt, its outcome or the wait behind it. Only a workflow that ends asks for
      none. */
  function Asked(flow: Flow, s: Stall): (r: Option<Key>)
  {
    if s.frames == [] then AskedBy(flow(s.hist), s.next)
    else
      var f := s.frames[|s.frames| - 1];
      if InCallback(f) then
        var act := f.body(f.attempt, Heard(f));
        if act.End? then Some(OutcomeKey(f)) else AskedBy(act, s.next)
      else
        match f.phase
        case Waiting =>
          if DelayMs(f.policy, f.attempt) == 0 then Some(StartKey(NextAttempt(f)))
          else Some(Called(SleepFor(DelayMs(f.policy, f.attempt))))
        case Recording(_, _) => Some(OutcomeKey(f))
        case _ => Some(StartKey(f))
  }

  function Numbered(s: Stall, act: Action): (r: Stall) { if act.Retry? then s.(next := s.next + 1) else s }

  /** After a mismatch: it is the program that asked that hears of it, or, when a retry asked for
      a later start, an outcome or a wait, the program below. A retry has used up its number. */
  function Bounce(flow: Flow, s: Stall, x: Fault): (r: Stall)
  {
    if s.frames == [] then Hear(Numbered(s, flow(s.hist)), x)
    else
      var below := s.frames[..|s.frames| - 1];
      var f := s.frames[|s.frames| - 1];
      var act := f.body(f.attempt, Heard(f));
      if InCallback(f) && !act.End? then
        Hear(Numbered(s.(frames := below + [f.(phase := Running(Heard(f)))]), act), x)
      else Hear(s.(frames := below), x)
  }

  /** After `k` mismatches in a row, at the place `p` of the history, the event is asked for. */
  ghost predicate Meets(flow: Flow, s: Stall, p: nat, key: Key, k: nat)
    decreases k
  {
    var asked := Asked(flow, s);
    if k == 0 then asked == Some(key)
    else
      && asked.Some? && asked.value != key
      && Meets(flow, Bounce(flow, s, ReplayMismatch(p, key, asked.value)), p, key, k - 1)
  }

  /** Handed mismatches, the programs come to ask for the event. */
  ghost predicate ComesToAsk(flow: Flow, s: Stall, p: nat, key: Key) { exists k: nat :: Meets(flow, s, p, key, k) }

  /** Stalls that ask for the same and hear of a mismatch alike. */
  ghost predicate Alike(flow: Flow, s: Stall, t: Stall)
  {
    Asked(flow, s) == Asked(flow, t) && forall x :: Bounce(flow, s, x) == Bounce(flow, t, x)
  }

  lemma MeetsAlike(flow: Flow, s: Stall, t: Stall, p: nat, key: Key, k: nat)
    requires Alike(flow, s, t)
    ensures Meets(flow, s, p, key, k) <==> Meets(flow, t, p, key, k)
  {
    hide Asked, Bounce;
  }

  lemma ComesToAskAlike(flow: Flow, s: Stall, t: Stall, p: nat, key: Key)
    requires Alike(flow, s, t)
    ensures ComesToAsk(flow, s, p, key) <==> ComesToAsk(flow, t, p, key)
  {
    hide Alike, Meets;
    forall k: nat ensures Meets(flow, s, p, key, k) <==> Meets(flow, t, p, key, k) {
      MeetsAlike(flow, s, t, p, key, k);
    }
  }

  // ---------------------------------------------------------------- the machine before an event

  function Here(m: Machine): (s: Stall) { Stall(m.nextRetry, m.hist, m.frames) }

  /** No outcome ahead that an attempt under way would jump to. */
  ghost predicate Quiet(m: Machine)
  {
    forall f :: f in m.frames && f.phase.Finding? ==> FindFrom(m.history, m.position, OutcomeKey(f)) == None
  }

  /** There is history left, and nothing will be jumped over. */
  ghost predicate Before(m: Machine) { m.status.Active? && m.position < |m.history| && Quiet(m) }

  /** The next step neither looks at the history nor ends. */
  predicate Silent(flow: Flow, m: Machine)
  {
    if m.frames == [] then flow(m.hist).Retry?
    else
      var f := m.frames[|m.frames| - 1];
      match f.phase
      case Finding => true
      case Waiting => DelayMs(f.policy, f.attempt) == 0
      case Running(h) => !f.body(f.attempt, h).Call?
      case _ => false
  }

  /** Silent steps that may come in a row. */
  function Silence(flow: Flow, m: Machine): (n: nat)
  {
    if !Silent(flow, m) then 0
    else if m.frames != [] && m.frames[|m.frames| - 1].phase.Finding? then 2
    else 1
  }

  /** All of the machine but its programs is as it was. */
  predicate SameLog(m: Machine, t: Machine)
  {
    && t.history == m.history && t.position == m.position && t.appended == m.appended
    && t.status == m.status && t.mismatched == m.mismatched
  }

  /** One silent step. */
  ghost predicate Muted(flow: Flow, m: Machine, t: Machine)
  {
    SameLog(m, t) && Quiet(t) && Silence(flow, t) < Silence(flow, m) && Alike(flow, Here(m), Here(t))
  }

  lemma MutedTop(flow: Flow, m: Machine, live: Live)
    requires Before(m) && m.frames == [] && Silent(flow, m)
    ensures Muted(flow, m, StepOnce(flow, m, live))
  {
    var t, s, u := StepOnce(flow, m, live), Here(m), Here(StepOnce(flow, m, live));
    assert t.frames == [Frame(m.nextRetry, flow(m.hist).policy, flow(m.hist).body, 1, Starting)];
    assert u.frames[..0] == [];
  }

  lemma MutedFinding(flow: Flow, m: Machine, f: Frame, live: Live)
    requires Before(m) && m.frames != [] && f == m.frames[|m.frames| - 1] && f.phase.Finding?
    ensures Muted(flow, m, StepOnce(flow, m, live))
  {
    assert f in m.frames;
    var t, below, g := StepOnce(flow, m, live), m.frames[..|m.frames| - 1], f.(phase := Running([]));
    assert t == m.(frames := below + [g]);
    assert t.frames[..|t.frames| - 1] == below && t.frames[|t.frames| - 1] == g;
    assert g.(phase := Running(Heard(g))) == g;
  }

  lemma MutedNesting(flow: Flow, m: Machine, f: Frame, live: Live)
    requires Before(m) && m.frames != [] && f == m.frames[|m.frames| - 1] && f.phase.Running?
    requires f.body(f.attempt, f.phase.h).Retry?
    ensures Muted(flow, m, StepOnce(flow, m, live))
  {
    var t, below := StepOnce(flow, m, live), m.frames[..|m.frames| - 1];
    assert m.frames == below + [f] && f.(phase := Running(Heard(f))) == f;
    assert t.frames[..|t.frames| - 1] == m.frames;
  }

  lemma MutedEnding(flow: Flow, m: Machine, f: Frame, live: Live)
    requires Before(m) && m.frames != [] && f == m.frames[|m.frames| - 1] && f.phase.Running?
    requires f.body(f.attempt, f.phase.h).End?
    ensures Muted(flow, m, StepOnce(flow, m, live))
  {
    var t, below := StepOnce(flow, m, live), m.frames[..|m.frames| - 1];
    assert t.frames[..|t.frames| - 1] == below;
  }

  lemma MutedWaiting(flow: Flow, m: Machine, f: Frame, live: Live)
    requires Before(m) && m.frames != [] && f == m.frames[|m.frames| - 1] && f.phase.Waiting?
    requires DelayMs(f.policy, f.attempt) == 0
    ensures Muted(flow, m, StepOnce(flow, m, live))
  {
    hide DelayMs;
    var t, below := StepOnce(flow, m, live), m.frames[..|m.frames| - 1];
    assert t == m.(frames := below + [NextAttempt(f)]);
    assert t.frames[..|t.frames| - 1] == below;
  }

  lemma SilentStep(flow: Flow, m: Machine, live: Live)
    requires Before(m) && Silent(flow, m)
    ensures Muted(flow, m, StepOnce(flow, m, live))
  {
    hide Muted, StepOnce, DelayMs, Before;
    if m.frames == [] {
      MutedTop(flow, m, live);
    } else {
      var f := m.frames[|m.frames| - 1];
      match f.phase
      case Finding => MutedFinding(flow, m, f, live);
      case Running(h) =>
        if f.body(f.attempt, h).Retry? { MutedNesting(flow, m, f, live); } else { MutedEnding(flow, m, f, live); }
      case Waiting => MutedWaiting(flow, m, f, live);
      case _ =>
    }
  }

  /** A step that looks at the next event: it is passed if it is what was asked for; otherwise
      the mismatch is heard of, or the workflow has ended. */
  ghost predicate Met(flow: Flow, m: Machine, t: Machine)
    requires m.position < |m.history|
  {
    var key, asked := m.history[m.position].key, Asked(flow, Here(m));
    && t.history == m.history && t.appended == m.appended
    && match asked
       case None => t == m.(status := t.status) && !t.status.Active?
       case Some(a) =>
         && t.status.Active?
         && if a == key then t.position == m.position + 1 && t.mismatched == m.mismatched
            else
              && t.position == m.position && t.mismatched && Quiet(t)
              && Here(t) == Bounce(flow, Here(m), ReplayMismatch(m.position, key, a))
  }

  lemma MetTop(flow: Flow, m: Machine, live: Live)
    requires Before(m) && m.frames == [] && !flow(m.hist).Retry?
    ensures Met(flow, m, StepOnce(flow, m, live))
  {
  }

  lemma MetCallback(flow: Flow, m: Machine, f: Frame, live: Live)
    requires Before(m) && m.frames != [] && f == m.frames[|m.frames| - 1] && f.phase.Running?
    requires f.body(f.attempt, f.phase.h).Call?
    ensures Met(flow, m, StepOnce(flow, m, live))
  {
    var t, below := StepOnce(flow, m, live), m.frames[..|m.frames| - 1];
    assert m.frames == below + [f] && f.(phase := Running(Heard(f))) == f;
    forall g | g in t.frames && g.phase.Finding? ensures g in m.frames { assert g in below; }
  }

  /** A mismatch that leaves a retry, in the machine and in its programs. */
  lemma RaiseIsHeard(m: Machine, f: Frame, x: Fault)
    requires m.frames != [] && f == m.frames[|m.frames| - 1] && Quiet(m)
    ensures var t := Raise(Pop(m), x);
            && t == m.(hist := t.hist, frames := t.frames, mismatched := true) && Quiet(t)
            && Here(t) == Hear(Here(m).(frames := m.frames[..|m.frames| - 1]), x)
  {
    var t, below := Raise(Pop(m), x), m.frames[..|m.frames| - 1];
    forall g | g in t.frames && g.phase.Finding? ensures g in m.frames { assert g in below; }
  }

  // A retry asks for a start, an outcome or a wait.

  lemma MetStarting(flow: Flow, m: Machine, f: Frame, live: Live)
    requires Before(m) && m.frames != [] && f == m.frames[|m.frames| - 1] && f.phase.Starting?
    ensures Met(flow, m, StepOnce(flow, m, live))
  {
    var key := m.history[m.position].key;
    RaiseIsHeard(m, f, ReplayMismatch(m.position, key, StartKey(f)));
    hide Raise, Quiet;
  }

  lemma SettleMoves(m: Machine, f: Frame, r: Result)
    requires m.frames != []
    ensures var t := Settle(m, f, r); t == m.(hist := t.hist, frames := t.frames)
  {
    hide Settled;
  }

  lemma MetRecording(flow: Flow, m: Machine, f: Frame, live: Live)
    requires Before(m) && m.frames != [] && f == m.frames[|m.frames| - 1] && f.phase.Recording?
    ensures Met(flow, m, StepOnce(flow, m, live))
  {
    var key := m.history[m.position].key;
    RaiseIsHeard(m, f, ReplayMismatch(m.position, key, OutcomeKey(f)));
    SettleMoves(m.(position := m.position + 1), f, f.phase.r);
    hide Raise, Quiet, Settle;
  }

  lemma MetWaiting(flow: Flow, m: Machine, f: Frame, live: Live)
    requires Before(m) && m.frames != [] && f == m.frames[|m.frames| - 1] && f.phase.Waiting?
    requires DelayMs(f.policy, f.attempt) > 0
    ensures Met(flow, m, StepOnce(flow, m, live))
  {
    hide DelayMs;
    var key, asked := m.history[m.position].key, Called(SleepFor(DelayMs(f.policy, f.attempt)));
    RaiseIsHeard(m, f, ReplayMismatch(m.position, key, asked));
    hide Raise, Quiet;
  }

  lemma RespondMoves(m: Machine, r: Response)
    ensures var t := Respond(m, r); t == m.(hist := t.hist, frames := t.frames)
  {
  }

  lemma LoudStep(flow: Flow, m: Machine, live: Live)
    requires Before(m) && !Silent(flow, m)
    ensures Met(flow, m, StepOnce(flow, m, live))
  {
    hide Met, StepOnce, DelayMs;
    if m.frames == [] {
      MetTop(flow, m, live);
    } else {
      var f := m.frames[|m.frames| - 1];
      match f.phase
      case Running(_) => MetCallback(flow, m, f, live);
      case Starting => MetStarting(flow, m, f, live);
      case Recording(_, _) => MetRecording(flow, m, f, live);
      case Waiting => MetWaiting(flow, m, f, live);
      case _ =>
    }
  }

  // ---------------------------------------------------------------- getting past the event

  /** Position and mismatches are not taken back, and without history left none is raised. */
  predicate Ahead(m: Machine, t: Machine)
  {
    && t.history == m.history && t.position >= m.position && (m.mismatched ==> t.mismatched)
    && (m.position >= |m.history| ==> t.mismatched == m.mismatched)
  }

  lemma AskAhead(m: Machine, c: CallKey, live: Live, key: Key, payload: Payload)
    ensures var a := AskCall(m, c, live);
            && (a.Answered? ==> Ahead(m, a.m) && a.m == m.(position := a.m.position, appended := a.m.appended))
            && (a.Differs? ==> m.position < |m.history|)
    ensures var a := AskRetry(m, key, payload);
            && (a.Answered? ==> Ahead(m, a.m) && a.m == m.(position := a.m.position, appended := a.m.appended))
            && (a.Differs? ==> m.position < |m.history|)
  {
  }

  /** The same, and the workflow has not ended. */
  predicate StillAhead(m: Machine, t: Machine) { Ahead(m, t) && t.status == m.status }

  lemma RaiseAhead(m: Machine, x: Fault)
    requires m.frames != [] && m.position < |m.history|
    ensures StillAhead(m, Raise(Pop(m), x))
  {
    RespondMoves(Pop(m).(mismatched := true), Threw(x));
  }

  lemma RetryForward(m: Machine, f: Frame, live: Live)
    requires m.frames != [] && (f.phase.Starting? || f.phase.Recording?)
    ensures StillAhead(m, StepFrame(m, f, live))
  {
    hide Settle, AskRetry, Raise;
    var (key, payload) := match f.phase
      case Recording(_, r) => (OutcomeKey(f), Ended(Recorded(r)))
      case _ => (StartKey(f), AttemptNo(f.attempt));
    AskAhead(m, SleepFor(0), live, key, payload);
    AskOnlyLogs(m, SleepFor(0), live, key, payload);
    match AskRetry(m, key, payload)
    case Differs(x) => RaiseAhead(m, x);
    case Answered(_, _, m1) => if f.phase.Recording? { SettleMoves(m1, f, f.phase.r); }
  }

  lemma WaitingForward(m: Machine, f: Frame, live: Live)
    requires m.frames != [] && f.phase.Waiting?
    ensures StillAhead(m, StepFrame(m, f, live))
  {
    hide DelayMs, AskCall, Raise, Respond;
    var c := SleepFor(DelayMs(f.policy, f.attempt));
    AskAhead(m, c, live, OutcomeKey(f), AttemptNo(0));
    match AskCall(m, c, live)
    case Differs(x) => RaiseAhead(m, x);
    case Answered(r, _, m1) => if r.Late? { RespondMoves(Pop(m1), Broken(r.e)); }
    case Thrown(e) => RespondMoves(Pop(m), Broken(e));
  }

  lemma FrameForward(m: Machine, f: Frame, live: Live)
    requires m.frames != []
    ensures StillAhead(m, StepFrame(m, f, live))
  {
    match f.phase
    case Finding =>
      hide Settle, FindFrom;
      var found := FindFrom(m.history, m.position, OutcomeKey(f));
      if found.Some? { SettleMoves(m.(position := found.value + 1), f, ResultOf(m.history[found.value].payload)); }
    case Running(h) =>
      hide AskCall;
      if f.body(f.attempt, h).Call? { AskAhead(m, f.body(f.attempt, h).c, live, OutcomeKey(f), AttemptNo(0)); }
    case Waiting =>
      hide StepFrame;
      WaitingForward(m, f, live);
    case _ =>
      hide StepFrame;
      RetryForward(m, f, live);
  }

  lemma StepForward(flow: Flow, m: Machine, live: Live)
    ensures Ahead(m, StepOnce(flow, m, live))
  {
    hide StepFrame, AskCall;
    if m.frames != [] {
      FrameForward(m, m.frames[|m.frames| - 1], live);
    } else if flow(m.hist).Call? {
      AskAhead(m, flow(m.hist).c, live, Called(flow(m.hist).c), AttemptNo(0));
    }
  }

  lemma {:induction false} RunForward(flow: Flow, m: Machine, lives: seq<Live>)
    ensures Ahead(m, Run(flow, m, lives))
    decreases |lives|
  {
    if lives != [] {
      StepForward(flow, m, lives[0]);
      hide StepOnce;
      RunForward(flow, StepOnce(flow, m, lives[0]), lives[1..]);
    }
  }

  /** What the programs do takes the machine past the event. */
  lemma {:induction false} MeetsGetsPast(flow: Flow, m: Machine, k: nat, lives: seq<Live>)
    requires Before(m) && Meets(flow, Here(m), m.position, m.history[m.position].key, k)
    requires |lives| >= 3 * k + Silence(flow, m) + 1
    ensures Run(flow, m, lives).position > m.position
    decreases |lives|
  {
    var t, key := StepOnce(flow, m, lives[0]), m.history[m.position].key;
    hide StepOnce, Asked, Bounce, Quiet, Silent;
    if Silent(flow, m) {
      SilentStep(flow, m, lives[0]);
      MeetsAlike(flow, Here(m), Here(t), m.position, key, k);
      MeetsGetsPast(flow, t, k, lives[1..]);
    } else {
      LoudStep(flow, m, lives[0]);
      if k == 0 { RunForward(flow, t, lives[1..]); } else { MeetsGetsPast(flow, t, k - 1, lives[1..]); }
    }
  }

  /** And nothing else does. */
  lemma {:induction false} GetsPastMeets(flow: Flow, m: Machine, lives: seq<Live>) returns (k: nat)
    requires Before(m) && Run(flow, m, lives).position > m.position
    ensures Meets(flow, Here(m), m.position, m.history[m.position].key, k)
    decreases |lives|
  {
    var t, key := StepOnce(flow, m, lives[0]), m.history[m.position].key;
    hide StepOnce, Asked, Bounce, Quiet, Silent;
    if Silent(flow, m) {
      SilentStep(flow, m, lives[0]);
      k := GetsPastMeets(flow, t, lives[1..]);
      MeetsAlike(flow, Here(m), Here(t), m.position, key, k);
    } else {
      LoudStep(flow, m, lives[0]);
      var asked := Asked(flow, Here(m));
      if asked.None? {
        RunStopped(flow, t, lives[1..]);
        assert false;
      } else if asked.value == key {
        k := 0;
      } else {
        k := GetsPastMeets(flow, t, lives[1..]);
        k := k + 1;
      }
    }
  }

  ghost predicate MovesOn(flow: Flow, m: Machine, lives: seq<Live>) { Run(flow, m, lives).position > m.position }

  /** Wherever a process is in its history: some run from there gets past the next event if and
      only if its programs, handed mismatches, come to ask for it. */
  lemma PastIffMeets(flow: Flow, m: Machine)
    requires Before(m)
    ensures (exists lives :: MovesOn(flow, m, lives)) <==>
            ComesToAsk(flow, Here(m), m.position, m.history[m.position].key)
  {
    hide Quiet, Meets, Run;
    if lives :| MovesOn(flow, m, lives) {
      var k := GetsPastMeets(flow, m, lives);
    }
    if k: nat :| Meets(flow, Here(m), m.position, m.history[m.position].key, k) {
      var lives := seq(3 * k + 3, _ => Fail(""));
      MeetsGetsPast(flow, m, k, lives);
      assert MovesOn(flow, m, lives);
    }
  }

  // ---------------------------------------------------------------- something is amiss

  /** The host has raised a mismatch, or the workflow has ended with events left over. */
  predicate Amiss(m: Machine) { m.mismatched || (m.position < |m.history| && !m.status.Active?) }

  /** With one event left, every run long enough goes amiss if and only if something else is
      asked for first. */
  lemma {:induction false} AmissIffNotAsked(flow: Flow, m: Machine, lives: seq<Live>)
    requires Before(m) && m.position == |m.history| - 1 && !m.mismatched && |lives| >= Silence(flow, m) + 1
    ensures Amiss(Run(flow, m, lives)) <==> Asked(flow, Here(m)) != Some(m.history[m.position].key)
    decreases |lives|
  {
    var t := StepOnce(flow, m, lives[0]);
    hide StepOnce, Asked, Bounce, Quiet, Silent;
    if Silent(flow, m) {
      SilentStep(flow, m, lives[0]);
      AmissIffNotAsked(flow, t, lives[1..]);
    } else {
      LoudStep(flow, m, lives[0]);
      if t.status.Active? { RunForward(flow, t, lives[1..]); } else { RunStopped(flow, t, lives[1..]); }
    }
  }
}
