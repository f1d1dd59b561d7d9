/**
 Durable execution: a workflow's boundaries are recorded in an event log, and after a crash
 the workflow is run again from its start over the log that was left. The log is the
 host's `ReplayCursor`: the loaded history with a position, and the events appended since.
 A process may die after any step; the next one starts from the log as it then is.
 */
module DurableMachine {
  import opened OptionWrapper

  // ---------------------------------------------------------------- events

  datatype Kind = Step | Effect | Now | Random | Signal

  datatype CallKey = Named(kind: Kind, name: string) | SleepFor(ms: nat)

  datatype RawPolicy = Policy(maxAttempts: nat, delayMs: nat, factor: real, maxDelayMs: Option<nat>)

  /** A policy `retryPolicy` accepts. */
  type Policy = p: RawPolicy | 1 <= p.maxAttempts <= 100 && 1.0 <= p.factor <= 100.0
    witness Policy(3, 0, 2.0, None)

  /** Kind and key of an event; retry keys are the colon-joined scope, start or outcome, and
      the attempt. */
  datatype Key =
    | Called(c: CallKey)
    | Start(id: nat, policy: Policy, attempt: nat)
    | Outcome(id: nat, policy: Policy, attempt: nat)

  /** A JavaScript value: the text `JSON.stringify` makes of it, and what that leaves out. */
  datatype Value = Value(json: string, lost: string)

  function Parsed(json: string): (v: Value) { Value(json, "") }

  datatype Result = Done(v: Value) | Failed(f: string)

  /** The result as its record gives it back. */
  function Recorded(r: Result): Result { if r.Done? then Done(Parsed(r.v.json)) else r }

  datatype Payload = Data(json: string) | AttemptNo(n: nat) | Ended(r: Result)

  datatype Event = Event(key: Key, payload: Payload)

  function ValueOf(p: Payload): Value { Parsed(if p.Data? then p.json else "") }
  function ResultOf(p: Payload): Result { if p.Ended? then Recorded(p.r) else Failed("invalid durable retry outcome") }

  /** An exception: of user code, or of the host when the next event of the history is not the
      one that was asked for. Either can be caught. */
  datatype Fault = Error(message: string) | ReplayMismatch(sequence: nat, expected: Key, actual: Key)

  // ---------------------------------------------------------------- workflows

  /** What an awaited durable call gives back. `Threw` is an exception of which the log knows
      nothing; `Late` is a sleep that was recorded and then threw; `Exhausted` and `Rejected` are
      a retry that gave up; `Broken` is a retry whose backoff sleep threw. */
  datatype Response =
    | Got(v: Value)
    | Threw(x: Fault)
    | Late(e: string)
    | Exhausted(f: string)
    | Rejected
    | Broken(e: string)

  /** A deterministic program asks for its next boundary as a function of the responses so
      far. The callback of a retry is one more program, given the attempt number. */
  datatype Action =
    | Call(c: CallKey)
    | Retry(policy: Policy, body: (nat, seq<Response>) -> Action)
    | End(r: Result)

  type Flow = seq<Response> -> Action

  /** What the outside world makes of the function of a boundary that is not in the log. A sleep
      is recorded before it waits, so it can fail before or after; other boundaries fail before. */
  datatype Live = Ok(v: Value) | Fail(e: string) | FailLate(e: string)

  // ---------------------------------------------------------------- the host's cursor

  datatype Found = Missing | Mismatch(x: Fault) | Hit(payload: Payload)

  /** `consume_event`, before it moves the position. */
  function Lookup(history: seq<Event>, position: nat, key: Key): (r: Found)
  {
    if position >= |history| then Missing
    else if history[position].key != key then Mismatch(ReplayMismatch(position, history[position].key, key))
    else Hit(history[position].payload)
  }

  /** `consume_through`: the first matching event from the position on. */
  function FindFrom(history: seq<Event>, from: nat, key: Key): (r: Option<nat>)
    ensures r.Some? ==> from <= r.value < |history| && history[r.value].key == key
    ensures r.Some? ==> forall j :: from <= j < r.value ==> history[j].key != key
    ensures r.None? ==> forall j :: from <= j < |history| ==> history[j].key != key
    decreases |history| - from
  {
    if from >= |history| then None
    else if history[from].key == key then Some(from)
    else FindFrom(history, from + 1, key)
  }

  // ---------------------------------------------------------------- the runtime as a machine

  /** Where a retry is in its loop over attempts. */
  datatype Phase =
    | Starting
    | Finding
    | Running(h: seq<Response>)
    | Recording(h: seq<Response>, r: Result)
    | Waiting

  datatype Frame = Frame(id: nat, policy: Policy, body: (nat, seq<Response>) -> Action, attempt: nat, phase: Phase)

  datatype Status = Active | Finished(r: Result) | Leftover

  /** `mismatched` remembers that the host has raised a mismatch; the host itself does not. */
  datatype Machine = Machine(
    history: seq<Event>, position: nat, appended: seq<Event>,
    nextRetry: nat, hist: seq<Response>, frames: seq<Frame>, status: Status, mismatched: bool)

  function Boot(history: seq<Event>): (m: Machine) { Machine(history, 0, [], 0, [], [], Active, false) }

  function Log(m: Machine): (r: seq<Event>) { m.history + m.appended }

  const MAX_SAFE: int := 0x1F_FFFF_FFFF_FFFF

  function Power(x: real, n: nat): (r: real) { if n == 0 then 1.0 else x * Power(x, n - 1) }

  /** `retryDelayMs` before its range check. */
  function DelayMs(p: Policy, attempt: nat): (d: nat)
  {
    var scaled := (p.delayMs as real * Power(p.factor, if attempt == 0 then 0 else attempt - 1)).Floor;
    var millis := if p.maxDelayMs.None? || scaled < p.maxDelayMs.value then scaled else p.maxDelayMs.value;
    if millis < 0 then 0 else millis
  }

  function StartKey(f: Frame): Key { Start(f.id, f.policy, f.attempt) }
  function OutcomeKey(f: Frame): Key { Outcome(f.id, f.policy, f.attempt) }

  datatype Answer = Differs(x: Fault) | Answered(r: Response, payload: Payload, m: Machine) | Thrown(e: string)

  function Append(m: Machine, e: Event): Machine { m.(appended := m.appended + [e]) }

  /** A boundary: replay it, or call its function and record the value. */
  function AskCall(m: Machine, c: CallKey, live: Live): (a: Answer)
  {
    match Lookup(m.history, m.position, Called(c))
    case Mismatch(x) => Differs(x)
    case Hit(p) => Answered(Got(ValueOf(p)), p, m.(position := m.position + 1))
    case Missing =>
      match live
      case Ok(v) => Answered(Got(v), Data(v.json), Append(m, Event(Called(c), Data(v.json))))
      case Fail(e) => Thrown(e)
      case FailLate(e) =>
        if c.SleepFor? then Answered(Late(e), Data(""), Append(m, Event(Called(c), Data("")))) else Thrown(e)
  }

  /** `retryLookupOrRecord`. */
  function AskRetry(m: Machine, key: Key, payload: Payload): (a: Answer)
  {
    match Lookup(m.history, m.position, key)
    case Mismatch(x) => Differs(x)
    case Hit(p) => Answered(Got(ValueOf(p)), p, m.(position := m.position + 1))
    case Missing => Answered(Got(ValueOf(payload)), payload, Append(m, Event(key, payload)))
  }

  /** Asking moves the position or appends an event, and nothing else. */
  lemma AskOnlyLogs(m: Machine, c: CallKey, live: Live, key: Key, payload: Payload)
    ensures var a := AskCall(m, c, live);
            a.Answered? ==> a.m == m.(position := a.m.position, appended := a.m.appended)
    ensures var a := AskRetry(m, key, payload);
            !a.Thrown? && (a.Answered? ==> a.m == m.(position := a.m.position, appended := a.m.appended))
  {
  }

  function SetTop(m: Machine, f: Frame): Machine
    requires m.frames != []
  {
    m.(frames := m.frames[..|m.frames| - 1] + [f])
  }

  /** Hand a response to the program on top. */
  function Respond(m: Machine, r: Response): Machine
  {
    if m.frames == [] then m.(hist := m.hist + [r])
    else
      var f := m.frames[|m.frames| - 1];
      if f.phase.Running? then SetTop(m, f.(phase := Running(f.phase.h + [r]))) else m
  }

  function Pop(m: Machine): Machine
    requires m.frames != []
  {
    m.(frames := m.frames[..|m.frames| - 1])
  }

  /** The host's mismatch, raised in the program on top. */
  function Raise(m: Machine, x: Fault): Machine { Respond(m.(mismatched := true), Threw(x)) }

  function Push(m: Machine, p: Policy, body: (nat, seq<Response>) -> Action): Machine
  {
    m.(nextRetry := m.nextRetry + 1, frames := m.frames + [Frame(m.nextRetry, p, body, 1, Starting)])
  }

  /** How an attempt that ended settles its retry; none if there will be another attempt. */
  function Verdict(p: Policy, attempt: nat, r: Result): (s: Option<Response>)
  {
    match r
    case Done(v) => Some(Got(v))
    case Failed(x) =>
      if attempt == p.maxAttempts then Some(Exhausted(x))
      else if DelayMs(p, attempt) > MAX_SAFE then Some(Rejected)
      else None
  }

  function Settled(f: Frame, r: Result): (s: Option<Response>) { Verdict(f.policy, f.attempt, r) }

  function Settle(m: Machine, f: Frame, r: Result): Machine
    requires m.frames != []
  {
    match Settled(f, r)
    case Some(response) => Respond(Pop(m), response)
    case None => SetTop(m, f.(phase := Waiting))
  }

  function NextAttempt(f: Frame): Frame { f.(attempt := f.attempt + 1, phase := Starting) }

  // A mismatch at the start, the outcome or the backoff of a retry leaves the retry.

  function StepStarting(m: Machine, f: Frame): Machine
    requires m.frames != []
  {
    match AskRetry(m, StartKey(f), AttemptNo(f.attempt))
    case Answered(_, _, m1) => SetTop(m1, f.(phase := Finding))
    case Differs(x) => Raise(Pop(m), x)
    case _ => m
  }

  function StepFinding(m: Machine, f: Frame): Machine
    requires m.frames != []
  {
    match FindFrom(m.history, m.position, OutcomeKey(f))
    case Some(j) => Settle(m.(position := j + 1), f, ResultOf(m.history[j].payload))
    case None => SetTop(m, f.(phase := Running([])))
  }

  function StepRunning(m: Machine, f: Frame, h: seq<Response>, live: Live): Machine
    requires m.frames != []
  {
    match f.body(f.attempt, h)
    case Call(c) =>
      (match AskCall(m, c, live)
       case Differs(x) => SetTop(m.(mismatched := true), f.(phase := Running(h + [Threw(x)])))
       case Answered(r, _, m1) => SetTop(m1, f.(phase := Running(h + [r])))
       case Thrown(e) => SetTop(m, f.(phase := Running(h + [Threw(Error(e))]))))
    case Retry(p, b) => Push(m, p, b)
    case End(r) => SetTop(m, f.(phase := Recording(h, r)))
  }

  function StepRecording(m: Machine, f: Frame, r: Result): Machine
    requires m.frames != []
  {
    match AskRetry(m, OutcomeKey(f), Ended(Recorded(r)))
    case Answered(_, _, m1) => Settle(m1, f, r)
    case Differs(x) => Raise(Pop(m), x)
    case _ => m
  }

  function StepWaiting(m: Machine, f: Frame, live: Live): Machine
    requires m.frames != []
  {
    if DelayMs(f.policy, f.attempt) == 0 then SetTop(m, NextAttempt(f))
    else
      match AskCall(m, SleepFor(DelayMs(f.policy, f.attempt)), live)
      case Differs(x) => Raise(Pop(m), x)
      case Answered(r, _, m1) => if r.Late? then Respond(Pop(m1), Broken(r.e)) else SetTop(m1, NextAttempt(f))
      case Thrown(e) => Respond(Pop(m), Broken(e))
  }

  function StepFrame(m: Machine, f: Frame, live: Live): Machine
    requires m.frames != []
  {
    match f.phase
    case Starting => StepStarting(m, f)
    case Finding => StepFinding(m, f)
    case Running(h) => StepRunning(m, f, h, live)
    case Recording(_, r) => StepRecording(m, f, r)
    case Waiting => StepWaiting(m, f, live)
  }

  /** One step: at most one host operation, at most one call of a boundary's function. That the
      history is used up is checked only of a workflow that succeeds. */
  function StepOnce(flow: Flow, m: Machine, live: Live): (r: Machine)
  {
    if !m.status.Active? then m
    else if m.frames != [] then StepFrame(m, m.frames[|m.frames| - 1], live)
    else
      match flow(m.hist)
      case Call(c) =>
        (match AskCall(m, c, live)
         case Differs(x) => m.(mismatched := true, hist := m.hist + [Threw(x)])
         case Answered(r, _, m1) => m1.(hist := m.hist + [r])
         case Thrown(e) => m.(hist := m.hist + [Threw(Error(e))]))
      case Retry(p, b) => Push(m, p, b)
      case End(r) => m.(status := if r.Done? && m.position < |m.history| then Leftover else Finished(r))
  }

  function Run(flow: Flow, m: Machine, lives: seq<Live>): (r: Machine)
    decreases |lives|
  {
    if lives == [] then m else Run(flow, StepOnce(flow, m, lives[0]), lives[1..])
  }
}
