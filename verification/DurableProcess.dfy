/** The process itself: the module's variables, the host's cursor, and the code that moves them. */
module DurableProcess {
  import opened OptionWrapper
  import opened DurableMachine

  datatype Reply = Refused | Unmatched(x: Fault) | Replied(r: Response) | Raised(e: string)

  /** One process: the host's cursor, the module's `active` flag and retry counter, and the
      programs that are waiting for a response. */
  class Process {
    const flow: Flow
    const history: seq<Event>
    var position: nat
    var appended: seq<Event>
    var active: bool
    var retryIndex: nat
    var hist: seq<Response>
    var frames: seq<Frame>
    var status: Status
    ghost var mismatched: bool

    ghost function State(): Machine
      reads this
    {
      Machine(history, position, appended, retryIndex, hist, frames, status, mismatched)
    }

    constructor (flow: Flow, history: seq<Event>)
      ensures this.flow == flow && State() == Boot(history) && !active
    {
      this.flow, this.history := flow, history;
      position, appended, active, retryIndex, hist, frames, status := 0, [], false, 0, [], [], Status.Active;
      mismatched := false;
    }

    /** `consume_event`. */
    method ConsumeEvent(key: Key) returns (r: Found)
      modifies this`position
      ensures r == Lookup(history, old(position), key)
      ensures position == old(position) + if r.Hit? then 1 else 0
    {
      if position >= |history| { return Missing; }
      var event := history[position];
      if event.key != key { return Mismatch(ReplayMismatch(position, event.key, key)); }
      position := position + 1;
      r := Hit(event.payload);
    }

    /** `consume_through`: scan forward, leave the position alone if there is nothing. */
    method ConsumeThrough(key: Key) returns (r: Option<Payload>)
      modifies this`position
      ensures match FindFrom(history, old(position), key)
              case Some(j) => r == Some(history[j].payload) && position == j + 1
              case None => r == None && position == old(position)
    {
      var offset := position;
      while offset < |history|
        invariant position <= offset && position == old(position)
        invariant FindFrom(history, position, key) == FindFrom(history, offset, key)
        decreases |history| - offset
      {
        if history[offset].key == key {
          position := offset + 1;
          return Some(history[offset].payload);
        }
        offset := offset + 1;
      }
      r := None;
    }

    method Record(e: Event)
      modifies this`appended
      ensures appended == old(appended) + [e]
    {
      appended := appended + [e];
    }

    /** `boundary`, and the like shape of `now`, `random`, `sleep` and a delivered signal. A
        boundary entered while another is active is refused before it touches the log. A sleep
        is recorded before it waits. */
    method Boundary(c: CallKey, live: Live) returns (r: Reply)
      modifies this`position, this`appended, this`active
      ensures old(active) ==> r == Refused && State() == old(State())
      ensures !old(active) ==>
                match AskCall(old(State()), c, live)
                case Differs(x) => r == Unmatched(x) && State() == old(State())
                case Answered(response, _, m) => r == Replied(response) && State() == m
                case Thrown(e) => r == Raised(e) && State() == old(State())
      ensures active == old(active)
    {
      if active { return Refused; }
      active := true;
      var replay := ConsumeEvent(Called(c));
      match replay {
        case Hit(p) => r := Replied(Got(ValueOf(p)));
        case Mismatch(x) => r := Unmatched(x);
        case Missing =>
          match live {
            case Ok(v) =>
              Record(Event(Called(c), Data(v.json)));
              r := Replied(Got(v));
            case Fail(e) => r := Raised(e);
            case FailLate(e) =>
              if c.SleepFor? {
                Record(Event(Called(c), Data("")));
                r := Replied(Late(e));
              } else {
                r := Raised(e);
              }
          }
      }
      active := false;
    }

    method RetryLookupOrRecord(key: Key, payload: Payload) returns (r: Reply)
      modifies this`position, this`appended, this`active
      ensures old(active) ==> r == Refused && State() == old(State())
      ensures !old(active) ==>
                match AskRetry(old(State()), key, payload)
                case Answered(response, _, m) => r == Replied(response) && State() == m
                case Differs(x) => r == Unmatched(x) && State() == old(State())
                case Thrown(_) => false
      ensures active == old(active)
    {
      if active { return Refused; }
      active := true;
      var replay := ConsumeEvent(key);
      match replay {
        case Hit(p) => r := Replied(Got(ValueOf(p)));
        case Mismatch(x) => r := Unmatched(x);
        case Missing =>
          Record(Event(key, payload));
          r := Replied(Got(ValueOf(payload)));
      }
      active := false;
    }

    method SettleAttempt(f: Frame, r: Result)
      requires frames != []
      modifies this`hist, this`frames
      ensures State() == Settle(old(State()), f, r)
    {
      var settled := Settled(f, r);
      if settled.None? {
        frames := frames[..|frames| - 1] + [f.(phase := Waiting)];
      } else {
        frames := frames[..|frames| - 1];
        Deliver(settled.value);
      }
    }

    method Deliver(r: Response)
      modifies this`hist, this`frames
      ensures State() == Respond(old(State()), r)
    {
      if |frames| == 0 {
        hist := hist + [r];
      } else {
        var f := frames[|frames| - 1];
        if f.phase.Running? {
          frames := frames[..|frames| - 1] + [f.(phase := Running(f.phase.h + [r]))];
        }
      }
    }

    method ReplaceTop(f: Frame)
      requires frames != []
      modifies this`frames
      ensures State() == SetTop(old(State()), f)
    {
      frames := frames[..|frames| - 1] + [f];
    }

    method BeginRetry(p: Policy, body: (nat, seq<Response>) -> Action)
      modifies this`retryIndex, this`frames
      ensures State() == Push(old(State()), p, body)
    {
      frames := frames + [Frame(retryIndex, p, body, 1, Starting)];
      retryIndex := retryIndex + 1;
    }

    /** The mismatch leaves the retry on top as an exception for the program below. */
    method RejectRetry(x: Fault)
      requires frames != []
      modifies this`hist, this`frames, this`mismatched
      ensures State() == Raise(Pop(old(State())), x)
    {
      frames := frames[..|frames| - 1];
      mismatched := true;
      Deliver(Threw(x));
    }

    /** Run to the next await. */
    method Advance(live: Live)
      requires !active
      modifies this
      ensures State() == StepOnce(flow, old(State()), live) && !active
    {
      if !status.Active? { return; }
      if |frames| > 0 {
        AdvanceRetry(frames[|frames| - 1], live);
        return;
      }
      match flow(hist)
      case Call(c) =>
        var reply := Boundary(c, live);
        match reply {
          case Replied(r) => hist := hist + [r];
          case Raised(e) => hist := hist + [Threw(Error(e))];
          case Unmatched(x) =>
            hist := hist + [Threw(x)];
            mismatched := true;
          case Refused => assert false;
        }
      case Retry(p, b) => BeginRetry(p, b);
      case End(r) => status := if r.Done? && position < |history| then Leftover else Finished(r);
    }

    /** One leg of the loop over attempts. */
    method AdvanceRetry(f: Frame, live: Live)
      requires !active && frames != []
      modifies this
      ensures State() == StepFrame(old(State()), f, live) && !active
    {
      hide DelayMs, Settle, Respond, FindFrom, AskCall, AskRetry, Raise;
      match f.phase
      case Starting =>
        var reply := RetryLookupOrRecord(StartKey(f), AttemptNo(f.attempt));
        match reply {
          case Replied(_) => ReplaceTop(f.(phase := Finding));
          case Unmatched(x) => RejectRetry(x);
          case _ =>
        }
      case Finding =>
        var outcome := ConsumeThrough(OutcomeKey(f));
        if outcome.Some? { SettleAttempt(f, ResultOf(outcome.value)); } else { ReplaceTop(f.(phase := Running([]))); }
      case Running(h) => AdvanceCallback(f, h, live);
      case Recording(h, r) =>
        var reply := RetryLookupOrRecord(OutcomeKey(f), Ended(Recorded(r)));
        match reply {
          case Replied(_) => SettleAttempt(f, r);
          case Unmatched(x) => RejectRetry(x);
          case _ =>
        }
      case Waiting => AdvanceBackoff(f, live);
    }

    /** The callback up to its next await. */
    method AdvanceCallback(f: Frame, h: seq<Response>, live: Live)
      requires !active && frames != [] && f.phase == Running(h)
      modifies this
      ensures State() == StepRunning(old(State()), f, h, live) && !active
    {
      hide AskCall;
      match f.body(f.attempt, h) {
        case Call(c) =>
          var reply := Boundary(c, live);
          match reply {
            case Replied(r) => ReplaceTop(f.(phase := Running(h + [r])));
            case Raised(e) => ReplaceTop(f.(phase := Running(h + [Threw(Error(e))])));
            case Unmatched(x) =>
              mismatched := true;
              ReplaceTop(f.(phase := Running(h + [Threw(x)])));
            case Refused =>
          }
        case Retry(p, b) => BeginRetry(p, b);
        case End(r) => ReplaceTop(f.(phase := Recording(h, r)));
      }
    }

    /** The sleep between two attempts. */
    method AdvanceBackoff(f: Frame, live: Live)
      requires !active && frames != [] && f.phase.Waiting?
      modifies this
      ensures State() == StepWaiting(old(State()), f, live) && !active
    {
      hide DelayMs, Respond, AskCall, Raise;
      var delay := DelayMs(f.policy, f.attempt);
      if delay == 0 {
        ReplaceTop(NextAttempt(f));
        return;
      }
      var reply := Boundary(SleepFor(delay), live);
      match reply {
        case Replied(r) =>
          if r.Late? {
            frames := frames[..|frames| - 1];
            Deliver(Broken(r.e));
          } else {
            ReplaceTop(NextAttempt(f));
          }
        case Raised(e) =>
          frames := frames[..|frames| - 1];
          Deliver(Broken(e));
        case Unmatched(x) => RejectRetry(x);
        case Refused =>
      }
    }
  }
}
