/**
 A retry as a whole, seen from its own events in the log, with whatever its callback records in
 between. The re-run jumps from the start of each recorded attempt to its outcome.
 */
module DurableTrack {
  import opened OptionWrapper
  import opened DurableMachine

  // ---------------------------------------------------------------- the attempts of a retry

  /** Where a retry is, seen from its own events: before an attempt, in it, waiting after it, or
      over. */
  datatype Track = Ready(attempt: nat) | Inside(attempt: nat) | Pausing(attempt: nat) | Over(r: Response)

  function Calm(p: Policy, attempt: nat): (t: Track)
  {
    if DelayMs(p, attempt) == 0 then Ready(attempt + 1) else Pausing(attempt)
  }

  function Judge(p: Policy, attempt: nat, r: Result): (t: Track)
  {
    match Verdict(p, attempt, r)
    case Some(response) => Over(response)
    case None => Calm(p, attempt)
  }

  /** One event more. Inside an attempt anything but its outcome belongs to the callback. */
  function Next(id: nat, p: Policy, t: Track, e: Event): (r: Option<Track>)
  {
    match t
    case Ready(n) => if e.key == Start(id, p, n) then Some(Inside(n)) else None
    case Inside(n) => Some(if e.key == Outcome(id, p, n) then Judge(p, n, ResultOf(e.payload)) else t)
    case Pausing(n) => if e.key == Called(SleepFor(DelayMs(p, n))) then Some(Ready(n + 1)) else None
    case Over(_) => None
  }

  function Follow(id: nat, p: Policy, t: Track, x: seq<Event>): (r: Option<Track>)
    decreases |x|
  {
    if x == [] then Some(t)
    else
      match Next(id, p, t, x[0])
      case None => None
      case Some(u) => Follow(id, p, u, x[1..])
  }

  /** The events take the retry from `t` to its end, with the response `r`. */
  ghost predicate Finishes(id: nat, p: Policy, t: Track, x: seq<Event>, r: Response)
  {
    Follow(id, p, t, x) == Some(Over(r))
  }

  lemma {:induction false} FollowSnoc(id: nat, p: Policy, t: Track, x: seq<Event>, e: Event)
    requires Follow(id, p, t, x).Some?
    ensures Follow(id, p, t, x + [e]) == Next(id, p, Follow(id, p, t, x).value, e)
    decreases |x|
  {
    hide Next;
    if x == [] {
      assert [] + [e] == [e] && [e][1..] == [];
    } else {
      FollowSnoc(id, p, Next(id, p, t, x[0]).value, x[1..], e);
      assert (x + [e])[1..] == x[1..] + [e];
    }
  }

  /** A retry that is over has recorded the outcome of the attempt it was in. */
  lemma {:induction false} OutcomeAhead(id: nat, p: Policy, n: nat, x: seq<Event>, r: Response) returns (j: nat)
    requires Finishes(id, p, Inside(n), x, r)
    ensures j < |x| && x[j].key == Outcome(id, p, n) && forall i :: 0 <= i < j ==> x[i].key != Outcome(id, p, n)
    ensures Finishes(id, p, Judge(p, n, ResultOf(x[j].payload)), x[j + 1..], r)
    decreases |x|
  {
    hide Judge;
    if x[0].key == Outcome(id, p, n) {
      j := 0;
    } else {
      j := OutcomeAhead(id, p, n, x[1..], r);
      assert x[1..][j + 1..] == x[j + 2..];
      j := j + 1;
    }
  }

  // ---------------------------------------------------------------- the re-run passes over it

  lemma {:induction false} FindsOutcome(history: seq<Event>, from: nat, j: nat, key: Key)
    requires from <= j < |history| && history[j].key == key
    requires forall i :: from <= i < j ==> history[i].key != key
    ensures FindFrom(history, from, key) == Some(j)
    decreases j - from
  {
    if from < j { FindsOutcome(history, from + 1, j, key); }
  }

  /** The re-run is about to look for the start of an attempt, with the rest of the retry before it. */
  ghost predicate AtStart(q: Machine, f: Frame, x: seq<Event>, rest: seq<Event>, r: Response)
  {
    && q.status.Active? && q.frames == [f] && f.phase.Starting?
    && q.position <= |q.history| && q.history[q.position..] == x + rest
    && Finishes(f.id, f.policy, Ready(f.attempt), x, r)
  }

  lemma AheadAt(q: Machine, x: seq<Event>, rest: seq<Event>, i: nat)
    requires q.position <= |q.history| && q.history[q.position..] == x + rest && i < |x|
    ensures q.position + i < |q.history| && q.history[q.position + i] == x[i]
  {
    assert q.history[q.position..][i] == (x + rest)[i];
  }

  lemma SettleOfFrame(s: Machine, q: Machine, g: Frame, f: Frame, r: Result)
    requires s == q.(frames := [g]) && q.frames == [f] && g == f.(phase := g.phase)
    ensures Settle(s, g, r) == Settle(q, f, r)
  {
    hide DelayMs;
    assert f.(phase := Waiting) == g.(phase := Waiting);
  }

  lemma JumpSteps(flow: Flow, q: Machine, f: Frame, to: nat, a: Live, b: Live)
    requires q.status.Active? && q.frames == [f] && f.phase.Starting? && q.position < to < |q.history|
    requires q.history[q.position].key == StartKey(f)
    requires FindFrom(q.history, q.position + 1, OutcomeKey(f)) == Some(to)
    ensures StepOnce(flow, StepOnce(flow, q, a), b) ==
            Settle(q.(position := to + 1), f, ResultOf(q.history[to].payload))
  {
    hide FindFrom, Settle;
    var s, g := StepOnce(flow, q, a), f.(phase := Finding);
    assert s == q.(position := q.position + 1, frames := [g]);
    SettleOfFrame(s.(position := to + 1), q.(position := to + 1), g, f, ResultOf(q.history[to].payload));
  }

  /** From the start of an attempt to behind its outcome. */
  lemma AttemptIsSkipped(flow: Flow, q: Machine, f: Frame, x: seq<Event>, rest: seq<Event>, r: Response,
                         a: Live, b: Live) returns (j: nat)
    requires AtStart(q, f, x, rest, r)
    ensures 0 < j < |x| && x[j].key == OutcomeKey(f)
    ensures Finishes(f.id, f.policy, Judge(f.policy, f.attempt, ResultOf(x[j].payload)), x[j + 1..], r)
    ensures StepOnce(flow, StepOnce(flow, q, a), b) ==
            Settle(q.(position := q.position + j + 1), f, ResultOf(x[j].payload))
  {
    j := OutcomeAhead(f.id, f.policy, f.attempt, x[1..], r);
    assert x[1..][j + 1..] == x[j + 2..];
    j := j + 1;
    hide Finishes, Judge;
    AheadAt(q, x, rest, 0);
    AheadAt(q, x, rest, j);
    forall i | q.position + 1 <= i < q.position + j ensures q.history[i].key != OutcomeKey(f) {
      AheadAt(q, x, rest, i - q.position);
      assert x[1..][i - q.position - 1] == x[i - q.position];
    }
    FindsOutcome(q.history, q.position + 1, q.position + j, OutcomeKey(f));
    JumpSteps(flow, q, f, q.position + j, a, b);
  }

  function Slept(p: Policy, attempt: nat): (n: nat) { if DelayMs(p, attempt) == 0 then 0 else 1 }

  lemma CalmFollows(id: nat, p: Policy, n: nat, x: seq<Event>, r: Response)
    requires Finishes(id, p, Calm(p, n), x, r)
    ensures Slept(p, n) <= |x| && Finishes(id, p, Ready(n + 1), x[Slept(p, n)..], r)
    ensures DelayMs(p, n) > 0 ==> x[0].key == Called(SleepFor(DelayMs(p, n)))
  {
    hide DelayMs;
    assert x[0..] == x;
  }

  lemma WaitingSteps(flow: Flow, q: Machine, f: Frame, live: Live)
    requires q.status.Active? && q.frames == [f] && f.phase.Waiting?
    requires DelayMs(f.policy, f.attempt) > 0 ==>
               q.position < |q.history| && q.history[q.position].key == Called(SleepFor(DelayMs(f.policy, f.attempt)))
    ensures StepOnce(flow, q, live) ==
            q.(position := q.position + Slept(f.policy, f.attempt), frames := [NextAttempt(f)])
  {
    hide DelayMs;
  }

  lemma SleptIsShort(p: Policy, attempt: nat)
    ensures Slept(p, attempt) <= 1 && (DelayMs(p, attempt) > 0 ==> Slept(p, attempt) == 1)
  {
    hide DelayMs;
  }

  lemma SliceOn(history: seq<Event>, at: nat, x: seq<Event>, rest: seq<Event>, n: nat)
    requires at <= |history| && history[at..] == x + rest && n <= |x|
    ensures at + n <= |history| && history[at + n..] == x[n..] + rest
  {
    assert history[at + n..] == history[at..][n..];
    assert (x + rest)[n..] == x[n..] + rest;
  }

  /** And through the wait to the next attempt. */
  lemma WaitIsPassed(flow: Flow, q: Machine, f: Frame, x: seq<Event>, rest: seq<Event>, r: Response, live: Live)
    requires q.status.Active? && q.frames == [f] && f.phase.Waiting?
    requires q.position <= |q.history| && q.history[q.position..] == x + rest
    requires Finishes(f.id, f.policy, Calm(f.policy, f.attempt), x, r)
    ensures var n := Slept(f.policy, f.attempt);
            && n <= |x| && AtStart(StepOnce(flow, q, live), NextAttempt(f), x[n..], rest, r)
            && StepOnce(flow, q, live) == q.(position := q.position + n, frames := [NextAttempt(f)])
  {
    hide DelayMs, Finishes, StepOnce, Calm, Slept;
    var n, d := Slept(f.policy, f.attempt), DelayMs(f.policy, f.attempt);
    CalmFollows(f.id, f.policy, f.attempt, x, r);
    SleptIsShort(f.policy, f.attempt);
    if d > 0 { AheadAt(q, x, rest, 0); }
    WaitingSteps(flow, q, f, live);
    SliceOn(q.history, q.position, x, rest, n);
  }

  /** The last attempt: two steps. */
  lemma LastIsSkipped(flow: Flow, q: Machine, f: Frame, x: seq<Event>, j: nat, r: Response)
    requires q.frames == [f] && j < |x|
    requires Finishes(f.id, f.policy, Judge(f.policy, f.attempt, ResultOf(x[j].payload)), x[j + 1..], r)
    requires Verdict(f.policy, f.attempt, ResultOf(x[j].payload)).Some?
    ensures |x| == j + 1
    ensures Settle(q.(position := q.position + j + 1), f, ResultOf(x[j].payload)) ==
            q.(position := q.position + |x|, frames := [], hist := q.hist + [r])
  {
    hide Verdict;
  }

  /** Any other: a third step, to the next. */
  lemma MoreIsSkipped(flow: Flow, q: Machine, f: Frame, x: seq<Event>, j: nat, rest: seq<Event>, r: Response,
                      live: Live) returns (n: nat)
    requires AtStart(q, f, x, rest, r) && j < |x|
    requires Finishes(f.id, f.policy, Judge(f.policy, f.attempt, ResultOf(x[j].payload)), x[j + 1..], r)
    requires Verdict(f.policy, f.attempt, ResultOf(x[j].payload)).None?
    ensures j < n <= |x|
    ensures var s := Settle(q.(position := q.position + j + 1), f, ResultOf(x[j].payload));
            && StepOnce(flow, s, live) == q.(position := q.position + n, frames := [NextAttempt(f)])
            && AtStart(StepOnce(flow, s, live), NextAttempt(f), x[n..], rest, r)
  {
    var waiting := f.(phase := Waiting);
    var s := q.(position := q.position + j + 1, frames := [waiting]);
    assert Settle(q.(position := q.position + j + 1), f, ResultOf(x[j].payload)) == s;
    assert s.history[s.position..] == q.history[q.position..][j + 1..] == x[j + 1..] + rest;
    assert NextAttempt(waiting) == NextAttempt(f);
    n := Slept(f.policy, f.attempt);
    hide DelayMs, Finishes, StepOnce, Calm, Verdict;
    WaitIsPassed(flow, s, waiting, x[j + 1..], rest, r, live);
    assert x[j + 1..][n..] == x[j + 1 + n..];
    n := n + j + 1;
  }

  lemma NotYetOver(q: Machine, f: Frame, x: seq<Event>, rest: seq<Event>, r: Response)
    requires AtStart(q, f, x, rest, r)
    ensures x != [] && q.frames == [f]
  {
  }

  lemma TwoSteps(flow: Flow, q: Machine, lives: seq<Live>)
    requires |lives| >= 2
    ensures Run(flow, q, lives[..2]) == StepOnce(flow, StepOnce(flow, q, lives[0]), lives[1])
  {
    hide StepOnce;
    var two := lives[..2];
    assert two[1..] == [lives[1]] && [lives[1]][1..] == [];
    assert Run(flow, q, two) == Run(flow, StepOnce(flow, q, lives[0]), [lives[1]]);
  }

  lemma ThreeThen(flow: Flow, q: Machine, lives: seq<Live>, k: nat)
    requires 3 <= k <= |lives|
    ensures Run(flow, q, lives[..k]) ==
            Run(flow, StepOnce(flow, StepOnce(flow, StepOnce(flow, q, lives[0]), lives[1]), lives[2]),
                lives[3..][..k - 3])
  {
    hide StepOnce;
    var first := lives[..k];
    var a := StepOnce(flow, q, lives[0]);
    var b := StepOnce(flow, a, lives[1]);
    assert first[1..][0] == lives[1] && first[1..][1..] == first[2..];
    assert first[2..][0] == lives[2] && first[2..][1..] == lives[3..][..k - 3];
    assert Run(flow, q, first) == Run(flow, a, first[1..]) == Run(flow, b, first[2..]);
  }

  /** The re-run passes over the whole retry: it runs no callback and counts no retry in it. */
  lemma {:induction false} RetryIsSkipped(flow: Flow, q: Machine, f: Frame, x: seq<Event>, rest: seq<Event>,
                                          r: Response, lives: seq<Live>) returns (k: nat)
    requires AtStart(q, f, x, rest, r) && |lives| >= 3 * |x|
    ensures k <= 3 * |x|
    ensures Run(flow, q, lives[..k]) == q.(position := q.position + |x|, frames := [], hist := q.hist + [r])
    decreases |x|
  {
    NotYetOver(q, f, x, rest, r);
    hide AtStart, Finishes, StepOnce, Run, Judge, Verdict, DelayMs, Settle;
    var j := AttemptIsSkipped(flow, q, f, x, rest, r, lives[0], lives[1]);
    if Verdict(f.policy, f.attempt, ResultOf(x[j].payload)).Some? {
      LastIsSkipped(flow, q, f, x, j, r);
      TwoSteps(flow, q, lives);
      k := 2;
    } else {
      var n := MoreIsSkipped(flow, q, f, x, j, rest, r, lives[2]);
      var t := q.(position := q.position + n, frames := [NextAttempt(f)]);
      var more := RetryIsSkipped(flow, t, NextAttempt(f), x[n..], rest, r, lives[3..]);
      k := more + 3;
      ThreeThen(flow, q, lives, k);
    }
  }
}
