/** A workflow with a retry inside a retry, step by step. */
module DurableNestedExample {
  import opened OptionWrapper
  import opened DurableMachine

  const ONCE: Policy := Policy(1, 0, 2.0, None)

  const LEAF := Parsed("leaf")
  const OUTER := Parsed("outer")
  const ALL := Parsed("all")

  function Leaf(n: nat, h: seq<Response>): (a: Action) { End(Done(LEAF)) }

  /** A callback that starts a retry of its own. */
  function Outer(n: nat, h: seq<Response>): (a: Action) { if h == [] then Retry(ONCE, Leaf) else End(Done(OUTER)) }

  function Nested(h: seq<Response>): (a: Action)
  {
    if h == [] then Retry(ONCE, Outer) else if |h| == 1 then Retry(ONCE, Leaf) else End(Done(ALL))
  }

  const NESTED_LOG := [
    Event(Start(0, ONCE, 1), AttemptNo(1)), Event(Start(1, ONCE, 1), AttemptNo(1)),
    Event(Outcome(1, ONCE, 1), Ended(Done(LEAF))), Event(Outcome(0, ONCE, 1), Ended(Done(OUTER))),
    Event(Start(2, ONCE, 1), AttemptNo(1))]

  const IDLE: Live := Ok(Parsed(""))

  function Next(m: Machine): Machine { StepOnce(Nested, m, IDLE) }

  function Idle(n: nat): seq<Live> { seq(n, _ => IDLE) }

  lemma IdleStep(m: Machine, n: nat)
    requires n > 0
    ensures Run(Nested, m, Idle(n)) == Run(Nested, Next(m), Idle(n - 1))
  {
    assert Idle(n)[1..] == Idle(n - 1);
  }

  /** Into the inner retry, which is numbered 1. */
  lemma NestedGoesIn(m: Machine)
    requires m == Machine([], 0, NESTED_LOG[..1], 2, [],
               [Frame(0, ONCE, Outer, 1, Running([])), Frame(1, ONCE, Leaf, 1, Starting)], Active, false)
    ensures Next(Next(Next(m))) == m.(appended := NESTED_LOG[..2], frames := [Frame(0, ONCE, Outer, 1, Running([])),
              Frame(1, ONCE, Leaf, 1, Recording([], Done(LEAF)))])
  {
    var f0, f1 := Frame(0, ONCE, Outer, 1, Running([])), Frame(1, ONCE, Leaf, 1, Starting);
    var l := NESTED_LOG;
    assert l[..2] == l[..1] + [l[1]];
    var m1 := Next(m);
    assert m1 == m.(appended := l[..2], frames := [f0, f1.(phase := Finding)]);
    var m2 := Next(m1);
    assert m2 == m1.(frames := [f0, f1.(phase := Running([]))]);
  }

  /** And out of both. */
  lemma NestedComesOut(m: Machine)
    requires m == Machine([], 0, NESTED_LOG[..2], 2, [],
               [Frame(0, ONCE, Outer, 1, Running([])), Frame(1, ONCE, Leaf, 1, Recording([], Done(LEAF)))],
               Active, false)
    ensures Next(Next(Next(m))) == Machine([], 0, NESTED_LOG[..4], 2, [Got(OUTER)], [], Active, false)
  {
    var f0, f1 := Frame(0, ONCE, Outer, 1, Running([])), Frame(1, ONCE, Leaf, 1, Recording([], Done(LEAF)));
    var l := NESTED_LOG;
    assert l[..3] == l[..2] + [l[2]] && l[..4] == l[..3] + [l[3]];
    var back := Pop(m.(appended := l[..3]));
    assert back.frames == [f0];
    var heard: seq<Response> := [Got(LEAF)];
    assert [] + heard == heard && back.frames[..0] + [f0.(phase := Running(heard))] == [f0.(phase := Running(heard))];
    assert Respond(back, Got(LEAF)) == back.(frames := [f0.(phase := Running([Got(LEAF)]))]);
    var m1 := Next(m);
    assert m1 == back.(frames := [f0.(phase := Running([Got(LEAF)]))]);
    var m2 := Next(m1);
    assert m2 == m1.(frames := [f0.(phase := Recording([Got(LEAF)], Done(OUTER)))]);
    assert Next(m2) == Machine([], 0, l[..4], 2, [] + [Got(OUTER)], [], Active, false);
  }

  lemma NestedBegins()
    ensures Next(Next(Next(Next(Boot([]))))) == Machine([], 0, NESTED_LOG[..1], 2, [],
              [Frame(0, ONCE, Outer, 1, Running([])), Frame(1, ONCE, Leaf, 1, Starting)], Active, false)
  {
    var l, f0 := NESTED_LOG, Frame(0, ONCE, Outer, 1, Starting);
    assert l[..1] == [l[0]];
    var m1 := Next(Boot([]));
    assert m1 == Machine([], 0, [], 1, [], [f0], Active, false);
    var m2 := Next(m1);
    assert m2 == m1.(appended := l[..1], frames := [f0.(phase := Finding)]);
    var m3 := Next(m2);
    assert m3 == m2.(frames := [f0.(phase := Running([]))]);
  }

  lemma NestedGoesOn(m: Machine)
    requires m == Machine([], 0, NESTED_LOG[..4], 2, [Got(OUTER)], [], Active, false)
    ensures Log(Next(Next(m))) == NESTED_LOG
  {
    var l := NESTED_LOG;
    assert l == l[..4] + [l[4]];
    var m1 := Next(m);
    assert m1 == m.(nextRetry := 3, frames := [Frame(2, ONCE, Leaf, 1, Starting)]);
  }

  lemma NestedRuns()
    ensures Log(Run(Nested, Boot([]), Idle(12))) == NESTED_LOG
  {
    NestedBegins();
    hide Next;
    var b := Boot([]);
    var m4 := Next(Next(Next(Next(b))));
    NestedGoesIn(m4);
    var m7 := Next(Next(Next(m4)));
    NestedComesOut(m7);
    var m10 := Next(Next(Next(m7)));
    NestedGoesOn(m10);
    IdleStep(b, 12); IdleStep(Next(b), 11); IdleStep(Next(Next(b)), 10); IdleStep(Next(Next(Next(b))), 9);
    IdleStep(m4, 8); IdleStep(Next(m4), 7); IdleStep(Next(Next(m4)), 6); IdleStep(m7, 5);
    IdleStep(Next(m7), 4); IdleStep(Next(Next(m7)), 3); IdleStep(m10, 2); IdleStep(Next(m10), 1);
    assert Run(Nested, Next(Next(m10)), Idle(0)) == Next(Next(m10));
  }

  /** The re-run skips the outer callback. */
  lemma NestedSkips()
    ensures Next(Next(Next(Boot(NESTED_LOG)))) == Machine(NESTED_LOG, 4, [], 1, [Got(OUTER)], [], Active, false)
  {
    var f0, l := Frame(0, ONCE, Outer, 1, Starting), NESTED_LOG;
    var m1 := Next(Boot(l));
    assert m1 == Machine(l, 0, [], 1, [], [f0], Active, false);
    var m2 := Next(m1);
    assert m2 == Machine(l, 1, [], 1, [], [f0.(phase := Finding)], Active, false);
    assert FindFrom(l, 3, OutcomeKey(f0)) == Some(3);
    assert FindFrom(l, 2, OutcomeKey(f0)) == Some(3);
    assert FindFrom(l, 1, OutcomeKey(f0)) == Some(3);
    assert [] + [Got(OUTER)] == [Got(OUTER)];
  }

  lemma NestedMismatch(m: Machine)
    requires m == Machine(NESTED_LOG, 4, [], 1, [Got(OUTER)], [], Active, false)
    ensures Next(Next(Next(m))).mismatched && Next(Next(Next(m))).status == Leftover
  {
    var x := ReplayMismatch(4, Start(2, ONCE, 1), Start(1, ONCE, 1));
    var m1 := Next(m);
    assert m1 == Machine(NESTED_LOG, 4, [], 2, [Got(OUTER)], [Frame(1, ONCE, Leaf, 1, Starting)], Active, false);
    assert [Got(OUTER)] + [Threw(x)] == [Got(OUTER), Threw(x)];
    assert Next(m1) == Machine(NESTED_LOG, 4, [], 2, [Got(OUTER), Threw(x)], [], Active, true);
  }

  /** A workflow with a retry inside a retry's callback: the re-run skips the outer callback,
      so the inner retry is never numbered, and the next one asks for number 1 where the log
      has 2. This workflow takes the mismatch for the end of that retry, and events are left. */
  lemma NestedRetryDiverges()
    ensures var n := Run(Nested, Boot(Log(Run(Nested, Boot([]), Idle(12)))), Idle(6));
            n.mismatched && n.status == Leftover
  {
    NestedRuns();
    NestedSkips();
    hide Next;
    var b := Boot(NESTED_LOG);
    var m3 := Next(Next(Next(b)));
    NestedMismatch(m3);
    IdleStep(b, 6); IdleStep(Next(b), 5); IdleStep(Next(Next(b)), 4);
    IdleStep(m3, 3); IdleStep(Next(m3), 2); IdleStep(Next(Next(m3)), 1);
    assert Run(Nested, Next(Next(Next(m3))), Idle(0)) == Next(Next(Next(m3)));
  }
}
