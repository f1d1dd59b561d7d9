/**
 The Postgres connection pool as a step system: any number of operations, interleaved at
 their awaits and locks, sharing a semaphore of permits and a stack of idle sessions.
 */
module PostgresPool {
  import opened OptionWrapper
  import Sets

  const MAX_CONNECTIONS: nat := 4

  type TaskId = nat

  /** A server session: whether it still lives, and whether the commands sent to it leave it
      inside a transaction. */
  datatype Session = Session(id: nat, open: bool, inTx: bool)

  datatype Phase = Ready | Executing | Beginning | Collecting | Closing(collected: bool) | Finished

  /** How far an operation has come. `Leaving` is the time between the body of `Drop` and the
      release of the permit, a field dropped after it. */
  datatype Task =
    | Waiting(write: bool)
    | Holding(write: bool)
    | Opening(write: bool)
    | Using(write: bool, client: Option<Session>, recycle: bool, phase: Phase)
    | Leaving

  datatype Event = CheckedOut(t: TaskId) | BeganReadOnly(t: TaskId) | Fetched(t: TaskId)

  datatype Pool = Pool(readOnly: bool, permits: nat, idle: seq<Session>, tasks: map<TaskId, Task>,
                       next: nat, log: seq<Event>)

  function Fresh(readOnly: bool): (p: Pool) { Pool(readOnly, MAX_CONNECTIONS, [], map[], 0, []) }

  // ---------------------------------------------------------------- steps

  datatype Op =
    | Start(t: TaskId, write: bool)
    | Acquire(t: TaskId)
    | Pop(t: TaskId)
    | OpenOk(t: TaskId)
    | OpenFail(t: TaskId)
    | Begin(t: TaskId)                       // the first command is sent
    | Serve(t: TaskId, inTx: bool)           // the caller's SQL starts or ends a transaction
    | Fetch(t: TaskId)                       // a row is collected
    | ExecuteDone(t: TaskId, ok: bool)
    | BeginDone(t: TaskId, ok: bool)
    | CollectDone(t: TaskId, ok: bool)
    | CloseDone(t: TaskId, ok: bool)
    | Drop(t: TaskId)                        // at the end, or the operation is dropped midway
    | Release(t: TaskId)
    | Die(t: TaskId)                         // the connection of a session in hand is lost
    | DieIdle(k: nat)

  function Set(p: Pool, t: TaskId, task: Task): (r: Pool) { p.(tasks := p.tasks[t := task]) }

  predicate InPhase(p: Pool, t: TaskId, phase: Phase)
  {
    t in p.tasks && p.tasks[t].Using? && p.tasks[t].phase == phase && p.tasks[t].client.Some?
  }

  /** The command under way ended: the session stays in hand, or is discarded. */
  function Ended(task: Task, ok: bool): (r: Task)
    requires task.Using?
  {
    task.(phase := Finished, client := if ok then task.client else None)
  }

  function DoPop(p: Pool, t: TaskId): (r: Pool)
    requires t in p.tasks && p.tasks[t].Holding?
  {
    var write := p.tasks[t].write;
    if p.idle == [] then Set(p, t, Opening(write))
    else
      var n := |p.idle| - 1;
      var rest := p.(idle := p.idle[..n]);
      if p.idle[n].open then
        Set(rest, t, Using(write, Some(p.idle[n]), true, Ready)).(log := p.log + [CheckedOut(t)])
      else Set(rest, t, Opening(write))
  }

  function DoOpenOk(p: Pool, t: TaskId): (r: Pool)
    requires t in p.tasks && p.tasks[t].Opening?
  {
    Set(p, t, Using(p.tasks[t].write, Some(Session(p.next, true, false)), true, Ready))
      .(next := p.next + 1, log := p.log + [CheckedOut(t)])
  }

  function DoBegin(p: Pool, t: TaskId): (r: Pool)
    requires InPhase(p, t, Ready)
  {
    var task := p.tasks[t];
    if task.write then Set(p, t, task.(phase := Executing))
    else if p.readOnly then
      Set(p, t, task.(client := Some(task.client.value.(inTx := true)), phase := Beginning))
    else Set(p, t, task.(phase := Collecting))
  }

  /** `BEGIN READ ONLY` ended. From here the session is not to be recycled. */
  function DoBeginDone(p: Pool, t: TaskId, ok: bool): (r: Pool)
    requires InPhase(p, t, Beginning)
  {
    var task := p.tasks[t];
    if ok then
      Set(p, t, task.(recycle := false, phase := Collecting)).(log := p.log + [BeganReadOnly(t)])
    else Set(p, t, Ended(task, false))
  }

  function DoCollectDone(p: Pool, t: TaskId, ok: bool): (r: Pool)
    requires InPhase(p, t, Collecting)
  {
    var task := p.tasks[t];
    if p.readOnly then Set(p, t, task.(phase := Closing(ok))) else Set(p, t, Ended(task, ok))
  }

  predicate IsClosing(p: Pool, t: TaskId)
  {
    t in p.tasks && p.tasks[t].Using? && p.tasks[t].phase.Closing? && p.tasks[t].client.Some?
  }

  /** `COMMIT` or `ROLLBACK` ended: if it succeeded, no transaction is left and the session may
      be recycled again. */
  function DoCloseDone(p: Pool, t: TaskId, ok: bool): (r: Pool)
    requires IsClosing(p, t)
  {
    var task := p.tasks[t];
    if ok then
      Set(p, t, task.(client := Some(task.client.value.(inTx := false)), recycle := true, phase := Finished))
    else Set(p, t, Ended(task, false))
  }

  predicate Returns(task: Task)
  {
    task.Using? && task.client.Some? && task.recycle && task.client.value.open
  }

  /** The body of `Drop for Checkout`; an operation without a checkout has nothing to return. */
  function DoDrop(p: Pool, t: TaskId): (r: Pool)
    requires t in p.tasks && !p.tasks[t].Waiting? && !p.tasks[t].Leaving?
  {
    var task := p.tasks[t];
    if Returns(task) then Set(p, t, Leaving).(idle := p.idle + [task.client.value]) else Set(p, t, Leaving)
  }

  /** The session works on the caller's SQL. */
  predicate Serving(p: Pool, t: TaskId) { InPhase(p, t, Executing) || InPhase(p, t, Collecting) }

  function WithSession(p: Pool, t: TaskId, s: Session): (r: Pool)
    requires t in p.tasks && p.tasks[t].Using?
  {
    Set(p, t, p.tasks[t].(client := Some(s)))
  }

  function Step(p: Pool, op: Op): (r: Pool)
  {
    match op
    case Start(t, write) => if t in p.tasks || (write && p.readOnly) then p else Set(p, t, Waiting(write))
    case Acquire(t) =>
      if t in p.tasks && p.tasks[t].Waiting? && p.permits > 0 then
        Set(p, t, Holding(p.tasks[t].write)).(permits := p.permits - 1)
      else p
    case Pop(t) => if t in p.tasks && p.tasks[t].Holding? then DoPop(p, t) else p
    case OpenOk(t) => if t in p.tasks && p.tasks[t].Opening? then DoOpenOk(p, t) else p
    case OpenFail(t) => if t in p.tasks && p.tasks[t].Opening? then Set(p, t, Leaving) else p
    case Begin(t) => if InPhase(p, t, Ready) then DoBegin(p, t) else p
    case Serve(t, inTx) =>
      if Serving(p, t) then WithSession(p, t, p.tasks[t].client.value.(inTx := inTx)) else p
    case Fetch(t) => if InPhase(p, t, Collecting) then p.(log := p.log + [Fetched(t)]) else p
    case ExecuteDone(t, ok) => if InPhase(p, t, Executing) then Set(p, t, Ended(p.tasks[t], ok)) else p
    case BeginDone(t, ok) => if InPhase(p, t, Beginning) then DoBeginDone(p, t, ok) else p
    case CollectDone(t, ok) => if InPhase(p, t, Collecting) then DoCollectDone(p, t, ok) else p
    case CloseDone(t, ok) => if IsClosing(p, t) then DoCloseDone(p, t, ok) else p
    case Drop(t) =>
      if t !in p.tasks || p.tasks[t].Leaving? then p
      else if p.tasks[t].Waiting? then p.(tasks := p.tasks - {t})
      else DoDrop(p, t)
    case Release(t) =>
      if t in p.tasks && p.tasks[t].Leaving? then p.(tasks := p.tasks - {t}, permits := p.permits + 1) else p
    case Die(t) =>
      if t in p.tasks && p.tasks[t].Using? && p.tasks[t].client.Some? then
        WithSession(p, t, p.tasks[t].client.value.(open := false))
      else p
    case DieIdle(k) => if k < |p.idle| then p.(idle := p.idle[k := p.idle[k].(open := false)]) else p
  }

  function Run(p: Pool, ops: seq<Op>): (r: Pool)
  {
    if ops == [] then p else Step(Run(p, ops[..|ops| - 1]), ops[|ops| - 1])
  }

  // ---------------------------------------------------------------- the bound

  predicate HasPermit(task: Task) { !task.Waiting? }

  /** A session in hand or being opened. */
  predicate HasSession(task: Task) { task.Opening? || (task.Using? && task.client.Some?) }

  function Holders(p: Pool): (s: set<TaskId>) { set t | t in p.tasks && HasPermit(p.tasks[t]) }

  function Users(p: Pool): (s: set<TaskId>) { set t | t in p.tasks && HasSession(p.tasks[t]) }

  predicate Bounded(p: Pool)
  {
    |Holders(p)| + p.permits == MAX_CONNECTIONS && |p.idle| + |Users(p)| <= MAX_CONNECTIONS
  }

  /** Only one operation changes at a time. */
  lemma SetHolders(p: Pool, t: TaskId, task: Task)
    ensures Holders(Set(p, t, task)) == if HasPermit(task) then Holders(p) + {t} else Holders(p) - {t}
    ensures Users(Set(p, t, task)) == if HasSession(task) then Users(p) + {t} else Users(p) - {t}
  {
  }

  lemma UsersHold(p: Pool)
    ensures |Users(p)| <= |Holders(p)|
  {
    Sets.Fewer(Users(p), Holders(p));
  }

  /** A step that only moves an operation along. */
  lemma MoveKeepsBound(p: Pool, t: TaskId, task: Task)
    requires Bounded(p) && t in p.tasks && HasPermit(p.tasks[t]) && HasPermit(task)
    requires HasSession(task) ==> HasSession(p.tasks[t])
    ensures Bounded(Set(p, t, task))
  {
    SetHolders(p, t, task);
    assert Holders(p) + {t} == Holders(p);
    Sets.Fewer(Users(Set(p, t, task)), Users(p));
  }

  lemma SameTasks(p: Pool, q: Pool)
    requires p.tasks == q.tasks
    ensures Holders(p) == Holders(q) && Users(p) == Users(q)
  {
  }

  lemma AcquireKeepsBound(p: Pool, t: TaskId)
    requires Bounded(p) && t in p.tasks && p.tasks[t].Waiting? && p.permits > 0
    ensures Bounded(Step(p, Acquire(t)))
  {
    var task := Holding(p.tasks[t].write);
    SetHolders(p, t, task);
    SameTasks(Set(p, t, task), Step(p, Acquire(t)));
    assert t !in Holders(p) && t !in Users(p);
    hide Holders, Users;
  }

  lemma Holds(p: Pool, t: TaskId)
    requires t in p.tasks && HasPermit(p.tasks[t])
    ensures t in Holders(p)
  {
  }

  lemma PopEffect(p: Pool, t: TaskId) returns (task: Task)
    requires t in p.tasks && p.tasks[t].Holding?
    ensures var q := DoPop(p, t);
            && HasSession(task) && HasPermit(task) && q.tasks == Set(p, t, task).tasks && q.permits == p.permits
            && |q.idle| == if p.idle == [] then 0 else |p.idle| - 1
  {
    task := DoPop(p, t).tasks[t];
  }

  /** An empty stack means the other permit holders have at most one session each. */
  lemma PopKeepsBound(p: Pool, t: TaskId)
    requires Bounded(p) && t in p.tasks && p.tasks[t].Holding?
    ensures Bounded(DoPop(p, t))
  {
    hide DoPop, Holders, Users;
    var q := DoPop(p, t);
    var task := PopEffect(p, t);
    SetHolders(p, t, task);
    SameTasks(Set(p, t, task), q);
    Holds(p, t);
    assert Holders(p) + {t} == Holders(p);
    UsersHold(q);
    assert |Users(p) + {t}| <= |Users(p)| + 1;
  }

  lemma DropKeepsBound(p: Pool, t: TaskId)
    requires Bounded(p) && t in p.tasks && HasPermit(p.tasks[t]) && !p.tasks[t].Leaving?
    ensures Bounded(DoDrop(p, t))
  {
    var q := DoDrop(p, t);
    SetHolders(p, t, Leaving);
    assert Holders(q) == Holders(p) + {t} == Holders(p);
    assert Users(q) == Users(p) - {t};
    if Returns(p.tasks[t]) { assert t in Users(p); }
  }

  lemma ReleaseKeepsBound(p: Pool, t: TaskId)
    requires Bounded(p) && t in p.tasks && p.tasks[t].Leaving?
    ensures Bounded(Step(p, Release(t)))
  {
    var q := Step(p, Release(t));
    assert Holders(q) == Holders(p) - {t} && t in Holders(p);
    assert Users(q) == Users(p);
  }

  lemma QuietKeepsBound(p: Pool, q: Pool)
    requires Bounded(p) && q.permits == p.permits && |q.idle| == |p.idle|
             && Holders(q) == Holders(p) && Users(q) == Users(p)
    ensures Bounded(q)
  {
  }

  /** Steps of one operation that leave the permits and the stack alone. */
  predicate Advances(op: Op)
  {
    !op.Start? && !op.Acquire? && !op.Pop? && !op.Drop? && !op.Release? && !op.DieIdle?
  }

  lemma AdvanceKeepsBound(p: Pool, op: Op)
    requires Bounded(p) && Advances(op)
    ensures Bounded(Step(p, op))
  {
    hide Bounded;
    var q := Step(p, op);
    if q != p {
      var t := op.t;
      MoveKeepsBound(p, t, q.tasks[t]);
      var moved := Set(p, t, q.tasks[t]);
      assert q.tasks == moved.tasks;
      QuietKeepsBound(moved, q);
    }
  }

  lemma StepKeepsBound(p: Pool, op: Op)
    requires Bounded(p)
    ensures Bounded(Step(p, op))
  {
    hide Bounded, DoPop, DoDrop;
    var q := Step(p, op);
    match op {
      case Start(t, write) =>
        if q != p {
          SetHolders(p, t, Waiting(write));
          assert Holders(p) - {t} == Holders(p) && Users(p) - {t} == Users(p);
          QuietKeepsBound(p, q);
        }
      case Acquire(t) => if q != p { AcquireKeepsBound(p, t); }
      case Pop(t) => if t in p.tasks && p.tasks[t].Holding? { PopKeepsBound(p, t); }
      case Drop(t) =>
        if t in p.tasks && !p.tasks[t].Leaving? {
          if p.tasks[t].Waiting? {
            assert Holders(q) == Holders(p) && Users(q) == Users(p);
            QuietKeepsBound(p, q);
          } else {
            DropKeepsBound(p, t);
          }
        }
      case Release(t) => if t in p.tasks && p.tasks[t].Leaving? { ReleaseKeepsBound(p, t); }
      case DieIdle(k) => QuietKeepsBound(p, q);
      case _ => AdvanceKeepsBound(p, op);
    }
  }

  /** In every interleaving, idle sessions plus sessions in hand or being opened stay within the
      limit, and every permit is either free or held. */
  lemma {:induction false} NeverTooMany(readOnly: bool, ops: seq<Op>)
    ensures Bounded(Run(Fresh(readOnly), ops))
  {
    if ops == [] {
      var p := Fresh(readOnly);
      assert Holders(p) == {} && Users(p) == {};
    } else {
      hide Bounded, Step;
      NeverTooMany(readOnly, ops[..|ops| - 1]);
      StepKeepsBound(Run(Fresh(readOnly), ops[..|ops| - 1]), ops[|ops| - 1]);
    }
  }

  // ---------------------------------------------------------------- one place each

  predicate InHand(p: Pool, t: TaskId, id: nat)
  {
    t in p.tasks && p.tasks[t].Using? && p.tasks[t].client.Some? && p.tasks[t].client.value.id == id
  }

  predicate Shelved(p: Pool, k: nat, id: nat) { k < |p.idle| && p.idle[k].id == id }

  /** No session is in two places. */
  ghost predicate Exclusive(p: Pool)
  {
    && (forall t, u, id :: InHand(p, t, id) && InHand(p, u, id) ==> t == u)
    && (forall k, l, id :: Shelved(p, k, id) && Shelved(p, l, id) ==> k == l)
    && (forall t, k, id :: InHand(p, t, id) && Shelved(p, k, id) ==> false)
    && (forall t, id: nat :: InHand(p, t, id) ==> id < p.next)
    && (forall k, id: nat :: Shelved(p, k, id) ==> id < p.next)
  }

  /** The stack is as it was, and what is in hand was in the same hand. */
  lemma SameHands(p: Pool, q: Pool)
    requires Exclusive(p) && p.next <= q.next
    requires forall k, id :: Shelved(q, k, id) ==> Shelved(p, k, id)
    requires forall t, id :: InHand(q, t, id) ==> InHand(p, t, id)
    ensures Exclusive(q)
  {
  }

  lemma PopIsExclusive(p: Pool, t: TaskId)
    requires Exclusive(p) && t in p.tasks && p.tasks[t].Holding?
    ensures Exclusive(DoPop(p, t))
  {
    var q := DoPop(p, t);
    if p.idle != [] && p.idle[|p.idle| - 1].open {
      var n: nat := |p.idle| - 1;
      var mine := p.idle[n].id;
      assert Shelved(p, n, mine);
      assert forall k, id :: Shelved(q, k, id) ==> Shelved(p, k, id) && k != n;
      assert forall u, id :: InHand(q, u, id) ==> (u == t && id == mine) || (u != t && InHand(p, u, id));
    } else {
      SameHands(p, q);
    }
  }

  lemma OpenIsExclusive(p: Pool, t: TaskId)
    requires Exclusive(p) && t in p.tasks && p.tasks[t].Opening?
    ensures Exclusive(DoOpenOk(p, t))
  {
    var q := DoOpenOk(p, t);
    assert forall k, id :: Shelved(q, k, id) ==> Shelved(p, k, id);
    assert forall u, id :: InHand(q, u, id) ==> (u == t && id == p.next) || (u != t && InHand(p, u, id));
  }

  lemma DropIsExclusive(p: Pool, t: TaskId)
    requires Exclusive(p) && t in p.tasks && HasPermit(p.tasks[t]) && !p.tasks[t].Leaving?
    ensures Exclusive(DoDrop(p, t))
  {
    var q := DoDrop(p, t);
    assert forall u, id :: InHand(q, u, id) ==> u != t && InHand(p, u, id);
    if Returns(p.tasks[t]) {
      var mine := p.tasks[t].client.value.id;
      assert InHand(p, t, mine);
      assert forall k, id :: Shelved(q, k, id) ==> (k == |p.idle| && id == mine) || Shelved(p, k, id);
    } else {
      SameHands(p, q);
    }
  }

  lemma StepIsExclusive(p: Pool, op: Op)
    requires Exclusive(p)
    ensures Exclusive(Step(p, op))
  {
    hide Exclusive, DoPop, DoDrop, DoOpenOk;
    var q := Step(p, op);
    if op.Pop? && op.t in p.tasks && p.tasks[op.t].Holding? {
      PopIsExclusive(p, op.t);
    } else if op.OpenOk? && op.t in p.tasks && p.tasks[op.t].Opening? {
      OpenIsExclusive(p, op.t);
    } else if op.Drop? && op.t in p.tasks && HasPermit(p.tasks[op.t]) && !p.tasks[op.t].Leaving? {
      DropIsExclusive(p, op.t);
    } else {
      SameHands(p, q);
    }
  }

  /** No session is ever used by two operations at once, or used while it is idle. */
  lemma {:induction false} NeverShared(readOnly: bool, ops: seq<Op>)
    ensures Exclusive(Run(Fresh(readOnly), ops))
  {
    if ops != [] {
      hide Exclusive, Step;
      NeverShared(readOnly, ops[..|ops| - 1]);
      StepIsExclusive(Run(Fresh(readOnly), ops[..|ops| - 1]), ops[|ops| - 1]);
    }
  }

  // ---------------------------------------------------------------- read-only pools

  /** Between commands a session in hand is outside any transaction; from `BEGIN` until it is
      closed it is not to be recycled. */
  predicate Safe(task: Task)
  {
    match task
    case Leaving => true
    case Using(write, client, recycle, phase) =>
      && !write && !phase.Executing?
      && (phase.Ready? || phase.Finished? ==> client.Some? ==> !client.value.inTx)
      && (phase.Beginning? ==> client.Some? ==> client.value.inTx)
      && (phase.Collecting? || phase.Closing? ==> !recycle)
    case _ => !task.write
  }

  ghost predicate NoIdleTx(p: Pool) { forall k :: 0 <= k < |p.idle| ==> !p.idle[k].inTx }

  ghost predicate ReadOnlyInv(p: Pool)
  {
    p.readOnly && NoIdleTx(p) && forall t :: t in p.tasks ==> Safe(p.tasks[t])
  }

  /** The operation is dropped while it waits for `BEGIN READ ONLY` on a live session that it would
      recycle. */
  predicate Abandons(p: Pool, op: Op) { op.Drop? && InPhase(p, op.t, Beginning) && Returns(p.tasks[op.t]) }

  lemma StepKeepsReadOnly(p: Pool, op: Op)
    requires ReadOnlyInv(p) && !Abandons(p, op)
    ensures ReadOnlyInv(Step(p, op))
  {
    var q := Step(p, op);
    if op.DieIdle? {
    } else if q != p {
      var t := op.t;
      if t in q.tasks {
        assert Safe(q.tasks[t]);
        forall u | u in q.tasks ensures Safe(q.tasks[u]) {
          if u != t { assert u in p.tasks && q.tasks[u] == p.tasks[u]; }
        }
      }
    }
  }

  /** Such a step is the only one that puts a session inside a transaction on the stack, and it does. */
  lemma OnlyAbandoningBegin(p: Pool, op: Op)
    requires ReadOnlyInv(p)
    ensures NoIdleTx(Step(p, op)) <==> !Abandons(p, op)
  {
    if Abandons(p, op) {
      assert Safe(p.tasks[op.t]);
      assert DoDrop(p, op.t).idle[|p.idle|].inTx;
    } else {
      StepKeepsReadOnly(p, op);
    }
  }

  ghost predicate NeverAbandons(p: Pool, ops: seq<Op>)
  {
    ops == [] || (NeverAbandons(p, ops[..|ops| - 1]) && !Abandons(Run(p, ops[..|ops| - 1]), ops[|ops| - 1]))
  }

  /** At no moment of the run is an idle session inside a transaction. */
  ghost predicate AlwaysOutside(p: Pool, ops: seq<Op>)
  {
    forall k :: 0 <= k <= |ops| ==> NoIdleTx(Run(p, ops[..k]))
  }

  lemma AlwaysOutsidePush(p: Pool, ops: seq<Op>)
    requires ops != []
    ensures AlwaysOutside(p, ops) <==> AlwaysOutside(p, ops[..|ops| - 1]) && NoIdleTx(Run(p, ops))
  {
    hide NoIdleTx, Run;
    var front := ops[..|ops| - 1];
    assert ops[..|ops|] == ops;
    assert forall k :: 0 <= k <= |front| ==> front[..k] == ops[..k];
    if AlwaysOutside(p, ops) {
      forall k | 0 <= k <= |front| ensures NoIdleTx(Run(p, front[..k])) { assert NoIdleTx(Run(p, ops[..k])); }
      assert NoIdleTx(Run(p, ops[..|ops|]));
    }
    if AlwaysOutside(p, front) && NoIdleTx(Run(p, ops)) {
      forall k | 0 <= k <= |ops| ensures NoIdleTx(Run(p, ops[..k])) {
        if k < |ops| { assert NoIdleTx(Run(p, front[..k])); }
      }
    }
  }

  lemma {:induction false} NeverAbandonsKeeps(ops: seq<Op>)
    requires NeverAbandons(Fresh(true), ops)
    ensures ReadOnlyInv(Run(Fresh(true), ops))
  {
    if ops != [] {
      hide Step, Abandons;
      NeverAbandonsKeeps(ops[..|ops| - 1]);
      StepKeepsReadOnly(Run(Fresh(true), ops[..|ops| - 1]), ops[|ops| - 1]);
    }
  }

  /** Failed collections, failed commits and rollbacks, lost connections and operations dropped
      midway: no idle session is inside a transaction at any moment of a run if and only if the
      run never abandons a `BEGIN` on a session it recycles. */
  lemma {:induction false} IdleIsOutsideTransactions(ops: seq<Op>)
    ensures AlwaysOutside(Fresh(true), ops) <==> NeverAbandons(Fresh(true), ops)
  {
    var p := Fresh(true);
    if ops == [] {
      assert forall k :: 0 <= k <= |ops| ==> ops[..k] == [];
    } else {
      var front := ops[..|ops| - 1];
      IdleIsOutsideTransactions(front);
      AlwaysOutsidePush(p, ops);
      hide Step, Abandons, AlwaysOutside;
      if NeverAbandons(p, front) {
        NeverAbandonsKeeps(front);
        OnlyAbandoningBegin(Run(p, front), ops[|ops| - 1]);
      }
    }
  }

  lemma RunNone(p: Pool)
    ensures Run(p, []) == p
  {
  }

  lemma RunOne(ops: seq<Op>, op: Op, p: Pool)
    ensures Run(p, ops + [op]) == Step(Run(p, ops), op)
  {
    assert (ops + [op])[..|ops|] == ops;
  }

  /** Such a run. */
  lemma AbandonedBeginIsRecycled()
    ensures !NoIdleTx(Run(Fresh(true), [Start(0, false), Acquire(0), Pop(0), OpenOk(0), Begin(0), Drop(0)]))
  {
    hide Run;
    var p := Fresh(true);
    var a := [Start(0, false)];
    var b, c := a + [Acquire(0)], a + [Acquire(0)] + [Pop(0)];
    var d, e := c + [OpenOk(0)], c + [OpenOk(0)] + [Begin(0)];
    RunNone(p);
    RunOne([], Start(0, false), p);
    assert a == [] + [Start(0, false)];
    assert Run(p, a) == Pool(true, 4, [], map[0 := Waiting(false)], 0, []);
    RunOne(a, Acquire(0), p);
    assert Run(p, b) == Pool(true, 3, [], map[0 := Holding(false)], 0, []);
    RunOne(b, Pop(0), p);
    assert Run(p, c) == Pool(true, 3, [], map[0 := Opening(false)], 0, []);
    RunOne(c, OpenOk(0), p);
    assert InPhase(Run(p, d), 0, Ready) && Run(p, d).idle == [] && Run(p, d).readOnly;
    RunOne(d, Begin(0), p);
    RunOne(e, Drop(0), p);
    assert e + [Drop(0)] == [Start(0, false), Acquire(0), Pop(0), OpenOk(0), Begin(0), Drop(0)];
    assert Run(p, e + [Drop(0)]).idle[0].inTx;
  }

  // ---------------------------------------------------------------- rows only after BEGIN

  /** Since it last took a session, operation `t` began a read-only transaction on it. */
  predicate BegunSince(log: seq<Event>, t: TaskId)
  {
    && log != []
    && (log[|log| - 1] == BeganReadOnly(t) || (log[|log| - 1] != CheckedOut(t) && BegunSince(log[..|log| - 1], t)))
  }

  predicate FetchesAfterBegin(log: seq<Event>)
  {
    || log == []
    || (FetchesAfterBegin(log[..|log| - 1])
        && (log[|log| - 1].Fetched? ==> BegunSince(log[..|log| - 1], log[|log| - 1].t)))
  }

  ghost predicate Logged(p: Pool)
  {
    FetchesAfterBegin(p.log) && forall t :: InPhase(p, t, Collecting) ==> BegunSince(p.log, t)
  }

  lemma LogPush(log: seq<Event>, e: Event)
    ensures forall t :: BegunSince(log + [e], t) <==>
              e == BeganReadOnly(t) || (e != CheckedOut(t) && BegunSince(log, t))
    ensures FetchesAfterBegin(log + [e]) <==> FetchesAfterBegin(log) && (e.Fetched? ==> BegunSince(log, e.t))
  {
    assert (log + [e])[..|log|] == log;
  }

  lemma StepKeepsLog(p: Pool, op: Op)
    requires p.readOnly && Logged(p)
    ensures Logged(Step(p, op)) && Step(p, op).readOnly
  {
    hide BegunSince, FetchesAfterBegin;
    var q := Step(p, op);
    if !op.DieIdle? && q != p {
      var t := op.t;
      if q.log != p.log {
        LogPush(p.log, q.log[|p.log|]);
        assert q.log == p.log + [q.log[|p.log|]];
      }
      forall u | InPhase(q, u, Collecting) ensures BegunSince(q.log, u) {
        if u != t { assert InPhase(p, u, Collecting); }
      }
    }
  }

  /** In a read-only pool every row is fetched after a `BEGIN READ ONLY` succeeded on the session
      since it was taken. The statement itself may have ended that transaction. */
  lemma {:induction false} RowsOnlyAfterBegin(ops: seq<Op>)
    ensures Logged(Run(Fresh(true), ops)) && Run(Fresh(true), ops).readOnly
  {
    if ops != [] {
      hide Step, Logged;
      RowsOnlyAfterBegin(ops[..|ops| - 1]);
      StepKeepsLog(Run(Fresh(true), ops[..|ops| - 1]), ops[|ops| - 1]);
    }
  }

  // ---------------------------------------------------------------- collecting rows

  const MAX_ROWS: nat := 10_000
  const MAX_RESULT_BYTES: nat := 1_048_576
  const USIZE_MAX: nat := 0xFFFF_FFFF_FFFF_FFFF

  type Size = n: nat | n <= USIZE_MAX

  /** A row off the stream: its value and the bytes it counts for, or an error. */
  datatype Row<+V> = Row(value: V, bytes: Size) | BadRow

  function Bytes<V>(rows: seq<Row<V>>): (n: nat)
  {
    if rows == [] then 0 else Bytes(rows[..|rows| - 1]) + if rows[|rows| - 1].Row? then rows[|rows| - 1].bytes else 0
  }

  lemma {:induction false} BytesGrow<V>(rows: seq<Row<V>>, n: nat)
    requires n <= |rows|
    ensures Bytes(rows[..n]) <= Bytes(rows)
  {
    if n == |rows| {
      assert rows[..n] == rows;
    } else {
      BytesGrow(rows[..|rows| - 1], n);
      assert rows[..|rows| - 1][..n] == rows[..n];
    }
  }

  function SaturatingAdd(a: Size, b: Size): (r: Size) { if a + b > USIZE_MAX then USIZE_MAX else a + b }

  /** All rows, or an error: just when a row is bad, there are too many, or they are too big
      together. That the sum saturates hides nothing. */
  method CollectRows<V>(stream: seq<Row<V>>) returns (r: Option<seq<V>>)
    ensures r.Some? <==>
              (forall i :: 0 <= i < |stream| ==> stream[i].Row?) &&
              |stream| <= MAX_ROWS && Bytes(stream) <= MAX_RESULT_BYTES
    ensures r.Some? ==> |r.value| == |stream| && forall i :: 0 <= i < |stream| ==> r.value[i] == stream[i].value
  {
    var out: seq<V> := [];
    var bytes: Size := 0;
    for n := 0 to |stream|
      invariant |out| == n <= MAX_ROWS && bytes == Bytes(stream[..n]) <= MAX_RESULT_BYTES
      invariant forall i :: 0 <= i < n ==> stream[i].Row? && out[i] == stream[i].value
    {
      if stream[n].BadRow? || |out| >= MAX_ROWS { return None; }
      bytes := SaturatingAdd(bytes, stream[n].bytes);
      assert stream[..n + 1][..n] == stream[..n];
      if bytes > MAX_RESULT_BYTES {
        BytesGrow(stream, n + 1);
        return None;
      }
      out := out + [stream[n].value];
    }
    assert stream[..|stream|] == stream;
    r := Some(out);
  }

  // ---------------------------------------------------------------- the pool's own code

  /** The pool's fields, with the methods of `checkout`, `Checkout`, `exec` and `query` cut at
      their awaits and locks. Each is the step of that name. */
  class SharedPool {
    const readOnly: bool
    var slots: nat
    var idle: seq<Session>
    var tasks: map<TaskId, Task>
    var next: nat
    ghost var log: seq<Event>

    ghost function Now(): (p: Pool)
      reads this
    {
      Pool(readOnly, slots, idle, tasks, next, log)
    }

    constructor (readOnly: bool)
      ensures Now() == Fresh(readOnly)
    {
      this.readOnly := readOnly;
      slots, idle, tasks, next, log := MAX_CONNECTIONS, [], map[], 0, [];
    }

    /** The stack is popped; a session found closed is replaced. */
    method PopIdle(t: TaskId)
      requires t in tasks && tasks[t].Holding?
      modifies this
      ensures Now() == Step(old(Now()), Pop(t))
    {
      var write := tasks[t].write;
      var popped: Option<Session> := None;
      if |idle| > 0 {
        popped := Some(idle[|idle| - 1]);
        idle := idle[..|idle| - 1];
      }
      if popped.Some? && popped.value.open {
        tasks := tasks[t := Using(write, popped, true, Ready)];
        log := log + [CheckedOut(t)];
      } else {
        tasks := tasks[t := Opening(write)];
      }
    }

    method Discard(t: TaskId)
      requires t in tasks && tasks[t].Using?
      modifies this`tasks
      ensures tasks == old(tasks)[t := old(tasks[t]).(client := None)]
    {
      tasks := tasks[t := tasks[t].(client := None)];
    }

    /** `exec` after its command. */
    method AfterExecute(t: TaskId, ok: bool)
      requires InPhase(Now(), t, Executing)
      modifies this
      ensures Now() == Step(old(Now()), ExecuteDone(t, ok))
    {
      if !ok { Discard(t); }
      tasks := tasks[t := tasks[t].(phase := Finished)];
    }

    /** `query_read_only` after `BEGIN READ ONLY`. */
    method AfterBegin(t: TaskId, ok: bool)
      requires InPhase(Now(), t, Beginning)
      modifies this
      ensures Now() == Step(old(Now()), BeginDone(t, ok))
    {
      if !ok {
        Discard(t);
        tasks := tasks[t := tasks[t].(phase := Finished)];
        return;
      }
      tasks := tasks[t := tasks[t].(recycle := false)];
      log := log + [BeganReadOnly(t)];
      tasks := tasks[t := tasks[t].(phase := Collecting)];
    }

    /** Both ways of collecting rows, after the last row or the first error. */
    method AfterCollect(t: TaskId, ok: bool)
      requires InPhase(Now(), t, Collecting)
      modifies this
      ensures Now() == Step(old(Now()), CollectDone(t, ok))
    {
      if readOnly {
        tasks := tasks[t := tasks[t].(phase := Closing(ok))];
        return;
      }
      if !ok { Discard(t); }
      tasks := tasks[t := tasks[t].(phase := Finished)];
    }

    /** `query_read_only` after `COMMIT` or `ROLLBACK`. */
    method AfterClose(t: TaskId, ok: bool)
      requires IsClosing(Now(), t)
      modifies this
      ensures Now() == Step(old(Now()), CloseDone(t, ok))
    {
      if ok {
        var left := tasks[t].client.value.(inTx := false);
        tasks := tasks[t := tasks[t].(recycle := true, client := Some(left))];
      } else {
        Discard(t);
      }
      tasks := tasks[t := tasks[t].(phase := Finished)];
    }

    /** `Drop for Checkout`: the session goes back on the stack while the permit is still held. */
    method DropCheckout(t: TaskId)
      requires t in tasks && tasks[t].Using?
      modifies this
      ensures Now() == Step(old(Now()), Drop(t))
    {
      var client := tasks[t].client;
      var recycle := tasks[t].recycle;
      Discard(t);
      if client.Some? && recycle && client.value.open {
        idle := idle + [client.value];
      }
      tasks := tasks[t := Leaving];
    }

    method ReleasePermit(t: TaskId)
      requires t in tasks && tasks[t].Leaving?
      modifies this
      ensures Now() == Step(old(Now()), Release(t))
    {
      tasks := tasks - {t};
      slots := slots + 1;
    }
  }
}
