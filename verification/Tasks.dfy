/**
 Project tasks: the manifest's check that dependencies form no cycle, and the walk that runs a
 task after the tasks it depends on. Whether a step's command succeeds is a parameter.
 */
module Tasks {
  import opened Graphs

  type Name = string

  datatype Task = Task(depends: seq<Name>, steps: nat)

  type Graph = map<Name, Task>

  // ---------------------------------------------------------------- dependencies

  predicate Dep(g: Graph, a: Name, b: Name) { a in g && b in g[a].depends }

  ghost predicate Closed(g: Graph) { forall a, b :: Dep(g, a, b) ==> b in g }

  ghost function Depends(g: Graph): (edge: Edges<Name>) { (a, b) => Dep(g, a, b) }

  // ---------------------------------------------------------------- the cycle check

  class Visitor {
    const tasks: Graph
    var visiting: set<Name>
    var visited: set<Name>
    ghost var order: seq<Name>

    ghost predicate Valid()
      reads this
    {
      Closed(tasks) && Topological(Depends(tasks), order) && forall a :: a in visited <==> a in order
    }

    constructor (tasks: Graph)
      requires Closed(tasks)
      ensures Valid() && this.tasks == tasks && visiting == {} && visited == {}
    {
      this.tasks := tasks;
      visiting, visited, order := {}, {}, [];
    }

    /** `visit_task`: the tasks being visited are those that led here. */
    method Visit(name: Name) returns (ok: bool, ghost cycle: Name)
      requires Valid() && name in tasks && visiting <= tasks.Keys
      requires forall a :: a in visiting ==> Below(Depends(tasks), a, name)
      modifies this
      ensures ok ==> Valid() && visiting == old(visiting) && old(visited) <= visited && name in visited
      ensures !ok ==> Below(Depends(tasks), cycle, cycle)
      decreases tasks.Keys - visiting
    {
      cycle := name;
      if name in visited { return true, name; }
      if name in visiting { return false, name; }
      visiting := visiting + {name};
      var depends := tasks[name].depends;
      for i := 0 to |depends|
        invariant Valid() && visiting == old(visiting) + {name} && old(visited) <= visited
        invariant forall j :: 0 <= j < i ==> depends[j] in visited
      {
        hide Topological, Below;
        assert Dep(tasks, name, depends[i]);
        forall a | a in visiting ensures Below(Depends(tasks), a, depends[i]) {
          if a == name {
            BelowEdge(Depends(tasks), name, depends[i]);
          } else {
            BelowReaches(Depends(tasks), a, name);
            ReachesThenEdge(Depends(tasks), a, name, depends[i]);
          }
        }
        ok, cycle := Visit(depends[i]);
        if !ok { return; }
      }
      visiting := visiting - {name};
      if name !in visited {
        TopologicalPush(Depends(tasks), order, name);
        order := order + [name];
      }
      visited := visited + {name};
      ok := true;
    }
  }

  /** The checks on one task's dependencies. */
  method CheckDepends(g: Graph, depends: seq<Name>) returns (ok: bool)
    ensures ok <==> (forall b :: b in depends ==> b in g) && Distinct(depends)
  {
    var dependencies: set<Name> := {};
    for i := 0 to |depends|
      invariant forall b :: b in dependencies <==> b in depends[..i]
      invariant forall b :: b in depends[..i] ==> b in g
      invariant Distinct(depends[..i])
    {
      if depends[i] !in g { return false; }
      if depends[i] in dependencies {
        var j :| 0 <= j < i && depends[..i][j] == depends[i];
        assert depends[j] == depends[i];
        return false;
      }
      assert depends[..i + 1] == depends[..i] + [depends[i]];
      dependencies := dependencies + {depends[i]};
    }
    assert depends[..|depends|] == depends;
    ok := true;
  }

  /** The task does something, and its dependencies are tasks, each listed once. */
  ghost predicate GoodTask(g: Graph, a: Name)
    requires a in g
  {
    && (g[a].depends != [] || g[a].steps > 0)
    && (forall b :: b in g[a].depends ==> b in g) && Distinct(g[a].depends)
  }

  lemma NotBelow(g: Graph, a: Name)
    requires a !in g
    ensures !Below(Depends(g), a, a)
  {
    forall t | t != [] && t[0] == a && |t| >= 2 ensures !JoinsFar(Depends(g), a, a, t) {
      assert !Depends(g)(t[0], t[1]);
    }
  }

  /** The manifest is accepted just when every task has dependencies or steps, every dependency
      is a task, none is listed twice and none leads back to its task. `names` lists the tasks,
      in the map's order. */
  method ValidateTasks(g: Graph, names: seq<Name>) returns (ok: bool)
    requires forall a :: a in names <==> a in g
    ensures ok <==> (forall a :: a in g ==> GoodTask(g, a)) && Acyclic(Depends(g))
  {
    for i := 0 to |names|
      invariant forall j :: 0 <= j < i ==> GoodTask(g, names[j])
    {
      if g[names[i]].depends == [] && g[names[i]].steps == 0 {
        assert !GoodTask(g, names[i]);
        return false;
      }
      var good := CheckDepends(g, g[names[i]].depends);
      if !good {
        assert !GoodTask(g, names[i]);
        return false;
      }
    }
    assert forall a :: a in g ==> GoodTask(g, a);
    hide Below, Topological;
    var v := new Visitor(g);
    for i := 0 to |names|
      invariant fresh(v) && v.tasks == g && v.Valid() && v.visiting == {}
      invariant forall j :: 0 <= j < i ==> names[j] in v.visited
    {
      var fine: bool;
      ghost var cycle;
      fine, cycle := v.Visit(names[i]);
      if !fine { return false; }
    }
    forall a ensures !Below(Depends(g), a, a) {
      if a in g { OrderHasNoCycle(Depends(g), v.order, a); } else { NotBelow(g, a); }
    }
    ok := true;
  }

  // ---------------------------------------------------------------- the run

  /** A step of a task, counted from zero. */
  datatype Ran = Ran(name: Name, step: nat)

  function Steps(name: Name, n: nat): (r: seq<Ran>)
    ensures |r| == n && forall i :: 0 <= i < n ==> r[i] == Ran(name, i)
  {
    seq(n, i requires 0 <= i < n => Ran(name, i))
  }

  /** Every step of every task of the order. */
  ghost function AllSteps(g: Graph, order: seq<Name>): (r: seq<Ran>)
    requires forall i :: 0 <= i < |order| ==> order[i] in g
  {
    if order == [] then []
    else AllSteps(g, order[..|order| - 1]) + Steps(order[|order| - 1], g[order[|order| - 1]].steps)
  }

  type Outcome = (Name, nat) -> bool

  ghost predicate Succeeds(g: Graph, outcome: Outcome, a: Name)
    requires a in g
  {
    forall k :: 0 <= k < g[a].steps ==> outcome(a, k)
  }

  ghost predicate Known(g: Graph, order: seq<Name>) { forall i :: 0 <= i < |order| ==> order[i] in g }

  /** `order` was completed, all of its steps ran and succeeded, and nothing else ran. */
  ghost predicate RanAll(g: Graph, outcome: Outcome, order: seq<Name>, runs: seq<Ran>)
  {
    && Topological(Depends(g), order) && Known(g, order) && runs == AllSteps(g, order)
    && forall i :: 0 <= i < |order| ==> Succeeds(g, outcome, order[i])
  }

  /** `order` was completed, then `failed` ran up to a step that failed, and nothing else ran. */
  ghost predicate Stopped(g: Graph, outcome: Outcome, order: seq<Name>, runs: seq<Ran>, failed: Name, step: nat)
  {
    && Topological(Depends(g), order) && Known(g, order) && failed in g && failed !in order
    && (forall b :: Dep(g, failed, b) ==> b in order)
    && step < g[failed].steps && !outcome(failed, step) && (forall k :: 0 <= k < step ==> outcome(failed, k))
    && runs == AllSteps(g, order) + Steps(failed, step + 1)
  }

  lemma RanAllPush(g: Graph, outcome: Outcome, order: seq<Name>, runs: seq<Ran>, a: Name)
    requires RanAll(g, outcome, order, runs) && a in g && a !in order && Succeeds(g, outcome, a)
    requires forall b :: Dep(g, a, b) ==> b in order
    ensures RanAll(g, outcome, order + [a], runs + Steps(a, g[a].steps))
  {
    hide Dep;
    var all := order + [a];
    TopologicalPush(Depends(g), order, a);
    assert all[..|order|] == order;
  }

  class Runner {
    const tasks: Graph
    const outcome: Outcome
    var completed: set<Name>
    ghost var order: seq<Name>
    ghost var runs: seq<Ran>

    ghost predicate Valid()
      reads this
    {
      RanAll(tasks, outcome, order, runs) && forall a :: a in completed <==> a in order
    }

    constructor (tasks: Graph, outcome: Outcome)
      ensures Valid() && this.tasks == tasks && this.outcome == outcome && order == [] && runs == []
    {
      this.tasks, this.outcome := tasks, outcome;
      completed, order, runs := {}, [], [];
    }

    /** The steps of one task, until one fails. */
    method RunSteps(name: Name) returns (ok: bool, ghost step: nat)
      requires name in tasks
      modifies this`runs
      ensures ok ==> Succeeds(tasks, outcome, name) && runs == old(runs) + Steps(name, tasks[name].steps)
      ensures !ok ==> step < tasks[name].steps && !outcome(name, step) && forall k :: 0 <= k < step ==> outcome(name, k)
      ensures !ok ==> runs == old(runs) + Steps(name, step + 1)
    {
      ok, step := true, 0;
      assert old(runs) + Steps(name, 0) == old(runs);
      for index := 0 to tasks[name].steps
        invariant runs == old(runs) + Steps(name, index)
        invariant forall k :: 0 <= k < index ==> outcome(name, k)
      {
        assert Steps(name, index + 1) == Steps(name, index) + [Ran(name, index)];
        runs := runs + [Ran(name, index)];
        if !outcome(name, index) { return false, index; }
      }
    }

    /** `execute_task`. `above` are the tasks that led here. */
    method Execute(name: Name, ghost above: set<Name>) returns (ok: bool, ghost failed: Name, ghost step: nat)
      requires Valid() && Closed(tasks) && Acyclic(Depends(tasks)) && name in tasks && above <= tasks.Keys
      requires forall a :: a in above ==> Below(Depends(tasks), a, name)
      modifies this
      ensures old(order) <= order && (forall a :: a in order ==> a in old(order) || Reaches(Depends(tasks), name, a))
      ensures ok ==> Valid() && name in order
      ensures !ok ==> Stopped(tasks, outcome, order, runs, failed, step) && Reaches(Depends(tasks), name, failed)
      decreases tasks.Keys - above
    {
      ok, failed, step := true, name, 0;
      ReachesItself(Depends(tasks), name);
      if name in completed { return; }
      assert name !in above;
      var depends := tasks[name].depends;
      for i := 0 to |depends|
        invariant Valid() && old(order) <= order
        invariant forall a :: a in order ==> a in old(order) || Reaches(Depends(tasks), name, a)
        invariant name !in order && forall j :: 0 <= j < i ==> depends[j] in order
      {
        hide RanAll, Below, Acyclic, Reaches;
        var next := depends[i];
        assert Dep(tasks, name, next);
        forall a | a in above + {name} ensures Below(Depends(tasks), a, next) {
          if a == name {
            BelowEdge(Depends(tasks), name, next);
          } else {
            BelowReaches(Depends(tasks), a, name);
            ReachesThenEdge(Depends(tasks), a, name, next);
          }
        }
        ghost var before := order;
        ok, failed, step := Execute(next, above + {name});
        forall a | Reaches(Depends(tasks), next, a) ensures Reaches(Depends(tasks), name, a) {
          EdgeThenReaches(Depends(tasks), name, next, a);
        }
        if !ok { return; }
        NoWayBack(Depends(tasks), name, next);
      }
      hide Below, Acyclic, Reaches, Topological, Succeeds;
      ghost var before := runs;
      ok, step := RunSteps(name);
      if !ok { failed := name; return; }
      RanAllPush(tasks, outcome, order, before, name);
      order := order + [name];
      completed := completed + {name};
    }

    /** A run asked for by name: it succeeds just when every step of every task it needs does. */
    method RunTask(name: Name) returns (ok: bool, ghost failed: Name, ghost step: nat)
      requires Valid() && order == [] && Closed(tasks) && Acyclic(Depends(tasks)) && name in tasks
      modifies this
      ensures ok <==> forall a :: a in tasks && Reaches(Depends(tasks), name, a) ==> Succeeds(tasks, outcome, a)
      ensures ok ==> RanAll(tasks, outcome, order, runs) && forall a :: a in order <==> Reaches(Depends(tasks), name, a)
      ensures !ok ==> Stopped(tasks, outcome, order, runs, failed, step) && Reaches(Depends(tasks), name, failed)
    {
      ok, failed, step := Execute(name, {});
      hide Reaches, Topological, Below;
      if ok {
        forall a | Reaches(Depends(tasks), name, a) ensures a in order {
          OrderIsClosed(Depends(tasks), order, name, a);
        }
      }
    }
  }

  // ---------------------------------------------------------------- what ran

  lemma {:induction false} WhoRan(g: Graph, order: seq<Name>)
    requires Known(g, order)
    ensures forall r :: r in AllSteps(g, order) <==> r.name in order && r.step < g[r.name].steps
  {
    if order != [] {
      var n := |order| - 1;
      WhoRan(g, order[..n]);
      var last := Steps(order[n], g[order[n]].steps);
      forall r ensures r in AllSteps(g, order) <==> r.name in order && r.step < g[r.name].steps {
        assert order == order[..n] + [order[n]];
        assert r in last <==> r.name == order[n] && r.step < g[r.name].steps by {
          if r.name == order[n] && r.step < g[r.name].steps { assert last[r.step] == r; }
        }
      }
    }
  }

  /** After a failure nothing that depends on the failed task has run a step. */
  lemma DependentsDoNotRun(g: Graph, outcome: Outcome, order: seq<Name>, runs: seq<Ran>, failed: Name, step: nat,
                           a: Name)
    requires Acyclic(Depends(g)) && Stopped(g, outcome, order, runs, failed, step) && Below(Depends(g), a, failed)
    ensures a !in order && forall r :: r in runs ==> r.name != a
  {
    BelowReaches(Depends(g), a, failed);
    WhoRan(g, order);
    hide Topological, Reaches, Below, AllSteps;
    if a in order { OrderIsClosed(Depends(g), order, a, failed); }
    assert a != failed;
    forall r | r in runs ensures r.name != a {
      assert r in AllSteps(g, order) || r in Steps(failed, step + 1);
    }
  }
}
