/**
 * The state both passes of the two-pass mapper (locustfile.py:44-106)
 * work on: the desired tasks and their targets, the functions not yet
 * assigned, each task's running call count, and, for the proofs, the list
 * of assignments made so far.
 */
module TaskPlan {
  import opened Sorting
  import opened Trace
  import opened Assignment

  /** A desired task and its weight: one item of `desired_tasks`, in dict order. */
  type TaskWeight = (string, nat)

  /** What the mappers need of `desired_tasks`: at least one task, positive weights, no name twice. */
  ghost predicate ValidTasks(tasks: seq<TaskWeight>)
  {
    |tasks| > 0 &&
    (forall i | 0 <= i < |tasks| :: tasks[i].1 > 0) &&
    (forall i, j | 0 <= i < j < |tasks| :: tasks[i].0 != tasks[j].0)
  }

  lemma {:induction false} TotalPositive(tasks: seq<TaskWeight>)
    requires ValidTasks(tasks)
    ensures Total(tasks) >= tasks[0].1 > 0
  {
  }

  function SumReal(s: seq<real>): real
  {
    if s == [] then 0.0 else s[0] + SumReal(s[1..])
  }

  /** `(weight / w) * n` for every task. */
  function Shares(tasks: seq<TaskWeight>, w: real, n: nat): seq<real>
    requires w != 0.0
  {
    seq(|tasks|, i requires 0 <= i < |tasks| => (tasks[i].1 as real / w) * n as real)
  }

  /** `task_targets`: each task's share of `n` calls in proportion to its weight. */
  function Targets(tasks: seq<TaskWeight>, n: nat): (r: seq<real>)
    requires Total(tasks) > 0
    ensures |r| == |tasks|
  {
    Shares(tasks, Total(tasks) as real, n)
  }

  lemma {:induction false} SharesSum(tasks: seq<TaskWeight>, w: real, n: nat)
    requires w != 0.0
    ensures SumReal(Shares(tasks, w, n)) == (Total(tasks) as real / w) * n as real
  {
    if tasks != [] {
      SharesTail(tasks, w, n);
      SharesSum(tasks[1..], w, n);
      ShareAdd(tasks[0].1 as real, Total(tasks[1..]) as real, w, n as real);
    }
  }

  lemma SharesTail(tasks: seq<TaskWeight>, w: real, n: nat)
    requires w != 0.0 && tasks != []
    ensures Shares(tasks, w, n)[1..] == Shares(tasks[1..], w, n)
    ensures Shares(tasks, w, n)[0] == (tasks[0].1 as real / w) * n as real
  {
    var s := Shares(tasks, w, n);
    var t := Shares(tasks[1..], w, n);
    assert forall i | 0 <= i < |t| :: t[i] == s[i + 1];
  }

  lemma ShareAdd(a: real, b: real, w: real, m: real)
    requires w != 0.0
    ensures (a / w) * m + (b / w) * m == ((a + b) / w) * m
  {
    assert a / w + b / w == (a + b) / w;
  }

  /**
   * The targets split the `n` kept calls among the tasks in proportion to
   * their weights: they add up to `n`, and each is positive once there is a call.
   */
  lemma TargetsSplitTotal(tasks: seq<TaskWeight>, n: nat)
    requires ValidTasks(tasks)
    ensures Total(tasks) > 0
    ensures SumReal(Targets(tasks, n)) == n as real
  {
    TotalPositive(tasks);
    SharesSum(tasks, Total(tasks) as real, n);
  }

  lemma TargetsPositive(tasks: seq<TaskWeight>, n: nat)
    requires ValidTasks(tasks)
    ensures Total(tasks) > 0
    ensures forall i | 0 <= i < |tasks| :: Targets(tasks, n)[i] >= 0.0 && (n > 0 ==> Targets(tasks, n)[i] > 0.0)
  {
    TotalPositive(tasks);
    var w := Total(tasks) as real;
    forall i | 0 <= i < |tasks|
      ensures Targets(tasks, n)[i] >= 0.0 && (n > 0 ==> Targets(tasks, n)[i] > 0.0)
    {
      var a := tasks[i].1 as real;
      assert a / w > 0.0;
    }
  }

  /** One assignment: function `func`, with `count` calls, went to task number `task`. */
  datatype Pick = Pick(func: string, count: nat, task: nat)

  /** `unassigned_funcs`, `task_current_counts` by task number, and the assignments so far. */
  datatype State = State(unassigned: seq<FuncCount>, current: seq<nat>, picks: seq<Pick>)

  /** Every function unassigned, every task at zero. */
  function Start(funcs: seq<FuncCount>, n: nat): (st: State)
    ensures |st.current| == n
  {
    State(funcs, seq(n, _ => 0), [])
  }

  /** `list.pop(k)`: the list without its item `k`. */
  function Remove(u: seq<FuncCount>, k: nat): (r: seq<FuncCount>)
    requires k < |u|
    ensures |r| == |u| - 1
    ensures forall j | 0 <= j < |r| :: r[j] == if j < k then u[j] else u[j + 1]
  {
    u[..k] + u[k + 1..]
  }

  /** Task `t`'s running count grows by `c`. */
  function Bump(current: seq<nat>, t: nat, c: nat): seq<nat>
    requires t < |current|
  {
    current[t := current[t] + c]
  }

  /** Unassigned item `k` goes to task `t`. */
  function Move(st: State, k: nat, t: nat): (r: State)
    requires k < |st.unassigned| && t < |st.current|
    ensures |r.current| == |st.current| && |r.unassigned| == |st.unassigned| - 1
  {
    var fc := st.unassigned[k];
    State(Remove(st.unassigned, k), Bump(st.current, t, fc.1), st.picks + [Pick(fc.0, fc.1, t)])
  }

  /** The assigned functions with their counts, in assignment order. */
  function Items(picks: seq<Pick>): (r: seq<FuncCount>)
    ensures |r| == |picks| && forall j | 0 <= j < |picks| :: r[j] == (picks[j].func, picks[j].count)
  {
    seq(|picks|, j requires 0 <= j < |picks| => (picks[j].func, picks[j].count))
  }

  /** The calls assigned to task `t`. */
  function Load(picks: seq<Pick>, t: nat): nat
  {
    if picks == [] then 0
    else
      var p := picks[|picks| - 1];
      Load(picks[..|picks| - 1], t) + (if p.task == t then p.count else 0)
  }

  function SumNat(s: seq<nat>): nat
  {
    if s == [] then 0 else s[0] + SumNat(s[1..])
  }

  /**
   * Nothing is lost or invented: the unassigned and the assigned functions
   * together are `funcs`, every call is either unassigned or counted for
   * exactly one task, and each running count is the sum of its assignments.
   */
  ghost predicate Conserved(st: State, funcs: seq<FuncCount>)
  {
    multiset(st.unassigned) + multiset(Items(st.picks)) == multiset(funcs) &&
    Total(st.unassigned) + SumNat(st.current) == Total(funcs) &&
    (forall j | 0 <= j < |st.picks| :: st.picks[j].task < |st.current|) &&
    (forall t | 0 <= t < |st.current| :: st.current[t] == Load(st.picks, t))
  }

  lemma {:induction false} SumZeros(n: nat)
    ensures SumNat(seq(n, _ => 0)) == 0
  {
    if n > 0 {
      assert seq(n, _ => 0)[1..] == seq(n - 1, _ => 0);
      SumZeros(n - 1);
    }
  }

  lemma StartConserved(funcs: seq<FuncCount>, n: nat)
    ensures Conserved(Start(funcs, n), funcs)
  {
    SumZeros(n);
    assert Items([]) == [];
  }

  /** Popping an item takes exactly that item out of the list. */
  lemma RemoveMultiset(u: seq<FuncCount>, k: nat)
    requires k < |u|
    ensures multiset(Remove(u, k)) + multiset{u[k]} == multiset(u)
  {
    assert u == u[..k] + [u[k]] + u[k + 1..];
  }

  /** Popping an item keeps a list in descending-count order. */
  lemma RemoveSorted(u: seq<FuncCount>, k: nat)
    requires k < |u| && SortedBy(u, ByCountDescending)
    ensures SortedBy(Remove(u, k), ByCountDescending)
  {
    var r := Remove(u, k);
    forall i, j | 0 <= i < j < |r| ensures ByCountDescending(r[i]) <= ByCountDescending(r[j]) {
      var i' := if i < k then i else i + 1;
      var j' := if j < k then j else j + 1;
      assert r[i] == u[i'] && r[j] == u[j'] && i' < j';
    }
  }

  lemma {:induction false} TotalRemove(u: seq<FuncCount>, k: nat)
    requires k < |u|
    ensures Total(Remove(u, k)) + u[k].1 == Total(u)
  {
    if k > 0 {
      assert Remove(u, k)[1..] == Remove(u[1..], k - 1);
      TotalRemove(u[1..], k - 1);
    } else {
      assert Remove(u, k) == u[1..];
    }
  }

  lemma {:induction false} SumBump(current: seq<nat>, t: nat, c: nat)
    requires t < |current|
    ensures SumNat(Bump(current, t, c)) == SumNat(current) + c
  {
    if t > 0 {
      assert Bump(current, t, c)[1..] == Bump(current[1..], t - 1, c);
      SumBump(current[1..], t - 1, c);
    } else {
      assert Bump(current, t, c)[1..] == current[1..];
    }
  }

  lemma LoadSnoc(picks: seq<Pick>, p: Pick, t: nat)
    ensures Load(picks + [p], t) == Load(picks, t) + (if p.task == t then p.count else 0)
  {
    assert (picks + [p])[..|picks|] == picks;
  }

  lemma MoveItems(st: State, k: nat, t: nat)
    requires k < |st.unassigned| && t < |st.current|
    ensures multiset(Move(st, k, t).unassigned) + multiset(Items(Move(st, k, t).picks))
         == multiset(st.unassigned) + multiset(Items(st.picks))
  {
    var fc := st.unassigned[k];
    assert st.unassigned == st.unassigned[..k] + [fc] + st.unassigned[k + 1..];
    assert Items(Move(st, k, t).picks) == Items(st.picks) + [fc];
  }

  lemma MoveConserved(st: State, funcs: seq<FuncCount>, k: nat, t: nat)
    requires Conserved(st, funcs) && k < |st.unassigned| && t < |st.current|
    ensures Conserved(Move(st, k, t), funcs)
  {
    var fc := st.unassigned[k];
    var r := Move(st, k, t);
    var p := Pick(fc.0, fc.1, t);
    MoveItems(st, k, t);
    TotalRemove(st.unassigned, k);
    SumBump(st.current, t, fc.1);
    forall u | 0 <= u < |r.current| ensures r.current[u] == Load(r.picks, u) {
      LoadSnoc(st.picks, p, u);
    }
  }

  /**
   * Once nothing is unassigned: every call is counted for some task, and
   * each function of `funcs` was assigned exactly once, with its count.
   */
  lemma Complete(st: State, funcs: seq<FuncCount>)
    requires Conserved(st, funcs) && st.unassigned == [] && DistinctBy(funcs, FuncName)
    ensures SumNat(st.current) == Total(funcs)
    ensures forall i, j | 0 <= i < j < |st.picks| :: st.picks[i].func != st.picks[j].func
    ensures forall fc | fc in funcs :: exists j :: 0 <= j < |st.picks| && Items(st.picks)[j] == fc
    ensures forall j | 0 <= j < |st.picks| :: Items(st.picks)[j] in funcs
  {
    var items := Items(st.picks);
    assert multiset(items) == multiset(funcs);
    DistinctByPermutation(items, funcs, FuncName);
    forall i, j | 0 <= i < j < |st.picks| ensures st.picks[i].func != st.picks[j].func {
      assert FuncName(items[i]) != FuncName(items[j]);
    }
    forall fc | fc in funcs ensures exists j :: 0 <= j < |st.picks| && items[j] == fc {
      assert fc in multiset(items);
    }
    forall j | 0 <= j < |st.picks| ensures items[j] in funcs {
      assert items[j] in multiset(funcs);
    }
  }

  /** Each assignment as `(function id, task name)`, in order. */
  function Owners(picks: seq<Pick>, tasks: seq<TaskWeight>): (r: seq<(string, string)>)
    requires forall j | 0 <= j < |picks| :: picks[j].task < |tasks|
    ensures |r| == |picks|
  {
    seq(|picks|, j requires 0 <= j < |picks| => (picks[j].func, tasks[picks[j].task].0))
  }

  /** `function_mapping` holds exactly the bindings of the assignments so far. */
  ghost predicate Tracks(mapping: Mapping, events: seq<Event>, picks: seq<Pick>, tasks: seq<TaskWeight>)
  {
    (forall j | 0 <= j < |picks| :: picks[j].task < |tasks|) &&
    mapping == MappingOf(events, Owners(picks, tasks))
  }

  /** Writing the keys of a newly assigned function keeps the mapping in step with the assignments. */
  lemma TracksSnoc(mapping: Mapping, events: seq<Event>, picks: seq<Pick>, p: Pick, tasks: seq<TaskWeight>)
    requires p.task < |tasks| && Tracks(mapping, events, picks, tasks)
    ensures Tracks(Assigned(mapping, events, p.func, tasks[p.task].0), events, picks + [p], tasks)
  {
    assert Owners(picks + [p], tasks) == Owners(picks, tasks) + [(p.func, tasks[p.task].0)];
    MappingOfSnoc(events, Owners(picks, tasks), p.func, tasks[p.task].0);
  }
}
