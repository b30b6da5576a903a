/**
 * The first pass of locustfile.py's mapper (lines 58-79): each task in
 * turn, while its running count is below 30% of its target, takes the
 * first unassigned function (in descending-count order) that keeps it
 * within 120% of the target, and stops when none does.
 *
 * The source comment at line 64 says "smallest" function, but the loop
 * takes the first that fits in descending-count order, which is the
 * largest that fits (`FirstFitIsLargest`); the model follows the code.
 */
module FirstPass {
  import opened Sorting
  import opened Trace
  import opened Assignment
  import opened TaskPlan

  const MinTargetRatio: real := 0.3
  const Overfill: real := 1.2

  /** Adding `count` calls keeps the task within 120% of its target. */
  predicate Fits(cur: nat, count: nat, target: real)
  {
    (cur + count) as real <= target * Overfill
  }

  /** The index of the first function that fits, or -1 when none does. */
  function FirstFit(u: seq<FuncCount>, cur: nat, target: real): (k: int)
    ensures -1 <= k < |u|
    ensures 0 <= k ==> Fits(cur, u[k].1, target)
    ensures forall j | 0 <= j < |u| && (k == -1 || j < k) :: !Fits(cur, u[j].1, target)
  {
    if u == [] then -1
    else if Fits(cur, u[0].1, target) then 0
    else
      var k := FirstFit(u[1..], cur, target);
      if k == -1 then -1 else k + 1
  }

  /** The `for i, (func, count) in enumerate(unassigned_funcs)` search with its `break`. */
  method FindFirstFit(u: seq<FuncCount>, cur: nat, target: real) returns (k: int)
    ensures k == FirstFit(u, cur, target)
  {
    k := -1;
    var i := 0;
    while i < |u|
      invariant 0 <= i <= |u|
      invariant forall j | 0 <= j < i :: !Fits(cur, u[j].1, target)
    {
      if Fits(cur, u[i].1, target) {
        k := i;
        return;
      }
      i := i + 1;
    }
  }

  /**
   * In descending-count order the first function that fits has the
   * largest count of all that fit.
   */
  lemma FirstFitIsLargest(u: seq<FuncCount>, cur: nat, target: real)
    requires SortedBy(u, ByCountDescending)
    ensures FirstFit(u, cur, target) >= 0 ==>
      forall j | 0 <= j < |u| && Fits(cur, u[j].1, target) :: u[j].1 <= u[FirstFit(u, cur, target)].1
  {
    var k := FirstFit(u, cur, target);
    if k < 0 {
      return;
    }
    forall j | 0 <= j < |u| && Fits(cur, u[j].1, target) ensures u[j].1 <= u[k].1 {
      if j != k {
        assert k < j;
        assert ByCountDescending(u[k]) <= ByCountDescending(u[j]);
      }
    }
  }

  /**
   * Every function task `i`'s loop takes is the largest that fits among
   * the functions still unassigned when it is taken.
   */
  ghost predicate TakesLargest(st: State, i: nat, target: real)
    requires i < |st.current|
    decreases |st.unassigned|
  {
    (st.current[i] as real) < target * MinTargetRatio && st.unassigned != [] ==>
      var u, k := st.unassigned, FirstFit(st.unassigned, st.current[i], target);
      k != -1 ==>
        (forall j | 0 <= j < |u| && Fits(st.current[i], u[j].1, target) :: u[j].1 <= u[k].1) &&
        TakesLargest(Move(st, k, i), i, target)
  }

  /** The `while` loop for task `i` with target `target`. */
  function FillTask(st: State, i: nat, target: real): (r: State)
    requires i < |st.current|
    ensures |r.current| == |st.current| && |r.unassigned| <= |st.unassigned|
    decreases |st.unassigned|
  {
    if (st.current[i] as real) < target * MinTargetRatio && st.unassigned != [] then
      var k := FirstFit(st.unassigned, st.current[i], target);
      if k == -1 then st else FillTask(Move(st, k, i), i, target)
    else st
  }

  /** The first pass from task `i` on, in dict order. */
  function Pass(st: State, targets: seq<real>, i: nat): (r: State)
    requires i <= |targets| == |st.current|
    ensures |r.current| == |st.current| && |r.unassigned| <= |st.unassigned|
    decreases |targets| - i
  {
    if i == |targets| then st else Pass(FillTask(st, i, targets[i]), targets, i + 1)
  }

  lemma {:induction false} FillTaskConserved(st: State, funcs: seq<FuncCount>, i: nat, target: real)
    requires i < |st.current| && Conserved(st, funcs)
    ensures Conserved(FillTask(st, i, target), funcs)
    decreases |st.unassigned|
  {
    if (st.current[i] as real) < target * MinTargetRatio && st.unassigned != [] {
      var k := FirstFit(st.unassigned, st.current[i], target);
      if k != -1 {
        MoveConserved(st, funcs, k, i);
        FillTaskConserved(Move(st, k, i), funcs, i, target);
      }
    }
  }

  /**
   * Filling task `i` changes no other task's count and never raises `i`
   * past 120% of its target.
   */
  lemma {:induction false} FillTaskCounts(st: State, i: nat, target: real)
    requires i < |st.current|
    requires st.current[i] as real <= target * Overfill
    ensures var r := FillTask(st, i, target);
      (forall t | 0 <= t < |st.current| && t != i :: r.current[t] == st.current[t]) &&
      st.current[i] <= r.current[i] && r.current[i] as real <= target * Overfill
    decreases |st.unassigned|
  {
    if (st.current[i] as real) < target * MinTargetRatio && st.unassigned != [] {
      var k := FirstFit(st.unassigned, st.current[i], target);
      if k != -1 {
        FillTaskCounts(Move(st, k, i), i, target);
      }
    }
  }

  /** Filling task `i` only appends assignments, all to `i`. */
  lemma {:induction false} FillTaskLog(st: State, i: nat, target: real)
    requires i < |st.current|
    ensures var r := FillTask(st, i, target);
      |st.picks| <= |r.picks| && r.picks[..|st.picks|] == st.picks &&
      forall j | |st.picks| <= j < |r.picks| :: r.picks[j].task == i
    decreases |st.unassigned|
  {
    if (st.current[i] as real) < target * MinTargetRatio && st.unassigned != [] {
      var k := FirstFit(st.unassigned, st.current[i], target);
      if k != -1 {
        var m := Move(st, k, i);
        FillTaskLog(m, i, target);
        LogExtends(st.picks, Pick(st.unassigned[k].0, st.unassigned[k].1, i), FillTask(m, i, target).picks, i);
      }
    }
  }

  /** A log that extends `log + [p]` by entries for task `i`, with `p` for `i` too, extends `log` by such entries. */
  lemma LogExtends(log: seq<Pick>, p: Pick, r: seq<Pick>, i: nat)
    requires p.task == i && |log| + 1 <= |r| && r[..|log| + 1] == log + [p]
    requires forall j | |log| + 1 <= j < |r| :: r[j].task == i
    ensures r[..|log|] == log
    ensures forall j | |log| <= j < |r| :: r[j].task == i
  {
    assert r[..|log|] == r[..|log| + 1][..|log|];
    assert r[|log|] == r[..|log| + 1][|log|];
  }


  /** Filling task `i` only takes functions that were unassigned. */
  lemma {:induction false} FillTaskShrinks(st: State, i: nat, target: real)
    requires i < |st.current|
    ensures multiset(FillTask(st, i, target).unassigned) <= multiset(st.unassigned)
    decreases |st.unassigned|
  {
    if (st.current[i] as real) < target * MinTargetRatio && st.unassigned != [] {
      var k := FirstFit(st.unassigned, st.current[i], target);
      if k != -1 {
        var m := Move(st, k, i);
        FillTaskShrinks(m, i, target);
        RemoveMultiset(st.unassigned, k);
      }
    }
  }

  /**
   * Task `i`'s loop ends only when the task has reached 30% of its target,
   * or nothing is left, or nothing left fits.
   */
  lemma {:induction false} FillTaskStops(st: State, i: nat, target: real)
    requires i < |st.current|
    ensures var r := FillTask(st, i, target);
      !((r.current[i] as real) < target * MinTargetRatio) ||
      forall fc | fc in r.unassigned :: !Fits(r.current[i], fc.1, target)
    decreases |st.unassigned|
  {
    if (st.current[i] as real) < target * MinTargetRatio && st.unassigned != [] {
      var k := FirstFit(st.unassigned, st.current[i], target);
      if k != -1 {
        FillTaskStops(Move(st, k, i), i, target);
      }
    }
  }

  /**
   * From a list in descending-count order, task `i`'s loop takes the
   * largest fitting function each time, and leaves the list in that order.
   */
  lemma {:induction false} FillTaskSorted(st: State, i: nat, target: real)
    requires i < |st.current| && SortedBy(st.unassigned, ByCountDescending)
    ensures TakesLargest(st, i, target)
    ensures SortedBy(FillTask(st, i, target).unassigned, ByCountDescending)
    decreases |st.unassigned|
  {
    if (st.current[i] as real) < target * MinTargetRatio && st.unassigned != [] {
      var k := FirstFit(st.unassigned, st.current[i], target);
      if k != -1 {
        FirstFitIsLargest(st.unassigned, st.current[i], target);
        RemoveSorted(st.unassigned, k);
        FillTaskSorted(Move(st, k, i), i, target);
      }
    }
  }

  /** Every task from `i` on takes the largest fitting function each time. */
  ghost predicate PassTakesLargest(st: State, targets: seq<real>, i: nat)
    requires i <= |targets| == |st.current|
    decreases |targets| - i
  {
    i < |targets| ==>
      TakesLargest(st, i, targets[i]) && PassTakesLargest(FillTask(st, i, targets[i]), targets, i + 1)
  }

  /** From a list in descending-count order, the first pass always takes the largest fitting function. */
  lemma {:induction false} PassSorted(st: State, targets: seq<real>, i: nat)
    requires i <= |targets| == |st.current| && SortedBy(st.unassigned, ByCountDescending)
    ensures PassTakesLargest(st, targets, i)
    ensures SortedBy(Pass(st, targets, i).unassigned, ByCountDescending)
    decreases |targets| - i
  {
    if i < |targets| {
      FillTaskSorted(st, i, targets[i]);
      PassSorted(FillTask(st, i, targets[i]), targets, i + 1);
    }
  }

  /** The `while` loop for task `i`, writing the mapping as it assigns. */
  method FillTaskLoop(events: seq<Event>, tasks: seq<TaskWeight>, i: nat, target: real,
                      unassigned: seq<FuncCount>, current: seq<nat>, mapping: Mapping, ghost picks: seq<Pick>)
    returns (unassigned': seq<FuncCount>, current': seq<nat>, mapping': Mapping, ghost picks': seq<Pick>)
    requires i < |current| == |tasks|
    requires Tracks(mapping, events, picks, tasks)
    ensures unassigned' == FillTask(State(unassigned, current, picks), i, target).unassigned
    ensures current' == FillTask(State(unassigned, current, picks), i, target).current
    ensures picks' == FillTask(State(unassigned, current, picks), i, target).picks
    ensures Tracks(mapping', events, picks', tasks)
  {
    unassigned', current', mapping', picks' := unassigned, current, mapping, picks;
    while (current'[i] as real) < target * MinTargetRatio && unassigned' != []
      invariant |current'| == |current|
      invariant Tracks(mapping', events, picks', tasks)
      invariant FillTask(State(unassigned', current', picks'), i, target) == FillTask(State(unassigned, current, picks), i, target)
      decreases |unassigned'|
    {
      var k := FindFirstFit(unassigned', current'[i], target);
      if k == -1 {
        break;
      }
      var func, count := unassigned'[k].0, unassigned'[k].1;
      unassigned' := Remove(unassigned', k);
      TracksSnoc(mapping', events, picks', Pick(func, count, i), tasks);
      mapping' := AssignFunction(mapping', events, func, tasks[i].0);
      current' := Bump(current', i, count);
      picks' := picks' + [Pick(func, count, i)];
    }
  }

  /** The first pass: `FillTaskLoop` for each task in dict order. */
  method RunFirstPass(events: seq<Event>, tasks: seq<TaskWeight>, targets: seq<real>,
                      unassigned: seq<FuncCount>, current: seq<nat>, mapping: Mapping, ghost picks: seq<Pick>)
    returns (unassigned': seq<FuncCount>, current': seq<nat>, mapping': Mapping, ghost picks': seq<Pick>)
    requires |targets| == |tasks| == |current|
    requires Tracks(mapping, events, picks, tasks)
    ensures unassigned' == Pass(State(unassigned, current, picks), targets, 0).unassigned
    ensures current' == Pass(State(unassigned, current, picks), targets, 0).current
    ensures picks' == Pass(State(unassigned, current, picks), targets, 0).picks
    ensures Tracks(mapping', events, picks', tasks)
  {
    unassigned', current', mapping', picks' := unassigned, current, mapping, picks;
    for i := 0 to |tasks|
      invariant |current'| == |tasks|
      invariant Pass(State(unassigned', current', picks'), targets, i) == Pass(State(unassigned, current, picks), targets, 0)
      invariant Tracks(mapping', events, picks', tasks)
    {
      unassigned', current', mapping', picks' :=
        FillTaskLoop(events, tasks, i, targets[i], unassigned', current', mapping', picks');
    }
  }

  /** What the first pass guarantees for each of the first `m` tasks. */
  ghost predicate Served(r: State, targets: seq<real>, m: nat)
    requires m <= |targets| == |r.current|
  {
    forall i | 0 <= i < m ::
      r.current[i] as real <= targets[i] * Overfill &&
      (targets[i] * MinTargetRatio <= r.current[i] as real ||
       forall fc | fc in r.unassigned :: !Fits(r.current[i], fc.1, targets[i]))
  }

  lemma ServedStep(s: State, targets: seq<real>, i: nat)
    requires i < |targets| == |s.current|
    requires Served(s, targets, i)
    requires s.current[i] == 0 && targets[i] >= 0.0
    ensures Served(FillTask(s, i, targets[i]), targets, i + 1)
  {
    var t := targets[i];
    var r := FillTask(s, i, t);
    FillTaskCounts(s, i, t);
    FillTaskStops(s, i, t);
    FillTaskShrinks(s, i, t);
    forall j | 0 <= j < i && r.current[j] as real < targets[j] * MinTargetRatio
      ensures forall fc | fc in r.unassigned :: !Fits(r.current[j], fc.1, targets[j])
    {
      forall fc | fc in r.unassigned ensures !Fits(r.current[j], fc.1, targets[j]) {
        assert fc in multiset(s.unassigned);
      }
    }
  }

  lemma {:induction false} PassServed(st: State, targets: seq<real>, i: nat)
    requires i <= |targets| == |st.current|
    requires Served(st, targets, i)
    requires forall j | 0 <= j < |targets| :: targets[j] >= 0.0 && (i <= j ==> st.current[j] == 0)
    ensures Served(Pass(st, targets, i), targets, |targets|)
    decreases |targets| - i
  {
    if i < |targets| {
      ServedStep(st, targets, i);
      FillTaskCounts(st, i, targets[i]);
      PassServed(FillTask(st, i, targets[i]), targets, i + 1);
    }
  }

  /**
   * After the first pass every task is within 120% of its target, and
   * each task below 30% of its target has no unassigned function left
   * that would fit it.
   */
  lemma FirstPassOutcome(funcs: seq<FuncCount>, targets: seq<real>)
    requires forall i | 0 <= i < |targets| :: targets[i] >= 0.0
    ensures Served(Pass(Start(funcs, |targets|), targets, 0), targets, |targets|)
  {
    PassServed(Start(funcs, |targets|), targets, 0);
  }

  /**
   * Started on a list in descending-count order, the first pass takes, for
   * every task and every step, the largest function that still fits.
   */
  lemma FirstPassLargest(funcs: seq<FuncCount>, targets: seq<real>)
    requires SortedBy(funcs, ByCountDescending)
    ensures PassTakesLargest(Start(funcs, |targets|), targets, 0)
  {
    PassSorted(Start(funcs, |targets|), targets, 0);
  }

  /** The first pass hands the second pass a list still in descending-count order. */
  lemma FirstPassSorted(funcs: seq<FuncCount>, targets: seq<real>)
    requires SortedBy(funcs, ByCountDescending)
    ensures SortedBy(Pass(Start(funcs, |targets|), targets, 0).unassigned, ByCountDescending)
  {
    PassSorted(Start(funcs, |targets|), targets, 0);
  }

  lemma {:induction false} PassConserved(st: State, funcs: seq<FuncCount>, targets: seq<real>, i: nat)
    requires i <= |targets| == |st.current| && Conserved(st, funcs)
    ensures Conserved(Pass(st, targets, i), funcs)
    decreases |targets| - i
  {
    if i < |targets| {
      FillTaskConserved(st, funcs, i, targets[i]);
      PassConserved(FillTask(st, i, targets[i]), funcs, targets, i + 1);
    }
  }
}
