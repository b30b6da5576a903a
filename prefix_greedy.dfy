/**
 * `create_function_mapping` of locust.py (lines 18-89): the same loader
 * with a 1000-second window; tasks sorted by weight, descending, each
 * with a call budget `int(n * w / W + 0.5)`; one shared cursor walks
 * `sorted_funcs` and each task takes the next functions until its
 * budget is met.
 */
module PrefixGreedy {
  import opened Basics
  import opened Sorting
  import opened Trace
  import opened Assignment
  import opened TaskPlan
  import FunctionMapping

  /** Only events that end within the first 1000 seconds are kept. */
  const Window: real := 1000.0

  /** The sort key of `sorted_tasks`: the weight, descending. */
  function ByWeightDescending(tw: TaskWeight): real { -(tw.1 as real) }

  /** `sorted_tasks`: the tasks by weight, descending and stable. */
  function SortedTasks(tasks: seq<TaskWeight>): seq<TaskWeight>
  {
    StableSort(tasks, ByWeightDescending)
  }

  /** Tasks in descending weight order, equal weights in dict order, none lost or added. */
  lemma SortedTasksOrder(tasks: seq<TaskWeight>)
    ensures multiset(SortedTasks(tasks)) == multiset(tasks)
    ensures forall i, j | 0 <= i < j < |SortedTasks(tasks)| :: SortedTasks(tasks)[i].1 >= SortedTasks(tasks)[j].1
    ensures forall w :: KeyClass(SortedTasks(tasks), ByWeightDescending, w) == KeyClass(tasks, ByWeightDescending, w)
  {
    StableSortSorted(tasks, ByWeightDescending);
    forall w ensures KeyClass(SortedTasks(tasks), ByWeightDescending, w) == KeyClass(tasks, ByWeightDescending, w) {
      StableSortStable(tasks, ByWeightDescending, w);
    }
    forall i, j | 0 <= i < j < |SortedTasks(tasks)| ensures SortedTasks(tasks)[i].1 >= SortedTasks(tasks)[j].1 {
      assert ByWeightDescending(SortedTasks(tasks)[i]) <= ByWeightDescending(SortedTasks(tasks)[j]);
    }
  }

  /** `int(n * (w / total) + 0.5)`: Python's `int` truncates, which is the floor here. */
  function TargetCalls(n: nat, w: nat, total: nat): nat
    requires total > 0
  {
    var x := (n as real) * (w as real / total as real) + 0.5;
    assert x >= 0.0;
    x.Floor
  }

  /** The budget is `n * w / total` rounded half up. */
  lemma TargetCallsRounds(n: nat, w: nat, total: nat)
    requires total > 0
    ensures var x := (n as real) * (w as real / total as real);
      x - 0.5 < TargetCalls(n, w, total) as real <= x + 0.5
  {
  }

  /** How far the shared cursor has got, and the assignments made so far. */
  datatype Progress = Progress(cursor: nat, picks: seq<Pick>)

  /** The `while calls_mapped < target_calls` loop for the task at position `t`. */
  function TakeFor(funcs: seq<FuncCount>, p: Progress, mapped: nat, target: nat, t: nat): (r: Progress)
    requires p.cursor <= |funcs|
    ensures p.cursor <= r.cursor <= |funcs|
    decreases |funcs| - p.cursor
  {
    if mapped < target && p.cursor < |funcs| then
      var fc := funcs[p.cursor];
      TakeFor(funcs, Progress(p.cursor + 1, p.picks + [Pick(fc.0, fc.1, t)]), mapped + fc.1, target, t)
    else p
  }

  /** The tasks from position `t` on, in `sorted_tasks` order. */
  function Greedy(funcs: seq<FuncCount>, stasks: seq<TaskWeight>, n: nat, total: nat, p: Progress, t: nat): (r: Progress)
    requires p.cursor <= |funcs| && t <= |stasks| && (t < |stasks| ==> total > 0)
    ensures p.cursor <= r.cursor <= |funcs|
    decreases |stasks| - t
  {
    if t == |stasks| then p
    else Greedy(funcs, stasks, n, total, TakeFor(funcs, p, 0, Budget(stasks, n, total, t), t), t + 1)
  }

  /**
   * One task's loop takes the next functions in order, all for that task,
   * and nothing at all once its budget is met or the functions have run out.
   */
  lemma {:induction false} TakeForPrefix(funcs: seq<FuncCount>, p: Progress, mapped: nat, target: nat, t: nat)
    requires p.cursor <= |funcs| && Items(p.picks) == funcs[..p.cursor]
    ensures var r := TakeFor(funcs, p, mapped, target, t);
      Items(r.picks) == funcs[..r.cursor] &&
      r.picks[..|p.picks|] == p.picks &&
      (forall j | |p.picks| <= j < |r.picks| :: r.picks[j].task == t) &&
      (target <= mapped || p.cursor == |funcs| ==> r == p)
    decreases |funcs| - p.cursor
  {
    if mapped < target && p.cursor < |funcs| {
      var fc := funcs[p.cursor];
      var q := Progress(p.cursor + 1, p.picks + [Pick(fc.0, fc.1, t)]);
      assert Items(q.picks) == Items(p.picks) + [fc];
      assert funcs[..q.cursor] == funcs[..p.cursor] + [fc];
      TakeForPrefix(funcs, q, mapped + fc.1, target, t);
      var r := TakeFor(funcs, q, mapped + fc.1, target, t);
      assert r.picks[..|p.picks|] == r.picks[..|q.picks|][..|p.picks|];
    }
  }

  /** After one task's loop its calls reach the budget, unless the functions ran out. */
  lemma {:induction false} TakeForReaches(funcs: seq<FuncCount>, p: Progress, mapped: nat, target: nat, t: nat)
    requires p.cursor <= |funcs|
    ensures var r := TakeFor(funcs, p, mapped, target, t);
      target <= mapped + Total(funcs[p.cursor..r.cursor]) || r.cursor == |funcs|
    decreases |funcs| - p.cursor
  {
    if mapped < target && p.cursor < |funcs| {
      var fc := funcs[p.cursor];
      var q := Progress(p.cursor + 1, p.picks + [Pick(fc.0, fc.1, t)]);
      TakeForReaches(funcs, q, mapped + fc.1, target, t);
      var r := TakeFor(funcs, q, mapped + fc.1, target, t);
      assert funcs[p.cursor..r.cursor] == [fc] + funcs[q.cursor..r.cursor];
    } else {
      assert funcs[p.cursor..p.cursor] == [];
    }
  }

  /** Before the last function a task takes, its calls were still below the budget. */
  lemma {:induction false} TakeForOvershoot(funcs: seq<FuncCount>, p: Progress, mapped: nat, target: nat, t: nat)
    requires p.cursor <= |funcs|
    ensures var r := TakeFor(funcs, p, mapped, target, t);
      p.cursor < r.cursor ==> mapped + Total(funcs[p.cursor..r.cursor - 1]) < target
    decreases |funcs| - p.cursor
  {
    if mapped < target && p.cursor < |funcs| {
      var fc := funcs[p.cursor];
      var q := Progress(p.cursor + 1, p.picks + [Pick(fc.0, fc.1, t)]);
      TakeForOvershoot(funcs, q, mapped + fc.1, target, t);
      var r := TakeFor(funcs, q, mapped + fc.1, target, t);
      if q.cursor < r.cursor {
        assert funcs[p.cursor..r.cursor - 1] == [fc] + funcs[q.cursor..r.cursor - 1];
      } else {
        assert funcs[p.cursor..r.cursor - 1] == [];
      }
    }
  }

  /** A budget, for the task at a position of `sorted_tasks`. */
  function Budget(stasks: seq<TaskWeight>, n: nat, total: nat, t: nat): nat
    requires t < |stasks| && total > 0
  {
    TargetCalls(n, stasks[t].1, total)
  }

  /** The assignments so far: the prefix of the functions, tasks in order, only to tasks with a budget. */
  ghost predicate Orderly(funcs: seq<FuncCount>, stasks: seq<TaskWeight>, n: nat, total: nat, p: Progress, t: nat)
    requires p.cursor <= |funcs|
  {
    Items(p.picks) == funcs[..p.cursor] &&
    (forall j | 0 <= j < |p.picks| :: p.picks[j].task < t && t <= |stasks|) &&
    (forall i, j | 0 <= i < j < |p.picks| :: p.picks[i].task <= p.picks[j].task) &&
    (forall j | 0 <= j < |p.picks| :: p.picks[j].task < |stasks| && total > 0 && Budget(stasks, n, total, p.picks[j].task) > 0)
  }

  lemma OrderlyStep(funcs: seq<FuncCount>, stasks: seq<TaskWeight>, n: nat, total: nat, p: Progress, t: nat)
    requires p.cursor <= |funcs| && t < |stasks| && total > 0
    requires Orderly(funcs, stasks, n, total, p, t)
    ensures Orderly(funcs, stasks, n, total, TakeFor(funcs, p, 0, Budget(stasks, n, total, t), t), t + 1)
  {
    var q := TakeFor(funcs, p, 0, Budget(stasks, n, total, t), t);
    TakeForPrefix(funcs, p, 0, Budget(stasks, n, total, t), t);
    forall j | 0 <= j < |p.picks| ensures q.picks[j] == p.picks[j] {
      assert q.picks[j] == q.picks[..|p.picks|][j];
    }
  }

  /**
   * The mapper assigns exactly the prefix `sorted_funcs[..cursor]`, in
   * order, to tasks in `sorted_tasks` order; a task with a zero budget
   * gets nothing.
   */
  lemma {:induction false} GreedyOrderly(funcs: seq<FuncCount>, stasks: seq<TaskWeight>, n: nat, total: nat, p: Progress, t: nat)
    requires p.cursor <= |funcs| && t <= |stasks| && (t < |stasks| ==> total > 0)
    requires Orderly(funcs, stasks, n, total, p, t)
    ensures Orderly(funcs, stasks, n, total, Greedy(funcs, stasks, n, total, p, t), |stasks|)
    decreases |stasks| - t
  {
    if t < |stasks| {
      OrderlyStep(funcs, stasks, n, total, p, t);
      GreedyOrderly(funcs, stasks, n, total, TakeFor(funcs, p, 0, Budget(stasks, n, total, t), t), t + 1);
    }
  }

  /** Sorting the tasks keeps their number and their total weight. */
  lemma SortedTasksTotal(tasks: seq<TaskWeight>)
    ensures |SortedTasks(tasks)| == |tasks| && Total(SortedTasks(tasks)) == Total(tasks)
  {
    StableSortSorted(tasks, ByWeightDescending);
    TotalSort(tasks, ByWeightDescending);
  }

  /** A task dict the mapper can divide by: empty, or with a positive total weight. */
  predicate Divisible(tasks: seq<TaskWeight>)
  {
    tasks == [] || Total(tasks) > 0
  }

  /** The whole assignment loop for the kept events `es`. */
  function GreedyFor(es: seq<Event>, tasks: seq<TaskWeight>): (r: Progress)
    requires Divisible(tasks)
    ensures r.cursor <= |SortedFuncs(es)|
  {
    SortedTasksTotal(tasks);
    Greedy(SortedFuncs(es), SortedTasks(tasks), |es|, Total(tasks), Progress(0, []), 0)
  }

  /** `function_mapping` for the kept events `es`. */
  ghost function GreedyMapping(es: seq<Event>, tasks: seq<TaskWeight>): Mapping
    requires Divisible(tasks)
  {
    SortedTasksTotal(tasks);
    GreedyOrderly(SortedFuncs(es), SortedTasks(tasks), |es|, Total(tasks), Progress(0, []), 0);
    MappingOf(es, Owners(GreedyFor(es, tasks).picks, SortedTasks(tasks)))
  }

  /** Assignments that cover a prefix of distinct functions, in order, assign no function twice. */
  lemma PrefixPicks(funcs: seq<FuncCount>, picks: seq<Pick>, cursor: nat)
    requires cursor <= |funcs| && Items(picks) == funcs[..cursor] && DistinctBy(funcs, FuncName)
    ensures |picks| == cursor
    ensures forall i | 0 <= i < cursor :: picks[i].func == funcs[i].0 && picks[i].count == funcs[i].1
    ensures forall i, j | 0 <= i < j < |picks| :: picks[i].func != picks[j].func
  {
    forall i | 0 <= i < cursor ensures picks[i].func == funcs[i].0 && picks[i].count == funcs[i].1 {
      assert Items(picks)[i] == funcs[..cursor][i];
    }
    forall i, j | 0 <= i < j < |picks| ensures picks[i].func != picks[j].func {
      assert FuncName(funcs[i]) != FuncName(funcs[j]);
    }
  }

  /** What `Orderly` says about the assignments once every task has been served. */
  lemma OrderlyPicks(funcs: seq<FuncCount>, stasks: seq<TaskWeight>, n: nat, total: nat, r: Progress)
    requires r.cursor <= |funcs| && DistinctBy(funcs, FuncName)
    requires Orderly(funcs, stasks, n, total, r, |stasks|)
    ensures |r.picks| == r.cursor
    ensures forall i | 0 <= i < r.cursor :: r.picks[i].func == funcs[i].0 && r.picks[i].count == funcs[i].1
    ensures forall i, j | 0 <= i < j < |r.picks| :: r.picks[i].func != r.picks[j].func
    ensures forall i, j | 0 <= i < j < |r.picks| :: r.picks[i].task <= r.picks[j].task
    ensures forall i | 0 <= i < |r.picks| ::
      r.picks[i].task < |stasks| && total > 0 && TargetCalls(n, stasks[r.picks[i].task].1, total) > 0
  {
    PrefixPicks(funcs, r.picks, r.cursor);
    assert forall i, j | 0 <= i < j < |r.picks| :: r.picks[i].task <= r.picks[j].task;
    forall i | 0 <= i < |r.picks|
      ensures r.picks[i].task < |stasks| && total > 0 && TargetCalls(n, stasks[r.picks[i].task].1, total) > 0
    {
      var t := r.picks[i].task;
      assert t < |stasks| && total > 0 && Budget(stasks, n, total, t) > 0;
      assert Budget(stasks, n, total, t) == TargetCalls(n, stasks[t].1, total);
    }
  }

  /**
   * The `i`-th assignment is the `i`-th function of `sorted_funcs`, with
   * its count; no function is assigned twice; tasks are served in
   * `sorted_tasks` order and only tasks with a positive budget get any.
   */
  lemma GreedyPicks(es: seq<Event>, tasks: seq<TaskWeight>)
    requires Divisible(tasks)
    ensures var r := GreedyFor(es, tasks);
      var funcs := SortedFuncs(es);
      var stasks := SortedTasks(tasks);
      |r.picks| == r.cursor &&
      (forall i | 0 <= i < r.cursor :: r.picks[i].func == funcs[i].0 && r.picks[i].count == funcs[i].1) &&
      (forall i, j | 0 <= i < j < |r.picks| :: r.picks[i].func != r.picks[j].func) &&
      (forall i, j | 0 <= i < j < |r.picks| :: r.picks[i].task <= r.picks[j].task) &&
      (forall i | 0 <= i < |r.picks| ::
         r.picks[i].task < |stasks| && TargetCalls(|es|, stasks[r.picks[i].task].1, Total(tasks)) > 0)
  {
    var funcs := SortedFuncs(es);
    var stasks := SortedTasks(tasks);
    SortedTasksTotal(tasks);
    FunctionMapping.SortedFuncsPositive(es);
    var start := Progress(0, []);
    GreedyOrderly(funcs, stasks, |es|, Total(tasks), start, 0);
    var r := Greedy(funcs, stasks, |es|, Total(tasks), start, 0);
    assert r == GreedyFor(es, tasks);
    OrderlyPicks(funcs, stasks, |es|, Total(tasks), r);
  }


  /** With the first `|picks|` functions assigned in order, the mapped keys are the kept keys of those functions. */
  lemma PrefixMappingKeys(es: seq<Event>, funcs: seq<FuncCount>, picks: seq<Pick>, stasks: seq<TaskWeight>)
    requires |picks| <= |funcs|
    requires forall i | 0 <= i < |picks| :: picks[i].func == funcs[i].0 && picks[i].task < |stasks|
    ensures forall k :: k in MappingOf(es, Owners(picks, stasks)) <==>
      k in AllKeys(es) && exists i :: 0 <= i < |picks| && funcs[i].0 == k.1
  {
    var owners := Owners(picks, stasks);
    MappingOfFacts(es, owners);
    forall k: Key ensures k.1 in Bound(owners) <==> exists i :: 0 <= i < |picks| && funcs[i].0 == k.1 {
      if k.1 in Bound(owners) {
        var i :| 0 <= i < |owners| && owners[i].0 == k.1;
        assert funcs[i].0 == k.1;
      }
      if i :| 0 <= i < |picks| && funcs[i].0 == k.1 {
        assert owners[i] in owners;
      }
    }
  }

  /** Each mapped key names the task its function was given; so keys of one function share a task. */
  lemma PrefixMappingValues(es: seq<Event>, funcs: seq<FuncCount>, picks: seq<Pick>, stasks: seq<TaskWeight>)
    requires |picks| <= |funcs|
    requires forall i | 0 <= i < |picks| :: picks[i].func == funcs[i].0 && picks[i].task < |stasks|
    requires forall i, j | 0 <= i < j < |picks| :: picks[i].func != picks[j].func
    ensures var m := MappingOf(es, Owners(picks, stasks));
      (forall k | k in m :: exists i :: 0 <= i < |picks| && funcs[i].0 == k.1 && m[k] == stasks[picks[i].task].0) &&
      (forall k, k' | k in m && k' in m && k.1 == k'.1 :: m[k] == m[k'])
  {
    var owners := Owners(picks, stasks);
    var m := MappingOf(es, owners);
    MappingOfFacts(es, owners);
    forall k | k in m ensures exists i :: 0 <= i < |picks| && funcs[i].0 == k.1 && m[k] == stasks[picks[i].task].0 {
      var i :| 0 <= i < |owners| && owners[i].0 == k.1;
      OwnerOfDistinct(owners, i);
    }
  }

  /**
   * The mapped keys are exactly the kept keys whose function lies in the
   * prefix `sorted_funcs[..current_func_idx]`; each maps to the task that
   * function was given, so all keys of one function share a task.
   */
  lemma GreedyMappingFacts(es: seq<Event>, tasks: seq<TaskWeight>)
    requires Divisible(tasks)
    ensures var r := GreedyFor(es, tasks);
      var funcs := SortedFuncs(es);
      var stasks := SortedTasks(tasks);
      var m := GreedyMapping(es, tasks);
      |r.picks| == r.cursor &&
      (forall k :: k in m <==> k in AllKeys(es) && exists i :: 0 <= i < r.cursor && funcs[i].0 == k.1) &&
      (forall k | k in m ::
         exists i :: 0 <= i < r.cursor && funcs[i].0 == k.1 && r.picks[i].task < |stasks| && m[k] == stasks[r.picks[i].task].0) &&
      (forall k, k' | k in m && k' in m && k.1 == k'.1 :: m[k] == m[k'])
  {
    var r := GreedyFor(es, tasks);
    var funcs := SortedFuncs(es);
    var stasks := SortedTasks(tasks);
    GreedyPicks(es, tasks);
    assert GreedyMapping(es, tasks) == MappingOf(es, Owners(r.picks, stasks));
    PrefixMappingKeys(es, funcs, r.picks, stasks);
    PrefixMappingValues(es, funcs, r.picks, stasks);
  }

  /** Functions after the cursor, left over once every task is served, are never mapped. */
  lemma GreedyUnmapped(es: seq<Event>, tasks: seq<TaskWeight>, i: nat)
    requires Divisible(tasks) && GreedyFor(es, tasks).cursor <= i < |SortedFuncs(es)|
    ensures forall k | k in GreedyMapping(es, tasks) :: k.1 != SortedFuncs(es)[i].0
  {
    var funcs := SortedFuncs(es);
    GreedyMappingFacts(es, tasks);
    SortedFuncsOrder(es);
    forall k | k in GreedyMapping(es, tasks) ensures k.1 != funcs[i].0 {
      var j :| 0 <= j < GreedyFor(es, tasks).cursor && funcs[j].0 == k.1;
      assert FuncName(funcs[i]) != FuncName(funcs[j]);
    }
  }

  /** The `while` loop for the task at position `t`: the next functions from the cursor, until the budget is met. */
  method TakeForLoop(events: seq<Event>, funcs: seq<FuncCount>, stasks: seq<TaskWeight>, t: nat, targetCalls: nat,
                     cursor: nat, mapping: Mapping, ghost picks: seq<Pick>)
    returns (cursor': nat, mapping': Mapping, ghost picks': seq<Pick>)
    requires cursor <= |funcs| && t < |stasks|
    requires Tracks(mapping, events, picks, stasks)
    ensures cursor' == TakeFor(funcs, Progress(cursor, picks), 0, targetCalls, t).cursor
    ensures picks' == TakeFor(funcs, Progress(cursor, picks), 0, targetCalls, t).picks
    ensures Tracks(mapping', events, picks', stasks)
  {
    cursor', mapping', picks' := cursor, mapping, picks;
    var callsMapped: nat := 0;
    while callsMapped < targetCalls && cursor' < |funcs|
      invariant cursor' <= |funcs|
      invariant TakeFor(funcs, Progress(cursor', picks'), callsMapped, targetCalls, t)
             == TakeFor(funcs, Progress(cursor, picks), 0, targetCalls, t)
      invariant Tracks(mapping', events, picks', stasks)
      decreases |funcs| - cursor'
    {
      var func := funcs[cursor'].0;
      var count := funcs[cursor'].1;
      cursor' := cursor' + 1;
      callsMapped := callsMapped + count;
      TracksSnoc(mapping', events, picks', Pick(func, count, t), stasks);
      mapping' := AssignFunction(mapping', events, func, stasks[t].0);
      picks' := picks' + [Pick(func, count, t)];
    }
  }

  /** The `for task, weight in sorted_tasks` loop, with the shared cursor starting at `cursor`. */
  method AssignTasks(events: seq<Event>, funcs: seq<FuncCount>, stasks: seq<TaskWeight>, totalWeight: nat,
                     cursor: nat, mapping: Mapping, ghost picks: seq<Pick>)
    returns (cursor': nat, mapping': Mapping, ghost picks': seq<Pick>)
    requires cursor <= |funcs| && (stasks == [] || totalWeight > 0)
    requires Tracks(mapping, events, picks, stasks)
    ensures cursor' == Greedy(funcs, stasks, |events|, totalWeight, Progress(cursor, picks), 0).cursor
    ensures picks' == Greedy(funcs, stasks, |events|, totalWeight, Progress(cursor, picks), 0).picks
    ensures Tracks(mapping', events, picks', stasks)
  {
    cursor', mapping', picks' := cursor, mapping, picks;
    for t := 0 to |stasks|
      invariant cursor' <= |funcs|
      invariant Greedy(funcs, stasks, |events|, totalWeight, Progress(cursor', picks'), t)
             == Greedy(funcs, stasks, |events|, totalWeight, Progress(cursor, picks), 0)
      invariant Tracks(mapping', events, picks', stasks)
    {
      var targetCalls := TargetCalls(|events|, stasks[t].1, totalWeight);
      cursor', mapping', picks' := TakeForLoop(events, funcs, stasks, t, targetCalls, cursor', mapping', picks');
    }
  }

  /** What `create_function_mapping` returns, or why loading aborted. */
  ghost function MappingSpec(lines: seq<string>, parse: string -> Option<real>, tasks: seq<TaskWeight>)
    : Result<FunctionMapping.Mapped, LoadError>
    requires Divisible(tasks)
  {
    match LoadSpec(lines, parse, Window)
    case Err(e) => Err(e)
    case Ok(l) => Ok(FunctionMapping.Mapped(SortedEvents(l.events), GreedyMapping(l.events, tasks)))
  }

  /**
   * `create_function_mapping`; `taskCounts` is the `task_counts` tally it
   * prints: for each task name, the sorted events whose key maps to it.
   */
  method CreateFunctionMapping(lines: seq<string>, parse: string -> Option<real>, tasks: seq<TaskWeight>)
    returns (r: Result<FunctionMapping.Mapped, LoadError>, taskCounts: map<string, nat>)
    requires Divisible(tasks)
    ensures r == MappingSpec(lines, parse, tasks)
    ensures r.Ok? ==> forall name ::
      FunctionMapping.Lookup(taskCounts, name) == CountWhere(r.value.sortedEvents, FunctionMapping.TalliedTo(r.value.mapping, name))
  {
    var loaded := LoadTrace(lines, parse, Window);
    if loaded.Err? {
      return Err(loaded.error), map[];
    }
    var events, funcCounts := loaded.value.events, loaded.value.counts;
    var sortedEvents := StableSort(events, ByStart);
    var sortedFuncs := StableSort(funcCounts, ByCountDescending);
    var totalWeight := Total(tasks);
    var sortedTasks := StableSort(tasks, ByWeightDescending);
    SortedTasksTotal(tasks);

    var mapping: Mapping := map[];
    ghost var picks: seq<Pick> := [];
    assert Owners([], sortedTasks) == [];
    var currentFuncIdx;
    currentFuncIdx, mapping, picks := AssignTasks(events, sortedFuncs, sortedTasks, totalWeight, 0, mapping, picks);
    assert mapping == GreedyMapping(events, tasks);

    taskCounts := FunctionMapping.TallyCounts(sortedEvents, mapping);
    r := Ok(FunctionMapping.Mapped(sortedEvents, mapping));
  }

  /**
   * The example trace under locust.py: 160 calls, equal weights, so each
   * task's budget is 80; A takes f1 (100) and B takes f2 and f3 (60),
   * leaving nothing.
   */
  lemma ScenarioGreedy()
    ensures Greedy([("f1", 100), ("f2", 50), ("f3", 10)], [("A", 1), ("B", 1)], 160, 2, Progress(0, []), 0)
         == Progress(3, [Pick("f1", 100, 0), Pick("f2", 50, 1), Pick("f3", 10, 1)])
  {
    var funcs: seq<FuncCount> := [("f1", 100), ("f2", 50), ("f3", 10)];
    var stasks: seq<TaskWeight> := [("A", 1), ("B", 1)];
    assert Budget(stasks, 160, 2, 0) == 80 && Budget(stasks, 160, 2, 1) == 80;
    var p1 := TakeFor(funcs, Progress(0, []), 0, 80, 0);
    assert p1 == Progress(1, [Pick("f1", 100, 0)]);
    var a: seq<Pick> := [Pick("f1", 100, 0), Pick("f2", 50, 1)];
    var b: seq<Pick> := [Pick("f1", 100, 0), Pick("f2", 50, 1), Pick("f3", 10, 1)];
    assert p1.picks + [Pick("f2", 50, 1)] == a && a + [Pick("f3", 10, 1)] == b;
    assert TakeFor(funcs, p1, 0, 80, 1) == TakeFor(funcs, Progress(2, a), 50, 80, 1);
    assert TakeFor(funcs, Progress(2, a), 50, 80, 1) == TakeFor(funcs, Progress(3, b), 60, 80, 1);
  }
}
