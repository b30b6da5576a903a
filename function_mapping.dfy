/**
 * `create_function_mapping` of locustfile.py (lines 9-128): load the
 * trace, sort events and functions, compute the targets, run both passes
 * and tally the calls each task ends up with.
 */
module FunctionMapping {
  import opened Basics
  import opened Sorting
  import opened Trace
  import opened Assignment
  import opened TaskPlan
  import opened FirstPass
  import opened SecondPass

  /** Only events that end within the first 4000 seconds are kept. */
  const Window: real := 4000.0

  ghost predicate PositiveCounts(funcs: seq<FuncCount>)
  {
    forall fc | fc in funcs :: fc.1 > 0
  }

  lemma PositiveTotal(funcs: seq<FuncCount>)
    requires PositiveCounts(funcs) && funcs != []
    ensures Total(funcs) > 0
  {
    assert funcs[0] in funcs;
  }

  /**
   * Both passes over the functions `funcs`, in `sorted_funcs` order: every
   * function ends up assigned to a task.
   */
  function Plan(funcs: seq<FuncCount>, tasks: seq<TaskWeight>): (r: State)
    requires ValidTasks(tasks) && PositiveCounts(funcs)
    ensures |r.current| == |tasks| && r.unassigned == []
    ensures Conserved(r, funcs)
  {
    TargetsPositive(tasks, Total(funcs));
    var targets := Targets(tasks, Total(funcs));
    var start := Start(funcs, |tasks|);
    var first := Pass(start, targets, 0);
    StartConserved(funcs, |tasks|);
    PassConserved(start, funcs, targets, 0);
    assert first.unassigned != [] ==> Positive(targets) by {
      if first.unassigned != [] {
        PositiveTotal(funcs);
      }
    }
    BalanceConserved(first, funcs, targets);
    Balance(first, targets)
  }

  /**
   * Each function is assigned exactly once, with its count, and the task
   * counts add up to all calls.
   */
  lemma PlanOutcome(funcs: seq<FuncCount>, tasks: seq<TaskWeight>)
    requires ValidTasks(tasks) && PositiveCounts(funcs) && DistinctBy(funcs, FuncName)
    ensures var r := Plan(funcs, tasks);
      SumNat(r.current) == Total(funcs) &&
      (forall i, j | 0 <= i < j < |r.picks| :: r.picks[i].func != r.picks[j].func) &&
      (forall fc | fc in funcs :: exists j :: 0 <= j < |r.picks| && Items(r.picks)[j] == fc) &&
      (forall j | 0 <= j < |r.picks| :: Items(r.picks)[j] in funcs)
  {
    Complete(Plan(funcs, tasks), funcs);
  }

  lemma SortedFuncsPositive(es: seq<Event>)
    ensures PositiveCounts(SortedFuncs(es)) && DistinctBy(SortedFuncs(es), FuncName)
  {
    SortedFuncsCounts(es);
    SortedFuncsOrder(es);
    forall fc | fc in SortedFuncs(es) ensures fc.1 > 0 {
      assert fc.0 in multiset(Funcs(es));
    }
  }

  /** The assignments for the kept events `es`. */
  function PlanFor(es: seq<Event>, tasks: seq<TaskWeight>): (r: State)
    requires ValidTasks(tasks)
    ensures |r.current| == |tasks| && Conserved(r, SortedFuncs(es))
  {
    SortedFuncsPositive(es);
    Plan(SortedFuncs(es), tasks)
  }

  /** The targets and the state after the first pass, as `Plan` computes them. */
  function FirstPassOf(funcs: seq<FuncCount>, tasks: seq<TaskWeight>): (r: (seq<real>, State))
    requires ValidTasks(tasks)
    ensures |r.0| == |r.1.current| == |tasks|
  {
    TotalPositive(tasks);
    var targets := Targets(tasks, Total(funcs));
    (targets, Pass(Start(funcs, |tasks|), targets, 0))
  }

  lemma PlanUnfold(funcs: seq<FuncCount>, tasks: seq<TaskWeight>)
    requires ValidTasks(tasks) && PositiveCounts(funcs)
    ensures var (targets, first) := FirstPassOf(funcs, tasks);
      (first.unassigned != [] ==> Positive(targets)) && Plan(funcs, tasks) == Balance(first, targets)
  {
    var (targets, first) := FirstPassOf(funcs, tasks);
    TargetsPositive(tasks, Total(funcs));
    if first.unassigned != [] {
      PositiveTotal(funcs);
    }
  }

  /**
   * On a list in descending-count order, the second pass assigns what the
   * first pass left largest first, after the first pass's assignments.
   */
  lemma PlanLargestFirst(funcs: seq<FuncCount>, tasks: seq<TaskWeight>)
    requires ValidTasks(tasks) && PositiveCounts(funcs) && SortedBy(funcs, ByCountDescending)
    ensures var first := FirstPassOf(funcs, tasks).1;
      var r := Plan(funcs, tasks);
      first.picks <= r.picks &&
      forall a, b | |first.picks| <= a < b < |r.picks| :: r.picks[a].count >= r.picks[b].count
  {
    var (targets, first) := FirstPassOf(funcs, tasks);
    FirstPassSorted(funcs, targets);
    PlanUnfold(funcs, tasks);
    var r := Plan(funcs, tasks);
    assert r == Balance(first, targets);
    BalanceOrder(first, targets);
    BalanceDescending(first, targets);
  }

  /**
   * The two passes on `sorted_funcs`: the first pass always takes the
   * largest function that still fits, and the second pass assigns the
   * leftovers in descending-count order.
   */
  lemma PlanForLargestFirst(es: seq<Event>, tasks: seq<TaskWeight>)
    requires ValidTasks(tasks)
    ensures PassTakesLargest(Start(SortedFuncs(es), |tasks|), FirstPassOf(SortedFuncs(es), tasks).0, 0)
    ensures var first := FirstPassOf(SortedFuncs(es), tasks).1;
      var r := PlanFor(es, tasks);
      first.picks <= r.picks &&
      forall a, b | |first.picks| <= a < b < |r.picks| :: r.picks[a].count >= r.picks[b].count
  {
    SortedFuncsOrder(es);
    SortedFuncsPositive(es);
    FirstPassLargest(SortedFuncs(es), FirstPassOf(SortedFuncs(es), tasks).0);
    PlanLargestFirst(SortedFuncs(es), tasks);
  }

  /** `function_mapping` for the kept events `es`. */
  ghost function MappingFor(es: seq<Event>, tasks: seq<TaskWeight>): Mapping
    requires ValidTasks(tasks)
  {
    MappingOf(es, Owners(PlanFor(es, tasks).picks, tasks))
  }

  /** Every function of the events has been assigned. */
  ghost predicate Covers(picks: seq<Pick>, es: seq<Event>)
  {
    forall f | f in Funcs(es) :: exists j :: 0 <= j < |picks| && picks[j].func == f
  }

  /** No function has been assigned twice. */
  ghost predicate AssignedOnce(picks: seq<Pick>)
  {
    forall i, j | 0 <= i < j < |picks| :: picks[i].func != picks[j].func
  }

  lemma MappingKeys(es: seq<Event>, picks: seq<Pick>, tasks: seq<TaskWeight>)
    requires forall j | 0 <= j < |picks| :: picks[j].task < |tasks|
    requires Covers(picks, es)
    ensures MappingOf(es, Owners(picks, tasks)).Keys == AllKeys(es)
  {
    var owners := Owners(picks, tasks);
    MappingOfFacts(es, owners);
    forall k | k in AllKeys(es) ensures k.1 in Bound(owners) {
      var e :| e in es && KeyOf(e) == k;
      assert e.func in Funcs(es);
      var j :| 0 <= j < |picks| && picks[j].func == e.func;
      assert owners[j] in owners;
    }
  }

  lemma MappingValues(es: seq<Event>, picks: seq<Pick>, tasks: seq<TaskWeight>)
    requires forall j | 0 <= j < |picks| :: picks[j].task < |tasks|
    requires AssignedOnce(picks)
    ensures var m := MappingOf(es, Owners(picks, tasks));
      forall k | k in m :: exists j :: 0 <= j < |picks| && picks[j].func == k.1 && m[k] == tasks[picks[j].task].0
  {
    var owners := Owners(picks, tasks);
    var m := MappingOf(es, owners);
    MappingOfFacts(es, owners);
    forall k | k in m ensures exists j :: 0 <= j < |picks| && picks[j].func == k.1 && m[k] == tasks[picks[j].task].0 {
      var o :| o in owners && o.0 == k.1;
      var j :| 0 <= j < |owners| && owners[j] == o;
      OwnerOfDistinct(owners, j);
    }
  }

  lemma PlanForCovers(es: seq<Event>, tasks: seq<TaskWeight>)
    requires ValidTasks(tasks)
    ensures Covers(PlanFor(es, tasks).picks, es) && AssignedOnce(PlanFor(es, tasks).picks)
    ensures forall j | 0 <= j < |PlanFor(es, tasks).picks| ::
      PlanFor(es, tasks).picks[j].count == CountOf(es, PlanFor(es, tasks).picks[j].func)
  {
    var funcs := SortedFuncs(es);
    SortedFuncsPositive(es);
    var r := PlanFor(es, tasks);
    PlanOutcome(funcs, tasks);
    SortedFuncsCounts(es);
    forall f | f in Funcs(es) ensures exists j :: 0 <= j < |r.picks| && r.picks[j].func == f {
      var fc :| fc in funcs && fc.0 == f;
      var j :| 0 <= j < |r.picks| && Items(r.picks)[j] == fc;
    }
    forall j | 0 <= j < |r.picks| ensures r.picks[j].count == CountOf(es, r.picks[j].func) {
      assert Items(r.picks)[j] in funcs;
    }
  }

  /**
   * Every kept `(app, func)` key is mapped and no other; each maps to the
   * task its function was assigned to, so all keys of one function map to
   * the same task.
   */
  lemma MappingForFacts(es: seq<Event>, tasks: seq<TaskWeight>)
    requires ValidTasks(tasks)
    ensures var m := MappingFor(es, tasks);
      var picks := PlanFor(es, tasks).picks;
      m.Keys == AllKeys(es) &&
      (forall k | k in m :: exists j :: 0 <= j < |picks| && picks[j].func == k.1 && m[k] == tasks[picks[j].task].0) &&
      (forall k, k' | k in m && k' in m && k.1 == k'.1 :: m[k] == m[k'])
  {
    var picks := PlanFor(es, tasks).picks;
    PlanForCovers(es, tasks);
    MappingKeys(es, picks, tasks);
    MappingValues(es, picks, tasks);
    MappingOfFacts(es, Owners(picks, tasks));
  }

  /** The events `final_counts[name]` counts: those whose key is mapped to `name`. */
  function TalliedTo(m: Mapping, name: string): Event -> bool
  {
    (e: Event) => KeyOf(e) in m && m[KeyOf(e)] == name
  }

  /** A read of the `final_counts` defaultdict. */
  function Lookup(d: map<string, nat>, name: string): nat
  {
    if name in d then d[name] else 0
  }

  /** The `final_counts` loop over the events. */
  method TallyCounts(es: seq<Event>, m: Mapping) returns (finalCounts: map<string, nat>)
    ensures forall name :: Lookup(finalCounts, name) == CountWhere(es, TalliedTo(m, name))
  {
    finalCounts := map[];
    for i := 0 to |es|
      invariant forall name :: Lookup(finalCounts, name) == CountWhere(es[..i], TalliedTo(m, name))
    {
      var e := es[i];
      assert es[..i + 1] == es[..i] + [e];
      forall name
        ensures CountWhere(es[..i + 1], TalliedTo(m, name))
             == CountWhere(es[..i], TalliedTo(m, name)) + (if TalliedTo(m, name)(e) then 1 else 0)
      {
        CountWhereAppend(es[..i], [e], TalliedTo(m, name));
        assert [e][1..] == [];
      }
      if (e.app, e.func) in m {
        var task := m[(e.app, e.func)];
        finalCounts := finalCounts[task := Lookup(finalCounts, task) + 1];
      }
    }
    assert es[..|es|] == es;
  }

  /** The functions assigned to task `i`. */
  ghost function AssignedTo(picks: seq<Pick>, i: nat): set<string>
  {
    set j | 0 <= j < |picks| && picks[j].task == i :: picks[j].func
  }

  /** The events that call one of `fs`. */
  function CallsAnyOf(fs: set<string>): Event -> bool
  {
    (e: Event) => e.func in fs
  }

  lemma {:induction false} CountNoneOf(es: seq<Event>)
    ensures CountWhere(es, CallsAnyOf({})) == 0
  {
    if es != [] {
      CountNoneOf(es[1..]);
    }
  }

  /** With true counts and no function twice, a task's load is the number of calls to its functions. */
  lemma {:induction false} LoadCount(es: seq<Event>, picks: seq<Pick>, i: nat)
    requires AssignedOnce(picks)
    requires forall j | 0 <= j < |picks| :: picks[j].count == CountOf(es, picks[j].func)
    ensures CountWhere(es, CallsAnyOf(AssignedTo(picks, i))) == Load(picks, i)
  {
    if picks == [] {
      assert AssignedTo(picks, i) == {};
      CountNoneOf(es);
    } else {
      var n := |picks| - 1;
      var init := picks[..n];
      var p := picks[n];
      assert picks == init + [p];
      LoadCount(es, init, i);
      LoadSnoc(init, p, i);
      if p.task == i {
        assert AssignedTo(picks, i) == AssignedTo(init, i) + {p.func};
        assert p.func !in AssignedTo(init, i);
        CountWhereSplit(es, CallsAnyOf(AssignedTo(picks, i)), CallsAnyOf(AssignedTo(init, i)), Calls(p.func));
        CountOfWhere(es, p.func);
      } else {
        assert AssignedTo(picks, i) == AssignedTo(init, i);
      }
    }
  }

  /** An event is tallied to task `i` exactly when its function was assigned to `i`. */
  lemma TalliedIsAssigned(es: seq<Event>, picks: seq<Pick>, tasks: seq<TaskWeight>, m: Mapping, i: nat)
    requires ValidTasks(tasks) && i < |tasks|
    requires forall j | 0 <= j < |picks| :: picks[j].task < |tasks|
    requires AssignedOnce(picks)
    requires m.Keys == AllKeys(es)
    requires forall k | k in m :: exists j :: 0 <= j < |picks| && picks[j].func == k.1 && m[k] == tasks[picks[j].task].0
    ensures forall e | e in es :: TalliedTo(m, tasks[i].0)(e) == CallsAnyOf(AssignedTo(picks, i))(e)
  {
    forall e | e in es ensures TalliedTo(m, tasks[i].0)(e) == CallsAnyOf(AssignedTo(picks, i))(e) {
      assert KeyOf(e) in AllKeys(es);
      var j :| 0 <= j < |picks| && picks[j].func == e.func && m[KeyOf(e)] == tasks[picks[j].task].0;
      if picks[j].task == i {
        assert e.func in AssignedTo(picks, i);
      } else {
        assert tasks[picks[j].task].0 != tasks[i].0;
      }
    }
  }

  /**
   * The tally over `sorted_events` gives task `i` exactly the calls the
   * two passes counted for it.
   */
  lemma TallyMatchesPlan(es: seq<Event>, tasks: seq<TaskWeight>, i: nat)
    requires ValidTasks(tasks) && i < |tasks|
    ensures CountWhere(SortedEvents(es), TalliedTo(MappingFor(es, tasks), tasks[i].0)) == PlanFor(es, tasks).current[i]
  {
    var r := PlanFor(es, tasks);
    var m := MappingFor(es, tasks);
    PlanForCovers(es, tasks);
    MappingForFacts(es, tasks);
    var p := TalliedTo(m, tasks[i].0);
    var q := CallsAnyOf(AssignedTo(r.picks, i));
    StableSortCount(es, ByStart, p);
    TalliedIsAssigned(es, r.picks, tasks, m, i);
    CountWhereCongruent(es, p, q);
    LoadCount(es, r.picks, i);
  }

  /** Count conservation: the tasks' counts add up to the number of kept calls. */
  lemma PlanConservesCalls(es: seq<Event>, tasks: seq<TaskWeight>)
    requires ValidTasks(tasks)
    ensures SumNat(PlanFor(es, tasks).current) == |es|
  {
    SortedFuncsPositive(es);
    SortedFuncsCounts(es);
    PlanOutcome(SortedFuncs(es), tasks);
  }

  /** What `create_function_mapping` returns. */
  datatype Mapped = Mapped(sortedEvents: seq<Event>, mapping: Mapping)

  ghost function MappingSpec(lines: seq<string>, parse: string -> Option<real>, tasks: seq<TaskWeight>): Result<Mapped, LoadError>
    requires ValidTasks(tasks)
  {
    match LoadSpec(lines, parse, Window)
    case Err(e) => Err(e)
    case Ok(l) => Ok(Mapped(SortedEvents(l.events), MappingFor(l.events, tasks)))
  }

  /**
   * `create_function_mapping`; `finalCounts` is the `final_counts` tally
   * the function prints, which equals the counts the passes kept.
   */
  method CreateFunctionMapping(lines: seq<string>, parse: string -> Option<real>, tasks: seq<TaskWeight>)
    returns (r: Result<Mapped, LoadError>, finalCounts: map<string, nat>)
    requires ValidTasks(tasks)
    ensures r == MappingSpec(lines, parse, tasks)
    ensures r.Ok? ==> forall i | 0 <= i < |tasks| ::
      Lookup(finalCounts, tasks[i].0) == PlanFor(LoadSpec(lines, parse, Window).value.events, tasks).current[i]
  {
    var loaded := LoadTrace(lines, parse, Window);
    if loaded.Err? {
      return Err(loaded.error), map[];
    }
    var events, funcCounts := loaded.value.events, loaded.value.counts;
    var sortedEvents := StableSort(events, ByStart);
    var sortedFuncs := StableSort(funcCounts, ByCountDescending);
    TotalPositive(tasks);
    var totalFunctionCount := Total(funcCounts);
    var taskTargets := Targets(tasks, totalFunctionCount);

    TotalSort(funcCounts, ByCountDescending);
    SortedFuncsPositive(events);
    assert Owners([], tasks) == [];
    var unassigned, current, mapping := sortedFuncs, seq(|tasks|, _ => 0), map[];
    ghost var picks: seq<Pick> := [];
    unassigned, current, mapping, picks :=
      RunFirstPass(events, tasks, taskTargets, unassigned, current, mapping, picks);
    if unassigned != [] {
      PositiveTotal(sortedFuncs);
      TargetsPositive(tasks, totalFunctionCount);
    }
    unassigned, current, mapping, picks :=
      RunSecondPass(events, tasks, taskTargets, unassigned, current, mapping, picks);
    assert State(unassigned, current, picks) == PlanFor(events, tasks);

    finalCounts := TallyCounts(sortedEvents, mapping);
    r := Ok(Mapped(sortedEvents, mapping));
    forall i | 0 <= i < |tasks|
      ensures Lookup(finalCounts, tasks[i].0) == PlanFor(events, tasks).current[i]
    {
      TallyMatchesPlan(events, tasks, i);
    }
  }

  lemma ScenarioTargets()
    ensures Total([("f1", 100), ("f2", 50), ("f3", 10)]) == 160
    ensures Targets([("A", 1), ("B", 1)], 160) == [80.0, 80.0]
  {
    var tasks: seq<TaskWeight> := [("A", 1), ("B", 1)];
    assert Total(tasks) == 2;
  }

  lemma ScenarioFirstTask()
    ensures FillTask(Start([("f1", 100), ("f2", 50), ("f3", 10)], 2), 0, 80.0)
         == State([("f1", 100), ("f3", 10)], [50, 0], [Pick("f2", 50, 0)])
  {
    var st0 := Start([("f1", 100), ("f2", 50), ("f3", 10)], 2);
    assert st0.current == [0, 0];
    assert FirstFit(st0.unassigned, 0, 80.0) == 1;
    var st1 := Move(st0, 1, 0);
    assert st1 == State([("f1", 100), ("f3", 10)], [50, 0], [Pick("f2", 50, 0)]);
    assert FillTask(st1, 0, 80.0) == st1;
  }

  lemma ScenarioSecondTask()
    ensures FillTask(State([("f1", 100), ("f3", 10)], [50, 0], [Pick("f2", 50, 0)]), 1, 80.0)
         == State([("f1", 100)], [50, 10], [Pick("f2", 50, 0), Pick("f3", 10, 1)])
  {
    var st1 := State([("f1", 100), ("f3", 10)], [50, 0], [Pick("f2", 50, 0)]);
    assert FirstFit(st1.unassigned, 0, 80.0) == 1;
    var st2 := Move(st1, 1, 1);
    assert st2 == State([("f1", 100)], [50, 10], [Pick("f2", 50, 0), Pick("f3", 10, 1)]);
    assert FirstFit(st2.unassigned, 10, 80.0) == -1;
  }

  lemma ScenarioScoreA()
    ensures Score([50, 10], [80.0, 80.0], 0, 100) == 0.875
  {
    assert Bump([50, 10], 0, 100) == [150, 10];
    assert Deviation(150, 80.0) == 0.875;
    assert Deviation(10, 80.0) == 0.875;
    assert [150, 10][..1] == [150] && [80.0, 80.0][..1] == [80.0];
    assert MaxDeviation([150], [80.0]) == 0.875;
  }

  lemma ScenarioScoreB()
    ensures Score([50, 10], [80.0, 80.0], 1, 100) == 0.375
  {
    assert Bump([50, 10], 1, 100) == [50, 110];
    assert Deviation(50, 80.0) == 0.375;
    assert Deviation(110, 80.0) == 0.375;
    assert [50, 110][..1] == [50] && [80.0, 80.0][..1] == [80.0];
    assert MaxDeviation([50], [80.0]) == 0.375;
  }

  lemma ScenarioSecondPass()
    ensures Balance(State([("f1", 100)], [50, 10], [Pick("f2", 50, 0), Pick("f3", 10, 1)]), [80.0, 80.0])
         == State([], [50, 110], [Pick("f2", 50, 0), Pick("f3", 10, 1), Pick("f1", 100, 1)])
  {
    var st := State([("f1", 100)], [50, 10], [Pick("f2", 50, 0), Pick("f3", 10, 1)]);
    ScenarioScoreA();
    ScenarioScoreB();
    BestAmongStep([50, 10], [80.0, 80.0], 100, 1);
    assert BestTask([50, 10], [80.0, 80.0], 100) == 1;
    var st' := Move(st, 0, 1);
    assert st' == State([], [50, 110], [Pick("f2", 50, 0), Pick("f3", 10, 1), Pick("f1", 100, 1)]);
    assert Balance(st', [80.0, 80.0]) == st';
  }

  /**
   * Functions f1, f2, f3 with 100, 50 and 10 calls and two tasks A and B of
   * equal weight (targets 80 each): the first pass gives f2 to A and f3 to
   * B, where f1 no longer fits; the second pass gives f1 to B, since that
   * leaves a maximum deviation of 0.375 against 0.875 for A.
   */
  lemma TwoTaskScenario()
    ensures Plan([("f1", 100), ("f2", 50), ("f3", 10)], [("A", 1), ("B", 1)])
         == State([], [50, 110], [Pick("f2", 50, 0), Pick("f3", 10, 1), Pick("f1", 100, 1)])
  {
    var funcs: seq<FuncCount> := [("f1", 100), ("f2", 50), ("f3", 10)];
    var targets := [80.0, 80.0];
    ScenarioTargets();
    ScenarioFirstTask();
    ScenarioSecondTask();
    ScenarioSecondPass();
    var st0 := Start(funcs, 2);
    var st1 := State([("f1", 100), ("f3", 10)], [50, 0], [Pick("f2", 50, 0)]);
    var st2 := State([("f1", 100)], [50, 10], [Pick("f2", 50, 0), Pick("f3", 10, 1)]);
    assert Pass(st2, targets, 2) == st2;
    assert Pass(st1, targets, 1) == st2;
    assert Pass(st0, targets, 0) == st2;
  }
}
