/**
 * The second pass of locustfile.py's mapper (lines 81-106): the
 * functions still unassigned are taken from the front, one at a time, and
 * each goes to the first task (in dict order) whose choice leaves the
 * smallest maximum relative deviation `|count / target - 1|` over all tasks.
 */
module SecondPass {
  import opened Basics
  import opened Sorting
  import opened Trace
  import opened Assignment
  import opened TaskPlan

  ghost predicate Positive(targets: seq<real>)
  {
    forall t | 0 <= t < |targets| :: targets[t] > 0.0
  }

  /** `abs(count / target - 1)`. */
  function Deviation(c: nat, target: real): real
    requires target > 0.0
  {
    Abs(c as real / target - 1.0)
  }

  /** `max(abs(temp_counts[t] / task_targets[t] - 1) for t in task_targets)`. */
  function MaxDeviation(counts: seq<nat>, targets: seq<real>): (r: real)
    requires 0 < |counts| == |targets| && Positive(targets)
    ensures forall t | 0 <= t < |counts| :: Deviation(counts[t], targets[t]) <= r
    ensures exists t | 0 <= t < |counts| :: r == Deviation(counts[t], targets[t])
  {
    var n := |counts|;
    var d := Deviation(counts[n - 1], targets[n - 1]);
    if n == 1 then d
    else
      var m := MaxDeviation(counts[..n - 1], targets[..n - 1]);
      if d > m then d else m
  }

  /** The maximum deviation if task `t` took `count` more calls. */
  function Score(current: seq<nat>, targets: seq<real>, t: nat, count: nat): real
    requires t < |current| == |targets| && Positive(targets)
  {
    MaxDeviation(Bump(current, t, count), targets)
  }

  /** The score of every task, in task order: the values the scan compares. */
  function Scores(current: seq<nat>, targets: seq<real>, count: nat): seq<real>
    requires |current| == |targets| && Positive(targets)
  {
    seq(|targets|, t requires 0 <= t < |targets| => Score(current, targets, t, count))
  }

  /** The first position of a least value among `s[..n]`. */
  function ArgMin(s: seq<real>, n: nat): (b: nat)
    requires 0 < n <= |s|
    ensures b < n
    ensures forall j | 0 <= j < n :: s[b] <= s[j]
    ensures forall j | 0 <= j < b :: s[b] < s[j]
  {
    if n == 1 then 0
    else
      var b := ArgMin(s, n - 1);
      if s[n - 1] < s[b] then n - 1 else b
  }

  /** The task the scan over the first `n` tasks settles on: the first with the least score. */
  function BestAmong(current: seq<nat>, targets: seq<real>, count: nat, n: nat): (b: nat)
    requires 0 < n <= |targets| == |current| && Positive(targets)
    ensures b < n
    ensures forall j | 0 <= j < n :: Score(current, targets, b, count) <= Score(current, targets, j, count)
    ensures forall j | 0 <= j < b :: Score(current, targets, b, count) < Score(current, targets, j, count)
  {
    var s := Scores(current, targets, count);
    var b := ArgMin(s, n);
    assert forall j | 0 <= j < n :: s[j] == Score(current, targets, j, count);
    b
  }

  /** `best_task` for a function with `count` calls. */
  function BestTask(current: seq<nat>, targets: seq<real>, count: nat): nat
    requires 0 < |targets| == |current| && Positive(targets)
  {
    BestAmong(current, targets, count, |targets|)
  }

  lemma BestAmongStep(current: seq<nat>, targets: seq<real>, count: nat, n: nat)
    requires 0 < n < |targets| == |current| && Positive(targets)
    ensures var b := BestAmong(current, targets, count, n);
      BestAmong(current, targets, count, n + 1)
      == if Score(current, targets, n, count) < Score(current, targets, b, count) then n else b
  {
    var s := Scores(current, targets, count);
    assert ArgMin(s, n + 1) == if s[n] < s[ArgMin(s, n)] then n else ArgMin(s, n);
  }

  /**
   * The `for task in task_targets` scan; `minMaxDeviation` is `None`
   * while it still holds the initial `float('inf')`.
   */
  method ChooseTask(current: seq<nat>, targets: seq<real>, count: nat) returns (best: nat)
    requires 0 < |targets| == |current| && Positive(targets)
    ensures best == BestTask(current, targets, count)
  {
    var bestTask: Option<nat> := None;
    var minMaxDeviation: Option<real> := None;
    for t := 0 to |targets|
      invariant t == 0 ==> bestTask == None && minMaxDeviation == None
      invariant 0 < t ==> bestTask == Some(BestAmong(current, targets, count, t))
      invariant 0 < t ==> minMaxDeviation == Some(Score(current, targets, bestTask.value, count))
    {
      var tempCounts := Bump(current, t, count);
      var maxDeviation := MaxDeviation(tempCounts, targets);
      assert maxDeviation == Score(current, targets, t, count);
      if 0 < t {
        BestAmongStep(current, targets, count, t);
      }
      if minMaxDeviation.None? || maxDeviation < minMaxDeviation.value {
        minMaxDeviation := Some(maxDeviation);
        bestTask := Some(t);
      }
    }
    best := bestTask.value;
  }

  /** The second pass: every remaining function, front first, to its best task. */
  function Balance(st: State, targets: seq<real>): (r: State)
    requires 0 < |targets| == |st.current|
    requires st.unassigned != [] ==> Positive(targets)
    ensures |r.current| == |st.current| && r.unassigned == []
    decreases |st.unassigned|
  {
    if st.unassigned == [] then st
    else Balance(Move(st, 0, BestTask(st.current, targets, st.unassigned[0].1)), targets)
  }

  lemma {:induction false} BalanceConserved(st: State, funcs: seq<FuncCount>, targets: seq<real>)
    requires 0 < |targets| == |st.current| && Conserved(st, funcs)
    requires st.unassigned != [] ==> Positive(targets)
    ensures Conserved(Balance(st, targets), funcs)
    decreases |st.unassigned|
  {
    if st.unassigned != [] {
      var b := BestTask(st.current, targets, st.unassigned[0].1);
      MoveConserved(st, funcs, 0, b);
      BalanceConserved(Move(st, 0, b), funcs, targets);
    }
  }

  /** The remaining functions are assigned in their order, front first, after the earlier assignments. */
  lemma {:induction false} BalanceOrder(st: State, targets: seq<real>)
    requires 0 < |targets| == |st.current|
    requires st.unassigned != [] ==> Positive(targets)
    ensures var r := Balance(st, targets);
      |r.picks| == |st.picks| + |st.unassigned| && r.picks[..|st.picks|] == st.picks &&
      forall j | 0 <= j < |st.unassigned| :: Items(r.picks)[|st.picks| + j] == st.unassigned[j]
    decreases |st.unassigned|
  {
    if st.unassigned != [] {
      var m := Move(st, 0, BestTask(st.current, targets, st.unassigned[0].1));
      BalanceOrder(m, targets);
      var r := Balance(m, targets);
      assert r.picks[..|st.picks|] == r.picks[..|m.picks|][..|st.picks|];
      assert r.picks[|st.picks|] == m.picks[|st.picks|];
      forall j | 0 < j < |st.unassigned| ensures Items(r.picks)[|st.picks| + j] == st.unassigned[j] {
        assert m.unassigned[j - 1] == st.unassigned[j];
      }
    }
  }

  /**
   * From a list in descending-count order the second pass assigns the
   * remaining functions largest first.
   */
  lemma BalanceDescending(st: State, targets: seq<real>)
    requires 0 < |targets| == |st.current|
    requires st.unassigned != [] ==> Positive(targets)
    requires SortedBy(st.unassigned, ByCountDescending)
    ensures var r := Balance(st, targets);
      forall a, b | |st.picks| <= a < b < |r.picks| :: r.picks[a].count >= r.picks[b].count
  {
    BalanceOrder(st, targets);
    DescendingSuffix(Balance(st, targets).picks, |st.picks|, st.unassigned);
  }

  /** A log whose entries from `n` on are the items of a list in descending-count order has non-increasing counts there. */
  lemma DescendingSuffix(picks: seq<Pick>, n: nat, u: seq<FuncCount>)
    requires n + |u| == |picks| && SortedBy(u, ByCountDescending)
    requires forall j | 0 <= j < |u| :: Items(picks)[n + j] == u[j]
    ensures forall a, b | n <= a < b < |picks| :: picks[a].count >= picks[b].count
  {
    forall a, b | n <= a < b < |picks| ensures picks[a].count >= picks[b].count {
      assert Items(picks)[n + (a - n)] == u[a - n];
      assert Items(picks)[n + (b - n)] == u[b - n];
      assert ByCountDescending(u[a - n]) <= ByCountDescending(u[b - n]);
    }
  }

  /** The `while unassigned_funcs` loop, writing the mapping as it assigns. */
  method RunSecondPass(events: seq<Event>, tasks: seq<TaskWeight>, targets: seq<real>,
                       unassigned: seq<FuncCount>, current: seq<nat>, mapping: Mapping, ghost picks: seq<Pick>)
    returns (unassigned': seq<FuncCount>, current': seq<nat>, mapping': Mapping, ghost picks': seq<Pick>)
    requires 0 < |targets| == |tasks| == |current|
    requires unassigned != [] ==> Positive(targets)
    requires Tracks(mapping, events, picks, tasks)
    ensures unassigned' == Balance(State(unassigned, current, picks), targets).unassigned
    ensures current' == Balance(State(unassigned, current, picks), targets).current
    ensures picks' == Balance(State(unassigned, current, picks), targets).picks
    ensures Tracks(mapping', events, picks', tasks)
  {
    unassigned', current', mapping', picks' := unassigned, current, mapping, picks;
    while unassigned' != []
      invariant |current'| == |current|
      invariant unassigned' != [] ==> Positive(targets)
      invariant Tracks(mapping', events, picks', tasks)
      invariant Balance(State(unassigned', current', picks'), targets) == Balance(State(unassigned, current, picks), targets)
      decreases |unassigned'|
    {
      var func, count := unassigned'[0].0, unassigned'[0].1;
      var bestTask := ChooseTask(current', targets, count);
      unassigned' := Remove(unassigned', 0);
      TracksSnoc(mapping', events, picks', Pick(func, count, bestTask), tasks);
      mapping' := AssignFunction(mapping', events, func, tasks[bestTask].0);
      current' := Bump(current', bestTask, count);
      picks' := picks' + [Pick(func, count, bestTask)];
    }
  }
}
