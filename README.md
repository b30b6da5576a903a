# zero-scaling workload mapper and trace replay, in Dafny

zero-scaling replays a serverless invocation trace (rows of app id,
function id, end timestamp and duration) against a web shop with Locust.
Before replaying, `create_function_mapping` reads the trace and keeps the
events that end inside a time window. It then assigns every traced
function id to one of the shop's "tasks" (`index`, `viewCart`, ...), so
that each task's share of the calls follows the weights in
`desired_tasks`. During the replay, each simulated user walks the
time-sorted events with a cursor. For every event it runs the handler
that the event's `(app, function)` key is mapped to.

The repository holds two versions of this logic, and this project models
both:

- **locustfile.py.**
  - **Loader.** The window is 4000 s (module `FunctionMapping`, on top of `Trace`).
  - **Two-pass mapper.**
    - The first pass (`FirstPass`) fills each task, in dict order, up to 30% of its target.
    - It takes the first function, in descending-count order, that keeps the task within 120% of its target.
    - The second pass (`SecondPass`) gives each leftover function to the task that minimises the worst relative deviation `|count/target - 1|` over all tasks.
  - **Replay step.** The replay step never waits (`Replay.ReplayUser`).
- **locust.py.**
  - **Loader.** The window is 1000 s.
  - **Prefix-greedy mapper** (`PrefixGreedy`).
    - Tasks are sorted by weight.
    - Each task receives the next functions from one shared cursor until its budget `int(n*w/W + 0.5)` is met.
  - **Replay step.** The replay step first sleeps until the event's scheduled start (`Replay.ScheduledUser`).

The modules follow the program's structure:

| module | what |
|---|---|
| `Basics` | `Option`, `Result`, `Abs` |
| `Sorting` | Python's stable `sorted` (insertion sort by a real key): ordered, a permutation, equal keys in input order |
| `Trace` | `str.strip`, `str.split(',')`, one data line, the loader as a loop and as a function, `func_counts` as an insertion-ordered dict, the two sorts |
| `Assignment` | writing every `(app, f)` key of a function to a task, and the mapping a list of assignments produces |
| `TaskPlan` | `desired_tasks`, `task_targets`, and the state of the two-pass mapper (unassigned functions, running counts, assignment log) |
| `FirstPass`, `SecondPass` | the two passes of locustfile.py, each as a method with its loops and as the function it is proved against |
| `FunctionMapping` | locustfile.py's `create_function_mapping`, its final tally, and the worked example |
| `PrefixGreedy` | locust.py's `create_function_mapping` |
| `Replay` | `on_start` / `execute_trace` of both task sets as classes with a `currentIdx` field |

Every loop of the source is a `method` with a `while` or `for` loop. Each
method is proved equal to a recursive function, and the properties are
lemmas about that function. The mapping the source writes in place
(`function_mapping[(app, f)] = task`) is a `map` that the methods
reassign. Alongside it, a ghost log of assignments ties the map to the
function's result.

## Model

| member | source | states |
|---|---|---|
| Basics.Abs | locustfile.py:94 | the absolute value is non-negative and equals the argument or its negation |
| Sorting.StableSortSorted | locustfile.py:36 | `sorted` returns a permutation of its input, non-decreasing in the key |
| Sorting.StableSortStable | locustfile.py:36 | for every key value, the items with that key keep their input order (stability) |
| Sorting.StableSortCount | locustfile.py:36 | sorting changes no count of items satisfying any predicate |
| Sorting.StableSortDistinct | locustfile.py:39-43 | sorting keeps a list free of repeated names |
| Trace.StripFacts | locustfile.py:27 | `strip()` yields an infix of the line that neither starts nor ends with white space |
| Trace.JoinSplit | locustfile.py:27 | joining the pieces of `split(',')` with ',' gives back the line |
| Trace.SplitJoin | locustfile.py:27 | splitting fields that hold no ',' after joining them gives back the fields |
| Trace.SplitCount | locustfile.py:27 | `split(',')` yields one more piece than there are commas |
| Trace.SplitPieces | locustfile.py:27 | no piece of `split(',')` contains the separator |
| Trace.ParseLine | locustfile.py:27-30 | an accepted line yields an event whose start is end minus duration |
| Trace.ParseLineFields | locustfile.py:27 | a line is accepted only if it splits into exactly four fields; otherwise the error names the line and its field count |
| Trace.ParseLineOfFields | locustfile.py:27-30 | a line of four comma-free fields with numeric end and duration reads back as exactly that event |
| Trace.ThreeFieldsRejected | locust.py:30 | a three-field line aborts loading with a field-count error |
| Trace.Kept | locustfile.py:32-34 | an event is kept iff it is in the input and ends inside the window |
| Trace.CollectOk | locustfile.py:26-30 | loading succeeds iff every data line parses |
| Trace.CollectFirstErr | locustfile.py:26-30 | the first bad line's error is the one loading reports |
| Trace.LoadLines | locustfile.py:26-34 | the read loop returns the first line error, or the kept events and their per-function counts |
| Trace.LoadTrace | locustfile.py:24-34 | the loader skips the header, fails on an empty file, and otherwise agrees with the loader function |
| Trace.LoadParsedAll | locustfile.py:24-34 | a successful load parsed every data line and kept exactly the in-window events in file order |
| Trace.LoadEventsFacts | locustfile.py:28-34 | every kept event ends inside the window and starts at end minus duration |
| Trace.KeptSnoc | locust.py:35-37 | one more line adds its event to the kept events iff it ends inside the window |
| Trace.GetPut | locustfile.py:33 | `func_counts[func] = func_counts.get(func, 0) + 1` changes only that function's entry |
| Trace.PutKeys | locustfile.py:33 | a new function id is appended to the dict's key order, and an existing one keeps its place |
| Trace.CountsOfCorrect | locustfile.py:33 | `func_counts` lists the function ids in order of first appearance, and each count is the number of kept events calling that function |
| Trace.CountsOfItems | locustfile.py:33 | `func_counts` has no repeated key, every item's count is its function's call count, and its keys are exactly the functions called |
| Trace.CountsTotal | locustfile.py:47 | `sum(func_counts.values())` is the number of kept events |
| Trace.FuncOrderFacts | locustfile.py:33 | the first-appearance order holds each called function exactly once |
| Trace.SortedEventsFacts | locustfile.py:36 | `sorted_events` is a permutation of the kept events, non-decreasing in start time, with equal starts in file order |
| Trace.SortedFuncsOrder | locustfile.py:39-43 | `sorted_funcs` is a permutation of `func_counts`, non-increasing in count, with equal counts in first-appearance order and no function twice |
| Trace.SortedFuncsCounts | locustfile.py:39-43 | the counts in `sorted_funcs` add up to the kept events, each is its function's call count, and every called function appears |
| Trace.TotalSort | locustfile.py:39-47 | sorting the functions keeps the total call count |
| Assignment.AssignFunction | locustfile.py:76-78 | the loop over `trace_events` writes the task to every key whose function is `func`, and to no other key |
| Assignment.AssignedFacts | locustfile.py:76-78 | after the write, the keys are the old keys plus the function's keys; those map to the task, and the others keep their value |
| Assignment.MappingOfFacts | locustfile.py:103-105 | replaying a list of assignments maps exactly the keys of assigned functions, each to the last task its function was given |
| TaskPlan.TargetsSplitTotal | locustfile.py:48-51 | the targets add up to the total call count |
| TaskPlan.SharesSum | locustfile.py:48-51 | the shares `(weight / w) * n` add up to `(total weight / w) * n` |
| TaskPlan.TargetsPositive | locustfile.py:48-51 | with positive weights every target is non-negative, and positive when there are calls |
| TaskPlan.Remove | locustfile.py:75 | `pop(k)` removes the item at `k` and shifts the later ones down by one |
| TaskPlan.RemoveMultiset | locustfile.py:75 | `pop(k)` removes exactly the popped item |
| TaskPlan.RemoveSorted | locustfile.py:75 | `pop(k)` keeps a descending-count list in descending-count order |
| TaskPlan.MoveConserved | locustfile.py:75-79 | popping a function and assigning it to a task keeps the unassigned plus assigned functions equal to the input and each count equal to its task's assigned calls |
| TaskPlan.Complete | locustfile.py:82-106 | once nothing is unassigned, the counts add up to all calls and each function was assigned exactly once |
| TaskPlan.TracksSnoc | locustfile.py:76-78 | writing an assignment into the mapping keeps the mapping equal to the one its log describes |
| FirstPass.FirstFit | locustfile.py:65-69 | the index found fits within 120% of the target, and no earlier function fits; -1 means none fits |
| FirstPass.FindFirstFit | locustfile.py:65-69 | the search loop with its `break` finds the first fitting function |
| FirstPass.FirstFitIsLargest | locustfile.py:64-69 | in descending-count order the first fit, when there is one, is the largest fitting function, not the smallest |
| FirstPass.FillTaskSorted | locustfile.py:63-79 | filling a task from a descending-count list takes, at every step, a largest function that still fits, and leaves the list in descending-count order |
| FirstPass.PassSorted | locustfile.py:60-79 | over all tasks, every pick of the pass is a largest fitting function, and the unassigned list stays in descending-count order |
| FirstPass.FirstPassLargest | locustfile.py:33-79 | from `sorted_funcs`, every pick of the first pass is the largest function that still fits its task |
| FirstPass.FirstPassSorted | locustfile.py:33-79 | the functions the first pass leaves for the second are still in descending-count order |
| FirstPass.FillTaskCounts | locustfile.py:63-79 | filling a task changes no other task's count, never lowers its own, and keeps it within 120% of its target |
| FirstPass.FillTaskLog | locustfile.py:74-79 | filling task `i` only appends assignments, all of them to `i` |
| FirstPass.FillTaskShrinks | locustfile.py:75 | filling a task only takes functions that were unassigned |
| FirstPass.FillTaskStops | locustfile.py:63-72 | afterwards the task has reached 30% of its target, or no unassigned function fits it |
| FirstPass.FillTaskConserved | locustfile.py:63-79 | filling a task loses and invents nothing: unassigned plus assigned functions are the input, and each count is the calls assigned to its task |
| FirstPass.FillTaskLoop | locustfile.py:63-79 | the `while` loop with its inner search computes the pass function's state and writes the mapping its log describes |
| FirstPass.RunFirstPass | locustfile.py:60-79 | the loop over `task_targets` computes the first pass's state and mapping |
| FirstPass.PassServed | locustfile.py:60-79 | after the pass every task is within 120% of its target, and each one below 30% has no unassigned function left that fits it |
| FirstPass.FirstPassOutcome | locustfile.py:58-79 | the first pass from the start state serves every task as above |
| FirstPass.PassConserved | locustfile.py:60-79 | the first pass loses and invents no function and no call |
| SecondPass.MaxDeviation | locustfile.py:93-96 | the result is the largest `abs(count/target - 1)` over the tasks, and it is attained by one of them |
| SecondPass.ArgMin | locustfile.py:98-100 | the strict `<` scan settles on the first position of a least value |
| SecondPass.BestAmong | locustfile.py:86-100 | `best_task` has the least score among the tasks, and every earlier task has a strictly larger score |
| SecondPass.BestAmongStep | locustfile.py:98-100 | one more task replaces the best one only on a strictly smaller score |
| SecondPass.ChooseTask | locustfile.py:86-100 | the scan, with `float('inf')` as its start, returns the first task with the least maximum deviation |
| SecondPass.Balance | locustfile.py:82-106 | the second pass leaves nothing unassigned and keeps one count per task |
| SecondPass.BalanceConserved | locustfile.py:82-106 | the second pass loses and invents no function and no call |
| SecondPass.BalanceOrder | locustfile.py:82-83 | the remaining functions are assigned front first, in their order, after the earlier assignments |
| SecondPass.BalanceDescending | locustfile.py:82-83 | from a descending-count list, the second pass assigns functions in non-increasing call count |
| SecondPass.RunSecondPass | locustfile.py:82-106 | the `while unassigned_funcs` loop computes the second pass's state and mapping |
| FunctionMapping.Plan | locustfile.py:58-106 | after both passes nothing is unassigned, and calls are conserved |
| FunctionMapping.PlanOutcome | locustfile.py:56-106 | each function is assigned exactly once with its count, and the task counts add up to all calls |
| FunctionMapping.SortedFuncsPositive | locustfile.py:33-43 | every function in `sorted_funcs` has a positive count, and none appears twice |
| FunctionMapping.PlanFor | locustfile.py:39-106 | the plan for the kept events conserves their calls |
| FunctionMapping.PlanForCovers | locustfile.py:56-106 | the plan assigns every called function exactly once, each with its call count |
| FunctionMapping.PlanLargestFirst | locustfile.py:33-106 | from a descending-count list, the second pass extends the first pass's assignments and adds its own in non-increasing call count |
| FunctionMapping.PlanForLargestFirst | locustfile.py:33-106 | for the kept events, every first-pass pick is the largest function that still fits, and the second pass assigns the rest largest first |
| FunctionMapping.MappingKeys | locustfile.py:76-78 | with every function assigned, the mapping's keys are exactly the kept events' keys |
| FunctionMapping.MappingValues | locustfile.py:103-105 | each mapped key's task is the one its function was assigned to |
| FunctionMapping.MappingForFacts | locustfile.py:76-78 | every kept key is mapped, to the task its function was assigned, and keys sharing a function share a task |
| FunctionMapping.TallyCounts | locustfile.py:110-114 | `final_counts[name]` is the number of sorted events whose key maps to `name` |
| FunctionMapping.LoadCount | locustfile.py:110-114 | counting the events of the functions assigned to a task gives that task's assigned calls |
| FunctionMapping.TalliedIsAssigned | locustfile.py:110-114 | an event is tallied to a task iff its function was assigned to that task |
| FunctionMapping.TallyMatchesPlan | locustfile.py:110-114 | `final_counts[task]` equals `task_current_counts[task]` |
| FunctionMapping.PlanConservesCalls | locustfile.py:47-106 | the sum of `task_current_counts` equals `total_function_count` |
| FunctionMapping.CreateFunctionMapping | locustfile.py:9-128 | the result is the loader's error, or the sorted events with the two-pass mapping; the final tally equals the pass counts |
| FunctionMapping.ScenarioTargets | locustfile.py:46-51 | the example's 160 calls give both tasks a target of 80 |
| FunctionMapping.ScenarioFirstTask | locustfile.py:60-79 | in the example, A skips f1 (100 > 96) and takes f2 |
| FunctionMapping.ScenarioSecondTask | locustfile.py:60-79 | in the example, B skips f1 and takes f3 |
| FunctionMapping.ScenarioScoreA | locustfile.py:89-96 | giving f1 to A leaves a maximum deviation of 0.875 |
| FunctionMapping.ScenarioScoreB | locustfile.py:89-96 | giving f1 to B leaves a maximum deviation of 0.375 |
| FunctionMapping.ScenarioSecondPass | locustfile.py:82-106 | the second pass gives f1 to B |
| FunctionMapping.TwoTaskScenario | locustfile.py:58-106 | counts f1:100, f2:50, f3:10 with equal weights give A = {f2} (50 calls) and B = {f3, f1} (110 calls) |
| PrefixGreedy.SortedTasksOrder | locust.py:48-52 | `sorted_tasks` is a permutation of the tasks, non-increasing in weight, with equal weights in dict order |
| PrefixGreedy.SortedTasksTotal | locust.py:47-52 | sorting the tasks keeps their number and total weight |
| PrefixGreedy.TargetCallsRounds | locust.py:58-59 | `target_calls` is `n * w / W` rounded half up: within one half of it |
| PrefixGreedy.TakeFor | locust.py:61-71 | a task's loop only advances the shared cursor, and never past the end |
| PrefixGreedy.TakeForPrefix | locust.py:61-71 | a task takes the next functions in order, all for itself, and nothing once its budget is met or the functions have run out |
| PrefixGreedy.TakeForReaches | locust.py:61-66 | after a task's loop its calls reach `target_calls`, unless every function is consumed |
| PrefixGreedy.TakeForOvershoot | locust.py:61-66 | before the last function a task took, its calls were below `target_calls`, so the overshoot is at most one function |
| PrefixGreedy.Greedy | locust.py:57-71 | the loop over the tasks only advances the cursor, and never past the end |
| PrefixGreedy.OrderlyStep | locust.py:57-71 | one task's loop keeps the assignments a prefix of the functions, in task order, each to a task with a positive budget |
| PrefixGreedy.GreedyOrderly | locust.py:55-71 | the whole loop keeps that invariant |
| PrefixGreedy.GreedyFor | locust.py:57-71 | the cursor stays within `sorted_funcs` |
| PrefixGreedy.PrefixPicks | locust.py:62-66 | assignments covering a prefix of distinct functions assign no function twice |
| PrefixGreedy.OrderlyPicks | locust.py:55-71 | such assignments match `sorted_funcs[0..cursor)` one for one, their tasks are in `sorted_tasks` order, and each task has a positive budget |
| PrefixGreedy.GreedyPicks | locust.py:55-71 | the mapper assigns exactly `sorted_funcs[0..current_func_idx)`, each once, in task order, and a task with a zero budget gets nothing |
| PrefixGreedy.PrefixMappingKeys | locust.py:69-71 | a key is mapped iff it is a kept key whose function lies in the consumed prefix |
| PrefixGreedy.PrefixMappingValues | locust.py:69-71 | a mapped key's task is the one its function's assignment names |
| PrefixGreedy.GreedyMappingFacts | locust.py:57-71 | `function_mapping` holds exactly the kept keys of consumed functions, each mapped to its function's task, and keys of one function share a task |
| PrefixGreedy.GreedyUnmapped | locust.py:62-71 | functions beyond the cursor never appear in `function_mapping` |
| PrefixGreedy.TakeForLoop | locust.py:61-71 | the `while calls_mapped < target_calls` loop computes the task's progress and writes the mapping its log describes |
| PrefixGreedy.AssignTasks | locust.py:57-71 | the loop over `sorted_tasks` computes the greedy progress and mapping |
| PrefixGreedy.CreateFunctionMapping | locust.py:18-89 | the result is the loader's error, or the sorted events with the prefix-greedy mapping; `task_counts[name]` counts the sorted events mapped to `name` |
| PrefixGreedy.ScenarioGreedy | locust.py:57-71 | with counts f1:100, f2:50, f3:10 and equal weights (budget 80 each), A takes f1 and B takes f2 and f3 |
| Replay.Dispatch | locustfile.py:230-233 | a handler runs iff the event's key is mapped and the task set has a handler of that name; it is the mapped name |
| Replay.NextIndex | locustfile.py:235 | the cursor advances by one and wraps to 0 after the last event |
| Replay.SleepFor | locust.py:175-176 | a sleep happens iff the elapsed time is before the event's start; it is positive and ends exactly at the start |
| Replay.IndexAfterWraps | locustfile.py:235 | `k` steps from `idx` reach `idx + k` within the trace, and `idx + k - len` on the next lap |
| Replay.FullCycle | locustfile.py:235 | after `len` steps the cursor is back where it started |
| Replay.IndexAfterPeriodic | locustfile.py:235 | the cursor's walk repeats with period `len` |
| Replay.InvocationsInOrder | locustfile.py:227-235 | when no handler raises, steps that stay within the trace dispatch its events in order |
| Replay.WrapsToFirst | locustfile.py:235 | when no handler raises, the step after the last event dispatches the first event again |
| Replay.Advance | locust.py:182-191 | one step leaves the cursor on a valid event: in place when the handler raises, else one further |
| Replay.Walk | locust.py:182-191 | any number of steps keeps the cursor on a valid event |
| Replay.CheckoutPinsCursor | locust.py:152 | as written, once the cursor reaches an event mapped to `checkout` it never moves again |
| Replay.NoRaiseWalk | locustfile.py:227-235 | when no handler raises, `k` steps move the cursor `k` events on, with wrap-around |
| Replay.IntendedVisitsAll | locustfile.py:204 | when no handler raises, as intended, every event of the trace is reached within one lap |
| Replay.ReplayUser.OnStart | locustfile.py:170-173 | the cursor starts at the first event |
| Replay.ReplayUser.ExecuteTrace | locustfile.py:218-235 | an exhausted cursor changes nothing; otherwise the current event is dispatched, and the cursor stays when its handler raises and otherwise advances with wrap-around; the step never sleeps |
| Replay.ScheduledUser.OnStart | locust.py:126-128 | the cursor starts at the first event |
| Replay.ScheduledUser.ExecuteTrace | locust.py:166-191 | an exhausted cursor changes nothing; otherwise the step sleeps exactly when ahead of the schedule, then dispatches the event, and the cursor stays when its handler raises and otherwise advances with wrap-around |

## Left out

- Replay.ReplayUser.ExecuteTrace, Replay.ScheduledUser.ExecuteTrace: which handlers raise is the input `raising`, because the handler bodies are not modelled. Locust catching the exception and calling `execute_trace` again is the next call of the method.
- The HTTP task bodies (`index`, `setCurrency`, `browseProduct`, `viewCart`, `addToCart`, `checkout`) are network I/O with `random.choice`. Dispatch is modelled only as the name of the handler that would run.
- Locust's concurrency is left out: `HttpUser`, `TaskSet`, `between`, `@task`, and many users sharing the class-level `trace_data`, `function_mapping` and `global_start_time`. The model has one user's cursor, and the shared data and anchor are immutable inputs.
- `setup_trace_data` is not modelled. It loads the shared data once and reads the clock, and `on_start` calls it. The trace, mapping and anchor are parameters instead.
- `time.time()` and `time.sleep()` are not modelled. The clock reading is a parameter, and the sleep is returned as a value rather than performed.
- Opening the trace file is not modelled. The file is its list of lines, and the hard-coded path and the `IP`/`PORT` environment variables are dropped.
- Python's `float()` is the parameter `parse`, which returns None where `float()` would raise. The exact set of strings it accepts is not modelled.
- Times, targets and deviations are exact reals. IEEE rounding at boundaries such as `1.2*target` or `0.3*target` is not modelled.
- `print` diagnostics and the statistics listeners and file writes are not modelled. Only the tally loop that feeds the diagnostics is.
- histogram.py is not part of this model. It is plotting and summary statistics over logs.
- Python dicts are modelled as follows:
  - `func_counts` and `desired_tasks` are sequences of pairs in insertion order;
  - `task_current_counts` is indexed by task position;
  - `final_counts`/`task_counts` are a `map`, read as 0 when a name is absent, like a `defaultdict(int)`.
- The events of locust.py are 3-tuples `(app, func, start)`. The model keeps the full event record for both versions, so its `sorted_events` carries end time and duration as well.
- FunctionMapping.CreateFunctionMapping: requires at least one task, every weight positive and no task name twice.
  - A dict cannot repeat a name.
  - An empty task dict leaves `best_task = None`.
  - A zero total weight divides by zero.
  - A single zero weight fails only when the second pass has a function left over, by dividing by zero at locustfile.py:94. That partial case is excluded rather than modelled as an error.
- PrefixGreedy.CreateFunctionMapping: requires an empty task list or a positive total weight. A zero total weight over a non-empty task list divides by zero at locust.py:58.
- Where the two versions differ, the model follows the code:
  - The comment at locustfile.py:64 says the first pass takes the "smallest" function that fits. The code takes the first that fits in descending-count order, i.e. the largest (`FirstPass.FirstFitIsLargest`).
  - locustfile.py computes `current_time` in `execute_trace` but never uses it, so that version never waits (`Replay.ReplayUser.ExecuteTrace`).

## Findings

| source | as written | input that shows it | evidently intended | confidence | as-written member | corrected member |
|---|---|---|---|---|---|---|
| locust.py:152 | `checkout` calls the bare name `addToCart(l)`, which no module defines, so it raises NameError before the cursor advances at locust.py:191 | any trace event whose function is mapped to `checkout` | `l.addToCart()`, as locustfile.py:204 writes it, so the cursor moves on | high, not executed | Replay.CheckoutPinsCursor | Replay.IntendedVisitsAll |
