/**
 * The replay step `execute_trace` of `TraceReplayTaskSet`, in both
 * versions.  Each simulated user owns one cursor `current_idx` into the
 * shared `sorted_events`; the events, `function_mapping`, the clock
 * reading and the shared start time `global_start_time` are inputs, the
 * handler names the task set defines (`hasattr`) are a set, and the
 * sleep is returned instead of performed.  The handlers that raise are a
 * set too: when one raises, the assignment to `current_idx` after the call
 * is skipped, and Locust runs `execute_trace` again on the same event.
 */
module Replay {
  import opened Basics
  import opened Trace
  import opened Assignment

  /** What one step does: how long it sleeps first, if at all, and which handler it invokes, if any. */
  datatype Step = Step(sleep: Option<real>, invoked: Option<string>)

  /** The handler run for an event: only when its key is mapped and the task set has a handler of that name. */
  function Dispatch(mapping: Mapping, handlers: set<string>, e: Event): (r: Option<string>)
    ensures r.Some? <==> KeyOf(e) in mapping && mapping[KeyOf(e)] in handlers
    ensures r.Some? ==> r.value == mapping[KeyOf(e)] && r.value in handlers
  {
    if (e.app, e.func) in mapping && mapping[(e.app, e.func)] in handlers then Some(mapping[(e.app, e.func)]) else None
  }

  /** `(current_idx + 1) % len(trace_data)`. */
  function NextIndex(idx: nat, len: nat): (r: nat)
    requires idx < len
    ensures r < len
    ensures idx + 1 < len ==> r == idx + 1
    ensures idx + 1 == len ==> r == 0
  {
    (idx + 1) % len
  }

  /**
   * The sleep of locust.py: `target - now` when `now` is before the
   * event's scheduled start, and none otherwise.
   */
  function SleepFor(now: real, target: real): (r: Option<real>)
    ensures r.Some? <==> now < target
    ensures r.Some? ==> r.value > 0.0 && now + r.value == target
  {
    if now < target then Some(target - now) else None
  }

  /** The cursor stays a valid index, or 0 for an empty trace. */
  predicate InRange(idx: nat, len: nat)
  {
    idx < len || idx == 0
  }

  /** The cursor after `k` steps from `idx`. */
  function IndexAfter(idx: nat, len: nat, k: nat): (r: nat)
    requires idx < len
    ensures r < len
  {
    if k == 0 then idx else NextIndex(IndexAfter(idx, len, k - 1), len)
  }

  /**
   * Stepping wraps around: `k` steps from `idx` reach `idx + k` while that
   * is a valid index, and `idx + k - len` on the next lap.
   */
  lemma {:induction false} IndexAfterWraps(idx: nat, len: nat, k: nat)
    requires idx < len
    ensures idx + k < len ==> IndexAfter(idx, len, k) == idx + k
    ensures len <= idx + k < 2 * len ==> IndexAfter(idx, len, k) == idx + k - len
  {
    if k > 0 {
      IndexAfterWraps(idx, len, k - 1);
    }
  }

  /** After a whole cycle of `len` steps the cursor is back where it started. */
  lemma FullCycle(idx: nat, len: nat)
    requires idx < len
    ensures IndexAfter(idx, len, len) == idx
  {
    IndexAfterWraps(idx, len, len);
  }

  /** The cursor's walk repeats with period `len`. */
  lemma {:induction false} IndexAfterPeriodic(idx: nat, len: nat, k: nat)
    requires idx < len
    ensures IndexAfter(idx, len, k + len) == IndexAfter(idx, len, k)
  {
    if k == 0 {
      FullCycle(idx, len);
    } else {
      IndexAfterPeriodic(idx, len, k - 1);
      assert k + len - 1 == (k - 1) + len;
    }
  }

  /** Where one step leaves the cursor: in place when the handler it invokes raises, else one further. */
  function Advance(trace: seq<Event>, mapping: Mapping, handlers: set<string>, raising: set<string>, idx: nat): (r: nat)
    requires idx < |trace|
    ensures r < |trace|
  {
    var invoked := Dispatch(mapping, handlers, trace[idx]);
    if invoked.Some? && invoked.value in raising then idx else NextIndex(idx, |trace|)
  }

  /** The cursor after `k` steps from `idx`. */
  function Walk(trace: seq<Event>, mapping: Mapping, handlers: set<string>, raising: set<string>, idx: nat, k: nat): (r: nat)
    requires idx < |trace|
    ensures r < |trace|
  {
    if k == 0 then idx else Advance(trace, mapping, handlers, raising, Walk(trace, mapping, handlers, raising, idx, k - 1))
  }

  /**
   * The handlers of locust.py that always raise: its `checkout` calls the
   * bare name `addToCart`, which no module defines (the method of that name
   * belongs to the task set), so the call raises NameError.
   */
  const LocustPyRaising: set<string> := {"checkout"}

  /** No handler raises: locustfile.py, whose `checkout` calls `l.addToCart()`. */
  const NoneRaising: set<string> := {}

  /**
   * As locust.py is written, a user whose cursor reaches an event mapped to
   * `checkout` stays on that event for good.
   */
  lemma {:induction false} CheckoutPinsCursor(trace: seq<Event>, mapping: Mapping, handlers: set<string>, idx: nat, k: nat)
    requires idx < |trace| && Dispatch(mapping, handlers, trace[idx]) == Some("checkout")
    ensures Walk(trace, mapping, handlers, LocustPyRaising, idx, k) == idx
  {
    if k > 0 {
      CheckoutPinsCursor(trace, mapping, handlers, idx, k - 1);
    }
  }

  /** When no handler raises, the cursor walks the trace one event per step. */
  lemma {:induction false} NoRaiseWalk(trace: seq<Event>, mapping: Mapping, handlers: set<string>, idx: nat, k: nat)
    requires idx < |trace|
    ensures Walk(trace, mapping, handlers, NoneRaising, idx, k) == IndexAfter(idx, |trace|, k)
  {
    if k > 0 {
      NoRaiseWalk(trace, mapping, handlers, idx, k - 1);
    }
  }

  /**
   * When no handler raises, every event of the trace is reached within
   * one lap, whatever the mapping.
   */
  lemma IntendedVisitsAll(trace: seq<Event>, mapping: Mapping, handlers: set<string>, idx: nat, j: nat)
    requires idx < |trace| && j < |trace|
    ensures Walk(trace, mapping, handlers, NoneRaising, idx, if idx <= j then j - idx else j + |trace| - idx) == j
  {
    var k := if idx <= j then j - idx else j + |trace| - idx;
    NoRaiseWalk(trace, mapping, handlers, idx, k);
    IndexAfterWraps(idx, |trace|, k);
  }

  /** The handlers invoked by `k` steps from `idx`, in order, when none raises. */
  function Invocations(trace: seq<Event>, mapping: Mapping, handlers: set<string>, idx: nat, k: nat): (r: seq<Option<string>>)
    requires idx < |trace|
    ensures |r| == k
    decreases k
  {
    if k == 0 then []
    else [Dispatch(mapping, handlers, trace[idx])] + Invocations(trace, mapping, handlers, NextIndex(idx, |trace|), k - 1)
  }

  /** Steps that do not reach the end of the trace dispatch its events in order. */
  lemma {:induction false} InvocationsInOrder(trace: seq<Event>, mapping: Mapping, handlers: set<string>, idx: nat, k: nat)
    requires idx < |trace| && idx + k <= |trace|
    ensures forall j | 0 <= j < k :: Invocations(trace, mapping, handlers, idx, k)[j] == Dispatch(mapping, handlers, trace[idx + j])
    decreases k
  {
    if k > 0 {
      var rest := Invocations(trace, mapping, handlers, NextIndex(idx, |trace|), k - 1);
      if k > 1 {
        InvocationsInOrder(trace, mapping, handlers, idx + 1, k - 1);
      }
      forall j | 0 <= j < k
        ensures Invocations(trace, mapping, handlers, idx, k)[j] == Dispatch(mapping, handlers, trace[idx + j])
      {
        if j > 0 {
          assert Invocations(trace, mapping, handlers, idx, k)[j] == rest[j - 1];
        }
      }
    }
  }

  /** The step after the last event dispatches the first event again. */
  lemma WrapsToFirst(trace: seq<Event>, mapping: Mapping, handlers: set<string>)
    requires trace != []
    ensures Invocations(trace, mapping, handlers, |trace| - 1, 2)
         == [Dispatch(mapping, handlers, trace[|trace| - 1]), Dispatch(mapping, handlers, trace[0])]
  {
    assert NextIndex(|trace| - 1, |trace|) == 0;
  }

  /** One user of the locustfile.py task set: it replays the trace as fast as it is scheduled and never waits. */
  class ReplayUser {
    var currentIdx: nat

    /** `on_start`: the cursor starts at the first event. */
    constructor OnStart()
      ensures currentIdx == 0
    {
      currentIdx := 0;
    }

    /**
     * `execute_trace`: an exhausted cursor (only possible for an empty
     * trace) changes nothing; otherwise the current event is dispatched
     * and, unless its handler raises, the cursor advances, wrapping to 0
     * after the last event.
     */
    method ExecuteTrace(trace: seq<Event>, mapping: Mapping, handlers: set<string>, raising: set<string>)
      returns (step: Step)
      requires InRange(currentIdx, |trace|)
      modifies this
      ensures InRange(currentIdx, |trace|)
      ensures step.sleep == None
      ensures old(currentIdx) >= |trace| ==> currentIdx == old(currentIdx) && step.invoked == None
      ensures old(currentIdx) < |trace| ==>
        step.invoked == Dispatch(mapping, handlers, trace[old(currentIdx)]) &&
        currentIdx == Advance(trace, mapping, handlers, raising, old(currentIdx)) &&
        (step.invoked.Some? && step.invoked.value in raising ==> currentIdx == old(currentIdx)) &&
        (step.invoked.None? || step.invoked.value !in raising ==> currentIdx == NextIndex(old(currentIdx), |trace|))
    {
      if currentIdx >= |trace| {
        return Step(None, None);
      }
      var e := trace[currentIdx];
      var invoked := None;
      if (e.app, e.func) in mapping {
        var taskName := mapping[(e.app, e.func)];
        if taskName in handlers {
          invoked := Some(taskName);
          if taskName in raising {
            return Step(None, invoked);
          }
        }
      }
      currentIdx := (currentIdx + 1) % |trace|;
      step := Step(None, invoked);
    }
  }

  /**
   * One user of the locust.py task set: before each event it waits until
   * the event's start time, measured from the shared `global_start_time`.
   */
  class ScheduledUser {
    var currentIdx: nat

    /** `on_start`: the cursor starts at the first event. */
    constructor OnStart()
      ensures currentIdx == 0
    {
      currentIdx := 0;
    }

    /**
     * `execute_trace`: an exhausted cursor changes nothing; otherwise it
     * sleeps only when ahead of the schedule, dispatches the event and,
     * unless its handler raises, advances the cursor, wrapping to 0 after
     * the last event.
     */
    method ExecuteTrace(trace: seq<Event>, mapping: Mapping, handlers: set<string>, raising: set<string>,
                        clock: real, globalStart: real)
      returns (step: Step)
      requires InRange(currentIdx, |trace|)
      modifies this
      ensures InRange(currentIdx, |trace|)
      ensures old(currentIdx) >= |trace| ==> currentIdx == old(currentIdx) && step == Step(None, None)
      ensures old(currentIdx) < |trace| ==>
        step.sleep == SleepFor(clock - globalStart, trace[old(currentIdx)].start) &&
        step.invoked == Dispatch(mapping, handlers, trace[old(currentIdx)]) &&
        currentIdx == Advance(trace, mapping, handlers, raising, old(currentIdx)) &&
        (step.invoked.Some? && step.invoked.value in raising ==> currentIdx == old(currentIdx)) &&
        (step.invoked.None? || step.invoked.value !in raising ==> currentIdx == NextIndex(old(currentIdx), |trace|))
    {
      if currentIdx >= |trace| {
        return Step(None, None);
      }
      var currentTime := clock - globalStart;
      var e := trace[currentIdx];
      var sleep := None;
      if currentTime < e.start {
        sleep := Some(e.start - currentTime);
      }
      var invoked := None;
      if (e.app, e.func) in mapping {
        var taskName := mapping[(e.app, e.func)];
        if taskName in handlers {
          invoked := Some(taskName);
          if taskName in raising {
            return Step(sleep, invoked);
          }
        }
      }
      currentIdx := (currentIdx + 1) % |trace|;
      step := Step(sleep, invoked);
    }
  }
}
