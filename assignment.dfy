/**
 * How a function is bound to a task in both mappers: every `(app, func)`
 * key of a kept event whose function id is `func` is written with the task
 * name (locustfile.py:76-78 and 103-105, locust.py:69-71).
 */
module Assignment {
  import opened Sorting
  import opened Trace

  /** A `function_mapping` key: `(app, func)`. */
  type Key = (string, string)

  type Mapping = map<Key, string>

  function KeyOf(e: Event): Key { (e.app, e.func) }

  /** The keys of the events that call `f`. */
  ghost function KeysOf(es: seq<Event>, f: string): set<Key>
  {
    set e | e in es && e.func == f :: KeyOf(e)
  }

  /** The keys of all events. */
  ghost function AllKeys(es: seq<Event>): set<Key>
  {
    set e | e in es :: KeyOf(e)
  }

  /** The mapping after binding `f` to `task`: those keys now name `task`, nothing else changes. */
  function Assigned(m: Mapping, es: seq<Event>, f: string, task: string): Mapping
  {
    if es == [] then m
    else
      var e := es[|es| - 1];
      var prev := Assigned(m, es[..|es| - 1], f, task);
      if e.func == f then prev[KeyOf(e) := task] else prev
  }

  lemma KeysOfSnoc(es: seq<Event>, e: Event, f: string)
    ensures KeysOf(es + [e], f) == KeysOf(es, f) + (if e.func == f then {KeyOf(e)} else {})
  {
  }

  /** The keys of `f` now name `task`; nothing else changes. */
  lemma {:induction false} AssignedFacts(m: Mapping, es: seq<Event>, f: string, task: string)
    ensures forall k :: k in Assigned(m, es, f, task) <==> k in m || k in KeysOf(es, f)
    ensures forall k | k in Assigned(m, es, f, task) ::
      Assigned(m, es, f, task)[k] == if k in KeysOf(es, f) then task else m[k]
  {
    if es != [] {
      var init := es[..|es| - 1];
      var e := es[|es| - 1];
      assert es == init + [e];
      AssignedFacts(m, init, f, task);
      KeysOfSnoc(init, e, f);
    }
  }

  /** The loop that writes one function's keys. */
  method AssignFunction(m: Mapping, es: seq<Event>, f: string, task: string) returns (r: Mapping)
    ensures r == Assigned(m, es, f, task)
  {
    r := m;
    var i := 0;
    while i < |es|
      invariant 0 <= i <= |es|
      invariant r == Assigned(m, es[..i], f, task)
    {
      var e := es[i];
      assert es[..i + 1] == es[..i] + [e];
      if e.func == f {
        r := r[(e.app, e.func) := task];
      }
      i := i + 1;
    }
    assert es[..i] == es;
  }

  /** The mapping after binding each `(func, task)` of `owners`, in order. */
  ghost function MappingOf(es: seq<Event>, owners: seq<(string, string)>): Mapping
  {
    if owners == [] then map[]
    else
      var last := owners[|owners| - 1];
      Assigned(MappingOf(es, owners[..|owners| - 1]), es, last.0, last.1)
  }

  lemma MappingOfSnoc(es: seq<Event>, owners: seq<(string, string)>, f: string, task: string)
    ensures MappingOf(es, owners + [(f, task)]) == Assigned(MappingOf(es, owners), es, f, task)
  {
    assert (owners + [(f, task)])[..|owners|] == owners;
  }

  /** The functions bound so far. */
  function Bound(owners: seq<(string, string)>): set<string>
  {
    set o | o in owners :: o.0
  }

  /** The task of `f`: the last binding of `f` wins, as with repeated dict writes. */
  function Owner(owners: seq<(string, string)>, f: string): string
    requires f in Bound(owners)
  {
    var last := owners[|owners| - 1];
    if last.0 == f then last.1
    else
      assert owners == owners[..|owners| - 1] + [last];
      Owner(owners[..|owners| - 1], f)
  }

  /**
   * A key is mapped exactly when some event has it and its function is
   * bound; it then names its function's task.  So all keys of one function
   * map to the same task.
   */
  lemma {:induction false} MappingOfFacts(es: seq<Event>, owners: seq<(string, string)>)
    ensures forall k :: k in MappingOf(es, owners) <==> k in AllKeys(es) && k.1 in Bound(owners)
    ensures forall k | k in MappingOf(es, owners) :: MappingOf(es, owners)[k] == Owner(owners, k.1)
  {
    if owners != [] {
      var init := owners[..|owners| - 1];
      var last := owners[|owners| - 1];
      assert owners == init + [last];
      MappingOfFacts(es, init);
      AssignedFacts(MappingOf(es, init), es, last.0, last.1);
      var m := MappingOf(es, owners);
      forall k ensures k in m <==> k in AllKeys(es) && k.1 in Bound(owners) {
        if k in KeysOf(es, last.0) {
          var e :| e in es && e.func == last.0 && KeyOf(e) == k;
        }
        if k in AllKeys(es) && k.1 == last.0 {
          var e :| e in es && KeyOf(e) == k;
          assert k in KeysOf(es, last.0);
        }
      }
      forall k | k in m ensures m[k] == Owner(owners, k.1) {
        if k in KeysOf(es, last.0) {
          var e :| e in es && e.func == last.0 && KeyOf(e) == k;
        } else {
          assert k.1 != last.0;
        }
      }
    }
  }

  /** With each function bound once, its task is the one of its binding. */
  lemma {:induction false} OwnerOfDistinct(owners: seq<(string, string)>, j: nat)
    requires j < |owners|
    requires forall a, b :: 0 <= a < b < |owners| ==> owners[a].0 != owners[b].0
    ensures owners[j].0 in Bound(owners) && Owner(owners, owners[j].0) == owners[j].1
  {
    var n := |owners| - 1;
    if j < n {
      var init := owners[..n];
      OwnerOfDistinct(init, j);
      assert owners[n].0 != owners[j].0;
      assert init[j] == owners[j];
      assert owners[j] in init;
    }
  }
}
