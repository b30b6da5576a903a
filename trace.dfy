/**
 * The trace loader shared by both mappers (locustfile.py:20-43 and
 * locust.py:24-45): a header line is skipped, every other line is stripped,
 * split on ',' into exactly four fields, its two numbers parsed, and the
 * event kept when its end time is inside the window.  Calls are counted per
 * function id, and a Python dict remembers the order in which function ids
 * first appeared.
 */
module Trace {
  import opened Basics
  import opened Sorting

  /** One traced invocation; `start` is always `end - duration`. */
  datatype Event = Event(app: string, func: string, start: real, end: real, duration: real)

  /** Why loading aborted (Python raises and nothing is returned). */
  datatype LoadError =
    | MissingHeader                      // `next(f)` on an empty file
    | FieldCount(line: nat, fields: nat) // unpacking into four names failed
    | BadNumber(line: nat, text: string) // `float(...)` failed

  /** A function id with its number of kept calls: one item of `func_counts.items()`. */
  type FuncCount = (string, nat)

  /** What `str.isspace` accepts, the characters `str.strip()` removes. */
  predicate IsSpace(c: char)
  {
    || ('\t' <= c <= '\r')
    || ('\U{1C}' <= c <= ' ')
    || c == '\U{85}' || c == '\U{A0}' || c == '\U{1680}'
    || ('\U{2000}' <= c <= '\U{200A}')
    || c == '\U{2028}' || c == '\U{2029}' || c == '\U{202F}' || c == '\U{205F}' || c == '\U{3000}'
  }

  function DropLeading(s: string): string
  {
    if s != [] && IsSpace(s[0]) then DropLeading(s[1..]) else s
  }

  function DropTrailing(s: string): string
  {
    if s != [] && IsSpace(s[|s| - 1]) then DropTrailing(s[..|s| - 1]) else s
  }

  /** Python's `str.strip()`: the infix left after removing outer white space. */
  function Strip(s: string): string
  {
    DropTrailing(DropLeading(s))
  }

  lemma {:induction false} DropLeadingFacts(s: string)
    ensures var r := DropLeading(s);
      && |r| <= |s| && r == s[|s| - |r|..]
      && (forall k :: 0 <= k < |s| - |r| ==> IsSpace(s[k]))
      && (r == [] || !IsSpace(r[0]))
  {
    if s != [] && IsSpace(s[0]) {
      var t := s[1..];
      DropLeadingFacts(t);
      var r := DropLeading(t);
      assert t[|t| - |r|..] == s[|s| - |r|..];
      forall k | 0 <= k < |s| - |r| ensures IsSpace(s[k]) {
        if k > 0 {
          assert s[k] == t[k - 1];
        }
      }
    }
  }

  lemma {:induction false} DropTrailingFacts(s: string)
    ensures var r := DropTrailing(s);
      && |r| <= |s| && r == s[..|r|]
      && (forall k :: |r| <= k < |s| ==> IsSpace(s[k]))
      && (r == [] || !IsSpace(r[|r| - 1]))
  {
    if s != [] && IsSpace(s[|s| - 1]) {
      DropTrailingFacts(s[..|s| - 1]);
    }
  }

  /**
   * `Strip(s)` is the infix `s[i..j]` of `s` such that everything outside it
   * is white space and it neither starts nor ends with white space.
   */
  lemma StripFacts(s: string)
    ensures exists i, j :: 0 <= i <= j <= |s| && Strip(s) == s[i..j]
              && (forall k :: 0 <= k < i ==> IsSpace(s[k]))
              && (forall k :: j <= k < |s| ==> IsSpace(s[k]))
    ensures Strip(s) != [] ==> !IsSpace(Strip(s)[0]) && !IsSpace(Strip(s)[|Strip(s)| - 1])
  {
    var l := DropLeading(s);
    DropLeadingFacts(s);
    DropTrailingFacts(l);
    var i := |s| - |l|;
    var j := i + |Strip(s)|;
    assert Strip(s) == s[i..j];
    forall k | j <= k < |s| ensures IsSpace(s[k]) {
      assert s[k] == l[k - i];
    }
  }

  /** Python's `str.split(sep)`: the pieces between separators, always at least one. */
  function Split(s: string, sep: char): (r: seq<string>)
    ensures |r| >= 1
  {
    if s == [] then [[]]
    else
      var rest := Split(s[1..], sep);
      if s[0] == sep then [[]] + rest
      else [[s[0]] + rest[0]] + rest[1..]
  }

  /** No piece contains the separator. */
  lemma {:induction false} SplitPieces(s: string, sep: char)
    ensures forall i :: 0 <= i < |Split(s, sep)| ==> sep !in Split(s, sep)[i]
  {
    if s != [] {
      SplitPieces(s[1..], sep);
    }
  }

  /** `sep.join(parts)`, the inverse of `Split`. */
  function Join(parts: seq<string>, sep: char): string
    requires |parts| >= 1
  {
    if |parts| == 1 then parts[0] else parts[0] + [sep] + Join(parts[1..], sep)
  }

  lemma {:induction false} JoinSplit(s: string, sep: char)
    ensures Join(Split(s, sep), sep) == s
  {
    if s != [] {
      JoinSplit(s[1..], sep);
      var rest := Split(s[1..], sep);
      if s[0] == sep {
        assert ([[]] + rest)[1..] == rest;
      } else if |rest| == 1 {
      } else {
        assert ([[s[0]] + rest[0]] + rest[1..])[1..] == rest[1..];
        assert Join(rest, sep) == rest[0] + [sep] + Join(rest[1..], sep);
      }
    }
  }

  /** The number of fields is one more than the number of separators. */
  lemma {:induction false} SplitCount(s: string, sep: char)
    ensures |Split(s, sep)| == multiset(s)[sep] + 1
  {
    if s != [] {
      SplitCount(s[1..], sep);
      assert s == [s[0]] + s[1..];
    }
  }

  lemma {:induction false} SplitPrefix(w: string, s: string, sep: char)
    requires sep !in w
    ensures Split(w + s, sep) == [w + Split(s, sep)[0]] + Split(s, sep)[1..]
  {
    if w != [] {
      var t := Split(s, sep);
      SplitPrefix(w[1..], s, sep);
      assert w[0] in w;
      var ws := w + s;
      assert ws[0] == w[0] && ws[0] != sep && ws[1..] == w[1..] + s;
      var rest := Split(ws[1..], sep);
      assert rest == [w[1..] + t[0]] + t[1..];
      assert Split(ws, sep) == [[ws[0]] + rest[0]] + rest[1..];
      assert [w[0]] + (w[1..] + t[0]) == w + t[0];
    } else {
      var t := Split(s, sep);
      assert w + s == s && w + t[0] == t[0];
      assert t == [t[0]] + t[1..];
    }
  }

  lemma {:induction false} SplitJoin(parts: seq<string>, sep: char)
    requires |parts| >= 1
    requires forall i :: 0 <= i < |parts| ==> sep !in parts[i]
    ensures Split(Join(parts, sep), sep) == parts
  {
    if |parts| == 1 {
      SplitPrefix(parts[0], [], sep);
      assert parts[0] + [] == parts[0];
    } else {
      SplitJoin(parts[1..], sep);
      var j := Join(parts[1..], sep);
      var tail := [sep] + j;
      assert Join(parts, sep) == parts[0] + tail;
      SplitPrefix(parts[0], tail, sep);
      assert tail[0] == sep && tail[1..] == j;
      assert Split(tail, sep) == [[]] + Split(j, sep);
      assert parts[0] + [] == parts[0];
      assert parts == [parts[0]] + parts[1..];
    }
  }

  /**
   * One data line (line number `lineNo` of the file).  `parse` stands for
   * Python's `float()`: None where it would raise.
   */
  function ParseLine(line: string, lineNo: nat, parse: string -> Option<real>): (r: Result<Event, LoadError>)
    ensures r.Ok? ==> r.value.start == r.value.end - r.value.duration
  {
    var fields := Split(Strip(line), ',');
    if |fields| != 4 then Err(FieldCount(lineNo, |fields|))
    else match parse(fields[2])
      case None => Err(BadNumber(lineNo, fields[2]))
      case Some(end) =>
        match parse(fields[3])
        case None => Err(BadNumber(lineNo, fields[3]))
        case Some(duration) => Ok(Event(fields[0], fields[1], end - duration, end, duration))
  }

  /** Exactly the lines with four fields can be accepted; ids never hold the separator. */
  lemma ParseLineFields(line: string, lineNo: nat, parse: string -> Option<real>)
    ensures ParseLine(line, lineNo, parse).Ok? ==>
              |Split(Strip(line), ',')| == 4 &&
              ',' !in ParseLine(line, lineNo, parse).value.app &&
              ',' !in ParseLine(line, lineNo, parse).value.func
    ensures |Split(Strip(line), ',')| != 4 ==>
              ParseLine(line, lineNo, parse) == Err(FieldCount(lineNo, |Split(Strip(line), ',')|))
  {
    SplitPieces(Strip(line), ',');
  }

  /** A well-formed line is read back field for field. */
  lemma ParseLineOfFields(line: string, lineNo: nat, parse: string -> Option<real>,
                          app: string, func: string, endText: string, durText: string)
    requires Strip(line) == Join([app, func, endText, durText], ',')
    requires ',' !in app && ',' !in func && ',' !in endText && ',' !in durText
    requires parse(endText).Some? && parse(durText).Some?
    ensures ParseLine(line, lineNo, parse)
         == Ok(Event(app, func, parse(endText).value - parse(durText).value,
                     parse(endText).value, parse(durText).value))
  {
    SplitJoin([app, func, endText, durText], ',');
  }

  /** A line with three fields aborts loading with a field-count error. */
  lemma ThreeFieldsRejected(line: string, lineNo: nat, parse: string -> Option<real>,
                            a: string, b: string, c: string)
    requires Strip(line) == Join([a, b, c], ',')
    requires ',' !in a && ',' !in b && ',' !in c
    ensures ParseLine(line, lineNo, parse) == Err(FieldCount(lineNo, 3))
  {
    SplitJoin([a, b, c], ',');
  }

  /** Every data line's outcome; `lines[k]` is line `k + 2` of the file (line 1 is the header). */
  function ParseAll(lines: seq<string>, parse: string -> Option<real>): (r: seq<Result<Event, LoadError>>)
    ensures |r| == |lines|
  {
    seq(|lines|, k requires 0 <= k < |lines| => ParseLine(lines[k], k + 2, parse))
  }

  /** Reading stops at the first failing line: its error is the result. */
  function Collect<T, E>(rs: seq<Result<T, E>>): Result<seq<T>, E>
  {
    if rs == [] then Ok([])
    else match Collect(rs[..|rs| - 1])
      case Err(e) => Err(e)
      case Ok(vs) =>
        match rs[|rs| - 1]
        case Err(e) => Err(e)
        case Ok(v) => Ok(vs + [v])
  }

  lemma CollectStep<T, E>(rs: seq<Result<T, E>>, n: nat)
    requires n < |rs|
    ensures Collect(rs[..n + 1])
         == match Collect(rs[..n])
            case Err(e) => Err(e)
            case Ok(vs) =>
              match rs[n]
              case Err(e) => Err(e)
              case Ok(v) => Ok(vs + [v])
  {
    assert rs[..n + 1][..n] == rs[..n];
  }

  /** Collecting succeeds exactly when every outcome is a success. */
  lemma {:induction false} CollectOk<T, E>(rs: seq<Result<T, E>>)
    ensures Collect(rs).Ok? <==> forall k :: 0 <= k < |rs| ==> rs[k].Ok?
  {
    if rs != [] {
      var n := |rs| - 1;
      CollectOk(rs[..n]);
      assert forall k :: 0 <= k < n ==> rs[..n][k] == rs[k];
    }
  }

  /** A successful collection holds every value, in order. */
  lemma {:induction false} CollectValues<T, E>(rs: seq<Result<T, E>>)
    requires Collect(rs).Ok?
    ensures |Collect(rs).value| == |rs|
    ensures forall k :: 0 <= k < |rs| ==> rs[k] == Ok(Collect(rs).value[k])
  {
    if rs != [] {
      var n := |rs| - 1;
      CollectValues(rs[..n]);
      assert forall k :: 0 <= k < n ==> rs[..n][k] == rs[k];
    }
  }

  /** Every collected value was a success in the input. */
  lemma CollectMembers<T, E>(rs: seq<Result<T, E>>)
    ensures Collect(rs).Ok? ==> forall v | v in Collect(rs).value :: Ok(v) in rs
  {
    if Collect(rs).Ok? {
      CollectValues(rs);
      forall v | v in Collect(rs).value ensures Ok(v) in rs {
        var k :| 0 <= k < |Collect(rs).value| && Collect(rs).value[k] == v;
        assert rs[k] == Ok(v);
      }
    }
  }

  /** An error in a prefix is the error of the whole. */
  lemma {:induction false} CollectPrefixErr<T, E>(rs: seq<Result<T, E>>, n: nat)
    requires n <= |rs|
    requires Collect(rs[..n]).Err?
    ensures Collect(rs) == Collect(rs[..n])
    decreases |rs| - n
  {
    if n < |rs| {
      CollectStep(rs, n);
      CollectPrefixErr(rs, n + 1);
    } else {
      assert rs[..n] == rs;
    }
  }

  /** The first failing line (in file order) decides the error. */
  lemma {:induction false} CollectFirstErr<T, E>(rs: seq<Result<T, E>>, n: nat)
    requires n < |rs| && rs[n].Err?
    requires forall k :: 0 <= k < n ==> rs[k].Ok?
    ensures Collect(rs) == Err(rs[n].error)
  {
    CollectOk(rs[..n]);
    assert forall k :: 0 <= k < n ==> rs[..n][k] == rs[k];
    CollectStep(rs, n);
    CollectPrefixErr(rs, n + 1);
  }

  /** The events kept by the window `end_time <= window`, in file order. */
  function Kept(es: seq<Event>, window: real): (r: seq<Event>)
    ensures forall e :: e in r <==> e in es && e.end <= window
  {
    if es == [] then []
    else
      var init := Kept(es[..|es| - 1], window);
      var e := es[|es| - 1];
      assert es == es[..|es| - 1] + [e];
      if e.end <= window then init + [e] else init
  }

  lemma KeptSnoc(es: seq<Event>, e: Event, window: real)
    ensures Kept(es + [e], window) == if e.end <= window then Kept(es, window) + [e] else Kept(es, window)
  {
    assert (es + [e])[..|es|] == es;
  }

  /** The function id of every event, in order. */
  function Funcs(es: seq<Event>): (r: seq<string>)
    ensures |r| == |es| && forall i :: 0 <= i < |es| ==> r[i] == es[i].func
  {
    seq(|es|, i requires 0 <= i < |es| => es[i].func)
  }

  lemma FuncsSnoc(es: seq<Event>, e: Event)
    ensures Funcs(es + [e]) == Funcs(es) + [e.func]
  {
  }

  /** The number of events that call `f`. */
  function CountOf(es: seq<Event>, f: string): nat
  {
    multiset(Funcs(es))[f]
  }

  lemma CountOfSnoc(es: seq<Event>, e: Event, g: string)
    ensures CountOf(es + [e], g) == CountOf(es, g) + (if g == e.func then 1 else 0)
  {
    FuncsSnoc(es, e);
  }

  /** The events that call `f`. */
  function Calls(f: string): Event -> bool
  {
    (e: Event) => e.func == f
  }

  lemma {:induction false} CountOfWhere(es: seq<Event>, f: string)
    ensures CountWhere(es, Calls(f)) == CountOf(es, f)
  {
    if es != [] {
      CountOfWhere(es[1..], f);
      assert Funcs(es) == [es[0].func] + Funcs(es[1..]);
    }
  }

  /** The distinct function ids in order of first appearance. */
  function FuncOrder(es: seq<Event>): seq<string>
  {
    if es == [] then []
    else
      var init := FuncOrder(es[..|es| - 1]);
      var f := es[|es| - 1].func;
      if f in init then init else init + [f]
  }

  lemma FuncOrderSnoc(es: seq<Event>, e: Event)
    ensures FuncOrder(es + [e]) == if e.func in FuncOrder(es) then FuncOrder(es) else FuncOrder(es) + [e.func]
  {
    assert (es + [e])[..|es|] == es;
  }

  /** First-appearance order lists each function id of the events exactly once. */
  lemma {:induction false} FuncOrderFacts(es: seq<Event>)
    ensures forall f :: f in FuncOrder(es) <==> f in Funcs(es)
    ensures forall i, j :: 0 <= i < j < |FuncOrder(es)| ==> FuncOrder(es)[i] != FuncOrder(es)[j]
  {
    if es != [] {
      var init := es[..|es| - 1];
      var e := es[|es| - 1];
      FuncOrderFacts(init);
      assert es == init + [e];
      FuncsSnoc(init, e);
    }
  }

  /** A Python dict from function id to count: its items in insertion order. */
  type Dict = seq<FuncCount>

  function Keys(d: Dict): (r: seq<string>)
    ensures |r| == |d| && forall i :: 0 <= i < |d| ==> r[i] == d[i].0
  {
    seq(|d|, i requires 0 <= i < |d| => d[i].0)
  }

  ghost predicate DistinctKeys(d: Dict)
  {
    forall i, j :: 0 <= i < j < |d| ==> d[i].0 != d[j].0
  }

  /** `d.get(f, 0)`. */
  function Get(d: Dict, f: string): nat
  {
    if d == [] then 0 else if d[0].0 == f then d[0].1 else Get(d[1..], f)
  }

  /** `d[f] = v`: an existing key keeps its place, a new key goes last. */
  function Put(d: Dict, f: string, v: nat): Dict
  {
    if d == [] then [(f, v)]
    else if d[0].0 == f then [(f, v)] + d[1..]
    else [d[0]] + Put(d[1..], f, v)
  }

  lemma {:induction false} GetPut(d: Dict, f: string, v: nat, g: string)
    ensures Get(Put(d, f, v), g) == if g == f then v else Get(d, g)
  {
    if d != [] && d[0].0 != f {
      GetPut(d[1..], f, v, g);
      assert ([d[0]] + Put(d[1..], f, v))[1..] == Put(d[1..], f, v);
    } else if d != [] {
      assert ([(f, v)] + d[1..])[1..] == d[1..];
    }
  }

  lemma {:induction false} PutKeys(d: Dict, f: string, v: nat)
    ensures Keys(Put(d, f, v)) == if f in Keys(d) then Keys(d) else Keys(d) + [f]
  {
    if d != [] {
      PutKeys(d[1..], f, v);
      assert Keys(d) == [d[0].0] + Keys(d[1..]);
      if d[0].0 != f {
        assert Keys(Put(d, f, v)) == [d[0].0] + Keys(Put(d[1..], f, v));
      }
    }
  }

  /** With distinct keys, every item is what `get` finds. */
  lemma {:induction false} GetAt(d: Dict, i: nat)
    requires DistinctKeys(d) && i < |d|
    ensures Get(d, d[i].0) == d[i].1
  {
    if i > 0 {
      assert DistinctKeys(d[1..]) by {
        forall a, b | 0 <= a < b < |d[1..]| ensures d[1..][a].0 != d[1..][b].0 {
          assert d[1..][a] == d[a + 1] && d[1..][b] == d[b + 1];
        }
      }
      GetAt(d[1..], i - 1);
    }
  }

  /** The sum of the counts, `sum(func_counts.values())`. */
  function Total(fcs: seq<FuncCount>): nat
  {
    if fcs == [] then 0 else fcs[0].1 + Total(fcs[1..])
  }

  lemma {:induction false} TotalPut(d: Dict, f: string)
    ensures Total(Put(d, f, Get(d, f) + 1)) == Total(d) + 1
  {
    if d != [] && d[0].0 != f {
      TotalPut(d[1..], f);
      assert ([d[0]] + Put(d[1..], f, Get(d, f) + 1))[1..] == Put(d[1..], f, Get(d, f) + 1);
    } else if d != [] {
      assert ([(f, Get(d, f) + 1)] + d[1..])[1..] == d[1..];
    }
  }

  /** `func_counts` as the loop builds it: `func_counts.get(func, 0) + 1` per kept event. */
  function CountsOf(es: seq<Event>): Dict
  {
    if es == [] then []
    else
      var d := CountsOf(es[..|es| - 1]);
      var f := es[|es| - 1].func;
      Put(d, f, Get(d, f) + 1)
  }

  lemma CountsOfSnoc(es: seq<Event>, e: Event)
    ensures CountsOf(es + [e]) == Put(CountsOf(es), e.func, Get(CountsOf(es), e.func) + 1)
  {
    assert (es + [e])[..|es|] == es;
  }

  /** The dict's keys are the ids in first-appearance order and its values the true counts. */
  lemma {:induction false} CountsOfCorrect(es: seq<Event>)
    ensures Keys(CountsOf(es)) == FuncOrder(es)
    ensures forall f :: Get(CountsOf(es), f) == CountOf(es, f)
  {
    if es != [] {
      var init := es[..|es| - 1];
      var e := es[|es| - 1];
      assert es == init + [e];
      CountsOfCorrect(init);
      CountsOfSnoc(init, e);
      FuncOrderSnoc(init, e);
      var d := CountsOf(init);
      PutKeys(d, e.func, Get(d, e.func) + 1);
      forall g ensures Get(CountsOf(es), g) == CountOf(es, g) {
        GetPut(d, e.func, Get(d, e.func) + 1, g);
        CountOfSnoc(init, e, g);
      }
    }
  }

  /** Every item of the dict: distinct ids, each with its count, covering all called ids. */
  lemma CountsOfItems(es: seq<Event>)
    ensures DistinctKeys(CountsOf(es))
    ensures forall i :: 0 <= i < |CountsOf(es)| ==> CountsOf(es)[i].1 == CountOf(es, CountsOf(es)[i].0)
    ensures forall f :: f in Keys(CountsOf(es)) <==> f in Funcs(es)
  {
    var d := CountsOf(es);
    CountsOfCorrect(es);
    FuncOrderFacts(es);
    forall i | 0 <= i < |d| ensures d[i].1 == CountOf(es, d[i].0) {
      GetAt(d, i);
    }
  }

  /** Conservation: the counts add up to the number of kept events. */
  lemma {:induction false} CountsTotal(es: seq<Event>)
    ensures Total(CountsOf(es)) == |es|
  {
    if es != [] {
      var init := es[..|es| - 1];
      var e := es[|es| - 1];
      assert es == init + [e];
      CountsTotal(init);
      CountsOfSnoc(init, e);
      TotalPut(CountsOf(init), e.func);
    }
  }

  lemma {:induction false} TotalInsert(x: FuncCount, s: seq<FuncCount>, key: FuncCount -> real)
    ensures Total(Insert(x, s, key)) == x.1 + Total(s)
    decreases |s|
  {
    if s != [] && key(s[0]) < key(x) {
      TotalInsert(x, s[1..], key);
      assert ([s[0]] + Insert(x, s[1..], key))[1..] == Insert(x, s[1..], key);
    } else if s != [] {
      assert ([x] + s)[1..] == s;
    }
  }

  lemma {:induction false} TotalSort(s: seq<FuncCount>, key: FuncCount -> real)
    ensures Total(StableSort(s, key)) == Total(s)
  {
    if s != [] {
      TotalSort(s[1..], key);
      TotalInsert(s[0], StableSort(s[1..], key), key);
    }
  }

  function FuncName(fc: FuncCount): string { fc.0 }

  /** Sort key of `sorted(..., key=lambda x: x[2])` on events. */
  function ByStart(e: Event): real { e.start }

  /** Sort key of `sorted(..., key=lambda x: x[1], reverse=True)`, negated. */
  function ByCountDescending(fc: FuncCount): real { -(fc.1 as real) }

  /** `sorted_events`. */
  function SortedEvents(es: seq<Event>): seq<Event>
  {
    StableSort(es, ByStart)
  }

  /** `sorted_funcs`, from the dict items of the kept events. */
  function SortedFuncs(es: seq<Event>): seq<FuncCount>
  {
    StableSort(CountsOf(es), ByCountDescending)
  }

  /**
   * `sorted_funcs` is a permutation of the dict items, by count descending,
   * with equal counts in dict order and no function id twice.
   */
  lemma SortedFuncsOrder(es: seq<Event>)
    ensures multiset(SortedFuncs(es)) == multiset(CountsOf(es))
    ensures SortedBy(SortedFuncs(es), ByCountDescending)
    ensures forall c :: KeyClass(SortedFuncs(es), ByCountDescending, c) == KeyClass(CountsOf(es), ByCountDescending, c)
    ensures DistinctBy(SortedFuncs(es), FuncName)
  {
    var d := CountsOf(es);
    StableSortSorted(d, ByCountDescending);
    forall c ensures KeyClass(SortedFuncs(es), ByCountDescending, c) == KeyClass(d, ByCountDescending, c) {
      StableSortStable(d, ByCountDescending, c);
    }
    CountsOfItems(es);
    assert DistinctBy(d, FuncName) by {
      forall i, j | 0 <= i < |d| && 0 <= j < |d| && i != j ensures FuncName(d[i]) != FuncName(d[j]) {
        if i > j { assert d[j].0 != d[i].0; }
      }
    }
    StableSortDistinct(d, ByCountDescending, FuncName);
  }

  /**
   * The counts in `sorted_funcs` are the true counts of every called id and
   * add up to the number of kept events.
   */
  lemma SortedFuncsCounts(es: seq<Event>)
    ensures Total(SortedFuncs(es)) == |es|
    ensures forall fc | fc in SortedFuncs(es) :: fc.1 == CountOf(es, fc.0) && fc.0 in Funcs(es)
    ensures forall f | f in Funcs(es) :: exists fc :: fc in SortedFuncs(es) && fc.0 == f
  {
    var d := CountsOf(es);
    StableSortSorted(d, ByCountDescending);
    CountsOfItems(es);
    CountsTotal(es);
    TotalSort(d, ByCountDescending);
    forall fc | fc in SortedFuncs(es) ensures fc.1 == CountOf(es, fc.0) && fc.0 in Funcs(es) {
      assert fc in multiset(d);
      var i :| 0 <= i < |d| && d[i] == fc;
      assert Keys(d)[i] == fc.0;
    }
    forall f | f in Funcs(es) ensures exists fc :: fc in SortedFuncs(es) && fc.0 == f {
      var i :| 0 <= i < |d| && Keys(d)[i] == f;
      assert d[i] in multiset(SortedFuncs(es));
    }
  }

  /** `sorted_events`: the kept events ordered by start time, ties in file order. */
  lemma SortedEventsFacts(es: seq<Event>)
    ensures multiset(SortedEvents(es)) == multiset(es)
    ensures forall i, j :: 0 <= i < j < |SortedEvents(es)| ==> SortedEvents(es)[i].start <= SortedEvents(es)[j].start
    ensures forall t :: KeyClass(SortedEvents(es), ByStart, t) == KeyClass(es, ByStart, t)
  {
    StableSortSorted(es, ByStart);
    forall t ensures KeyClass(SortedEvents(es), ByStart, t) == KeyClass(es, ByStart, t) {
      StableSortStable(es, ByStart, t);
    }
  }

  /** What a successful load yields: the kept events and `func_counts`. */
  datatype Loaded = Loaded(events: seq<Event>, counts: Dict)

  /** The loader as a whole; `window` is 4000 in locustfile.py and 1000 in locust.py. */
  function LoadSpec(lines: seq<string>, parse: string -> Option<real>, window: real): Result<Loaded, LoadError>
  {
    if lines == [] then Err(MissingHeader)
    else LoadBody(ParseAll(lines[1..], parse), window)
  }

  /** The lines after the header, parsed: the first error aborts, otherwise the kept events and their counts. */
  function LoadBody(rs: seq<Result<Event, LoadError>>, window: real): Result<Loaded, LoadError>
  {
    match Collect(rs)
    case Err(e) => Err(e)
    case Ok(es) =>
      var kept := Kept(es, window);
      Ok(Loaded(kept, CountsOf(kept)))
  }

  /** The events kept after reading the first `n` outcomes, all of them successes. */
  function KeptPrefix(rs: seq<Result<Event, LoadError>>, n: nat, window: real): seq<Event>
    requires n <= |rs| && Collect(rs[..n]).Ok?
  {
    Kept(Collect(rs[..n]).value, window)
  }

  /** One more successful line extends the kept events by its event when inside the window. */
  lemma KeptPrefixStep(rs: seq<Result<Event, LoadError>>, n: nat, window: real)
    requires n < |rs| && Collect(rs[..n]).Ok? && rs[n].Ok?
    ensures Collect(rs[..n + 1]).Ok?
    ensures KeptPrefix(rs, n + 1, window)
         == if rs[n].value.end <= window then KeptPrefix(rs, n, window) + [rs[n].value]
            else KeptPrefix(rs, n, window)
  {
    CollectStep(rs, n);
    KeptSnoc(Collect(rs[..n]).value, rs[n].value, window);
  }

  /** One successfully parsed line: kept when inside the window, skipped otherwise. */
  lemma LoadStep(rs: seq<Result<Event, LoadError>>, i: nat, window: real, events: seq<Event>)
    requires i < |rs| && Collect(rs[..i]).Ok? && rs[i].Ok?
    requires events == KeptPrefix(rs, i, window)
    ensures Collect(rs[..i + 1]).Ok?
    ensures rs[i].value.end <= window ==> KeptPrefix(rs, i + 1, window) == events + [rs[i].value]
    ensures rs[i].value.end > window ==> KeptPrefix(rs, i + 1, window) == events
  {
    KeptPrefixStep(rs, i, window);
  }

  /** The first line that fails to parse aborts the whole load with its error. */
  lemma LoadBodyErr(rs: seq<Result<Event, LoadError>>, window: real, i: nat)
    requires i < |rs| && Collect(rs[..i]).Ok? && rs[i].Err?
    ensures LoadBody(rs, window) == Err(rs[i].error)
  {
    CollectStep(rs, i);
    CollectPrefixErr(rs, i + 1);
  }

  /** The loop over the lines after the header. */
  method LoadLines(body: seq<string>, parse: string -> Option<real>, window: real)
    returns (r: Result<Loaded, LoadError>)
    ensures r == LoadBody(ParseAll(body, parse), window)
  {
    ghost var rs := ParseAll(body, parse);
    var events: seq<Event> := [];
    var counts: Dict := [];
    var i := 0;
    while i < |body|
      invariant 0 <= i <= |body|
      invariant Collect(rs[..i]).Ok?
      invariant events == KeptPrefix(rs, i, window)
      invariant counts == CountsOf(events)
    {
      var parsed := ParseLine(body[i], i + 2, parse);
      assert parsed == rs[i];
      if parsed.Err? {
        LoadBodyErr(rs, window, i);
        return Err(parsed.error);
      }
      var ev := parsed.value;
      LoadStep(rs, i, window, events);
      if ev.end <= window {
        CountsOfSnoc(events, ev);
        counts := Put(counts, ev.func, Get(counts, ev.func) + 1);
        events := events + [ev];
      }
      i := i + 1;
    }
    assert rs[..i] == rs;
    return Ok(Loaded(events, counts));
  }

  /** The loader: the header line is skipped, the rest read by `LoadLines`. */
  method LoadTrace(lines: seq<string>, parse: string -> Option<real>, window: real)
    returns (r: Result<Loaded, LoadError>)
    ensures r == LoadSpec(lines, parse, window)
  {
    if |lines| == 0 {
      return Err(MissingHeader);
    }
    r := LoadLines(lines[1..], parse, window);
  }

  /** A successful load has parsed every body line. */
  lemma LoadParsedAll(lines: seq<string>, parse: string -> Option<real>, window: real)
    requires LoadSpec(lines, parse, window).Ok?
    ensures forall k | 0 <= k < |lines| - 1 :: ParseAll(lines[1..], parse)[k].Ok?
    ensures LoadSpec(lines, parse, window).value.events
         == Kept(Collect(ParseAll(lines[1..], parse)).value, window)
  {
    CollectOk(ParseAll(lines[1..], parse));
  }

  /** Every kept event lies inside the window and starts at `end - duration`. */
  lemma LoadEventsFacts(lines: seq<string>, parse: string -> Option<real>, window: real)
    requires LoadSpec(lines, parse, window).Ok?
    ensures forall e | e in LoadSpec(lines, parse, window).value.events ::
              e.end <= window && e.start == e.end - e.duration
  {
    var rs := ParseAll(lines[1..], parse);
    CollectMembers(rs);
    var es := Collect(rs).value;
    assert LoadSpec(lines, parse, window).value.events == Kept(es, window);
    forall e | e in Kept(es, window)
      ensures e.end <= window && e.start == e.end - e.duration
    {
      assert Ok(e) in rs;
      var k :| 0 <= k < |rs| && rs[k] == Ok(e);
    }
  }

}
