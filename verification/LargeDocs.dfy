/** The fix-large-docs loop of MongoDB.run: as long as the database refuses the report, the largest
    child of its largest key is deleted. */
module LargeDocs {
  import opened Wrappers

  /** A JSON value; `Atom` stands for numbers, booleans and null. */
  datatype Value = Text(s: string) | Atom | Dict(entries: seq<Entry>) | List(items: seq<Value>)

  /** A dictionary is its entries in insertion order. */
  datatype Entry = Entry(key: string, value: Value)

  const MEGABYTE: int := 0x100000
  const MONGOSIZELIMIT: int := 0x1000000

  /** The length of all strings in a value, keys not counted. */
  function Size(v: Value): nat {
    match v
    case Text(s) => |s|
    case Atom => 0
    case Dict(es) => SizeAll(es)
    case List(items) => SizeItems(items)
  }

  function SizeAll(es: seq<Entry>): nat {
    if es == [] then 0 else Size(es[0].value) + SizeAll(es[1..])
  }

  function SizeItems(vs: seq<Value>): nat {
    if vs == [] then 0 else Size(vs[0]) + SizeItems(vs[1..])
  }

  /** All text of a value, one string after the other. */
  function TextOf(v: Value): string {
    match v
    case Text(s) => s
    case Atom => ""
    case Dict(es) => TextOfAll(es)
    case List(items) => TextOfItems(items)
  }

  function TextOfAll(es: seq<Entry>): string {
    if es == [] then "" else TextOf(es[0].value) + TextOfAll(es[1..])
  }

  function TextOfItems(vs: seq<Value>): string {
    if vs == [] then "" else TextOf(vs[0]) + TextOfItems(vs[1..])
  }

  /** The size of a value is the length of its text, however deep that lies; keys and numbers are free. */
  lemma {:induction false} SizeIsText(v: Value)
    ensures Size(v) == |TextOf(v)|
    ensures v.Dict? ==> SizeAll(v.entries) == |TextOfAll(v.entries)|
    decreases v, 0
  {
    match v
    case Dict(es) => SizeAllIsText(es);
    case List(items) => SizeItemsIsText(items);
    case _ =>
  }

  lemma {:induction false} SizeAllIsText(es: seq<Entry>)
    ensures SizeAll(es) == |TextOfAll(es)|
    decreases es, 1
  {
    if es != [] {
      SizeIsText(es[0].value);
      SizeAllIsText(es[1..]);
    }
  }

  lemma {:induction false} SizeItemsIsText(vs: seq<Value>)
    ensures SizeItems(vs) == |TextOfItems(vs)|
    decreases vs, 1
  {
    if vs != [] {
      SizeIsText(vs[0]);
      SizeItemsIsText(vs[1..]);
    }
  }

  /** The key sorted first by size, descending: of equals, the first inserted. */
  ghost predicate IsLargest(es: seq<Entry>, i: nat) {
    && i < |es|
    && (forall j :: 0 <= j < |es| ==> Size(es[j].value) <= Size(es[i].value))
    && (forall j :: 0 <= j < i ==> Size(es[j].value) < Size(es[i].value))
  }

  /** debug_dict_size(...)[0]; an empty dictionary has no first element. */
  method Largest(es: seq<Entry>) returns (i: Option<nat>)
    ensures i.None? <==> es == []
    ensures i.Some? ==> IsLargest(es, i.value)
  {
    if es == [] {
      return None;
    }
    var best := 0;
    for j := 1 to |es|
      invariant best < j
      invariant forall k :: 0 <= k < j ==> Size(es[k].value) <= Size(es[best].value)
      invariant forall k :: 0 <= k < best ==> Size(es[k].value) < Size(es[best].value)
    {
      if Size(es[j].value) > Size(es[best].value) {
        best := j;
      }
    }
    return Some(best);
  }

  function Without<T>(s: seq<T>, i: nat): seq<T>
    requires i < |s|
  {
    s[..i] + s[i + 1..]
  }

  /** `new` is `old` with some entries taken out. */
  ghost predicate Subsequence(new': seq<Entry>, old': seq<Entry>) {
    if new' == old' then true
    else if old' == [] then false
    else Subsequence(new', old'[1..]) || (new' != [] && new'[0] == old'[0] && Subsequence(new'[1..], old'[1..]))
  }

  /** A dictionary that lost entries, or anything unchanged. */
  ghost predicate Trimmed(v: Value, v': Value) {
    v == v' || (v.Dict? && v'.Dict? && Subsequence(v'.entries, v.entries))
  }

  /** What one round may do to a top-level value: trim it, or the elements of a list. */
  ghost predicate Pruned(v: Value, v': Value) {
    || Trimmed(v, v')
    || (v.List? && v'.List? && |v.items| == |v'.items|
        && forall i :: 0 <= i < |v.items| ==> Trimmed(v.items[i], v'.items[i]))
  }

  /** Top-level keys stay, in order; only second-level entries go, and the others keep their values. */
  ghost predicate OnlySecondLevel(report: seq<Entry>, report': seq<Entry>) {
    |report| == |report'|
    && forall i :: 0 <= i < |report| ==>
      report[i].key == report'[i].key && Pruned(report[i].value, report'[i].value)
  }

  // ---- the number of second-level keys

  function Keys(v: Value): nat {
    match v
    case Dict(es) => |es|
    case List(items) => ItemKeys(items)
    case _ => 0
  }

  function OwnKeys(v: Value): nat {
    if v.Dict? then |v.entries| else 0
  }

  function ItemKeys(vs: seq<Value>): nat {
    if vs == [] then 0 else OwnKeys(vs[0]) + ItemKeys(vs[1..])
  }

  function SecondLevel(report: seq<Entry>): nat {
    if report == [] then 0 else Keys(report[0].value) + SecondLevel(report[1..])
  }

  lemma {:induction false} ItemKeysUpdate(vs: seq<Value>, i: nat, v: Value)
    requires i < |vs|
    ensures ItemKeys(vs[i := v]) + OwnKeys(vs[i]) == ItemKeys(vs) + OwnKeys(v)
  {
    if i > 0 {
      ItemKeysUpdate(vs[1..], i - 1, v);
      assert vs[i := v][1..] == vs[1..][i - 1 := v];
    } else {
      assert vs[i := v][1..] == vs[1..];
    }
  }

  lemma {:induction false} SecondLevelUpdate(report: seq<Entry>, i: nat, e: Entry)
    requires i < |report|
    ensures SecondLevel(report[i := e]) + Keys(report[i].value) == SecondLevel(report) + Keys(e.value)
  {
    if i > 0 {
      SecondLevelUpdate(report[1..], i - 1, e);
      assert report[i := e][1..] == report[1..][i - 1 := e];
    } else {
      assert report[i := e][1..] == report[1..];
    }
  }

  lemma {:induction false} WithoutIsSubsequence(es: seq<Entry>, i: nat)
    requires i < |es|
    ensures Subsequence(Without(es, i), es)
  {
    if i == 0 {
      assert Without(es, 0) == es[1..];
    } else {
      WithoutIsSubsequence(es[1..], i - 1);
      assert Without(es, i)[1..] == Without(es[1..], i - 1);
    }
  }

  lemma {:induction false} SubsequenceTransitive(a: seq<Entry>, b: seq<Entry>, c: seq<Entry>)
    requires Subsequence(a, b) && Subsequence(b, c)
    ensures Subsequence(a, c)
    decreases |b| + |c|
  {
    if a == b || b == c {
    } else if Subsequence(b, c[1..]) {
      SubsequenceTransitive(a, b, c[1..]);
    } else if Subsequence(a, b[1..]) {
      SubsequenceTransitive(a, b[1..], c[1..]);
    } else {
      SubsequenceTransitive(a[1..], b[1..], c[1..]);
    }
  }

  lemma {:induction false} PrunedTransitive(a: Value, b: Value, c: Value)
    requires Pruned(a, b) && Pruned(b, c)
    ensures Pruned(a, c)
  {
    if a.Dict? && b.Dict? && c.Dict? {
      SubsequenceTransitive(c.entries, b.entries, a.entries);
    } else if a.List? && b.List? && c.List? {
      forall i | 0 <= i < |a.items| ensures Trimmed(a.items[i], c.items[i]) {
        assert Trimmed(a.items[i], b.items[i]) && Trimmed(b.items[i], c.items[i]);
        if a.items[i].Dict? && b.items[i].Dict? && c.items[i].Dict? {
          SubsequenceTransitive(c.items[i].entries, b.items[i].entries, a.items[i].entries);
        }
      }
    }
  }

  // ---- one round

  /** A dictionary after a round: its largest entry is gone if it exceeds the filter. */
  ghost predicate DictRound(es: seq<Entry>, es': seq<Entry>, sizeFilter: int) {
    exists i: nat :: IsLargest(es, i) && es' == if Size(es[i].value) > sizeFilter then Without(es, i) else es
  }

  /** A list element after a round. Of a list in the list only the first element is looked at, and
      nothing can be deleted by key from it. */
  ghost predicate ItemRound(v: Value, v': Value, sizeFilter: int) {
    match v
    case Dict(es) => v'.Dict? && DictRound(es, v'.entries, sizeFilter)
    case List(items) =>
      items != [] && items[0].Dict? && DictRound(items[0].entries, items[0].entries, sizeFilter) && v' == v
    case _ => false
  }

  /** The element makes the round raise. */
  ghost predicate Raises(v: Value, sizeFilter: int) {
    match v
    case Dict(es) => es == []
    case List(items) =>
      items == [] || !items[0].Dict? || items[0].entries == []
      || exists i: nat :: IsLargest(items[0].entries, i) && Size(items[0].entries[i].value) > sizeFilter
    case _ => true
  }

  /** The deletion in one element of a list: only dictionaries can lose a key, and an empty one, a
      scalar or a list too big raises. */
  method PruneItem(v: Value, sizeFilter: int) returns (v': Value, ok: bool)
    ensures if ok then ItemRound(v, v', sizeFilter) else v' == v && Raises(v, sizeFilter)
    ensures Trimmed(v, v') && OwnKeys(v') <= OwnKeys(v)
    ensures ok && sizeFilter < 0 ==> OwnKeys(v') < OwnKeys(v)
  {
    var probed := v;
    if v.List? {
      if v.items == [] {
        return v, false;
      }
      probed := v.items[0];
    }
    if !probed.Dict? {
      return v, false;
    }
    var es := probed.entries;
    var child := Largest(es);
    if child.None? {
      return v, false;
    }
    if Size(es[child.value].value) <= sizeFilter {
      assert DictRound(es, es, sizeFilter);
      return v, true;
    }
    if v.List? {
      return v, false;
    }
    WithoutIsSubsequence(es, child.value);
    assert DictRound(es, Without(es, child.value), sizeFilter);
    return Dict(Without(es, child.value)), true;
  }

  /** A list is gone through element by element until one of them raises. */
  method PruneItems(items: seq<Value>, sizeFilter: int) returns (items': seq<Value>, ok: bool, ghost done: nat)
    ensures |items'| == |items| && done <= |items|
    ensures forall i :: 0 <= i < done ==> ItemRound(items[i], items'[i], sizeFilter)
    ensures forall i :: done <= i < |items| ==> items'[i] == items[i]
    ensures if ok then done == |items| else done < |items| && Raises(items[done], sizeFilter)
    ensures forall i :: 0 <= i < |items| ==> Trimmed(items[i], items'[i])
    ensures ItemKeys(items') <= ItemKeys(items)
    ensures ok && items != [] && sizeFilter < 0 ==> ItemKeys(items') < ItemKeys(items)
  {
    hide ItemRound, Raises, Trimmed, ItemKeys;
    items', done := items, 0;
    forall i | 0 <= i < |items| ensures Trimmed(items[i], items[i]) {
      TrimmedSelf(items[i]);
    }
    for j := 0 to |items|
      invariant done == j && |items'| == |items|
      invariant forall i :: 0 <= i < j ==> ItemRound(items[i], items'[i], sizeFilter)
      invariant forall i :: 0 <= i < |items| ==> Trimmed(items[i], items'[i])
      invariant forall i :: j <= i < |items| ==> items'[i] == items[i]
      invariant ItemKeys(items') <= ItemKeys(items)
      invariant j > 0 && sizeFilter < 0 ==> ItemKeys(items') < ItemKeys(items)
    {
      var item;
      item, ok := PruneItem(items[j], sizeFilter);
      if !ok {
        return;
      }
      ItemKeysUpdate(items', j, item);
      items' := items'[j := item];
      done := j + 1;
    }
    ok := true;
  }

  lemma {:induction false} TrimmedSelf(v: Value)
    ensures Trimmed(v, v)
  {}

  /** A whole round under the key at position `p`: in its dictionary, or in every dictionary of its list,
      the largest entry is gone if it exceeds the filter. */
  ghost predicate RoundAt(report: seq<Entry>, report': seq<Entry>, p: nat, sizeFilter: int) {
    && p < |report| == |report'| && report'[p].key == report[p].key
    && (forall i :: 0 <= i < |report| && i != p ==> report'[i] == report[i])
    && match report[p].value
       case Dict(es) => report'[p].value.Dict? && DictRound(es, report'[p].value.entries, sizeFilter)
       case List(items) =>
         && report'[p].value.List? && |report'[p].value.items| == |items|
         && forall i :: 0 <= i < |items| ==> ItemRound(items[i], report'[p].value.items[i], sizeFilter)
       case _ => false
  }

  /** A round that raises: at once, or at some element of a list after those before it. */
  ghost predicate RaisesAt(report: seq<Entry>, report': seq<Entry>, p: nat, sizeFilter: int) {
    && p < |report|
    && match report[p].value
       case Dict(es) => es == [] && report' == report
       case List(items) => exists items', done ::
         && report' == report[p := Entry(report[p].key, List(items'))]
         && ListRaises(items, items', done, sizeFilter)
       case _ => report' == report
  }

  ghost predicate ListRaises(items: seq<Value>, items': seq<Value>, done: nat, sizeFilter: int) {
    && done < |items| == |items'| && Raises(items[done], sizeFilter)
    && (forall i :: 0 <= i < done ==> ItemRound(items[i], items'[i], sizeFilter))
    && forall i :: done <= i < |items| ==> items'[i] == items[i]
  }

  /** One round of deletion under the key at position `p`; `ok` is false when it raised. */
  method Prune(report: seq<Entry>, p: nat, sizeFilter: int) returns (report': seq<Entry>, ok: bool)
    requires p < |report|
    ensures OnlySecondLevel(report, report') && SecondLevel(report') <= SecondLevel(report)
    ensures ok && sizeFilter < 0 && report[p].value != List([]) ==> SecondLevel(report') < SecondLevel(report)
    ensures report[0].value != List([]) ==> report'[0].value != List([])
    ensures report[p].value == List([]) ==> ok && report' == report
    ensures forall i :: 0 <= i < |report| && i != p ==> report'[i] == report[i]
    ensures report[p].value.Dict? && report[p].value.entries != [] ==>
      ok && report'[p].value.Dict? && DictRound(report[p].value.entries, report'[p].value.entries, sizeFilter)
    ensures report[p].value == Dict([]) || report[p].value.Text? || report[p].value.Atom? ==> !ok && report' == report
    ensures report[p].value.List? ==> report'[p].value.List? && |report'[p].value.items| == |report[p].value.items|
    ensures report[p].value.List? && ok ==>
      (forall i :: 0 <= i < |report[p].value.items| ==>
         ItemRound(report[p].value.items[i], report'[p].value.items[i], sizeFilter))
    ensures ok ==> RoundAt(report, report', p, sizeFilter)
    ensures !ok ==> RaisesAt(report, report', p, sizeFilter)
  {
    hide ItemRound, Raises, ItemKeys, Subsequence;
    var v := report[p].value;
    match v {
      case List(items) =>
        var items';
        ghost var done;
        items', ok, done := PruneItems(items, sizeFilter);
        SecondLevelUpdate(report, p, Entry(report[p].key, List(items')));
        report' := report[p := Entry(report[p].key, List(items'))];
        assert !ok ==> ListRaises(items, items', done, sizeFilter);
      case Dict(es) =>
        var child := Largest(es);
        if child.None? {
          return report, false;
        }
        if Size(es[child.value].value) <= sizeFilter {
          assert DictRound(es, es, sizeFilter);
          return report, true;
        }
        var es' := Without(es, child.value);
        assert DictRound(es, es', sizeFilter);
        WithoutIsSubsequence(es, child.value);
        SecondLevelUpdate(report, p, Entry(report[p].key, Dict(es')));
        return report[p := Entry(report[p].key, Dict(es'))], true;
      case _ =>
        assert Trimmed(v, v);
        return report, false;
    }
  }

  // ---- the loop

  /** The database's answer to an insert. */
  datatype Verdict = Accepted | BadKeys | TooLarge

  datatype Outcome = Saved | Stopped | GaveUp

  /** The answers may depend on how often the database was asked. */
  type Database = (nat, seq<Entry>) -> Verdict

  /** Every document without string content is accepted, whenever it comes. */
  ghost predicate TakesStringless(db: Database) {
    forall n: nat, d: seq<Entry> :: SizeAll(d) == 0 ==> db(n, d) == Accepted
  }

  lemma {:induction false} LargestOfStrings(es: seq<Entry>, i: nat)
    requires IsLargest(es, i)
    ensures i < |es| && (Size(es[i].value) == 0 ==> i == 0 && SizeAll(es) == 0)
    ensures es[i].value == List([]) ==> i == 0 && SizeAll(es) == 0
  {
    if Size(es[i].value) == 0 {
      AllZero(es);
    }
  }

  lemma {:induction false} AllZero(es: seq<Entry>)
    requires forall j :: 0 <= j < |es| ==> Size(es[j].value) == 0
    ensures SizeAll(es) == 0
  {
    if es != [] { AllZero(es[1..]); }
  }

  function Rounds(sizeFilter: int): nat {
    if sizeFilter < 0 then 0 else sizeFilter / MEGABYTE + 1
  }

  /** A round under the report's largest key. */
  ghost predicate Round(report: seq<Entry>, report': seq<Entry>, sizeFilter: int) {
    exists p :: IsLargest(report, p) && RoundAt(report, report', p, sizeFilter)
  }

  ghost predicate LastRound(report: seq<Entry>, report': seq<Entry>, sizeFilter: int) {
    exists p :: IsLargest(report, p) && RaisesAt(report, report', p, sizeFilter)
  }

  lemma {:induction false} RoundIf(report: seq<Entry>, report': seq<Entry>, p: nat, sizeFilter: int)
    requires IsLargest(report, p)
    ensures RoundAt(report, report', p, sizeFilter) ==> Round(report, report', sizeFilter)
    ensures RaisesAt(report, report', p, sizeFilter) ==> LastRound(report, report', sizeFilter)
  {
    hide RoundAt, RaisesAt;
  }

  lemma {:induction false} SecondLevelSame(report: seq<Entry>)
    ensures OnlySecondLevel(report, report)
  {}

  /** The loop, entered after a first refusal. It ends whatever the database answers, unless the
      report's first key holds an empty list; then it ends if the database takes every document
      without strings. It asks at most seventeen times plus once for every second-level key. `trace` is
      the report as it is refused and pruned, round by round, with a filter of 16 MB that falls by one MB a round. */
  method FixLargeDocs(report0: seq<Entry>, db: Database)
      returns (outcome: Outcome, report: seq<Entry>, asked: nat, ghost trace: seq<seq<Entry>>)
    requires report0 != [] && db(0, report0) == TooLarge
    requires report0[0].value != List([]) || TakesStringless(db)
    ensures OnlySecondLevel(report0, report)
    ensures outcome == Saved ==> asked > 0 && db(asked, report) == Accepted
    ensures outcome == Stopped ==> asked > 0 && db(asked, report) == BadKeys
    ensures asked <= 17 + SecondLevel(report0)
    ensures |trace| == asked + (if outcome == GaveUp then 2 else 1)
    ensures trace[0] == report0 && trace[|trace| - 1] == report
    ensures forall k :: 0 <= k < asked ==>
      db(k, trace[k]) == TooLarge && Round(trace[k], trace[k + 1], 0x1000000 - k * 0x100000)
    ensures outcome == GaveUp ==>
      db(asked, trace[asked]) == TooLarge && LastRound(trace[asked], report, 0x1000000 - asked * 0x100000)
  {
    hide Round, LastRound, RoundAt, RaisesAt, OnlySecondLevel, SecondLevel, IsLargest, DictRound, ItemRound, SizeAll;
    SecondLevelSame(report0);
    report, asked := report0, 0;
    trace := [report0];
    var sizeFilter := MONGOSIZELIMIT;
    var parent := Largest(report);
    while true
      invariant report != [] && parent.Some? && IsLargest(report, parent.value)
      invariant OnlySecondLevel(report0, report)
      invariant db(asked, report) == TooLarge
      invariant report[0].value != List([]) || TakesStringless(db)
      invariant sizeFilter == MONGOSIZELIMIT - asked * MEGABYTE
      invariant asked <= 17 || asked + SecondLevel(report) <= 17 + SecondLevel(report0)
      invariant SecondLevel(report) <= SecondLevel(report0)
      invariant |trace| == asked + 1 && trace[0] == report0 && trace[asked] == report
      invariant forall k :: 0 <= k < asked ==> db(k, trace[k]) == TooLarge
      invariant forall k :: 0 <= k < asked ==> Round(trace[k], trace[k + 1], MONGOSIZELIMIT - k * MEGABYTE)
      decreases Rounds(sizeFilter), SecondLevel(report)
    {
      LargestOfStrings(report, parent.value);
      ghost var before := report;
      var ok;
      report, ok := Prune(report, parent.value, sizeFilter);
      StillOnlySecondLevel(report0, before, report);
      trace := trace + [report];
      if !ok {
        RoundIf(before, report, parent.value, sizeFilter);
        return GaveUp, report, asked, trace;
      }
      RoundIf(before, report, parent.value, sizeFilter);
      asked := asked + 1;
      match db(asked, report) {
        case Accepted =>
          return Saved, report, asked, trace;
        case BadKeys =>
          return Stopped, report, asked, trace;
        case TooLarge =>
          parent := Largest(report);
          sizeFilter := sizeFilter - MEGABYTE;
      }
    }
  }

  lemma {:induction false} StillOnlySecondLevel(a: seq<Entry>, b: seq<Entry>, c: seq<Entry>)
    requires OnlySecondLevel(a, b) && OnlySecondLevel(b, c)
    ensures OnlySecondLevel(a, c) && |a| == |c|
  {
    forall i | 0 <= i < |a| ensures a[i].key == c[i].key && Pruned(a[i].value, c[i].value) {
      PrunedTransitive(a[i].value, b[i].value, c[i].value);
    }
  }

  /** The exception above is real: with an empty list under the first key and no string left, any
      number of refused rounds changes nothing, so against a database that goes on refusing the loop
      never ends. */
  method StuckRounds(report: seq<Entry>, n: nat) returns (after: seq<Entry>, parent: Option<nat>)
    requires report != [] && report[0].value == List([]) && SizeAll(report) == 0
    ensures after == report && parent == Some(0)
  {
    var sizeFilter := MONGOSIZELIMIT;
    after := report;
    NoStrings(report);
    parent := Largest(after);
    for k := 0 to n
      invariant after == report && parent == Some(0)
    {
      var ok;
      after, ok := Prune(after, parent.value, sizeFilter);
      assert ok;
      parent := Largest(after);
      sizeFilter := sizeFilter - MEGABYTE;
    }
  }

  lemma {:induction false} NoStrings(es: seq<Entry>)
    requires SizeAll(es) == 0
    ensures forall j :: 0 <= j < |es| ==> Size(es[j].value) == 0
  {
    if es != [] {
      NoStrings(es[1..]);
      forall j | 0 <= j < |es| ensures Size(es[j].value) == 0 {
        if j > 0 { assert es[j] == es[1..][j - 1]; }
      }
    }
  }
}
