/** `list.sort` and `heapq.merge` over keyed packets: each as a function, with what the rest of
    the sort needs to know about it. */
module KeyedSort {
  import opened Capture
  import opened FlowOrder

  function Insert(x: Keyed, s: seq<Keyed>): (r: seq<Keyed>)
    ensures |r| == |s| + 1
  {
    if s == [] || KeyedLe(x, s[0]) then [x] + s else [s[0]] + Insert(x, s[1..])
  }

  function Sort(s: seq<Keyed>): (r: seq<Keyed>)
    ensures |r| == |s|
  {
    if s == [] then [] else Insert(s[0], Sort(s[1..]))
  }

  function Objs(s: seq<Keyed>): (r: seq<Packet>)
    ensures |r| == |s|
    ensures forall i :: 0 <= i < |s| ==> r[i] == s[i].obj
  {
    if s == [] then [] else [s[0].obj] + Objs(s[1..])
  }

  /** The elements of one flow, in order. */
  function OfFlow(s: seq<Keyed>, f: FlowTuple): seq<Keyed> {
    if s == [] then []
    else (if s[0].key.flow == f then [s[0]] else []) + OfFlow(s[1..], f)
  }

  /** The elements of one flow that carry one time stamp, in order. */
  function At(s: seq<Keyed>, f: FlowTuple, ts: real): seq<Keyed> {
    if s == [] then []
    else (if s[0].key.flow == f && s[0].key.ts == ts then [s[0]] else []) + At(s[1..], f, ts)
  }

  ghost predicate CtrsIncrease(s: seq<Keyed>) {
    forall i, j :: 0 <= i < j < |s| ==> s[i].key.ctr < s[j].key.ctr
  }

  // ---- list.sort: a permutation, sorted, stable

  lemma {:induction false} InsertMultiset(x: Keyed, s: seq<Keyed>)
    ensures multiset(Insert(x, s)) == multiset{x} + multiset(s)
  {
    if s == [] || KeyedLe(x, s[0]) {
    } else {
      InsertMultiset(x, s[1..]);
      assert s == [s[0]] + s[1..];
    }
  }

  /** Sorting permutes. */
  lemma {:induction false} SortMultiset(s: seq<Keyed>)
    ensures multiset(Sort(s)) == multiset(s)
  {
    if s != [] {
      SortMultiset(s[1..]);
      InsertMultiset(s[0], Sort(s[1..]));
      assert s == [s[0]] + s[1..];
    }
  }

  lemma {:induction false} SameElements<T>(a: seq<T>, b: seq<T>)
    requires multiset(a) == multiset(b)
    ensures |a| == |b|
    ensures forall x :: x in a <==> x in b
  {
    assert |a| == |multiset(a)| == |multiset(b)| == |b|;
    forall x ensures x in a <==> x in b {
      assert x in a <==> x in multiset(a);
      assert x in b <==> x in multiset(b);
    }
  }

  lemma {:induction false} InsertBound(x: Keyed, s: seq<Keyed>, lo: Keyed)
    requires FlowTimeLe(lo, x)
    requires forall y :: y in s ==> FlowTimeLe(lo, y)
    ensures forall y :: y in Insert(x, s) ==> FlowTimeLe(lo, y)
  {
    InsertMultiset(x, s);
    forall y | y in Insert(x, s) ensures FlowTimeLe(lo, y) {
      assert y in multiset(Insert(x, s));
    }
  }

  lemma {:induction false} InsertSorted(x: Keyed, s: seq<Keyed>)
    requires SortedFT(s)
    ensures SortedFT(Insert(x, s))
  {
    if s == [] {
    } else if KeyedLe(x, s[0]) {
      KeyedLeRefines(x, s[0]);
      forall j | 0 <= j < |s| ensures FlowTimeLe(x, s[j]) {
        if j > 0 { FlowTimeLeTransitive(x, s[0], s[j]); }
      }
    } else {
      KeyedLeRefines(x, s[0]);
      InsertSorted(x, s[1..]);
      InsertBound(x, s[1..], s[0]);
    }
  }

  /** Sorting by the full key orders by flow and then time. */
  lemma {:induction false} SortSorted(s: seq<Keyed>)
    ensures SortedFT(Sort(s))
  {
    if s != [] {
      SortSorted(s[1..]);
      InsertSorted(s[0], Sort(s[1..]));
    }
  }

  /** An element goes in front of everything of its own flow and time that was read after it. */
  lemma {:induction false} InsertStable(x: Keyed, s: seq<Keyed>, f: FlowTuple, ts: real)
    requires forall y :: y in s ==> x.key.ctr < y.key.ctr
    ensures At(Insert(x, s), f, ts) == At([x] + s, f, ts)
  {
    if s == [] || KeyedLe(x, s[0]) {
    } else {
      InsertStable(x, s[1..], f, ts);
      assert ([s[0]] + Insert(x, s[1..]))[1..] == Insert(x, s[1..]);
      assert ([x] + s)[1..] == s && ([x] + s[1..])[1..] == s[1..];
      assert s[0] in s;
    }
  }

  /** Elements of one flow and time keep their reading order. */
  lemma {:induction false} SortStable(s: seq<Keyed>, f: FlowTuple, ts: real)
    requires CtrsIncrease(s)
    ensures At(Sort(s), f, ts) == At(s, f, ts)
  {
    if s != [] {
      var t := Sort(s[1..]);
      SortStable(s[1..], f, ts);
      SortMultiset(s[1..]);
      SameElements(t, s[1..]);
      InsertStable(s[0], t, f, ts);
      assert ([s[0]] + t)[1..] == t;
    }
  }

  // ---- a flow is one interval of a sequence sorted by flow

  /** In a sorted sequence a flow is one uninterrupted stretch. */
  lemma {:induction false} OfFlowIsInterval(s: seq<Keyed>, f: FlowTuple, k: nat)
    requires SortedFT(s)
    requires k < |s| && s[k].key.flow == f
    requires forall i :: 0 <= i < k ==> s[i].key.flow != f
    ensures 1 <= |OfFlow(s, f)| <= |s| - k
    ensures s[k..k + |OfFlow(s, f)|] == OfFlow(s, f)
    ensures forall i :: k + |OfFlow(s, f)| <= i < |s| ==> s[i].key.flow != f
  {
    if k > 0 {
      OfFlowIsInterval(s[1..], f, k - 1);
      var m := |OfFlow(s, f)|;
      assert OfFlow(s, f) == [] + OfFlow(s[1..], f) == OfFlow(s[1..], f);
      TailSlice(s, k, k + m);
      forall i | k + m <= i < |s| ensures s[i].key.flow != f {
        assert s[i] == s[1..][i - 1];
      }
    } else if |s| > 1 && s[1].key.flow == f {
      OfFlowIsInterval(s[1..], f, 0);
      var m := |OfFlow(s, f)|;
      assert s[0..m] == [s[0]] + s[1..][0..m - 1];
      forall i | m <= i < |s| ensures s[i].key.flow != f {
        assert s[i] == s[1..][i - 1];
      }
    } else {
      forall i | 1 <= i < |s| ensures s[i].key.flow != f {
        if s[i].key.flow == f {
          assert FlowTimeLe(s[0], s[1]) && FlowTimeLe(s[1], s[i]);
          FlowLeAntisymmetric(f, s[1].key.flow);
        }
      }
      NoneOfFlow(s[1..], f);
    }
  }

  lemma {:induction false} TailSlice(s: seq<Keyed>, a: nat, b: nat)
    requires 1 <= a <= b <= |s|
    ensures s[a..b] == s[1..][a - 1..b - 1]
  {}

  lemma {:induction false} NoneOfFlow(s: seq<Keyed>, f: FlowTuple)
    requires forall i :: 0 <= i < |s| ==> s[i].key.flow != f
    ensures OfFlow(s, f) == []
  {
    if s != [] { NoneOfFlow(s[1..], f); }
  }

  // ---- heapq.merge: repeatedly the least head, an earlier chunk winning a tie

  function TotalLen(qs: seq<seq<Keyed>>): nat {
    if qs == [] then 0 else |qs[0]| + TotalLen(qs[1..])
  }

  /** The chunk whose head comes out next, or |qs| when all chunks are exhausted. */
  function Least(qs: seq<seq<Keyed>>): (b: nat)
    ensures b <= |qs|
    ensures b < |qs| ==> qs[b] != []
    ensures b == |qs| ==> forall i :: 0 <= i < |qs| ==> qs[i] == []
  {
    if qs == [] then 0
    else
      var r := Least(qs[..|qs| - 1]);
      var n := |qs| - 1;
      if qs[n] == [] then (if r == n then n + 1 else r)
      else if r == n then n
      else if KeyedLe(qs[r][0], qs[n][0]) then r
      else n
  }

  lemma {:induction false} TotalLenUpdate(qs: seq<seq<Keyed>>, i: nat, q: seq<Keyed>)
    requires i < |qs|
    ensures TotalLen(qs[i := q]) == TotalLen(qs) - |qs[i]| + |q|
  {
    if i == 0 {
      assert qs[i := q][1..] == qs[1..];
    } else {
      assert qs[i := q][1..] == qs[1..][i - 1 := q];
      TotalLenUpdate(qs[1..], i - 1, q);
    }
  }

  function Merge(qs: seq<seq<Keyed>>): seq<Keyed>
    decreases TotalLen(qs)
  {
    var b := Least(qs);
    if b == |qs| then []
    else
      TotalLenUpdate(qs, b, qs[b][1..]);
      [qs[b][0]] + Merge(qs[b := qs[b][1..]])
  }

  function Flatten(qs: seq<seq<Keyed>>): seq<Keyed> {
    if qs == [] then [] else qs[0] + Flatten(qs[1..])
  }

  lemma {:induction false} FlattenTake(qs: seq<seq<Keyed>>, i: nat)
    requires i < |qs| && qs[i] != []
    ensures multiset(Flatten(qs)) == multiset{qs[i][0]} + multiset(Flatten(qs[i := qs[i][1..]]))
  {
    var rs := qs[i := qs[i][1..]];
    assert qs[i] == [qs[i][0]] + qs[i][1..];
    if i == 0 {
      assert rs[1..] == qs[1..];
    } else {
      assert rs[1..] == qs[1..][i - 1 := qs[i][1..]];
      FlattenTake(qs[1..], i - 1);
    }
  }

  lemma {:induction false} FlattenEmpty(qs: seq<seq<Keyed>>)
    requires forall i :: 0 <= i < |qs| ==> qs[i] == []
    ensures Flatten(qs) == []
  {
    if qs != [] { FlattenEmpty(qs[1..]); }
  }

  /** Merging permutes, sorted chunks or not. */
  lemma {:induction false} MergeMultiset(qs: seq<seq<Keyed>>)
    ensures multiset(Merge(qs)) == multiset(Flatten(qs))
    decreases TotalLen(qs)
  {
    var b := Least(qs);
    if b == |qs| {
      FlattenEmpty(qs);
    } else {
      TotalLenUpdate(qs, b, qs[b][1..]);
      MergeMultiset(qs[b := qs[b][1..]]);
      FlattenTake(qs, b);
    }
  }

  /** The chosen head is no later, by flow and time, than any other head. */
  lemma {:induction false} LeastIsLeast(qs: seq<seq<Keyed>>, j: nat)
    requires j < |qs| && qs[j] != []
    ensures Least(qs) < |qs| && FlowTimeLe(qs[Least(qs)][0], qs[j][0])
  {
    var n := |qs| - 1;
    var front := qs[..n];
    var r := Least(front);
    if j < n {
      LeastIsLeast(front, j);
      if qs[n] != [] && !KeyedLe(qs[r][0], qs[n][0]) {
        KeyedLeRefines(qs[r][0], qs[n][0]);
        FlowTimeLeTransitive(qs[n][0], qs[r][0], qs[j][0]);
      }
    } else if r < n {
      KeyedLeRefines(qs[r][0], qs[n][0]);
    }
  }

  /** heapq.merge takes the least head by the full comparison, and of equal ones that of the earliest
      chunk. */
  lemma {:induction false} LeastIsFirst(qs: seq<seq<Keyed>>, j: nat)
    requires j < |qs| && qs[j] != []
    ensures Least(qs) < |qs| && KeyedLe(qs[Least(qs)][0], qs[j][0])
    ensures j < Least(qs) ==> !KeyedLe(qs[j][0], qs[Least(qs)][0])
  {
    hide KeyedLe;
    var n := |qs| - 1;
    var front := qs[..n];
    var r := Least(front);
    if j < n {
      LeastIsFirst(front, j);
      if qs[n] != [] && !KeyedLe(qs[r][0], qs[n][0]) {
        KeyedLeTotal(qs[r][0], qs[n][0]);
        KeyedLeTransitive(qs[n][0], qs[r][0], qs[j][0]);
        if KeyedLe(qs[j][0], qs[n][0]) {
          KeyedLeTransitive(qs[r][0], qs[j][0], qs[n][0]);
        }
      }
    } else {
      KeyedLeTotal(qs[n][0], qs[n][0]);
      if r < n {
        KeyedLeTotal(qs[r][0], qs[n][0]);
      }
    }
  }

  ghost predicate AllSorted(qs: seq<seq<Keyed>>) {
    forall i :: 0 <= i < |qs| ==> SortedFT(qs[i])
  }

  lemma {:induction false} FlattenMember(qs: seq<seq<Keyed>>, x: Keyed) returns (i: nat, k: nat)
    requires x in Flatten(qs)
    ensures i < |qs| && k < |qs[i]| && qs[i][k] == x
  {
    if x in qs[0] {
      i := 0;
      k :| 0 <= k < |qs[0]| && qs[0][k] == x;
    } else {
      i, k := FlattenMember(qs[1..], x);
      i := i + 1;
    }
  }

  /** Merging sorted chunks sorts. */
  lemma {:induction false} MergeSorted(qs: seq<seq<Keyed>>)
    requires AllSorted(qs)
    ensures SortedFT(Merge(qs))
    decreases TotalLen(qs)
  {
    var b := Least(qs);
    if b < |qs| {
      var rs := qs[b := qs[b][1..]];
      TotalLenUpdate(qs, b, qs[b][1..]);
      MergeSorted(rs);
      MergeMultiset(rs);
      SameElements(Merge(rs), Flatten(rs));
      forall y | y in Merge(rs) ensures FlowTimeLe(qs[b][0], y) {
        var i, k := FlattenMember(rs, y);
        LeastIsLeast(qs, i);
        if i == b {
          assert y == qs[b][k + 1];
        } else if k > 0 {
          FlowTimeLeTransitive(qs[b][0], qs[i][0], y);
        }
      }
    }
  }

  /** With one chunk there is nothing to compare: the chunk comes out as it is. */
  lemma {:induction false} MergeOne(q: seq<Keyed>)
    ensures Merge([q]) == q
    decreases |q|
  {
    assert [q][..0] == [];
    if q != [] {
      MergeOne(q[1..]);
      assert [q][0 := q[1..]] == [q[1..]];
    }
  }
}
