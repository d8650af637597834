/** What the external sort guarantees about its output: nothing lost for any buffer, and sorted
    by flow and time as long as the keys derived on the second reading are the first ones. */
module SortedCapture {
  import opened Multisets
  import opened Capture
  import opened FlowOrder
  import opened KeyedSort
  import opened SortCap
  import opened BatchSort

  // ---- nothing lost

  lemma {:induction false} TakeOut(b: seq<Keyed>, x: Keyed) returns (rest: seq<Keyed>)
    requires x in b
    ensures multiset(b) == multiset{x} + multiset(rest) && |rest| < |b|
    ensures multiset(Objs(b)) == multiset{x.obj} + multiset(Objs(rest))
  {
    assert Objs([x]) == [x.obj];
    hide Objs;
    var i :| 0 <= i < |b| && b[i] == x;
    var front, back := b[..i], b[i + 1..];
    rest := front + back;
    assert b == front + ([x] + back);
    ObjsAppend(front, back);
    ObjsAppend(front, [x] + back);
    ObjsAppend([x], back);
    MultisetSplit(front, x, back);
    MultisetSplit(Objs(front), x.obj, Objs(back));
  }

  lemma {:induction false} ObjsMultiset(a: seq<Keyed>, b: seq<Keyed>)
    requires multiset(a) == multiset(b)
    ensures multiset(Objs(a)) == multiset(Objs(b))
  {
    SameElements(a, b);
    if a != [] {
      var x, a' := a[0], a[1..];
      assert a == [x] + a' && a[0] in a;
      var b' := TakeOut(b, x);
      Cancel(x, multiset(a'), multiset(b'));
      ObjsMultiset(a', b');
      assert Objs(a) == [x.obj] + Objs(a');
    }
  }

  lemma {:induction false} FlattenChunks(s: seq<Keyed>, n: nat)
    requires n >= 1
    ensures Flatten(Chunks(s, n)) == s
    decreases |s|
  {
    if |s| > n {
      FlattenChunks(s[n..], n);
      assert s == s[..n] + s[n..];
    }
  }

  lemma {:induction false} RekeyedObjs(cs: seq<seq<Keyed>>)
    ensures multiset(Objs(Flatten(Rekeyed(cs)))) == multiset(Objs(Flatten(cs)))
  {
    if cs != [] {
      RekeyedObjs(cs[1..]);
      var file := ChunkFile(cs[0]);
      ReadShape(file, {}, 0);
      SortMultiset(cs[0]);
      ObjsMultiset(Sort(cs[0]), cs[0]);
      ObjsAppend(ReadAll(file), Flatten(Rekeyed(cs[1..])));
      ObjsAppend(cs[0], Flatten(cs[1..]));
      assert Rekeyed(cs)[1..] == Rekeyed(cs[1..]);
    }
  }

  /** The output holds exactly the packets of the input, whatever keys the second reading finds;
      only a buffer of size zero loses them. */
  lemma {:induction false} SortKeepsPackets(ps: seq<Packet>, n: nat)
    ensures multiset(Sorted(ps, n)) == multiset(ps) <==> n >= 1 || ps == []
  {
    var cs := Chunks(ReadAll(ps), n);
    MergeMultiset(Rekeyed(cs));
    ObjsMultiset(Merged(ps, n), Flatten(Rekeyed(cs)));
    RekeyedObjs(cs);
    if n >= 1 {
      FlattenChunks(ReadAll(ps), n);
      ReadShape(ps, {}, 0);
    } else if ps != [] {
      assert |multiset(ps)| == |ps| != 0;
    }
  }

  // ---- keys that tell conversations apart

  /** The key carries the packet's time and the orientation in which its conversation was first met. */
  ghost predicate Canonical(ps: seq<Packet>, e: Keyed) {
    e.obj in ps && e.key.flow == FirstTuple(ps, FlowOf(e.obj)) && e.key.ts == e.obj.ts
  }

  ghost predicate AllCanonical(ps: seq<Packet>, s: seq<Keyed>) {
    forall i :: 0 <= i < |s| ==> Canonical(ps, s[i])
  }

  lemma {:induction false} ReadCanonical(ps: seq<Packet>)
    ensures AllCanonical(ps, ReadAll(ps))
  {
    ReadShape(ps, {}, 0);
    forall i | 0 <= i < |ps| ensures Canonical(ps, ReadAll(ps)[i]) {
      KeyIsFirstTuple(ps, i);
      assert ReadAll(ps)[i].obj == Objs(ReadAll(ps))[i] == ps[i];
    }
  }

  lemma {:induction false} PermutationCanonical(ps: seq<Packet>, a: seq<Keyed>, b: seq<Keyed>)
    requires multiset(a) == multiset(b) && AllCanonical(ps, a)
    ensures AllCanonical(ps, b)
  {
    SameElements(a, b);
    forall i | 0 <= i < |b| ensures Canonical(ps, b[i]) {
      assert b[i] in a;
    }
  }

  lemma {:induction false} CanonicalFlow(ps: seq<Packet>, e: Keyed, t: FlowTuple)
    requires Canonical(ps, e)
    ensures e.key.flow == FirstTuple(ps, t) <==> SameConv(FlowOf(e.obj), t)
  {
    if SameConv(FlowOf(e.obj), t) {
      var i :| 0 <= i < |ps| && ps[i] == e.obj;
      FirstTupleOfConv(ps, i, t);
    }
  }

  /** Selecting by key and selecting by conversation are the same selection. */
  lemma {:induction false} OfFlowIsConv(ps: seq<Packet>, s: seq<Keyed>, t: FlowTuple)
    requires AllCanonical(ps, s)
    ensures Objs(OfFlow(s, FirstTuple(ps, t))) == ConvPackets(Objs(s), t)
  {
    if s != [] {
      OfFlowIsConv(ps, s[1..], t);
      CanonicalFlow(ps, s[0], t);
      assert Objs(s)[1..] == Objs(s[1..]);
      ObjsAppend([s[0]], OfFlow(s[1..], FirstTuple(ps, t)));
    }
  }

  lemma {:induction false} FlattenAt(cs: seq<seq<Keyed>>, i: nat)
    requires i < |cs|
    ensures forall x :: x in cs[i] ==> x in Flatten(cs)
  {
    if i > 0 { FlattenAt(cs[1..], i - 1); }
  }

  lemma {:induction false} ChunkCanonical(ps: seq<Packet>, n: nat, i: nat)
    requires n >= 1 && i < |Chunks(ReadAll(ps), n)|
    ensures AllCanonical(ps, Sort(Chunks(ReadAll(ps), n)[i]))
  {
    var cs := Chunks(ReadAll(ps), n);
    FlattenChunks(ReadAll(ps), n);
    ReadCanonical(ps);
    FlattenAt(cs, i);
    forall k | 0 <= k < |cs[i]| ensures Canonical(ps, cs[i][k]) {
      assert cs[i][k] in ReadAll(ps);
    }
    SortMultiset(cs[i]);
    PermutationCanonical(ps, cs[i], Sort(cs[i]));
  }

  // ---- more than one chunk

  /** Position `i` holds the first packet of its flow. */
  ghost predicate Leads(s: seq<Keyed>, i: nat)
    requires i < |s|
  {
    forall j :: 0 <= j < i ==> s[j].key.flow != s[i].key.flow
  }

  /** In this sorted chunk the first packet of every flow points the way the flow was keyed on the
      first reading. */
  ghost predicate OrientationKept(s: seq<Keyed>) {
    forall i :: 0 <= i < |s| && Leads(s, i) ==> FlowOf(s[i].obj) == s[i].key.flow
  }

  /** Reading the chunk file again finds the flows of the first reading. */
  ghost predicate RekeyAgrees(s: seq<Keyed>) {
    forall i :: 0 <= i < |s| ==> ReadAll(Objs(s))[i].key.flow == s[i].key.flow
  }

  /** The first packet of `s` that carries the flow of packet `i`. */
  lemma {:induction false} Leader(s: seq<Keyed>, i: nat) returns (k: nat)
    requires i < |s|
    ensures k <= i && s[k].key.flow == s[i].key.flow && Leads(s, k)
  {
    if Leads(s, i) {
      k := i;
    } else {
      var j :| 0 <= j < i && s[j].key.flow == s[i].key.flow;
      k := Leader(s, j);
    }
  }

  lemma {:induction false} FirstTupleAt(ps: seq<Packet>, k: nat)
    requires k < |ps|
    requires forall j :: 0 <= j < k ==> !SameConv(FlowOf(ps[j]), FlowOf(ps[k]))
    ensures FirstTuple(ps, FlowOf(ps[k])) == FlowOf(ps[k])
  {
    if k > 0 { FirstTupleAt(ps[1..], k - 1); }
  }

  /** A second reading keys packet `i` with the tuple of the packet leading its flow. */
  lemma {:induction false} RekeyIsLeader(ps: seq<Packet>, s: seq<Keyed>, i: nat, k: nat)
    requires AllCanonical(ps, s)
    requires k <= i < |s| && s[k].key.flow == s[i].key.flow && Leads(s, k)
    ensures ReadAll(Objs(s))[i].key.flow == FlowOf(s[k].obj)
  {
    var os := Objs(s);
    forall j | 0 <= j < k ensures !SameConv(FlowOf(os[j]), FlowOf(os[k])) {
      CanonicalFlow(ps, s[j], FlowOf(s[k].obj));
    }
    CanonicalFlow(ps, s[k], FlowOf(s[i].obj));
    FirstTupleAt(os, k);
    KeyIsFirstTuple(os, i);
    FirstTupleOfConv(os, k, FlowOf(os[i]));
  }

  /** The keys of a chunk survive the temporary file exactly when its flow leaders kept the
      orientation of the first reading. */
  lemma {:induction false} RekeyAgreesIff(ps: seq<Packet>, s: seq<Keyed>)
    requires AllCanonical(ps, s)
    ensures RekeyAgrees(s) <==> OrientationKept(s)
  {
    if OrientationKept(s) {
      forall i | 0 <= i < |s| ensures ReadAll(Objs(s))[i].key.flow == s[i].key.flow {
        var k := Leader(s, i);
        RekeyIsLeader(ps, s, i, k);
      }
    }
    if RekeyAgrees(s) {
      forall i | 0 <= i < |s| && Leads(s, i) ensures FlowOf(s[i].obj) == s[i].key.flow {
        RekeyIsLeader(ps, s, i, i);
      }
    }
  }

  /** Every chunk of the sort keeps its orientations. */
  ghost predicate AllKept(ps: seq<Packet>, n: nat) {
    forall i :: 0 <= i < |Chunks(ReadAll(ps), n)| ==> OrientationKept(Sort(Chunks(ReadAll(ps), n)[i]))
  }

  lemma {:induction false} RekeyedChunk(ps: seq<Packet>, s: seq<Keyed>)
    requires AllCanonical(ps, s) && SortedFT(s) && OrientationKept(s)
    ensures AllCanonical(ps, ReadAll(Objs(s))) && SortedFT(ReadAll(Objs(s)))
  {
    RekeyAgreesIff(ps, s);
    var os := Objs(s);
    var r := ReadAll(os);
    ReadShape(os, {}, 0);
    forall i | 0 <= i < |s|
      ensures r[i].obj == s[i].obj && r[i].key.ts == s[i].key.ts && r[i].key.flow == s[i].key.flow
    {
      assert Canonical(ps, s[i]);
      assert r[i].obj == Objs(r)[i];
    }
    forall i | 0 <= i < |r| ensures Canonical(ps, r[i]) {
      assert Canonical(ps, s[i]);
    }
    forall i, j | 0 <= i < j < |r| ensures FlowTimeLe(r[i], r[j]) {
      assert FlowTimeLe(s[i], s[j]);
    }
  }

  lemma {:induction false} FlattenCanonical(ps: seq<Packet>, qs: seq<seq<Keyed>>)
    requires forall i :: 0 <= i < |qs| ==> AllCanonical(ps, qs[i])
    ensures AllCanonical(ps, Flatten(qs))
  {
    if qs != [] {
      FlattenCanonical(ps, qs[1..]);
    }
  }

  /** With the orientations kept, the merged sequence is sorted by flow and time under keys that
      identify conversations. */
  lemma {:induction false} MergedSorted(ps: seq<Packet>, n: nat)
    requires n >= 1 && AllKept(ps, n)
    ensures SortedFT(Merged(ps, n)) && AllCanonical(ps, Merged(ps, n))
  {
    var cs := Chunks(ReadAll(ps), n);
    var qs := Rekeyed(cs);
    forall i | 0 <= i < |qs| ensures SortedFT(qs[i]) && AllCanonical(ps, qs[i]) {
      ChunkCanonical(ps, n, i);
      SortSorted(cs[i]);
      RekeyedChunk(ps, Sort(cs[i]));
    }
    MergeSorted(qs);
    MergeMultiset(qs);
    FlattenCanonical(ps, qs);
    PermutationCanonical(ps, Flatten(qs), Merge(qs));
  }

  /** A chunk whose second keys identify conversations kept its orientations. */
  lemma {:induction false} CanonicalKept(ps: seq<Packet>, s: seq<Keyed>)
    requires AllCanonical(ps, s) && AllCanonical(ps, ReadAll(Objs(s)))
    ensures OrientationKept(s)
  {
    var os := Objs(s);
    ReadShape(os, {}, 0);
    forall i | 0 <= i < |s| ensures ReadAll(os)[i].key.flow == s[i].key.flow {
      assert Canonical(ps, s[i]) && Canonical(ps, ReadAll(os)[i]);
      assert Objs(ReadAll(os))[i] == os[i];
    }
    RekeyAgreesIff(ps, s);
  }

  /** Main result. For any buffer of at least 1, the merged sequence is sorted by flow and time under
      keys that identify conversations exactly when every chunk kept its orientations. */
  lemma {:induction false} MergedSortedIff(ps: seq<Packet>, n: nat)
    requires n >= 1
    ensures SortedFT(Merged(ps, n)) && AllCanonical(ps, Merged(ps, n)) <==> AllKept(ps, n)
  {
    if AllKept(ps, n) {
      MergedSorted(ps, n);
    }
    if AllCanonical(ps, Merged(ps, n)) {
      MergedCanonicalKept(ps, n);
    }
  }

  lemma {:induction false} MergedCanonicalKept(ps: seq<Packet>, n: nat)
    requires n >= 1 && AllCanonical(ps, Merged(ps, n))
    ensures AllKept(ps, n)
  {
    hide Canonical, OrientationKept;
    var cs := Chunks(ReadAll(ps), n);
    var qs := Rekeyed(cs);
    MergeMultiset(qs);
    PermutationCanonical(ps, Merge(qs), Flatten(qs));
    forall i | 0 <= i < |cs| ensures OrientationKept(Sort(cs[i])) {
      ChunkCanonical(ps, n, i);
      FlattenAt(qs, i);
      forall k | 0 <= k < |qs[i]| ensures Canonical(ps, qs[i][k]) {
        assert qs[i][k] in Flatten(qs);
      }
      assert qs[i] == ReadAll(Objs(Sort(cs[i])));
      CanonicalKept(ps, Sort(cs[i]));
    }
  }

  // ---- one chunk

  /** A capture that fits the buffer comes out as the sorted first reading, whatever the second
      reading makes of it. */
  lemma {:induction false} OneChunk(ps: seq<Packet>, n: nat)
    requires |ps| <= n
    ensures Sorted(ps, n) == Objs(Sort(ReadAll(ps)))
  {
    var all := ReadAll(ps);
    if ps != [] {
      var file := ChunkFile(all);
      assert Chunks(all, n) == [all];
      assert Rekeyed([all]) == [ReadAll(file)];
      MergeOne(ReadAll(file));
      ReadShape(file, {}, 0);
    } else {
      assert Chunks(all, n) == [];
      assert Rekeyed([]) == [];
    }
  }
}
