/** The report store: analysis documents that refer to chunk documents, written by insert_calls and
    MongoDB.run, cleaned by mongo_delete_data and read back by _load_report. */
module CallStore {
  import opened Wrappers
  import opened CallChunks

  datatype AnalysisDoc = AnalysisDoc(infoId: int, processes: seq<StoredProcess>)

  type Analyses = map<nat, AnalysisDoc>

  /** How storing the report document itself ended: as it was, after the process list had been
      deleted from it for its size, or not at all. */
  datatype Fate = Whole | WithoutProcesses | Refused

  ghost predicate Increasing(ids: seq<nat>) {
    forall i, j :: 0 <= i < j < |ids| ==> ids[i] < ids[j]
  }

  ghost predicate Refers(analyses: Analyses, d: nat, i: nat) {
    d in analyses && i in Ids(analyses[d].processes)
  }

  /** Every id is below the next one to be given. */
  ghost predicate Bounded(calls: Chunks, analyses: Analyses, next: nat) {
    (forall i :: i in calls ==> i < next) && (forall d :: d in analyses ==> d < next)
  }

  /** A document's references exist, are in insertion order, and belong to it alone. */
  ghost predicate Owned(calls: Chunks, analyses: Analyses) {
    && (forall d, i :: Refers(analyses, d, i) ==> i in calls)
    && (forall d :: d in analyses ==> Increasing(Ids(analyses[d].processes)))
    && (forall d1, d2, i :: Refers(analyses, d1, i) && Refers(analyses, d2, i) ==> d1 == d2)
  }

  /** No two documents carry the same id. */
  ghost predicate OneEach(analyses: Analyses) {
    forall d1, d2 :: d1 in analyses && d2 in analyses && analyses[d1].infoId == analyses[d2].infoId ==> d1 == d2
  }

  /** The chunks no document refers to are exactly `orphans`. */
  ghost predicate Accounted(calls: Chunks, analyses: Analyses, orphans: set<nat>) {
    forall i :: i in calls ==> (i in orphans <==> forall d :: !Refers(analyses, d, i))
  }

  /** Read back, the documents are the reports `contents`. */
  ghost predicate Means(calls: Chunks, analyses: Analyses, contents: map<int, seq<Process>>) {
    && (forall d, i :: Refers(analyses, d, i) ==> i in calls)
    && (forall k :: k in contents <==> exists d :: d in analyses && analyses[d].infoId == k)
    && (forall d :: d in analyses ==>
          analyses[d].infoId in contents && contents[analyses[d].infoId] == DocMeans(calls, analyses, d))
  }

  ghost function DocMeans(calls: Chunks, analyses: Analyses, d: nat): seq<Process>
    requires d in analyses && forall i :: Refers(analyses, d, i) ==> i in calls
  {
    assert forall i :: i in Ids(analyses[d].processes) ==> Refers(analyses, d, i);
    Loaded(calls, analyses[d].processes)
  }

  ghost predicate Inv(calls: Chunks, analyses: Analyses, next: nat, contents: map<int, seq<Process>>,
      orphans: set<nat>) {
    && Bounded(calls, analyses, next)
    && Owned(calls, analyses)
    && OneEach(analyses)
    && Accounted(calls, analyses, orphans)
    && (forall i :: i in orphans ==> i in calls)
    && Means(calls, analyses, contents)
  }

  // ---- chunks arriving

  /** New chunks belong to no document yet. */
  lemma {:induction false} ArriveKeeps(calls: Chunks, analyses: Analyses, next: nat, contents: map<int, seq<Process>>,
      orphans: set<nat>, calls': Chunks, next': nat)
    requires Inv(calls, analyses, next, contents, orphans) && next <= next'
    requires forall i :: i in calls' <==> i in calls || next <= i < next'
    requires forall i :: i in calls ==> calls'[i] == calls[i]
    ensures Inv(calls', analyses, next', contents, orphans + (calls'.Keys - calls.Keys))
  {
    hide Loaded, Ids;
    forall d | d in analyses ensures DocMeans(calls', analyses, d) == DocMeans(calls, analyses, d) {
      forall i | i in Ids(analyses[d].processes) ensures i in calls && i in calls' && calls[i] == calls'[i] {
        assert Refers(analyses, d, i);
      }
      LoadedFrame(calls, calls', analyses[d].processes);
    }
  }

  // ---- documents leaving

  /** All chunk ids of the documents `ds`. */
  ghost function RefsOf(analyses: Analyses, ds: set<nat>): set<nat> {
    set d, i | d in ds && d in analyses && i in Ids(analyses[d].processes) :: i
  }

  lemma {:induction false} RefsMember(analyses: Analyses, ds: set<nat>, i: nat)
    ensures i in RefsOf(analyses, ds) <==> exists d :: d in ds && Refers(analyses, d, i)
  {}

  /** Documents leave together with all their chunks. */
  lemma {:induction false} LeaveKeeps(calls: Chunks, analyses: Analyses, next: nat, contents: map<int, seq<Process>>,
      orphans: set<nat>, ds: set<nat>, ids: set<int>)
    requires Inv(calls, analyses, next, contents, orphans)
    requires forall d :: d in ds <==> d in analyses && analyses[d].infoId in ids
    ensures Inv(calls - RefsOf(analyses, ds), analyses - ds, next, contents - ids, orphans)
  {
    hide Loaded, Ids, Increasing;
    var calls', analyses' := calls - RefsOf(analyses, ds), analyses - ds;
    forall d, i | Refers(analyses', d, i) ensures i in calls' && calls'[i] == calls[i] && Refers(analyses, d, i) {
      assert Refers(analyses, d, i);
      RefsMember(analyses, ds, i);
    }
    forall d | d in analyses' ensures DocMeans(calls', analyses', d) == DocMeans(calls, analyses, d) {
      forall i | i in Ids(analyses'[d].processes) ensures i in calls && i in calls' && calls[i] == calls'[i] {
        assert Refers(analyses', d, i);
      }
      LoadedFrame(calls, calls', analyses[d].processes);
    }
    forall i | i in calls' ensures i in orphans <==> forall d :: !Refers(analyses', d, i) {
      RefsMember(analyses, ds, i);
      assert forall d :: Refers(analyses, d, i) ==> d !in ds && Refers(analyses', d, i);
      assert forall d :: Refers(analyses', d, i) ==> Refers(analyses, d, i);
    }
    forall i | i in orphans ensures i in calls' {
      RefsMember(analyses, ds, i);
    }
    forall k ensures k in contents - ids <==> exists d :: d in analyses' && analyses'[d].infoId == k {
      if k in contents && k !in ids {
        var d :| d in analyses && analyses[d].infoId == k;
        assert d in analyses' && analyses'[d].infoId == k;
      }
    }
  }

  // ---- a document arriving

  /** A document arrives for chunks that belonged to none. */
  lemma {:induction false} DocKeeps(calls: Chunks, analyses: Analyses, next: nat, contents: map<int, seq<Process>>,
      orphans: set<nat>, doc: AnalysisDoc)
    requires Inv(calls, analyses, next, contents, orphans)
    requires doc.infoId !in contents && Increasing(Ids(doc.processes))
    requires forall i :: i in Ids(doc.processes) ==> i in orphans && i in calls
    ensures Inv(calls, analyses[next := doc], next + 1, contents[doc.infoId := Loaded(calls, doc.processes)],
                orphans - SetOf(Ids(doc.processes)))
  {
    hide Loaded, Ids, Increasing;
    var analyses' := analyses[next := doc];
    forall d ensures d in analyses ==> d != next {}
    forall d, i ensures Refers(analyses', d, i) <==> Refers(analyses, d, i) || (d == next && i in Ids(doc.processes)) {}
    forall d, i | Refers(analyses, d, i) ensures i !in orphans && i in calls {}
    assert Owned(calls, analyses');
    forall d | d in analyses ensures DocMeans(calls, analyses', d) == DocMeans(calls, analyses, d) {}
    forall i | i in calls ensures
      i in orphans - SetOf(Ids(doc.processes)) <==> forall d :: !Refers(analyses', d, i)
    {
      if i in Ids(doc.processes) { assert Refers(analyses', next, i); }
      if d :| Refers(analyses, d, i) { assert Refers(analyses', d, i); }
    }
    var contents' := contents[doc.infoId := Loaded(calls, doc.processes)];
    forall k ensures k in contents' <==> exists d :: d in analyses' && analyses'[d].infoId == k {
      if k in contents {
        var d :| d in analyses && analyses[d].infoId == k;
        assert d in analyses' && analyses'[d].infoId == k;
      }
      if k == doc.infoId { assert next in analyses' && analyses'[next].infoId == k; }
    }
    forall d | d in analyses ensures analyses[d].infoId != doc.infoId {}
  }

  /** Chunks that belong to no document are not touched when documents leave. */
  lemma {:induction false} OrphansStay(calls: Chunks, analyses: Analyses, next: nat, contents: map<int, seq<Process>>,
      orphans: set<nat>, ds: set<nat>)
    requires Inv(calls, analyses, next, contents, orphans)
    ensures forall i :: i in orphans ==> i in calls - RefsOf(analyses, ds)
  {
    forall i | i in orphans ensures i in calls && i !in RefsOf(analyses, ds) {
      RefsMember(analyses, ds, i);
    }
  }

  lemma {:induction false} RefsGrow(analyses: Analyses, ds: set<nat>, d: nat)
    requires d in analyses
    ensures RefsOf(analyses, ds + {d}) == RefsOf(analyses, ds) + SetOf(Ids(analyses[d].processes))
  {}

  lemma {:induction false} NoRefs(analyses: Analyses)
    ensures RefsOf(analyses, {}) == {}
  {}

  lemma {:induction false} CutOfNone(full: seq<seq<ApiCall>>, calls: seq<ApiCall>)
    requires calls == [] && Join(full) == calls
    requires forall k :: 0 <= k < |full| ==> |full[k]| == CHUNK
    ensures full == [] && Cut(calls) == []
  {}

  lemma {:induction false} IdsOfOne(ps: seq<StoredProcess>, k: nat)
    requires k < |ps| && Increasing(Ids(ps))
    ensures Increasing(ps[k].chunkIds)
  {
    var n := |ps| - 1;
    var front, last := Ids(ps[..n]), ps[n].chunkIds;
    if k < n {
      assert Ids(ps)[..|front|] == front;
      forall i, j | 0 <= i < j < |front| ensures front[i] < front[j] {
        assert Ids(ps)[i] < Ids(ps)[j];
      }
      IdsOfOne(ps[..n], k);
    } else {
      forall i, j | 0 <= i < j < |last| ensures last[i] < last[j] {
        assert Ids(ps)[|front| + i] < Ids(ps)[|front| + j];
      }
    }
  }

  lemma {:induction false} InvParts(calls: Chunks, analyses: Analyses, next: nat, contents: map<int, seq<Process>>,
      orphans: set<nat>)
    requires Inv(calls, analyses, next, contents, orphans)
    ensures Bounded(calls, analyses, next) && Accounted(calls, analyses, orphans)
    ensures forall i :: i in orphans ==> i in calls
  {}

  function SetOf(s: seq<nat>): set<nat> {
    set i | i in s
  }

  lemma {:induction false} Arrived(calls: Chunks, analyses: Analyses, next: nat, contents: map<int, seq<Process>>,
      orphans: set<nat>, ps: seq<Process>)
    requires Inv(calls, analyses, next, contents, orphans)
    ensures var calls', stored, ids := ChunksOf(calls, ps, next), StoredAll(ps, next), SetOf(Range(next, Total(ps)));
      && Inv(calls', analyses, next + Total(ps), contents, orphans + ids)
      && SetOf(Ids(stored)) == ids && orphans !! ids && Increasing(Ids(stored))
      && (forall i :: i in Ids(stored) ==> i in calls')
      && Loaded(calls', stored) == ps
  {
    hide Ids, Loaded, ChunksOf, StoredAll, Inv;
    InvParts(calls, analyses, next, contents, orphans);
    ChunksKeys(calls, ps, next);
    StoredIds(ps, next);
    StoreRoundTrip(calls, ps, next);
    var calls', ids := ChunksOf(calls, ps, next), SetOf(Range(next, Total(ps)));
    forall i ensures i in calls'.Keys - calls.Keys <==> i in ids {
      RangeMember(next, Total(ps), i);
    }
    assert calls'.Keys - calls.Keys == ids;
    ArriveKeeps(calls, analyses, next, contents, orphans, calls', next + Total(ps));
  }

  lemma {:induction false} StillLoaded(before: Chunks, after: Chunks, st: seq<StoredProcess>)
    requires forall i :: i in Ids(st) ==> i in before && i in after && before[i] == after[i]
    ensures Loaded(after, st) == Loaded(before, st)
  {
    LoadedFrame(before, after, st);
  }

  lemma {:induction false} NoIds(calls: Chunks)
    ensures Ids([]) == [] && Increasing(Ids([])) && SetOf(Ids([])) == {} && Loaded(calls, []) == []
  {}

  // ---- reading back

  /** The chunk documents with an id among `ids` and below `n`, in ascending order of id. */
  function Found(calls: Chunks, ids: seq<nat>, n: nat): seq<ChunkDoc> {
    if n == 0 then []
    else Found(calls, ids, n - 1) + if n - 1 in ids && n - 1 in calls then [calls[n - 1]] else []
  }

  function JoinDocs(docs: seq<ChunkDoc>): seq<ApiCall> {
    if docs == [] then [] else JoinDocs(docs[..|docs| - 1]) + docs[|docs| - 1].calls
  }

  lemma {:induction false} JoinDocsSnoc(docs: seq<ChunkDoc>, d: ChunkDoc)
    ensures JoinDocs(docs + [d]) == JoinDocs(docs) + d.calls
  {}

  lemma {:induction false} FoundSame(calls: Chunks, a: seq<nat>, b: seq<nat>, n: nat)
    requires forall i :: 0 <= i < n ==> (i in a <==> i in b)
    ensures Found(calls, a, n) == Found(calls, b, n)
  {
    if n > 0 { FoundSame(calls, a, b, n - 1); }
  }

  lemma {:induction false} FoundStep(calls: Chunks, ids: seq<nat>, n: nat)
    requires n > 0
    ensures Found(calls, ids, n) ==
      if n - 1 in ids && n - 1 in calls then Found(calls, ids, n - 1) + [calls[n - 1]] else Found(calls, ids, n - 1)
  {}

  lemma {:induction false} HeadMember(ids: seq<nat>)
    ensures ids != [] ==> ids[0] in ids
  {}

  lemma {:induction false} FoundNothing(calls: Chunks)
    ensures JoinDocs(Found(calls, [], 0)) == [] == Gather(calls, [])
  {}

  /** The last of increasing ids below `n` either is `n - 1`, or none of them is. */
  lemma {:induction false} LastOrNone(ids: seq<nat>, n: nat)
    requires Increasing(ids) && n > 0 && forall i :: i in ids ==> i < n
    ensures n - 1 in ids ==> ids[|ids| - 1] == n - 1
    ensures n - 1 in ids ==> forall i :: i in ids[..|ids| - 1] ==> i < n - 1 && i in ids
    ensures n - 1 in ids ==>
      Increasing(ids[..|ids| - 1]) && forall i :: 0 <= i < n - 1 ==> (i in ids <==> i in ids[..|ids| - 1])
  {
    if n - 1 in ids {
      var k :| 0 <= k < |ids| && ids[k] == n - 1;
      var last := ids[|ids| - 1];
      assert last in ids;
      assert ids[k] <= last;
      var front := ids[..|ids| - 1];
      assert ids == front + [last];
      forall i | i in front ensures i < n - 1 && i in ids {
        var j :| 0 <= j < |front| && front[j] == i;
        assert ids[j] < last;
      }
    }
  }

  /** Insertion order is id order, so sorting by id puts the chunks back in order. */
  lemma {:induction false} SortedIsInOrder(calls: Chunks, ids: seq<nat>, n: nat)
    requires Increasing(ids) && forall i :: i in ids ==> i in calls && i < n
    ensures JoinDocs(Found(calls, ids, n)) == Gather(calls, ids)
  {
    hide *;
    if n == 0 {
      HeadMember(ids);
      FoundNothing(calls);
    } else {
      LastOrNone(ids, n);
      FoundStep(calls, ids, n);
      if n - 1 in ids {
        var front := ids[..|ids| - 1];
        forall i | i in front ensures i in calls && i < n - 1 {
          assert i in ids;
        }
        SortedIsInOrder(calls, front, n - 1);
        FoundSame(calls, ids, front, n - 1);
        assert ids == front + [n - 1];
        GatherSnoc(calls, front, n - 1);
        JoinDocsSnoc(Found(calls, ids, n - 1), calls[n - 1]);
      } else {
        SortedIsInOrder(calls, ids, n - 1);
      }
    }
  }

  // ---- the store

  class MongoStore {
    var calls: Chunks
    var analyses: Analyses
    var nextId: nat
    ghost var contents: map<int, seq<Process>>  // the reports the store stands for
    ghost var orphans: set<nat>                 // chunks no document refers to

    ghost predicate Valid()
      reads this
    {
      Inv(calls, analyses, nextId, contents, orphans)
    }

    constructor ()
      ensures Valid() && contents == map[] && orphans == {}
    {
      calls, analyses, nextId, contents, orphans := map[], map[], 0, map[], {};
    }

    /** The inner loop of insert_calls: one process's calls, a chunk whenever a hundred are together
        and one more for what is left. */
    method InsertChunks(p: Process) returns (chunkIds: seq<nat>)
      modifies this`calls, this`nextId
      ensures nextId == old(nextId) + |Cut(p.calls)| && chunkIds == Range(old(nextId), |Cut(p.calls)|)
      ensures calls == WithPieces(old(calls), old(nextId), p.pid, Cut(p.calls))
    {
      hide Cut;
      var chunk: seq<ApiCall> := [];
      chunkIds := [];
      ghost var full: seq<seq<ApiCall>> := [];
      for i := 0 to |p.calls|
        invariant |chunk| <= CHUNK && (i > 0 ==> chunk != [])
        invariant Join(full) + chunk == p.calls[..i]
        invariant forall k :: 0 <= k < |full| ==> |full[k]| == CHUNK
        invariant nextId == old(nextId) + |full| && chunkIds == Range(old(nextId), |full|)
        invariant calls == WithPieces(old(calls), old(nextId), p.pid, full)
      {
        if |chunk| == CHUNK {
          PiecesSnoc(old(calls), old(nextId), p.pid, full, chunk);
          JoinSnoc(full, chunk);
          calls := calls[nextId := ChunkDoc(p.pid, chunk)];
          chunkIds := chunkIds + [nextId];
          nextId := nextId + 1;
          full := full + [chunk];
          chunk := [];
        }
        chunk := chunk + [p.calls[i]];
        assert p.calls[..i + 1] == p.calls[..i] + [p.calls[i]];
      }
      assert p.calls[..|p.calls|] == p.calls;
      if chunk != [] {
        CutOfFull(full, chunk);
        PiecesSnoc(old(calls), old(nextId), p.pid, full, chunk);
        calls := calls[nextId := ChunkDoc(p.pid, chunk)];
        chunkIds := chunkIds + [nextId];
        nextId := nextId + 1;
      } else {
        CutOfNone(full, p.calls);
      }
    }

    /** insert_calls */
    method InsertCalls(processes: seq<Process>) returns (stored: seq<StoredProcess>)
      modifies this`calls, this`nextId
      ensures stored == StoredAll(processes, old(nextId))
      ensures calls == ChunksOf(old(calls), processes, old(nextId))
      ensures nextId == old(nextId) + Total(processes)
    {
      hide Cut, WithPieces, Range;
      stored := [];
      for k := 0 to |processes|
        invariant stored == StoredAll(processes[..k], old(nextId))
        invariant calls == ChunksOf(old(calls), processes[..k], old(nextId))
        invariant nextId == old(nextId) + Total(processes[..k])
      {
        var p := processes[k];
        assert processes[..k + 1][..k] == processes[..k] && processes[..k + 1][k] == p;
        var ids := InsertChunks(p);
        stored := stored + [StoredProcess(p.pid, p.info, ids)];
      }
      assert processes[..|processes|] == processes;
    }

    /** mongo_delete_data: the chunks of every document under one of the ids, then the documents. */
    method DeleteData(taskIds: set<int>)
      requires Valid()
      modifies this
      ensures Valid() && contents == old(contents) - taskIds && orphans == old(orphans) && nextId == old(nextId)
      ensures forall i :: i in old(orphans) ==> i in calls && calls[i] == old(calls)[i]
    {
      hide Inv, RefsOf, Ids, Accounted, Bounded, Refers;
      var tasks := set d | d in analyses && analyses[d].infoId in taskIds;
      LeaveKeeps(calls, analyses, nextId, contents, orphans, tasks, taskIds);
      OrphansStay(calls, analyses, nextId, contents, orphans, tasks);
      var analysesTmp := RemoveAll(tasks);
      analyses := analyses - analysesTmp;
      contents := contents - taskIds;
    }

    method RemoveAll(tasks: set<nat>) returns (analysesTmp: set<nat>)
      requires forall d :: d in tasks ==> d in analyses
      modifies this`calls
      ensures calls == old(calls) - RefsOf(analyses, tasks) && analysesTmp == tasks
    {
      hide RefsOf, Ids, SetOf;
      var todo := tasks;
      analysesTmp := {};
      NoRefs(analyses);
      while todo != {}
        invariant todo + analysesTmp == tasks && todo !! analysesTmp
        invariant calls == old(calls) - RefsOf(analyses, analysesTmp)
        decreases |todo|
      {
        var d :| d in todo;
        RemoveChunks(analyses[d].processes);
        RefsGrow(analyses, analysesTmp, d);
        analysesTmp := analysesTmp + {d};
        todo := todo - {d};
      }
      assert analysesTmp == tasks;
    }

    method RemoveChunks(processes: seq<StoredProcess>)
      modifies this`calls
      ensures calls == old(calls) - SetOf(Ids(processes))
    {
      for k := 0 to |processes|
        invariant calls == old(calls) - SetOf(Ids(processes[..k]))
      {
        assert processes[..k + 1][..k] == processes[..k] && processes[..k + 1][k] == processes[k];
        if processes[k].chunkIds != [] {
          calls := calls - SetOf(processes[k].chunkIds);
        }
      }
      assert processes[..|processes|] == processes;
    }

    /** The store order of MongoDB.run: chunks first, then the previous report under the id goes,
        then the new document comes, if it does. */
    method Run(infoId: int, processes: seq<Process>, fate: Fate)
      requires Valid()
      modifies this
      ensures Valid()
      ensures contents == match fate
        case Whole => old(contents)[infoId := processes]
        case WithoutProcesses => old(contents)[infoId := []]
        case Refused => old(contents) - {infoId}
      ensures orphans ==
        if fate.Whole? then old(orphans) else old(orphans) + SetOf(Range(old(nextId), Total(processes)))
    {
      hide Inv, Ids, Loaded, Range, ChunksOf, StoredAll, Total, RefsOf, Increasing;
      InvParts(calls, analyses, nextId, contents, orphans);
      ghost var given := SetOf(Range(nextId, Total(processes)));
      var stored := InsertCalls(processes);
      Arrived(old(calls), analyses, old(nextId), contents, orphans, processes);
      orphans := orphans + given;
      ghost var mid := calls;
      DeleteData({infoId});
      match fate {
        case Whole =>
          StillLoaded(mid, calls, stored);
          DocKeeps(calls, analyses, nextId, contents, orphans, AnalysisDoc(infoId, stored));
          analyses := analyses[nextId := AnalysisDoc(infoId, stored)];
          nextId := nextId + 1;
          contents := contents[infoId := processes];
          orphans := orphans - SetOf(Ids(stored));
        case WithoutProcesses =>
          NoIds(calls);
          DocKeeps(calls, analyses, nextId, contents, orphans, AnalysisDoc(infoId, []));
          analyses := analyses[nextId := AnalysisDoc(infoId, [])];
          nextId := nextId + 1;
          contents := contents[infoId := []];
          assert orphans - {} == orphans;
        case Refused =>
      }
    }

    /** mongo_find over `calls`, sorted by id. */
    method FindSorted(ids: seq<nat>) returns (docs: seq<ChunkDoc>)
      ensures docs == Found(calls, ids, nextId)
    {
      docs := [];
      for i := 0 to nextId
        invariant docs == Found(calls, ids, i)
      {
        if i in ids && i in calls {
          docs := docs + [calls[i]];
        }
      }
    }

    /** mongo_find_one, newest document first. */
    method FindNewest(infoId: int) returns (r: Option<nat>)
      requires Valid()
      ensures r.Some? ==> r.value in analyses && analyses[r.value].infoId == infoId
      ensures r.None? <==> infoId !in contents
    {
      hide Owned, Accounted, Increasing, DocMeans;
      r := None;
      for d := 0 to nextId
        invariant r.Some? ==> r.value in analyses && analyses[r.value].infoId == infoId
        invariant r.None? ==> forall k :: 0 <= k < d && k in analyses ==> analyses[k].infoId != infoId
      {
        if d in analyses && analyses[d].infoId == infoId {
          r := Some(d);
        }
      }
    }

    /** The calls of one stored process. */
    method LoadCalls(p: StoredProcess) returns (loaded: seq<ApiCall>)
      requires Increasing(p.chunkIds) && forall i :: i in p.chunkIds ==> i in calls && i < nextId
      ensures loaded == Gather(calls, p.chunkIds)
    {
      loaded := [];
      var docs := FindSorted(p.chunkIds);
      for i := 0 to |docs|
        invariant loaded == JoinDocs(docs[..i])
      {
        assert docs[..i + 1] == docs[..i] + [docs[i]];
        JoinDocsSnoc(docs[..i], docs[i]);
        loaded := loaded + docs[i].calls;
      }
      assert docs[..|docs|] == docs;
      SortedIsInOrder(calls, p.chunkIds, nextId);
    }

    /** _load_report for one report: exactly what was last stored under the id, whatever was stored
        and deleted since. With no such document the code fails on the missing result. */
    method LoadReport(infoId: int) returns (r: Option<seq<Process>>)
      requires Valid()
      ensures r == if infoId in contents then Some(contents[infoId]) else None
    {
      hide Inv, Loaded, Ids, Gather, Increasing;
      var d := FindNewest(infoId);
      if d.None? {
        return None;
      }
      DocParts(calls, analyses, nextId, contents, orphans, d.value);
      var stored := analyses[d.value].processes;
      var processes: seq<Process> := [];
      NoIds(calls);
      for k := 0 to |stored|
        invariant forall i :: i in Ids(stored[..k]) ==> i in calls
        invariant processes == Loaded(calls, stored[..k])
      {
        var p := stored[k];
        assert stored[..k + 1] == stored[..k] + [p];
        IdsOfOne(stored, k);
        forall i | i in p.chunkIds ensures i in calls && i < nextId {
          IdsMember(stored, k, i);
        }
        var loaded := LoadCalls(p);
        IdsSnoc(stored[..k], p);
        LoadedSnoc(calls, stored[..k], p);
        processes := processes + [Process(p.pid, p.info, loaded)];
      }
      assert stored[..|stored|] == stored;
      r := Some(processes);
    }
  }

  lemma {:induction false} DocParts(calls: Chunks, analyses: Analyses, next: nat, contents: map<int, seq<Process>>,
      orphans: set<nat>, d: nat)
    requires Inv(calls, analyses, next, contents, orphans) && d in analyses
    ensures Increasing(Ids(analyses[d].processes))
    ensures forall i :: i in Ids(analyses[d].processes) ==> i in calls && i < next
    ensures analyses[d].infoId in contents
    ensures contents[analyses[d].infoId] == Loaded(calls, analyses[d].processes)
  {
    forall i | i in Ids(analyses[d].processes) ensures i in calls && i < next {
      assert Refers(analyses, d, i);
    }
  }

  /** Every chunk in the collection is referenced by exactly one document, and every reference is to
      a chunk, as long as nothing was orphaned. */
  lemma {:induction false} NoOrphans(calls: Chunks, analyses: Analyses, next: nat, contents: map<int, seq<Process>>,
      orphans: set<nat>, i: nat)
    requires Inv(calls, analyses, next, contents, orphans)
    ensures i in calls && i !in orphans <==> exists d :: Refers(analyses, d, i)
    ensures forall d1, d2 :: Refers(analyses, d1, i) && Refers(analyses, d2, i) ==> d1 == d2
  {
    hide Ids, Loaded;
    if d :| Refers(analyses, d, i) { assert i in calls; }
  }

  datatype Op = Store(infoId: int, processes: seq<Process>) | Delete(ids: set<int>)

  /** What a history of stores and deletes should leave. */
  function After(ops: seq<Op>): map<int, seq<Process>> {
    if ops == [] then map[]
    else
      match ops[|ops| - 1]
      case Store(id, ps) => After(ops[..|ops| - 1])[id := ps]
      case Delete(ids) => After(ops[..|ops| - 1]) - ids
  }

  /** Over any history of successful stores and deletes the store refines a plain map from report
      ids to reports, and no chunk is ever left behind. */
  method History(ops: seq<Op>) returns (store: MongoStore)
    ensures fresh(store) && store.Valid()
    ensures store.contents == After(ops) && store.orphans == {}
  {
    store := new MongoStore();
    for i := 0 to |ops|
      invariant fresh(store) && store.Valid() && store.contents == After(ops[..i]) && store.orphans == {}
    {
      assert ops[..i + 1][..i] == ops[..i];
      match ops[i]
      case Store(id, ps) => store.Run(id, ps, Whole);
      case Delete(ids) => store.DeleteData(ids);
    }
    assert ops[..|ops|] == ops;
  }
}
