/** How a process's calls are cut into chunk documents, and put together again. */
module CallChunks {
  type ApiCall = string

  datatype Process = Process(pid: int, info: string, calls: seq<ApiCall>)
  datatype StoredProcess = StoredProcess(pid: int, info: string, chunkIds: seq<nat>)
  datatype ChunkDoc = ChunkDoc(pid: int, calls: seq<ApiCall>)

  const CHUNK: nat := 100

  /** The pieces a call list is cut into. */
  function Cut(calls: seq<ApiCall>): seq<seq<ApiCall>> {
    if calls == [] then []
    else if |calls| <= CHUNK then [calls]
    else [calls[..CHUNK]] + Cut(calls[CHUNK..])
  }

  function Join(pieces: seq<seq<ApiCall>>): seq<ApiCall> {
    if pieces == [] then [] else pieces[0] + Join(pieces[1..])
  }

  /** Cutting loses nothing, makes no empty piece, fills every piece but the last, and makes
      ceil(n / 100) of them. */
  lemma {:induction false} CutShape(calls: seq<ApiCall>)
    ensures Join(Cut(calls)) == calls
    ensures |Cut(calls)| == (|calls| + 99) / 100
    ensures forall i :: 0 <= i < |Cut(calls)| ==> 0 < |Cut(calls)[i]| <= 100
    ensures forall i :: 0 <= i < |Cut(calls)| - 1 ==> |Cut(calls)[i]| == 100
  {
    if calls == [] {
    } else if |calls| <= CHUNK {
      assert Join([calls]) == calls + Join([]) == calls;
    } else {
      var rest := calls[CHUNK..];
      CutShape(rest);
      assert Cut(calls)[1..] == Cut(rest);
      assert calls == calls[..CHUNK] + rest;
      assert (|rest| + CHUNK + CHUNK - 1) / CHUNK == (|rest| + CHUNK - 1) / CHUNK + 1;
    }
  }

  /** Full chunks followed by one that is not empty are a cut. */
  lemma {:induction false} CutOfFull(full: seq<seq<ApiCall>>, last: seq<ApiCall>)
    requires forall i :: 0 <= i < |full| ==> |full[i]| == CHUNK
    requires 0 < |last| <= CHUNK
    ensures Cut(Join(full) + last) == full + [last]
  {
    if full == [] {
      assert Join(full) + last == last;
    } else {
      CutOfFull(full[1..], last);
      var all := Join(full) + last;
      assert all == full[0] + (Join(full[1..]) + last);
      assert all[..CHUNK] == full[0] && all[CHUNK..] == Join(full[1..]) + last;
    }
  }

  lemma {:induction false} JoinSnoc(pieces: seq<seq<ApiCall>>, p: seq<ApiCall>)
    ensures Join(pieces + [p]) == Join(pieces) + p
  {
    if pieces == [] {
      assert Join([p]) == p + Join([]) == p;
    } else {
      JoinSnoc(pieces[1..], p);
      assert (pieces + [p])[1..] == pieces[1..] + [p];
    }
  }

  // ---- chunk documents under consecutive ids

  function Range(lo: nat, n: nat): (r: seq<nat>)
    ensures |r| == n && forall i :: 0 <= i < n ==> r[i] == lo + i
  {
    if n == 0 then [] else Range(lo, n - 1) + [lo + n - 1]
  }

  lemma {:induction false} RangeMember(lo: nat, n: nat, i: nat)
    ensures i in Range(lo, n) <==> lo <= i < lo + n
  {
    if lo <= i < lo + n { assert Range(lo, n)[i - lo] == i; }
  }

  type Chunks = map<nat, ChunkDoc>

  /** `calls` with the pieces stored from id `lo` on. */
  function WithPieces(calls: Chunks, lo: nat, pid: int, pieces: seq<seq<ApiCall>>): Chunks {
    if pieces == [] then calls
    else
      var n := |pieces| - 1;
      WithPieces(calls, lo, pid, pieces[..n])[lo + n := ChunkDoc(pid, pieces[n])]
  }

  /** What reading the documents `ids` in the order of the list gives. */
  function Gather(calls: Chunks, ids: seq<nat>): seq<ApiCall>
    requires forall i :: i in ids ==> i in calls
  {
    if ids == [] then [] else calls[ids[0]].calls + Gather(calls, ids[1..])
  }

  lemma {:induction false} GatherFrame(c1: Chunks, c2: Chunks, ids: seq<nat>)
    requires forall i :: i in ids ==> i in c1 && i in c2 && c1[i] == c2[i]
    ensures Gather(c1, ids) == Gather(c2, ids)
  {
    if ids != [] { GatherFrame(c1, c2, ids[1..]); }
  }

  lemma {:induction false} GatherSnoc(calls: Chunks, ids: seq<nat>, i: nat)
    requires i in calls && forall k :: k in ids ==> k in calls
    ensures Gather(calls, ids + [i]) == Gather(calls, ids) + calls[i].calls
  {
    if ids == [] {
      assert [i][1..] == [];
      assert ids + [i] == [i];
    } else {
      GatherSnoc(calls, ids[1..], i);
      assert (ids + [i])[1..] == ids[1..] + [i];
    }
  }

  lemma {:induction false} PiecesKeys(calls: Chunks, lo: nat, pid: int, pieces: seq<seq<ApiCall>>)
    ensures var c := WithPieces(calls, lo, pid, pieces);
      && (forall i :: i in c <==> i in calls || lo <= i < lo + |pieces|)
      && (forall i :: i in calls && !(lo <= i < lo + |pieces|) ==> c[i] == calls[i])
  {
    if pieces != [] {
      PiecesKeys(calls, lo, pid, pieces[..|pieces| - 1]);
    }
  }

  lemma {:induction false} PiecesRead(calls: Chunks, lo: nat, pid: int, pieces: seq<seq<ApiCall>>)
    requires forall i :: lo <= i < lo + |pieces| ==> i in WithPieces(calls, lo, pid, pieces)
    ensures Gather(WithPieces(calls, lo, pid, pieces), Range(lo, |pieces|)) == Join(pieces)
  {
    if pieces != [] {
      var n := |pieces| - 1;
      var before := WithPieces(calls, lo, pid, pieces[..n]);
      var c := WithPieces(calls, lo, pid, pieces);
      PiecesKeys(calls, lo, pid, pieces[..n]);
      PiecesRead(calls, lo, pid, pieces[..n]);
      GatherFrame(before, c, Range(lo, n));
      GatherSnoc(c, Range(lo, n), lo + n);
      JoinSnoc(pieces[..n], pieces[n]);
      assert pieces == pieces[..n] + [pieces[n]];
    }
  }

  lemma {:induction false} PiecesSnoc(calls: Chunks, lo: nat, pid: int, pieces: seq<seq<ApiCall>>, p: seq<ApiCall>)
    ensures WithPieces(calls, lo, pid, pieces + [p])
      == WithPieces(calls, lo, pid, pieces)[lo + |pieces| := ChunkDoc(pid, p)]
    ensures Range(lo, |pieces| + 1) == Range(lo, |pieces|) + [lo + |pieces|]
  {}

  // ---- whole reports

  /** The processes as they are written into the report document, ids being given from `lo` on. */
  function StoredAll(ps: seq<Process>, lo: nat): (r: seq<StoredProcess>)
    ensures |r| == |ps|
  {
    if ps == [] then []
    else
      var n := |ps| - 1;
      StoredAll(ps[..n], lo)
      + [StoredProcess(ps[n].pid, ps[n].info, Range(lo + Total(ps[..n]), |Cut(ps[n].calls)|))]
  }

  function Total(ps: seq<Process>): nat {
    if ps == [] then 0 else Total(ps[..|ps| - 1]) + |Cut(ps[|ps| - 1].calls)|
  }

  function ChunksOf(calls: Chunks, ps: seq<Process>, lo: nat): Chunks {
    if ps == [] then calls
    else
      var n := |ps| - 1;
      WithPieces(ChunksOf(calls, ps[..n], lo), lo + Total(ps[..n]), ps[n].pid, Cut(ps[n].calls))
  }

  /** All chunk ids of a document, in order. */
  function Ids(ps: seq<StoredProcess>): seq<nat> {
    if ps == [] then [] else Ids(ps[..|ps| - 1]) + ps[|ps| - 1].chunkIds
  }

  lemma {:induction false} IdsMember(ps: seq<StoredProcess>, k: nat, i: nat)
    requires k < |ps| && i in ps[k].chunkIds
    ensures i in Ids(ps)
  {
    if k < |ps| - 1 { IdsMember(ps[..|ps| - 1], k, i); }
  }

  /** The processes a document stands for. */
  function Loaded(calls: Chunks, ps: seq<StoredProcess>): seq<Process>
    requires forall i :: i in Ids(ps) ==> i in calls
  {
    if ps == [] then []
    else
      var n := |ps| - 1;
      Loaded(calls, ps[..n]) + [Process(ps[n].pid, ps[n].info, Gather(calls, ps[n].chunkIds))]
  }

  lemma {:induction false} LoadedFrame(c1: Chunks, c2: Chunks, ps: seq<StoredProcess>)
    requires forall i :: i in Ids(ps) ==> i in c1 && i in c2 && c1[i] == c2[i]
    ensures Loaded(c1, ps) == Loaded(c2, ps)
  {
    if ps != [] {
      var n := |ps| - 1;
      LoadedFrame(c1, c2, ps[..n]);
      GatherFrame(c1, c2, ps[n].chunkIds);
    }
  }

  lemma {:induction false} RangeAppend(lo: nat, m: nat, n: nat)
    ensures Range(lo, m) + Range(lo + m, n) == Range(lo, m + n)
  {}

  lemma {:induction false} StoredSnoc(ps: seq<Process>, lo: nat)
    requires ps != []
    ensures var n := |ps| - 1;
      StoredAll(ps, lo) == StoredAll(ps[..n], lo)
        + [StoredProcess(ps[n].pid, ps[n].info, Range(lo + Total(ps[..n]), |Cut(ps[n].calls)|))]
  {}

  lemma {:induction false} ChunksSnoc(calls: Chunks, ps: seq<Process>, lo: nat)
    requires ps != []
    ensures var n := |ps| - 1;
      ChunksOf(calls, ps, lo)
        == WithPieces(ChunksOf(calls, ps[..n], lo), lo + Total(ps[..n]), ps[n].pid, Cut(ps[n].calls))
  {}

  lemma {:induction false} IdsSnoc(st: seq<StoredProcess>, p: StoredProcess)
    ensures Ids(st + [p]) == Ids(st) + p.chunkIds
  {}

  lemma {:induction false} LoadedSnoc(calls: Chunks, st: seq<StoredProcess>, p: StoredProcess)
    requires forall i :: i in Ids(st + [p]) ==> i in calls
    requires forall i :: i in Ids(st) ==> i in calls
    requires forall i :: i in p.chunkIds ==> i in calls
    ensures Loaded(calls, st + [p]) == Loaded(calls, st) + [Process(p.pid, p.info, Gather(calls, p.chunkIds))]
  {}

  /** The ids of a stored report are fresh, consecutive and used once each. */
  lemma {:induction false} StoredIds(ps: seq<Process>, lo: nat)
    ensures Ids(StoredAll(ps, lo)) == Range(lo, Total(ps))
  {
    if ps != [] {
      hide Cut, Ids, StoredAll, Range;
      var n := |ps| - 1;
      StoredIds(ps[..n], lo);
      StoredSnoc(ps, lo);
      IdsSnoc(StoredAll(ps[..n], lo), StoredAll(ps, lo)[n]);
      RangeAppend(lo, Total(ps[..n]), |Cut(ps[n].calls)|);
    }
  }

  lemma {:induction false} ChunksKeys(calls: Chunks, ps: seq<Process>, lo: nat)
    requires forall i :: i in calls ==> i < lo
    ensures var c := ChunksOf(calls, ps, lo);
      && (forall i :: i in c <==> i in calls || lo <= i < lo + Total(ps))
      && (forall i :: i in calls ==> c[i] == calls[i])
  {
    if ps != [] {
      hide Cut, WithPieces;
      var n := |ps| - 1;
      ChunksKeys(calls, ps[..n], lo);
      PiecesKeys(ChunksOf(calls, ps[..n], lo), lo + Total(ps[..n]), ps[n].pid, Cut(ps[n].calls));
    }
  }

  /** One process more: it reads back, and so does everything stored before it. */
  lemma {:induction false} RoundTripStep(before: Chunks, st: seq<StoredProcess>, mid: nat, p: Process)
    requires forall i :: i in before ==> i < mid
    requires forall i :: i in Ids(st) ==> i in before
    ensures var c := WithPieces(before, mid, p.pid, Cut(p.calls));
      var st' := st + [StoredProcess(p.pid, p.info, Range(mid, |Cut(p.calls)|))];
      && (forall i :: i in Ids(st') ==> i in c)
      && Loaded(c, st') == Loaded(before, st) + [p]
  {
    hide Cut, WithPieces, Ids, Gather, Loaded;
    var pieces := Cut(p.calls);
    var c, last := WithPieces(before, mid, p.pid, pieces), StoredProcess(p.pid, p.info, Range(mid, |pieces|));
    PiecesKeys(before, mid, p.pid, pieces);
    PiecesRead(before, mid, p.pid, pieces);
    CutShape(p.calls);
    LoadedFrame(before, c, st);
    IdsSnoc(st, last);
    LoadedSnoc(c, st, last);
  }

  /** Round trip: the stored form of a report reads back as the report. */
  lemma {:induction false} StoreRoundTrip(calls: Chunks, ps: seq<Process>, lo: nat)
    requires forall i :: i in calls ==> i < lo
    ensures forall i :: i in Ids(StoredAll(ps, lo)) ==> i in ChunksOf(calls, ps, lo)
    ensures Loaded(ChunksOf(calls, ps, lo), StoredAll(ps, lo)) == ps
  {
    hide *;
    if ps == [] {
      NoProcesses(ChunksOf(calls, ps, lo), lo);
    } else {
      var n := |ps| - 1;
      var before, mid := ChunksOf(calls, ps[..n], lo), lo + Total(ps[..n]);
      StoreRoundTrip(calls, ps[..n], lo);
      ChunksKeys(calls, ps[..n], lo);
      RoundTripStep(before, StoredAll(ps[..n], lo), mid, ps[n]);
      StoredSnoc(ps, lo);
      ChunksSnoc(calls, ps, lo);
      assert ps == ps[..n] + [ps[n]];
    }
  }

  lemma {:induction false} NoProcesses(calls: Chunks, lo: nat)
    ensures StoredAll([], lo) == [] && Ids([]) == [] && Loaded(calls, []) == []
  {}
}
