/** batch_sort: an external merge sort through chunk files. The chunk files hold bare packets, so
    the merge compares keys that a fresh reader of each chunk file has derived anew. */
module BatchSort {
  import opened Wrappers
  import opened Capture
  import opened FlowOrder
  import opened KeyedSort
  import opened SortCap

  /** The keyed packets cut into runs of `n`; a buffer of zero stops the sort before it starts. */
  function Chunks(s: seq<Keyed>, n: nat): seq<seq<Keyed>>
    decreases |s|
  {
    if s == [] || n == 0 then []
    else if |s| <= n then [s]
    else [s[..n]] + Chunks(s[n..], n)
  }

  /** What one chunk leaves in its temporary file. */
  function ChunkFile(c: seq<Keyed>): seq<Packet> {
    Objs(Sort(c))
  }

  function Rekeyed(cs: seq<seq<Keyed>>): (r: seq<seq<Keyed>>)
    ensures |r| == |cs|
    ensures forall i :: 0 <= i < |cs| ==> r[i] == ReadAll(ChunkFile(cs[i]))
  {
    if cs == [] then [] else [ReadAll(ChunkFile(cs[0]))] + Rekeyed(cs[1..])
  }

  /** The keyed packets in the order the merge delivers them. */
  function Merged(ps: seq<Packet>, n: nat): seq<Keyed> {
    Merge(Rekeyed(Chunks(ReadAll(ps), n)))
  }

  /** The sorted capture. */
  function Sorted(ps: seq<Packet>, n: nat): seq<Packet> {
    Objs(Merged(ps, n))
  }

  // ---- the imperative form

  lemma {:induction false} LeastByHeads(qs: seq<seq<Keyed>>, rs: seq<seq<Keyed>>)
    requires |qs| == |rs|
    requires forall i :: 0 <= i < |qs| ==> (qs[i] == [] <==> rs[i] == [])
    requires forall i :: 0 <= i < |qs| && qs[i] != [] ==> qs[i][0] == rs[i][0]
    ensures Least(qs) == Least(rs)
  {
    if qs != [] {
      LeastByHeads(qs[..|qs| - 1], rs[..|rs| - 1]);
    }
  }

  lemma {:induction false} ObjsAppend(a: seq<Keyed>, b: seq<Keyed>)
    ensures Objs(a + b) == Objs(a) + Objs(b)
  {
    hide *;
    forall i | 0 <= i < |a + b| ensures Objs(a + b)[i] == (Objs(a) + Objs(b))[i] {}
  }

  lemma {:induction false} ChunksStep(a: seq<Keyed>, c: seq<Keyed>, rest: seq<Keyed>, n: nat)
    requires a == c + rest && |c| <= n
    requires |c| < n ==> rest == []
    ensures Chunks(a, n) == (if c == [] then [] else [c] + Chunks(rest, n))
  {
    if c != [] && rest == [] {
      assert a == c;
    } else if c != [] {
      assert a[..n] == c && a[n..] == rest;
    }
  }

  /** list(islice(iterator, n)) */
  method TakeUpTo(input: SortCap, n: nat) returns (chunk: seq<Keyed>)
    requires input.Valid()
    modifies input`open, input`pos, input`ctr, input`conns, input`pending
    ensures input.Valid() && |chunk| <= n
    ensures chunk + input.pending == old(input.pending)
    ensures |chunk| < n ==> input.pending == []
  {
    hide Read, SortCap.Valid;
    input.Iter();
    chunk := [];
    ghost var all := input.pending;
    assert chunk + all == all;
    while |chunk| < n
      invariant input.Valid() && input.open && |chunk| <= n
      invariant chunk + input.pending == all
    {
      var e := input.Next();
      if e.None? {
        return;
      }
      chunk := chunk + [e.value];
    }
  }

  lemma {:induction false} FreshReadsAll(cap: SortCap)
    requires cap.Valid() && cap.Fresh()
    ensures cap.pending == ReadAll(cap.file)
  {
    assert cap.file[0..] == cap.file;
  }

  lemma {:induction false} ChunkFileIs(chunk: seq<Keyed>)
    ensures ChunkFile(chunk) == Objs(Sort(chunk))
  {}

  /** Sorts one chunk into a temporary file of its own. */
  method WriteChunk(chunk: seq<Keyed>) returns (out: SortCap)
    ensures fresh(out) && out.Valid() && out.Fresh()
    ensures out.file == ChunkFile(chunk) && out.pending == ReadAll(ChunkFile(chunk))
  {
    hide Sort, ReadAll, Read, ChunkFile, SortCap.Valid;
    var sorted := Sort(chunk);
    ChunkFileIs(chunk);
    out := new SortCap([]);
    for i := 0 to |sorted|
      invariant out.Valid() && out.pos == 0 && out.ctr == 0 && out.conns == {}
      invariant out.file == Objs(sorted)[..i]
      invariant i > 0 ==> out.open
    {
      out.Write(Some(sorted[i].obj));
    }
    out.Close();
    FreshReadsAll(out);
  }

  /** `heads[i]` is the element chunk `i` has delivered last, `qs[i]` all it has not merged yet. */
  ghost predicate Holds(chunks: seq<SortCap>, heads: seq<Option<Keyed>>, qs: seq<seq<Keyed>>)
    reads chunks
  {
    && |heads| == |qs| == |chunks|
    && (forall i, j :: 0 <= i < j < |chunks| ==> chunks[i] != chunks[j])
    && (forall i :: 0 <= i < |chunks| ==> chunks[i].Valid() && chunks[i].open)
    && (forall i :: 0 <= i < |chunks| ==>
          if heads[i].None? then qs[i] == [] else qs[i] == [heads[i].value] + chunks[i].pending)
  }

  function HeadLists(heads: seq<Option<Keyed>>): (r: seq<seq<Keyed>>)
    ensures |r| == |heads|
    ensures forall i :: 0 <= i < |heads| ==> r[i] == if heads[i].None? then [] else [heads[i].value]
  {
    if heads == [] then []
    else [if heads[0].None? then [] else [heads[0].value]] + HeadLists(heads[1..])
  }

  /** Opens every chunk reader and takes its first element. */
  method Prime(chunks: seq<SortCap>, ghost all: seq<seq<Keyed>>) returns (heads: seq<Option<Keyed>>)
    requires forall i, j :: 0 <= i < j < |chunks| ==> chunks[i] != chunks[j]
    requires forall i :: 0 <= i < |chunks| ==> chunks[i].Valid()
    requires |all| == |chunks| && forall i :: 0 <= i < |chunks| ==> all[i] == chunks[i].pending
    modifies chunks
    ensures Holds(chunks, heads, all)
  {
    hide Read, SortCap.Valid;
    heads := [];
    for k := 0 to |chunks|
      invariant |heads| == k
      invariant forall i :: 0 <= i < |chunks| ==> chunks[i].Valid()
      invariant forall i :: 0 <= i < k ==> chunks[i].open
      invariant forall i :: 0 <= i < k ==>
        if heads[i].None? then all[i] == [] else all[i] == [heads[i].value] + chunks[i].pending
      invariant forall i :: k <= i < |chunks| ==> chunks[i].pending == all[i]
    {
      chunks[k].Iter();
      var h := chunks[k].Next();
      heads := heads + [h];
    }
  }

  lemma {:induction false} MergeTake(qs: seq<seq<Keyed>>, b: nat)
    requires b == Least(qs) < |qs|
    ensures Objs(Merge(qs)) == [qs[b][0].obj] + Objs(Merge(qs[b := qs[b][1..]]))
    ensures TotalLen(qs[b := qs[b][1..]]) < TotalLen(qs)
  {
    TotalLenUpdate(qs, b, qs[b][1..]);
    ObjsAppend([qs[b][0]], Merge(qs[b := qs[b][1..]]));
  }

  lemma {:induction false} MergeDone(qs: seq<seq<Keyed>>)
    requires Least(qs) == |qs|
    ensures Merge(qs) == []
  {}

  /** The chunk to take from next: heads decide it, whatever the readers still hold. */
  method Choose(chunks: seq<SortCap>, heads: seq<Option<Keyed>>, ghost qs: seq<seq<Keyed>>) returns (b: nat)
    requires Holds(chunks, heads, qs)
    ensures b == Least(qs) && |heads| == |qs| == |chunks|
    ensures b < |chunks| ==> heads[b].Some? && qs[b] != []
  {
    b := Least(HeadLists(heads));
    LeastByHeads(HeadLists(heads), qs);
  }

  /** Writes the head of chunk `b` out and replaces it by that chunk's next element. */
  method Advance(chunks: seq<SortCap>, output: SortCap, heads: seq<Option<Keyed>>, b: nat, ghost qs: seq<seq<Keyed>>)
      returns (heads': seq<Option<Keyed>>)
    requires Holds(chunks, heads, qs)
    requires b < |chunks| && heads[b].Some?
    requires output !in chunks && output.Valid()
    modifies chunks[b], output
    ensures output.Valid() && output.open
    ensures output.file == (if old(output.open) then old(output.file) else []) + [qs[b][0].obj]
    ensures Holds(chunks, heads', qs[b := qs[b][1..]])
  {
    hide Read, SortCap.Valid;
    var h := chunks[b].Next();
    heads' := heads[b := h];
    output.Write(Some(heads[b].value.obj));
  }

  /** heapq.merge over the chunk readers, written out as it delivers; `all` names what the
      readers hold. */
  method MergeInto(chunks: seq<SortCap>, output: SortCap, ghost all: seq<seq<Keyed>>)
    requires forall i, j :: 0 <= i < j < |chunks| ==> chunks[i] != chunks[j]
    requires forall i :: 0 <= i < |chunks| ==> chunks[i].Valid()
    requires |all| == |chunks| && forall i :: 0 <= i < |chunks| ==> all[i] == chunks[i].pending
    requires output !in chunks && output.Valid() && output.file == []
    modifies chunks, output
    ensures output.Valid() && output.file == Objs(Merge(all))
  {
    hide *;
    var heads := Prime(chunks, all);
    ghost var qs := all;
    var b := Choose(chunks, heads, qs);
    while b < |chunks|
      invariant Holds(chunks, heads, qs)
      invariant output.Valid() && (output.open || output.file == [])
      invariant output.file + Objs(Merge(qs)) == Objs(Merge(all))
      invariant b == Least(qs) && |heads| == |qs| == |chunks|
      invariant b < |chunks| ==> heads[b].Some? && qs[b] != []
      decreases TotalLen(qs)
    {
      MergeTake(qs, b);
      heads := Advance(chunks, output, heads, b, qs);
      qs := qs[b := qs[b][1..]];
      b := Choose(chunks, heads, qs);
    }
    assert Merge(qs) == [] by { MergeDone(qs); }
    output.Write(None);
  }

  lemma {:induction false} SortedIs(ps: seq<Packet>, n: nat, cs: seq<seq<Keyed>>)
    requires cs == Chunks(ReadAll(ps), n)
    ensures Sorted(ps, n) == Objs(Merge(Rekeyed(cs)))
  {}

  /** Chunk files whose readers are fresh, one object each. */
  ghost predicate Stored(chunks: seq<SortCap>, cs: seq<seq<Keyed>>)
    reads chunks
  {
    && |chunks| == |cs|
    && (forall i, j :: 0 <= i < j < |chunks| ==> chunks[i] != chunks[j])
    && (forall i :: 0 <= i < |chunks| ==>
          chunks[i].Valid() && chunks[i].Fresh() && chunks[i].pending == ReadAll(ChunkFile(cs[i])))
  }

  lemma {:induction false} NothingStored(chunks: seq<SortCap>, cs: seq<seq<Keyed>>)
    requires chunks == [] && cs == []
    ensures Stored(chunks, cs)
  {}

  lemma {:induction false} StoredSnoc(chunks: seq<SortCap>, cs: seq<seq<Keyed>>, chunk: SortCap, c: seq<Keyed>)
    requires Stored(chunks, cs) && chunk !in chunks
    requires chunk.Valid() && chunk.Fresh() && chunk.pending == ReadAll(ChunkFile(c))
    ensures Stored(chunks + [chunk], cs + [c])
  {
    hide SortCap.Valid, Read, ReadAll, ChunkFile, Sort;
  }

  /** The first half: the input in sorted chunk files of at most `n` packets. */
  method WriteChunks(input: SortCap, n: nat) returns (chunks: seq<SortCap>, ghost cs: seq<seq<Keyed>>)
    requires input.Valid()
    modifies input
    ensures forall i :: 0 <= i < |chunks| ==> fresh(chunks[i])
    ensures Stored(chunks, cs) && cs == Chunks(old(input.pending), n)
  {
    hide *;
    chunks, cs := [], [];
    NothingStored(chunks, cs);
    while true
      invariant input.Valid() && input !in chunks
      invariant forall i :: 0 <= i < |chunks| ==> fresh(chunks[i])
      invariant Stored(chunks, cs)
      invariant cs + Chunks(input.pending, n) == Chunks(old(input.pending), n)
      decreases |input.pending|
    {
      ghost var before := input.pending;
      var current := TakeUpTo(input, n);
      ChunksStep(before, current, input.pending, n);
      if current == [] {
        break;
      }
      var chunk := WriteChunk(current);
      StoredSnoc(chunks, cs, chunk, current);
      chunks, cs := chunks + [chunk], cs + [current];
    }
  }

  /** The whole sort leaves exactly `Sorted` under the output path. */
  method BatchSort(input: SortCap, bufferSize: nat) returns (output: SortCap)
    requires input.Valid() && input.Fresh()
    modifies input
    ensures fresh(output) && output.Valid() && !output.open
    ensures output.file == Sorted(old(input.file), bufferSize)
  {
    hide Read, SortCap.Valid, ReadAll, Sorted, Chunks, Merge, Objs;
    FreshReadsAll(input);
    ghost var ps := input.file;
    ghost var cs;
    var chunks;
    chunks, cs := WriteChunks(input, bufferSize);
    SortedIs(ps, bufferSize, cs);
    output := new SortCap([]);
    MergeInto(chunks, output, Rekeyed(cs));
    output.Close();
  }
}
