/** SortCap: a capture file whose reader keys each packet with a flow tuple, oriented by the
    tuples this reader has already met. */
module SortCap {
  import opened Wrappers
  import opened Capture
  import opened FlowOrder
  import opened KeyedSort

  function Orient(t: FlowTuple, conns: set<FlowTuple>): FlowTuple {
    if Mirror(t) in conns then Mirror(t) else t
  }

  /** What a reader that has met `conns` and counted `ctr` packets makes of the rest of a file. */
  function Read(ps: seq<Packet>, conns: set<FlowTuple>, ctr: nat): (r: seq<Keyed>)
    ensures |r| == |ps|
  {
    if ps == [] then []
    else
      var f := Orient(FlowOf(ps[0]), conns);
      [Keyed(Key(f, ps[0].ts, ctr + 1), ps[0])] + Read(ps[1..], conns + {f}, ctr + 1)
  }

  /** A fresh reader over a whole file. */
  function ReadAll(ps: seq<Packet>): (r: seq<Keyed>)
    ensures |r| == |ps|
  {
    Read(ps, {}, 0)
  }

  /** Reading keeps the packets and their order; the counter makes every key distinct. */
  lemma {:induction false} ReadShape(ps: seq<Packet>, conns: set<FlowTuple>, ctr: nat)
    ensures Objs(Read(ps, conns, ctr)) == ps
    ensures forall i :: 0 <= i < |ps| ==>
      Read(ps, conns, ctr)[i].key.ts == ps[i].ts && Read(ps, conns, ctr)[i].key.ctr == ctr + 1 + i
  {
    if ps != [] {
      var f := Orient(FlowOf(ps[0]), conns);
      ReadShape(ps[1..], conns + {f}, ctr + 1);
      var rest := Read(ps[1..], conns + {f}, ctr + 1);
      assert Read(ps, conns, ctr)[1..] == rest;
      forall i | 0 <= i < |ps|
        ensures Read(ps, conns, ctr)[i].key.ts == ps[i].ts && Read(ps, conns, ctr)[i].key.ctr == ctr + 1 + i
      {
        if i > 0 { assert Read(ps, conns, ctr)[i] == rest[i - 1]; }
      }
    }
  }

  /** No conversation is in the set in two orientations. */
  ghost predicate OneOrientation(conns: set<FlowTuple>) {
    forall a, b :: a in conns && b in conns && SameConv(a, b) ==> a == b
  }

  lemma {:induction false} OrientKeepsOneOrientation(t: FlowTuple, conns: set<FlowTuple>)
    requires OneOrientation(conns)
    ensures OneOrientation(conns + {Orient(t, conns)})
    ensures forall c :: c in conns && SameConv(c, t) ==> Orient(t, conns) == c
  {}

  /** The tuple of the first packet of `t`'s conversation, which is how that conversation is keyed. */
  function FirstTuple(ps: seq<Packet>, t: FlowTuple): (f: FlowTuple)
    ensures SameConv(f, t)
  {
    if ps == [] then t
    else if SameConv(FlowOf(ps[0]), t) then FlowOf(ps[0])
    else FirstTuple(ps[1..], t)
  }

  lemma {:induction false} FirstTupleOfConv(ps: seq<Packet>, i: nat, t: FlowTuple)
    requires i < |ps| && SameConv(FlowOf(ps[i]), t)
    ensures FirstTuple(ps, t) == FirstTuple(ps, FlowOf(ps[i]))
  {
    if i > 0 && !SameConv(FlowOf(ps[0]), t) {
      FirstTupleOfConv(ps[1..], i - 1, t);
    }
  }

  lemma {:induction false} ReadFlow(ps: seq<Packet>, conns: set<FlowTuple>, ctr: nat, i: nat)
    requires i < |ps| && OneOrientation(conns)
    ensures var t, f := FlowOf(ps[i]), Read(ps, conns, ctr)[i].key.flow;
      && SameConv(f, t)
      && (forall c :: c in conns && SameConv(c, t) ==> f == c)
      && ((forall c :: c in conns ==> !SameConv(c, t)) ==> f == FirstTuple(ps, t))
  {
    OrientKeepsOneOrientation(FlowOf(ps[0]), conns);
    if i > 0 {
      var f0 := Orient(FlowOf(ps[0]), conns);
      ReadFlow(ps[1..], conns + {f0}, ctr + 1, i - 1);
      assert Read(ps, conns, ctr)[i] == Read(ps[1..], conns + {f0}, ctr + 1)[i - 1];
      assert f0 in conns + {f0};
    }
  }

  /** Every packet is keyed with the orientation its conversation was first met in. */
  lemma {:induction false} KeyIsFirstTuple(ps: seq<Packet>, i: nat)
    requires i < |ps|
    ensures ReadAll(ps)[i].key.flow == FirstTuple(ps, FlowOf(ps[i]))
  {
    ReadFlow(ps, {}, 0, i);
  }

  /** Two packets get the same flow key iff their own tuples are equal or mirrored. */
  lemma {:induction false} SameKeyIffSameConv(ps: seq<Packet>, i: nat, j: nat)
    requires i < |ps| && j < |ps|
    ensures ReadAll(ps)[i].key.flow == ReadAll(ps)[j].key.flow <==> SameConv(FlowOf(ps[i]), FlowOf(ps[j]))
  {
    KeyIsFirstTuple(ps, i);
    KeyIsFirstTuple(ps, j);
    if SameConv(FlowOf(ps[i]), FlowOf(ps[j])) {
      FirstTupleOfConv(ps, i, FlowOf(ps[j]));
    }
  }

  class SortCap {
    var file: seq<Packet>  // what is stored under the path
    var open: bool         // a file object exists
    var pos: nat           // how far the reader of that file object has come
    var ctr: nat
    var conns: set<FlowTuple>
    ghost var pending: seq<Keyed>  // the keyed packets this reader will still deliver

    ghost predicate Valid()
      reads this
    {
      && pos <= |file|
      && OneOrientation(conns)
      && (!open ==> pos == 0)
      && pending == Read(file[pos..], conns, ctr)
    }

    /** A closed file that nothing was read from yet. */
    ghost predicate Fresh()
      reads this
    {
      !open && pos == 0 && ctr == 0 && conns == {}
    }

    constructor (stored: seq<Packet>)
      ensures Valid() && Fresh() && file == stored && pending == ReadAll(stored)
    {
      file, open, pos, ctr, conns, pending := stored, false, 0, 0, {}, ReadAll(stored);
      assert stored[0..] == stored;
    }

    /** __iter__: opens the file unless it is open. */
    method Iter()
      requires Valid()
      modifies this`open
      ensures Valid() && open
    {
      open := true;
    }

    /** A closed file is read from its start when it is opened again; the flows met so far stay. */
    method Close()
      requires Valid()
      modifies this`open, this`pos, this`pending
      ensures Valid() && !open && pos == 0 && pending == Read(file, conns, ctr)
    {
      open, pos, pending := false, 0, Read(file, conns, ctr);
      assert file[0..] == file;
    }

    /** The first write truncates whatever the path held; writing nothing still creates the file. */
    method Write(p: Option<Packet>)
      requires Valid()
      modifies this`open, this`file, this`pending
      ensures Valid() && open
      ensures file == (if old(open) then old(file) else []) + (if p.Some? then [p.value] else [])
    {
      if !open {
        open, file := true, [];
      }
      if p.Some? {
        file := file + [p.value];
      }
      pending := Read(file[pos..], conns, ctr);
    }

    /** __next__ */
    method Next() returns (r: Option<Keyed>)
      requires Valid() && open
      modifies this`pos, this`ctr, this`conns, this`pending
      ensures Valid()
      ensures r == if old(pending) == [] then None else Some(old(pending)[0])
      ensures pending == if r.None? then [] else old(pending)[1..]
    {
      if pos == |file| {
        return None;
      }
      var p := file[pos];
      assert file[pos..][1..] == file[pos + 1..];
      ctr := ctr + 1;
      var t := FlowOf(p);
      OrientKeepsOneOrientation(t, conns);
      var f := if Mirror(t) in conns then Mirror(t) else t;
      conns := conns + {f};
      pos := pos + 1;
      pending := pending[1..];
      r := Some(Keyed(Key(f, p.ts, ctr), p));
    }
  }
}
