/** next_connection_packets and packets_for_stream, and what they read back from a sorted capture. */
module FlowStream {
  import opened Wrappers
  import opened Capture
  import opened FlowOrder
  import opened KeyedSort
  import opened SortCap
  import opened BatchSort
  import opened SortedCapture

  datatype StreamPacket = StreamPacket(
    src: Address, dst: Address, sport: nat, dport: nat, payload: Bytes, direction: bool)

  function View(p: Packet, first: FlowTuple): StreamPacket {
    var ft := FlowOf(p);
    StreamPacket(ft.sip, ft.dip, ft.sport, ft.dport, PayloadOf(p), first == ft)
  }

  function Views(ps: seq<Packet>, first: FlowTuple): (r: seq<StreamPacket>)
    ensures |r| == |ps|
  {
    if ps == [] then [] else [View(ps[0], first)] + Views(ps[1..], first)
  }

  /** The longest prefix that stays inside the conversation of `t`. */
  function ConvRun(ps: seq<Packet>, t: FlowTuple): seq<Packet> {
    if ps == [] || !SameConv(FlowOf(ps[0]), t) then [] else [ps[0]] + ConvRun(ps[1..], t)
  }

  /** What a reader positioned at the start of `ps` yields. */
  function Stream(ps: seq<Packet>): seq<StreamPacket> {
    if ps == [] then [] else Views(ConvRun(ps, FlowOf(ps[0])), FlowOf(ps[0]))
  }

  /** A viewer's entry `v` tells of packet `p` its addresses, its ports if the first parse found them,
      and its own TCP or UDP bytes, or what else lies there. */
  ghost predicate Tells(v: StreamPacket, p: Packet) {
    && (p.layer.Ip4? ==> v.src == p.layer.src && v.dst == p.layer.dst)
    && (p.layer.Ip4? && p.layer.proto == PROTO_TCP && p.layer.l3.Tcp? ==>
          v.sport == p.layer.l3.seg.sport && v.dport == p.layer.l3.seg.dport)
    && (p.layer.Ip4? && p.layer.proto == PROTO_UDP && p.layer.l3.Udp? ==>
          v.sport == p.layer.l3.dgm.sport && v.dport == p.layer.l3.dgm.dport)
    && (p.layer.Ip4? && p.layer.l3.Opaque? ==> v.sport == v.dport == 0)
    && (!p.layer.Ip4? ==> v.src == v.dst == "0" && v.sport == v.dport == 0)
    && (!p.layer.NotIp? && p.layer.l3.Tcp? ==> v.payload == p.layer.l3.seg.payload)
    && (!p.layer.NotIp? && p.layer.l3.Udp? ==> v.payload == p.layer.l3.dgm.payload)
    && (!p.layer.NotIp? && p.layer.l3.Opaque? ==> v.payload == p.layer.l3.data)
    && (p.layer.NotIp? ==> v.payload == p.layer.data)
  }

  /** What a viewer is told, packet by packet: who sent it to whom, what it carried, and whether it goes
      the way of the packet whose tuple is `t`. */
  lemma {:induction false} ViewsTell(ps: seq<Packet>, t: FlowTuple)
    ensures forall i :: 0 <= i < |ps| ==>
      var v := Views(ps, t)[i];
      && FlowTuple(v.src, v.dst, v.sport, v.dport, FlowOf(ps[i]).proto) == FlowOf(ps[i])
      && Tells(v, ps[i]) && (v.direction <==> FlowOf(ps[i]) == t)
  {
    if ps != [] {
      ViewsTell(ps[1..], t);
      forall i | 0 <= i < |ps| ensures Views(ps, t)[i] == View(ps[i], t) {
        if i > 0 { ViewsAt(ps, t, i); }
      }
    }
  }

  lemma {:induction false} ViewsAt(ps: seq<Packet>, t: FlowTuple, i: nat)
    requires i < |ps|
    ensures Views(ps, t)[i] == View(ps[i], t)
  {
    if i > 0 { ViewsAt(ps[1..], t, i - 1); }
  }

  lemma {:induction false} RunLongest(ps: seq<Packet>, t: FlowTuple)
    ensures |ConvRun(ps, t)| <= |ps| && ConvRun(ps, t) == ps[..|ConvRun(ps, t)|]
    ensures forall i :: 0 <= i < |ConvRun(ps, t)| ==> SameConv(FlowOf(ps[i]), t)
    ensures |ConvRun(ps, t)| < |ps| ==> !SameConv(FlowOf(ps[|ConvRun(ps, t)|]), t)
  {
    if ps != [] && SameConv(FlowOf(ps[0]), t) {
      var m := |ConvRun(ps[1..], t)|;
      RunLongest(ps[1..], t);
      assert ps[..m + 1] == [ps[0]] + ps[1..][..m];
      forall i | 0 <= i < m + 1 ensures SameConv(FlowOf(ps[i]), t) {
        if i > 0 { assert ps[i] == ps[1..][i - 1]; }
      }
    }
  }

  /** The stream from the front of `ps`: the longest stretch of packets of the first one's flow, in
      either direction. */
  lemma {:induction false} StreamTells(ps: seq<Packet>)
    ensures var out := Stream(ps);
      && |out| <= |ps| && (ps != [] ==> out != [] && out[0].direction)
      && (forall i :: 0 <= i < |out| ==>
            && FlowTuple(out[i].src, out[i].dst, out[i].sport, out[i].dport, FlowOf(ps[i]).proto) == FlowOf(ps[i])
            && SameConv(FlowOf(ps[i]), FlowOf(ps[0])) && Tells(out[i], ps[i])
            && (out[i].direction <==> FlowOf(ps[i]) == FlowOf(ps[0])))
      && (|out| < |ps| ==> !SameConv(FlowOf(ps[|out|]), FlowOf(ps[0])))
  {
    if ps != [] {
      RunLongest(ps, FlowOf(ps[0]));
      ViewsTell(ConvRun(ps, FlowOf(ps[0])), FlowOf(ps[0]));
    }
    hide Views, View, Tells;
  }

  lemma {:induction false} RunStep(ps: seq<Packet>, i: nat, t: FlowTuple)
    requires i < |ps|
    ensures Views(ConvRun(ps[i..], t), t)
         == if SameConv(FlowOf(ps[i]), t) then [View(ps[i], t)] + Views(ConvRun(ps[i + 1..], t), t) else []
  {
    assert ps[i..][1..] == ps[i + 1..];
    if SameConv(FlowOf(ps[i]), t) {
      assert ConvRun(ps[i..], t)[1..] == ConvRun(ps[i + 1..], t);
    }
  }

  lemma {:induction false} StreamIs(ps: seq<Packet>)
    ensures Stream(ps) == if ps == [] then [] else Views(ConvRun(ps[0..], FlowOf(ps[0])), FlowOf(ps[0]))
    ensures forall t :: Views(ConvRun([], t), t) == []
  {
    assert ps[0..] == ps;
  }

  /** The generator, run to its end: everything up to the first packet of another conversation. */
  method NextConnectionPackets(piter: seq<Packet>) returns (out: seq<StreamPacket>)
    ensures out == Stream(piter)
    ensures |out| <= |piter| && (piter != [] ==> out != [])
    ensures |out| < |piter| ==> !SameConv(FlowOf(piter[|out|]), FlowOf(piter[0]))
    ensures forall i :: 0 <= i < |out| ==>
      && SameConv(FlowOf(piter[i]), FlowOf(piter[0])) && Tells(out[i], piter[i])
      && FlowTuple(out[i].src, out[i].dst, out[i].sport, out[i].dport, FlowOf(piter[i]).proto) == FlowOf(piter[i])
      && (out[i].direction <==> FlowOf(piter[i]) == FlowOf(piter[0]))
  {
    hide ConvRun, Views, Stream, Tells;
    StreamIs(piter);
    StreamTells(piter);
    out := [];
    var firstFt: Option<FlowTuple> := None;
    var i := 0;
    while i < |piter|
      invariant 0 <= i <= |piter|
      invariant i == 0 ==> firstFt == None && out == []
      invariant i > 0 ==> firstFt == Some(FlowOf(piter[0]))
      invariant i > 0 ==> out + Views(ConvRun(piter[i..], FlowOf(piter[0])), FlowOf(piter[0])) == Stream(piter)
    {
      var ft := FlowOf(piter[i]);
      if firstFt.None? {
        firstFt := Some(ft);
      }
      var first := firstFt.value;
      RunStep(piter, i, first);
      if !(first == ft || first == Mirror(ft)) {
        break;
      }
      out := out + [View(piter[i], first)];
      i := i + 1;
    }
    assert piter[|piter|..] == [];
  }

  /** packets_for_stream. The first read is there to get past the header; on an empty capture it
      ends the generator with an error. */
  method PacketsForStream(file: seq<Packet>, offset: nat) returns (r: Option<seq<StreamPacket>>)
    ensures r == if file == [] then None
                 else Some(Stream(if offset <= |file| then file[offset..] else []))
  {
    if file == [] {
      return None;
    }
    var out := NextConnectionPackets(if offset <= |file| then file[offset..] else []);
    r := Some(out);
  }

  // ---- stable time order, as a specification of its own

  function AtTs(ps: seq<Packet>, ts: real): seq<Packet> {
    if ps == [] then []
    else (if ps[0].ts == ts then [ps[0]] else []) + AtTs(ps[1..], ts)
  }

  ghost predicate TimeSorted(ps: seq<Packet>) {
    forall i, j :: 0 <= i < j < |ps| ==> ps[i].ts <= ps[j].ts
  }

  /** `out` is `ps` in time order, simultaneous packets staying as they were. */
  ghost predicate StableTimeOrder(out: seq<Packet>, ps: seq<Packet>) {
    TimeSorted(out) && forall ts :: AtTs(out, ts) == AtTs(ps, ts)
  }

  lemma {:induction false} AtTsMember(ps: seq<Packet>, ts: real)
    ensures AtTs(ps, ts) != [] <==> exists i :: 0 <= i < |ps| && ps[i].ts == ts
  {
    if ps != [] {
      AtTsMember(ps[1..], ts);
      if exists i :: 0 <= i < |ps| && ps[i].ts == ts {
        var i :| 0 <= i < |ps| && ps[i].ts == ts;
        if i > 0 { assert ps[1..][i - 1].ts == ts; }
      }
      if i :| 0 <= i < |ps[1..]| && ps[1..][i].ts == ts {
        assert ps[i + 1].ts == ts;
      }
    }
  }

  lemma {:induction false} HeadIsEarliest(a: seq<Packet>, b: seq<Packet>)
    requires TimeSorted(a) && forall ts :: AtTs(a, ts) == AtTs(b, ts)
    requires b != []
    ensures a != [] && a[0].ts <= b[0].ts
  {
    AtTsMember(b, b[0].ts);
    AtTsMember(a, b[0].ts);
  }

  /** There is only one such order, so the predicate pins the result down completely. */
  lemma {:induction false} StableTimeOrderUnique(a: seq<Packet>, b: seq<Packet>, ps: seq<Packet>)
    requires StableTimeOrder(a, ps) && StableTimeOrder(b, ps)
    ensures a == b
  {
    if a == [] && b == [] {
    } else {
      if b != [] { HeadIsEarliest(a, b); }
      HeadIsEarliest(b, a);
      var t := a[0].ts;
      assert AtTs(a, t) == AtTs(ps, t) == AtTs(b, t);
      assert a[0] == AtTs(a, t)[0] == AtTs(b, t)[0] == b[0];
      forall ts ensures AtTs(a[1..], ts) == AtTs(b[1..], ts) {
        assert AtTs(a, ts) == AtTs(ps, ts) == AtTs(b, ts);
        if ts == t {
          assert AtTs(a[1..], ts) == AtTs(a, ts)[1..];
          assert AtTs(b[1..], ts) == AtTs(b, ts)[1..];
        } else {
          assert AtTs(a, ts) == [] + AtTs(a[1..], ts) == AtTs(a[1..], ts);
          assert AtTs(b, ts) == [] + AtTs(b[1..], ts) == AtTs(b[1..], ts);
        }
      }
      StableTimeOrderUnique(a[1..], b[1..], a[1..]);
      assert a == [a[0]] + a[1..] && b == [b[0]] + b[1..];
    }
  }

  // ---- reading a conversation back

  lemma {:induction false} RunOfPrefix(ps: seq<Packet>, t: FlowTuple, m: nat)
    requires m <= |ps|
    requires forall i :: 0 <= i < m ==> SameConv(FlowOf(ps[i]), t)
    requires m < |ps| ==> !SameConv(FlowOf(ps[m]), t)
    ensures ConvRun(ps, t) == ps[..m]
  {
    if m > 0 {
      RunOfPrefix(ps[1..], t, m - 1);
      assert ps[..m] == [ps[0]] + ps[1..][..m - 1];
    }
  }

  lemma {:induction false} ObjsSlice(s: seq<Keyed>, i: nat, j: nat)
    requires i <= j <= |s|
    ensures Objs(s[i..j]) == Objs(s)[i..j]
  {}

  /** In a capture sorted by identifying keys, the run from the front is the whole rest of that
      conversation. */
  lemma {:induction false} RunAtFront(ps: seq<Packet>, q: seq<Keyed>)
    requires AllCanonical(ps, q) && SortedFT(q) && q != []
    ensures ConvRun(Objs(q), FlowOf(q[0].obj)) == ConvPackets(Objs(q), FlowOf(q[0].obj))
  {
    var t := FlowOf(q[0].obj);
    var f := FirstTuple(ps, t);
    var m := |OfFlow(q, f)|;
    assert Canonical(ps, q[0]);
    OfFlowIsInterval(q, f, 0);
    OfFlowIsConv(ps, q, t);
    forall i | 0 <= i < |q| ensures SameConv(FlowOf(q[i].obj), t) <==> q[i].key.flow == f {
      assert Canonical(ps, q[i]);
      CanonicalFlow(ps, q[i], t);
    }
    forall i | 0 <= i < m ensures q[i].key.flow == f {
      assert q[i] == q[0..m][i] == OfFlow(q, f)[i];
      FlowOfOfFlow(q, f, i);
    }
    ObjsSlice(q, 0, m);
    RunOfPrefix(Objs(q), t, m);
  }

  lemma {:induction false} RunIsConversation(ps: seq<Packet>, s: seq<Keyed>, k: nat)
    requires AllCanonical(ps, s) && SortedFT(s) && k < |s|
    ensures var os := Objs(s); var t := FlowOf(os[k]); ConvRun(os[k..], t) == ConvPackets(os[k..], t)
  {
    ObjsSlice(s, k, |s|);
    assert Objs(s)[k..|s|] == Objs(s)[k..] && s[k..|s|] == s[k..];
    RunAtFront(ps, s[k..]);
  }

  lemma {:induction false} FlowOfOfFlow(s: seq<Keyed>, f: FlowTuple, i: nat)
    requires i < |OfFlow(s, f)|
    ensures OfFlow(s, f)[i].key.flow == f && OfFlow(s, f)[i] in s
  {
    if s[0].key.flow == f {
      if i > 0 { FlowOfOfFlow(s[1..], f, i - 1); }
    } else {
      FlowOfOfFlow(s[1..], f, i);
    }
  }

  /** Within one flow a sorted sequence is in time order. */
  lemma {:induction false} OfFlowTimeSorted(ps: seq<Packet>, s: seq<Keyed>, f: FlowTuple)
    requires AllCanonical(ps, s) && SortedFT(s)
    ensures TimeSorted(Objs(OfFlow(s, f)))
  {
    if s != [] {
      OfFlowTimeSorted(ps, s[1..], f);
      if s[0].key.flow == f {
        var rest := OfFlow(s[1..], f);
        assert Canonical(ps, s[0]);
        forall j | 0 <= j < |rest| ensures s[0].obj.ts <= rest[j].obj.ts {
          FlowOfOfFlow(s[1..], f, j);
          var m :| 0 <= m < |s[1..]| && s[1..][m] == rest[j];
          assert FlowTimeLe(s[0], s[m + 1]) && Canonical(ps, s[m + 1]);
        }
      }
    }
  }

  lemma {:induction false} AtIsAtTs(ps: seq<Packet>, s: seq<Keyed>, f: FlowTuple, ts: real)
    requires AllCanonical(ps, s)
    ensures Objs(At(s, f, ts)) == AtTs(Objs(OfFlow(s, f)), ts)
  {
    if s != [] {
      AtIsAtTs(ps, s[1..], f, ts);
      assert Canonical(ps, s[0]);
      var rest, at := OfFlow(s[1..], f), At(s[1..], f, ts);
      if s[0].key.flow == f {
        assert Objs([s[0]] + rest)[1..] == Objs(rest);
        assert Objs([s[0]] + at) == [s[0].obj] + Objs(at);
        assert [] + at == at;
      } else {
        assert [] + rest == rest && [] + at == at;
      }
    }
  }

  /** Main result, one chunk. For every conversation, the sorted capture holds the conversation's
      packets in stable time order. */
  lemma {:induction false} SortedConversation(ps: seq<Packet>, n: nat, t: FlowTuple)
    requires |ps| <= n
    ensures StableTimeOrder(ConvPackets(Sorted(ps, n), t), ConvPackets(ps, t))
  {
    var all := ReadAll(ps);
    var s := Sort(all);
    var f := FirstTuple(ps, t);
    OneChunk(ps, n);
    ReadCanonical(ps);
    SortMultiset(all);
    PermutationCanonical(ps, all, s);
    SortSorted(all);
    OfFlowIsConv(ps, s, t);
    OfFlowIsConv(ps, all, t);
    ReadShape(ps, {}, 0);
    OfFlowTimeSorted(ps, s, f);
    forall ts ensures AtTs(ConvPackets(Objs(s), t), ts) == AtTs(ConvPackets(ps, t), ts) {
      SortStable(all, f, ts);
      AtIsAtTs(ps, s, f, ts);
      AtIsAtTs(ps, all, f, ts);
    }
  }

  /** Position `k` holds the first packet of its conversation. */
  ghost predicate Opens(os: seq<Packet>, k: nat)
    requires k < |os|
  {
    forall i :: 0 <= i < k ==> !SameConv(FlowOf(os[i]), FlowOf(os[k]))
  }

  lemma {:induction false} ConvFrom(os: seq<Packet>, t: FlowTuple, k: nat)
    requires k <= |os|
    requires forall i :: 0 <= i < k ==> !SameConv(FlowOf(os[i]), t)
    ensures ConvPackets(os, t) == ConvPackets(os[k..], t)
  {
    if k > 0 {
      ConvFrom(os[1..], t, k - 1);
      assert os[1..][k - 1..] == os[k..];
    } else {
      assert os[0..] == os;
    }
  }

  /** Sort, then stream: from the first packet of any conversation the reader yields exactly the
      conversation's packets of the original capture, in stable time order, each flagged with
      whether it goes the way of the first one. */
  lemma {:induction false} SortThenStream(ps: seq<Packet>, n: nat, k: nat, conv: seq<Packet>)
    requires |ps| <= n
    requires k < |Sorted(ps, n)| && Opens(Sorted(ps, n), k)
    requires StableTimeOrder(conv, ConvPackets(ps, FlowOf(Sorted(ps, n)[k])))
    ensures Stream(Sorted(ps, n)[k..]) == Views(conv, FlowOf(Sorted(ps, n)[k]))
    ensures conv != [] && conv[0] == Sorted(ps, n)[k]
    ensures var out := Stream(Sorted(ps, n)[k..]);
      |out| == |conv| && forall i :: 0 <= i < |conv| ==>
        && FlowTuple(out[i].src, out[i].dst, out[i].sport, out[i].dport, FlowOf(conv[i]).proto) == FlowOf(conv[i])
        && Tells(out[i], conv[i]) && (out[i].direction <==> FlowOf(conv[i]) == FlowOf(conv[0]))
  {
    hide Tells;
    ViewsTell(conv, FlowOf(Sorted(ps, n)[k]));
    var all := ReadAll(ps);
    var os := Sorted(ps, n);
    var t := FlowOf(os[k]);
    OneChunk(ps, n);
    ReadCanonical(ps);
    SortMultiset(all);
    PermutationCanonical(ps, all, Sort(all));
    SortSorted(all);
    RunIsConversation(ps, Sort(all), k);
    ConvFrom(os, t, k);
    SortedConversation(ps, n, t);
    StableTimeOrderUnique(conv, ConvPackets(os, t), ConvPackets(ps, t));
  }

  /** Every conversation of the capture has such a first packet in the sorted one. */
  lemma {:induction false} ConversationOpens(ps: seq<Packet>, n: nat, i: nat) returns (k: nat)
    requires i < |ps| && n >= 1
    ensures k < |Sorted(ps, n)| && Opens(Sorted(ps, n), k)
    ensures SameConv(FlowOf(Sorted(ps, n)[k]), FlowOf(ps[i]))
  {
    var os := Sorted(ps, n);
    SortKeepsPackets(ps, n);
    assert ps[i] in multiset(ps);
    assert ps[i] in os;
    k :| 0 <= k < |os| && os[k] == ps[i];
    while !Opens(os, k)
      invariant 0 <= k < |os| && SameConv(FlowOf(os[k]), FlowOf(ps[i]))
      decreases k
    {
      var j :| 0 <= j < k && SameConv(FlowOf(os[j]), FlowOf(os[k]));
      k := j;
    }
  }

  lemma {:induction false} ConvMultiset(a: seq<Packet>, b: seq<Packet>, t: FlowTuple)
    requires multiset(a) == multiset(b)
    ensures multiset(ConvPackets(a, t)) == multiset(ConvPackets(b, t))
  {
    forall p ensures multiset(ConvPackets(a, t))[p] == multiset(ConvPackets(b, t))[p] {
      ConvCount(a, t, p);
      ConvCount(b, t, p);
    }
  }

  lemma {:induction false} ConvCount(a: seq<Packet>, t: FlowTuple, p: Packet)
    ensures multiset(ConvPackets(a, t))[p] == if SameConv(FlowOf(p), t) then multiset(a)[p] else 0
  {
    if a != [] {
      ConvCount(a[1..], t, p);
      assert a == [a[0]] + a[1..];
    }
  }

  /** Main result, any number of chunks: with the orientations kept, the reader still yields the
      whole conversation and nothing else, in time order. That they are kept is enough, but a capture
      can do without: see UnkeptYetWhole. */
  lemma {:induction false} ManyChunksThenStream(ps: seq<Packet>, n: nat, k: nat)
    requires n >= 1 && AllKept(ps, n)
    requires k < |Sorted(ps, n)| && Opens(Sorted(ps, n), k)
    ensures var os, t := Sorted(ps, n), FlowOf(Sorted(ps, n)[k]);
      && Stream(os[k..]) == Views(ConvPackets(os, t), t)
      && multiset(ConvPackets(os, t)) == multiset(ConvPackets(ps, t))
      && TimeSorted(ConvPackets(os, t))
      && forall i :: 0 <= i < |ConvPackets(os, t)| ==>
           && Tells(Stream(os[k..])[i], ConvPackets(os, t)[i])
           && (Stream(os[k..])[i].direction <==> FlowOf(ConvPackets(os, t)[i]) == t)
  {
    hide Tells;
    var os := Sorted(ps, n);
    var t := FlowOf(os[k]);
    ViewsTell(ConvPackets(os, t), t);
    MergedSorted(ps, n);
    RunIsConversation(ps, Merged(ps, n), k);
    ConvFrom(os, t, k);
    SortKeepsPackets(ps, n);
    ConvMultiset(os, ps, t);
    OfFlowIsConv(ps, Merged(ps, n), t);
    OfFlowTimeSorted(ps, Merged(ps, n), FirstTuple(ps, t));
  }

  // ---- when orientations are not kept

  function Sample(src: Address, dst: Address, ts: real): Packet {
    Packet([], ts, Ip4(src, dst, PROTO_ICMP, Opaque([], None, None, true)))
  }

  /** A request and its answer in different chunks, with a third flow sorting between the two
      orientations: the answer is sorted away from the request, and the reader loses it. */
  lemma {:induction false} SplitConversation()
    ensures var q, r, o := Sample("a", "c", 1.0), Sample("c", "a", 2.0), Sample("b", "b", 3.0);
      && ConvPackets([q, r, o], FlowOf(q)) == [q, r]
      && Sorted([q, r, o], 1) == [q, o, r]
      && Stream(Sorted([q, r, o], 1)) == [View(q, FlowOf(q))]
      && !AllKept([q, r, o], 1)
  {
    var q, r, o := Sample("a", "c", 1.0), Sample("c", "a", 2.0), Sample("b", "b", 3.0);
    var kq, kr := Keyed(Key(FlowOf(q), 1.0, 1), q), Keyed(Key(FlowOf(q), 2.0, 2), r);
    var ko := Keyed(Key(FlowOf(o), 3.0, 3), o);
    ConvThree(q, r, o);
    ReadThree(q, r, o);
    ThreeChunks(kq, kr, ko);
    SortThree(kq, kr, ko);
    assert Leads([kr], 0) && Sort([kr]) == [kr];
    assert Chunks(ReadAll([q, r, o]), 1)[1] == [kr];
  }

  /** A request and its answer alone in two chunks: the answer turns its chunk round, yet nothing sorts
      between the two, so the stream is whole. */
  lemma {:induction false} UnkeptYetWhole()
    ensures var q, r := Sample("a", "c", 1.0), Sample("c", "a", 2.0);
      && !AllKept([q, r], 1)
      && Sorted([q, r], 1) == [q, r]
      && Stream(Sorted([q, r], 1)) == Views(ConvPackets([q, r], FlowOf(q)), FlowOf(q))
  {
    var q, r := Sample("a", "c", 1.0), Sample("c", "a", 2.0);
    var kq, kr := Keyed(Key(FlowOf(q), 1.0, 1), q), Keyed(Key(FlowOf(q), 2.0, 2), r);
    ConvTwo(q, r);
    ReadTwo(q, r);
    TwoChunks(kq, kr);
    SortTwo(kq, kr);
    assert Leads([kr], 0) && Sort([kr]) == [kr];
    assert Chunks(ReadAll([q, r]), 1)[1] == [kr];
  }

  lemma {:induction false} ConvTwo(q: Packet, r: Packet)
    requires FlowOf(q) == Mirror(FlowOf(r))
    ensures ConvPackets([q, r], FlowOf(q)) == [q, r]
    ensures Stream([q, r]) == Views([q, r], FlowOf(q))
  {
    assert [q, r][1..] == [r] && [r][1..] == [];
    assert ConvPackets([], FlowOf(q)) == [];
    assert ConvPackets([r], FlowOf(q)) == [r];
    assert ConvRun([r], FlowOf(q)) == [r];
    assert ConvRun([q, r], FlowOf(q)) == [q, r];
  }

  lemma {:induction false} ReadTwo(q: Packet, r: Packet)
    requires FlowOf(q) == Mirror(FlowOf(r))
    ensures ReadAll([q, r]) == [Keyed(Key(FlowOf(q), q.ts, 1), q), Keyed(Key(FlowOf(q), r.ts, 2), r)]
  {
    var f := FlowOf(q);
    assert [q, r][1..] == [r] && [r][1..] == [];
    assert Read([r], {f}, 1) == [Keyed(Key(f, r.ts, 2), r)];
    assert {} + {f} == {f};
  }

  lemma {:induction false} TwoChunks(a: Keyed, b: Keyed)
    ensures Chunks([a, b], 1) == [[a], [b]]
  {
    assert [a, b][1..] == [b] && [b][1..] == [];
    assert [a, b][..1] == [a] && [b][..1] == [b];
  }

  lemma {:induction false} SortTwo(kq: Keyed, kr: Keyed)
    requires KeyedLe(Rekey(kq), Rekey(kr))
    ensures Objs(Merge(Rekeyed([[kq], [kr]]))) == [kq.obj, kr.obj]
  {
    var lq, lr := Rekey(kq), Rekey(kr);
    OneRekeyed(kq);
    OneRekeyed(kr);
    assert Rekeyed([[kq], [kr]]) == [[lq], [lr]];
    MergeTwo(lq, lr);
  }

  lemma {:induction false} MergeTwo(a: Keyed, b: Keyed)
    requires KeyedLe(a, b)
    ensures Merge([[a], [b]]) == [a, b]
  {
    assert [a][1..] == [] && [b][1..] == [];
    LeastOfTwo([a], [b]);
    LeastOfTwo([], [b]);
    LeastOfTwo([], []);
    assert [[a], [b]][0 := [a][1..]] == [[], [b]];
    assert [[], [b]][1 := [b][1..]] == [[], []];
    assert Merge([[], []]) == [];
    assert Merge([[], [b]]) == [b];
  }

  lemma {:induction false} LeastOfTwo(a: seq<Keyed>, b: seq<Keyed>)
    ensures Least([a, b]) == if a != [] && (b == [] || KeyedLe(a[0], b[0])) then 0 else if b != [] then 1 else 2
  {
    assert [a, b][..1] == [a] && [a][..0] == [];
    assert Least([]) == 0;
    assert Least([a]) == if a == [] then 1 else 0;
  }

  lemma {:induction false} ConvThree(q: Packet, r: Packet, o: Packet)
    requires FlowOf(q) == Mirror(FlowOf(r)) && !SameConv(FlowOf(q), FlowOf(o))
    ensures ConvPackets([q, r, o], FlowOf(q)) == [q, r]
    ensures Stream([q, o, r]) == [View(q, FlowOf(q))]
  {
    assert [q, r, o][1..] == [r, o] && [r, o][1..] == [o] && [o][1..] == [];
    assert ConvPackets([], FlowOf(q)) == [];
    assert ConvPackets([o], FlowOf(q)) == [];
    assert ConvPackets([r, o], FlowOf(q)) == [r];
    assert [q, o, r][1..] == [o, r] && ConvRun([o, r], FlowOf(q)) == [];
    assert ConvRun([q, o, r], FlowOf(q)) == [q];
  }

  lemma {:induction false} ReadThree(q: Packet, r: Packet, o: Packet)
    requires FlowOf(q) == Mirror(FlowOf(r)) && !SameConv(FlowOf(q), FlowOf(o))
    ensures ReadAll([q, r, o]) ==
      [Keyed(Key(FlowOf(q), q.ts, 1), q), Keyed(Key(FlowOf(q), r.ts, 2), r), Keyed(Key(FlowOf(o), o.ts, 3), o)]
  {
    var f := FlowOf(q);
    assert [q, r, o][1..] == [r, o] && [r, o][1..] == [o] && [o][1..] == [];
    assert Read([o], {f} + {f}, 2) == [Keyed(Key(FlowOf(o), o.ts, 3), o)];
    assert Read([r, o], {f}, 1) == [Keyed(Key(f, r.ts, 2), r), Keyed(Key(FlowOf(o), o.ts, 3), o)];
    assert {} + {f} == {f};
  }

  lemma {:induction false} SortThree(kq: Keyed, kr: Keyed, ko: Keyed)
    requires var lq, lr, lo := Rekey(kq), Rekey(kr), Rekey(ko); KeyedLe(lq, lr) && KeyedLe(lq, lo) && !KeyedLe(lr, lo)
    ensures Objs(Merge(Rekeyed([[kq], [kr], [ko]]))) == [kq.obj, ko.obj, kr.obj]
  {
    OneRekeyed(kq);
    OneRekeyed(kr);
    OneRekeyed(ko);
    assert Rekeyed([[kq], [kr], [ko]]) == [[Rekey(kq)], [Rekey(kr)], [Rekey(ko)]];
    MergeThree(Rekey(kq), Rekey(kr), Rekey(ko));
  }

  function Rekey(k: Keyed): Keyed {
    Keyed(Key(FlowOf(k.obj), k.obj.ts, 1), k.obj)
  }

  lemma {:induction false} ThreeChunks(a: Keyed, b: Keyed, c: Keyed)
    ensures Chunks([a, b, c], 1) == [[a], [b], [c]]
  {
    assert [a, b, c][..1] == [a] && [a, b, c][1..] == [b, c];
    assert [b, c][..1] == [b] && [b, c][1..] == [c];
    assert Chunks([c], 1) == [[c]];
    assert Chunks([b, c], 1) == [[b], [c]];
  }

  lemma {:induction false} OneRekeyed(k: Keyed)
    ensures ReadAll(ChunkFile([k])) == [Rekey(k)]
  {
    assert Sort([k]) == [k];
    assert ChunkFile([k]) == [k.obj];
  }

  lemma {:induction false} MergeThree(a: Keyed, b: Keyed, c: Keyed)
    requires KeyedLe(a, b) && KeyedLe(a, c) && !KeyedLe(b, c)
    ensures Merge([[a], [b], [c]]) == [a, c, b]
  {
    assert [a][1..] == [] && [b][1..] == [] && [c][1..] == [];
    LeastOfThree([a], [b], [c]);
    LeastOfThree([], [b], [c]);
    LeastOfThree([], [b], []);
    LeastOfThree([], [], []);
    assert [[a], [b], [c]][0 := [a][1..]] == [[], [b], [c]];
    assert [[], [b], [c]][2 := [c][1..]] == [[], [b], []];
    assert [[], [b], []][1 := [b][1..]] == [[], [], []];
    assert Merge([[], [], []]) == [];
    assert Merge([[], [b], []]) == [b];
    assert Merge([[], [b], [c]]) == [c, b];
  }

  lemma {:induction false} LeastOfThree(a: seq<Keyed>, b: seq<Keyed>, c: seq<Keyed>)
    ensures Least([a, b, c]) ==
      if a != [] && (b == [] || KeyedLe(a[0], b[0])) then (if c == [] || KeyedLe(a[0], c[0]) then 0 else 2)
      else if b != [] then (if c == [] || KeyedLe(b[0], c[0]) then 1 else 2)
      else if c != [] then 2
      else 3
  {
    assert [a, b, c][..2] == [a, b] && [a, b][..1] == [a] && [a][..0] == [];
    assert Least([]) == 0;
    assert Least([a]) == if a == [] then 1 else 0;
  }
}
