/** From the sorted capture through the packet loop to the stream viewer: what the offsets stored
    with the recorded conversations lead to. */
module RecordedStreams {
  import opened Wrappers
  import opened Capture
  import opened FlowOrder
  import opened KeyedSort
  import opened SortCap
  import opened BatchSort
  import opened SortedCapture
  import opened FlowStream
  import opened PcapRun

  /** Where a packet of the conversation carries TCP data, the first parse saw it as TCP. */
  ghost predicate DataParsed(ps: seq<Packet>, t: FlowTuple) {
    forall p :: p in ps && SameConv(FlowOf(p), t) && TcpData(p).Some? ==> !p.layer.NotIp? && p.layer.l3.Tcp?
  }

  function WithData(ps: seq<Packet>): seq<Packet> {
    if ps == [] then []
    else (if TcpData(ps[0]).Some? then [ps[0]] else []) + WithData(ps[1..])
  }

  lemma {:induction false} WithDataAppend(a: seq<Packet>, b: seq<Packet>)
    ensures WithData(a + b) == WithData(a) + WithData(b)
  {
    hide TcpData;
    if a == [] {
      assert a + b == b;
    } else {
      var head := if TcpData(a[0]).Some? then [a[0]] else [];
      WithDataAppend(a[1..], b);
      assert (a + b)[1..] == a[1..] + b;
      assert WithData(a + b) == head + (WithData(a[1..]) + WithData(b));
    }
  }

  lemma {:induction false} ConvAppend(a: seq<Packet>, b: seq<Packet>, t: FlowTuple)
    ensures ConvPackets(a + b, t) == ConvPackets(a, t) + ConvPackets(b, t)
  {
    hide FlowOf, SameConv;
    if a == [] {
      assert a + b == b;
    } else {
      var head := if SameConv(FlowOf(a[0]), t) then [a[0]] else [];
      ConvAppend(a[1..], b, t);
      assert (a + b)[1..] == a[1..] + b;
      assert ConvPackets(a + b, t) == head + (ConvPackets(a[1..], t) + ConvPackets(b, t));
    }
  }

  lemma {:induction false} ConvMember(ps: seq<Packet>, t: FlowTuple, p: Packet)
    ensures p in ConvPackets(ps, t) <==> p in ps && SameConv(FlowOf(p), t)
  {
    if ps != [] { ConvMember(ps[1..], t, p); }
  }

  lemma {:induction false} NoData(ps: seq<Packet>)
    requires forall p :: p in ps ==> TcpData(p).None?
    ensures WithData(ps) == []
  {
    if ps != [] { NoData(ps[1..]); }
  }

  /** Over IPv4 the loop and the sort agree on what a TCP conversation is. */
  lemma {:induction false} TcpPairIsConv(p: Packet, r: Packet)
    requires p.layer.Ip4? && p.layer.l3.Tcp? && TcpData(p).Some?
    requires TcpData(r).Some? && (!r.layer.NotIp? && r.layer.l3.Tcp?)
    ensures SameConv(FlowOf(r), FlowOf(p)) <==> r.layer.Ip4? && SamePair(TcpData(r).value, TcpData(p).value)
  {}

  /** Nothing of a TCP conversation that carries data comes before the packet it is recorded at. */
  lemma {:induction false} NoDataBefore(os: seq<Packet>, i: nat, o: nat)
    requires o <= i < |os| && os[i].layer.Ip4? && Begins(os, TcpData, i) && DataParsed(os, FlowOf(os[i]))
    ensures WithData(ConvPackets(os[o..], FlowOf(os[i]))) == WithData(ConvPackets(os, FlowOf(os[i])))
  {
    hide FlowOf, WithData, ConvPackets, Classify, TcpData, SamePair, SameConv;
    var t := FlowOf(os[i]);
    var before := os[..o];
    assert os == before + os[o..];
    ConvAppend(before, os[o..], t);
    WithDataAppend(ConvPackets(before, t), ConvPackets(os[o..], t));
    forall p | p in ConvPackets(before, t) ensures TcpData(p).None? {
      ConvMember(before, t, p);
      NotMetBefore(os, i, o, p);
    }
    NoData(ConvPackets(before, t));
    assert [] + WithData(ConvPackets(os[o..], t)) == WithData(ConvPackets(os[o..], t));
  }

  lemma {:induction false} NotMetBefore(os: seq<Packet>, i: nat, o: nat, p: Packet)
    requires o <= i < |os| && os[i].layer.Ip4? && Begins(os, TcpData, i) && DataParsed(os, FlowOf(os[i]))
    requires p in os[..o] && SameConv(FlowOf(p), FlowOf(os[i]))
    ensures TcpData(p).None?
  {
    var j :| 0 <= j < o && os[..o][j] == p;
    assert os[..i][j] == p && p in os && os[i] in os;
    SameConvSelf(FlowOf(os[i]));
    hide FlowOf, Classify, TcpData, SamePair, SameConv;
    if TcpData(p).Some? {
      TcpPairIsConv(os[i], p);
    }
  }

  lemma {:induction false} SameConvSelf(t: FlowTuple)
    ensures SameConv(t, t)
  {}

  /** The stream opened at a TCP conversation over IPv4 where its data begins runs to its last packet,
      misses none of its data and holds nothing else; and the offset recorded for it is that place
      exactly when the packet before was read to its end. */
  lemma {:induction false} RecordedOffsetStreams(ps: seq<Packet>, n: nat, i: nat)
    requires |ps| <= n && i < |Sorted(ps, n)| && Begins(Sorted(ps, n), TcpData, i) && Sorted(ps, n)[i].layer.Ip4?
    ensures var os, t := Sorted(ps, n), FlowOf(Sorted(ps, n)[i]);
      && (ConnAt(os, TcpData, i).offset == i <==> i == 0 || !Classify(os[i - 1]).Unread?)
      && Stream(os[i..]) == Views(ConvPackets(os[i..], t), t)
      && (DataParsed(ps, t) ==> WithData(ConvPackets(os[i..], t)) == WithData(ConvPackets(os, t)))
      && StableTimeOrder(ConvPackets(os, t), ConvPackets(ps, t))
  {
    hide FlowOf, WithData, ConvPackets, Classify, TcpData, Sorted, Stream, OffsetAt, SameConv;
    var os := Sorted(ps, n);
    SortedMembers(ps, n);
    OffsetExactIff(os, i);
    StreamFromOneChunk(ps, n, i);
    SortedConversation(ps, n, FlowOf(os[i]));
    if DataParsed(ps, FlowOf(os[i])) {
      NoDataBefore(os, i, i);
    }
  }

  lemma {:induction false} SortedMembers(ps: seq<Packet>, n: nat)
    requires |ps| <= n
    ensures forall p :: p in Sorted(ps, n) <==> p in ps
  {
    hide Sorted;
    SortKeepsPackets(ps, n);
    forall p ensures p in Sorted(ps, n) <==> p in ps {
      assert p in multiset(Sorted(ps, n)) <==> p in multiset(ps);
    }
  }

  /** What a viewer gets at the recorded offset, wherever it points: the rest of the conversation of
      the packet there. If that is the recorded conversation, all its data comes; if not, nothing of
      it does. The packets between the offset and the conversation were all left unread. */
  lemma {:induction false} AtRecordedOffset(ps: seq<Packet>, n: nat, i: nat)
    requires |ps| <= n && i < |Sorted(ps, n)| && Begins(Sorted(ps, n), TcpData, i) && Sorted(ps, n)[i].layer.Ip4?
    ensures var os, t := Sorted(ps, n), FlowOf(Sorted(ps, n)[i]);
      var o := ConnAt(os, TcpData, i).offset;
      && o <= i && (forall k :: o <= k < i ==> Classify(os[k]).Unread?)
      && Stream(os[o..]) == Views(ConvPackets(os[o..], FlowOf(os[o])), FlowOf(os[o]))
      && (SameConv(FlowOf(os[o]), t) ==> ConvPackets(os[o..], FlowOf(os[o])) == ConvPackets(os[o..], t))
      && (SameConv(FlowOf(os[o]), t) && DataParsed(ps, t) ==>
            WithData(ConvPackets(os[o..], t)) == WithData(ConvPackets(os, t)))
      && (os[i] in ConvPackets(os[o..], FlowOf(os[o])) <==> SameConv(FlowOf(os[o]), t))
      && (!SameConv(FlowOf(os[o]), t) ==>
            forall p :: p in ConvPackets(os[o..], FlowOf(os[o])) ==> !SameConv(FlowOf(p), t))
  {
    hide FlowOf, WithData, ConvPackets, Classify, TcpData, Sorted, Stream, OffsetAt, SameConv;
    var os := Sorted(ps, n);
    var o, t := OffsetAt(os, i), FlowOf(os[i]);
    OffsetExactIff(os, i);
    StreamFromOneChunk(ps, n, o);
    SortedMembers(ps, n);
    if SameConv(FlowOf(os[o]), t) {
      ConvOfSame(os[o..], FlowOf(os[o]), t);
      if DataParsed(ps, t) {
        NoDataBefore(os, i, o);
      }
    }
    assert os[o..][i - o] == os[i];
    ConvMember(os[o..], FlowOf(os[o]), os[i]);
    forall p ensures p in ConvPackets(os[o..], FlowOf(os[o])) && SameConv(FlowOf(p), t) ==> SameConv(FlowOf(os[o]), t) {
      ConvMember(os[o..], FlowOf(os[o]), p);
      SameConvEuclid(FlowOf(p), FlowOf(os[o]), t);
    }
    SameConvSwap(FlowOf(os[o]), t);
  }

  lemma {:induction false} SameConvSwap(a: FlowTuple, b: FlowTuple)
    ensures SameConv(a, b) <==> SameConv(b, a)
  {}

  lemma {:induction false} SameConvEuclid(a: FlowTuple, b: FlowTuple, c: FlowTuple)
    ensures SameConv(a, b) && SameConv(a, c) ==> SameConv(b, c)
  {}

  lemma {:induction false} ConvOfSame(ps: seq<Packet>, a: FlowTuple, b: FlowTuple)
    requires SameConv(a, b)
    ensures ConvPackets(ps, a) == ConvPackets(ps, b)
  {
    if ps != [] {
      ConvOfSame(ps[1..], a, b);
    }
  }

  /** A capture with one unreadable packet and one with data: the data is recorded at the unreadable
      packet, and the stream opened there holds none of it. */
  lemma {:induction false} StaleOffset()
    ensures var broken := Packet([], 1.0, Ip4("a", "b", PROTO_TCP, Opaque([], None, None, false)));
      var data := Packet([], 2.0, Ip4("a", "b", PROTO_TCP, Tcp(TcpSegment(80, 1000, 1, 1, [7]))));
      var os := Sorted([broken, data], 2);
      && os == [broken, data] && Begins(os, TcpData, 1)
      && ConnAt(os, TcpData, 1).offset == 0
      && Stream(os[0..]) == [View(broken, FlowOf(broken))]
  {
    var broken := Packet([], 1.0, Ip4("a", "b", PROTO_TCP, Opaque([], None, None, false)));
    var data := Packet([], 2.0, Ip4("a", "b", PROTO_TCP, Tcp(TcpSegment(80, 1000, 1, 1, [7]))));
    var ps := [broken, data];
    assert FlowOf(broken) == FlowTuple("a", "b", 0, 0, PROTO_TCP);
    assert FlowOf(data) == FlowTuple("a", "b", 80, 1000, PROTO_TCP);
    ReadApart(broken, data);
    OneChunk(ps, 2);
    assert ps[..1] == [broken] && TcpData(broken).None? && TcpData(data).Some?;
    assert OffsetAt(ps, 0) == 0 && OffsetAt(ps, 1) == 0;
    assert ps[1..] == [data] && ps[0..] == ps;
    assert ConvRun([data], FlowOf(broken)) == [];
    assert ConvRun(ps, FlowOf(broken)) == [broken];
  }

  lemma {:induction false} ReadApart(a: Packet, b: Packet)
    requires !SameConv(FlowOf(a), FlowOf(b)) && FlowLe(FlowOf(a), FlowOf(b))
    ensures Objs(Sort(ReadAll([a, b]))) == [a, b]
  {
    var ka, kb := Keyed(Key(FlowOf(a), a.ts, 1), a), Keyed(Key(FlowOf(b), b.ts, 2), b);
    assert [a, b][1..] == [b] && [b][1..] == [];
    assert {} + {FlowOf(a)} == {FlowOf(a)};
    assert Read([b], {FlowOf(a)}, 1) == [kb];
    assert ReadAll([a, b]) == [ka, kb];
    assert KeyedLe(ka, kb);
    assert [ka, kb][1..] == [kb] && [kb][1..] == [];
    assert Sort([kb]) == [kb];
    assert Sort([ka, kb]) == [ka, kb];
  }

  lemma {:induction false} StreamFromOneChunk(ps: seq<Packet>, n: nat, i: nat)
    requires |ps| <= n && i < |Sorted(ps, n)|
    ensures Stream(Sorted(ps, n)[i..]) ==
      Views(ConvPackets(Sorted(ps, n)[i..], FlowOf(Sorted(ps, n)[i])), FlowOf(Sorted(ps, n)[i]))
  {
    var all := ReadAll(ps);
    OneChunk(ps, n);
    ReadCanonical(ps);
    SortMultiset(all);
    PermutationCanonical(ps, all, Sort(all));
    SortSorted(all);
    RunIsConversation(ps, Sort(all), i);
  }

  function NotIpv4(ps: seq<Packet>): seq<Packet> {
    if ps == [] then []
    else (if ps[0].layer.Ip4? then [] else [ps[0]]) + NotIpv4(ps[1..])
  }

  lemma {:induction false} NoFlowIsNotIpv4(ps: seq<Packet>)
    ensures ConvPackets(ps, NO_FLOW) == NotIpv4(ps)
  {
    if ps != [] { NoFlowIsNotIpv4(ps[1..]); }
  }

  /** Over IPv6 the loop records conversations but the sort does not look at them: whatever IPv6
      packet the stream is opened at, it yields every later packet that is not IPv4, all flagged
      as going the same way. */
  lemma {:induction false} Ipv6StreamsMix(ps: seq<Packet>, n: nat, i: nat)
    requires |ps| <= n && i < |Sorted(ps, n)| && !Sorted(ps, n)[i].layer.Ip4?
    ensures Stream(Sorted(ps, n)[i..]) == Views(NotIpv4(Sorted(ps, n)[i..]), NO_FLOW)
    ensures forall k :: 0 <= k < |Stream(Sorted(ps, n)[i..])| ==> Stream(Sorted(ps, n)[i..])[k].direction
  {
    var rest := Sorted(ps, n)[i..];
    StreamFromOneChunk(ps, n, i);
    NoFlowIsNotIpv4(rest);
    AllNoFlow(rest);
  }

  lemma {:induction false} AllNoFlow(ps: seq<Packet>)
    ensures var v := Views(NotIpv4(ps), NO_FLOW); forall k :: 0 <= k < |v| ==> v[k].direction
  {
    if ps != [] {
      AllNoFlow(ps[1..]);
      if !ps[0].layer.Ip4? {
        assert NotIpv4(ps)[1..] == NotIpv4(ps[1..]);
        assert Views(NotIpv4(ps), NO_FLOW) == [View(ps[0], NO_FLOW)] + Views(NotIpv4(ps[1..]), NO_FLOW);
      } else {
        assert NotIpv4(ps) == NotIpv4(ps[1..]);
      }
    }
  }
}
