/** Pcap.run: the per-packet loop that records TCP and UDP conversations and reports dead hosts. */
module PcapRun {
  import opened Wrappers
  import opened Capture

  datatype Quad = Quad(src: Address, sport: nat, dst: Address, dport: nat)
  datatype Host = Host(ip: Address, port: nat)
  datatype SeqAck = SeqAck(seqno: nat, ack: nat)
  datatype Conn = Conn(quad: Quad, offset: nat, time: real)

  function Reverse(q: Quad): Quad {
    Quad(q.dst, q.dport, q.src, q.sport)
  }

  predicate SamePair(a: Quad, b: Quad) {
    a == b || a == Reverse(b)
  }

  /** How the loop body sees a packet. `Unread` is left through an exception handler or the
      `continue` of a failed TCP parse, which skip the update of `offset`. */
  datatype Event =
    | Passed
    | Unread
    | TcpPacket(quad: Quad, seg: TcpSegment)
    | UdpPacket(quad: Quad, dgm: UdpDatagram)

  function Classify(p: Packet): Event {
    match p.layer
    case NotIp(_) => Passed
    case Ip4(src, dst, proto, l3) => ClassifyIp(src, dst, proto, l3)
    case Ip6(src, dst, proto, l3) => ClassifyIp(src, dst, proto, l3)
  }

  function ClassifyIp(src: Address, dst: Address, proto: nat, l3: L3): Event {
    if proto == PROTO_TCP then
      match l3
      case Tcp(seg) => TcpPacket(Quad(src, seg.sport, dst, seg.dport), seg)
      case Opaque(_, Some(seg), _, _) => TcpPacket(Quad(src, seg.sport, dst, seg.dport), seg)
      case _ => Unread
    else if proto == PROTO_UDP then
      match l3
      case Udp(dgm) => UdpPacket(Quad(src, dgm.sport, dst, dgm.dport), dgm)
      case Opaque(_, _, Some(dgm), _) => UdpPacket(Quad(src, dgm.sport, dst, dgm.dport), dgm)
      case _ => Unread
    else if proto == PROTO_ICMP then
      match l3
      case Opaque(_, _, _, true) => Passed
      case _ => Unread
    else Passed
  }

  // ---- specification of the conversation lists

  /** The 4-tuple under which a packet is recorded: a TCP packet with payload, any UDP packet. */
  function TcpData(p: Packet): Option<Quad> {
    var e := Classify(p);
    if e.TcpPacket? && e.seg.payload != [] then Some(e.quad) else None
  }

  function AnyUdp(p: Packet): Option<Quad> {
    var e := Classify(p);
    if e.UdpPacket? then Some(e.quad) else None
  }

  /** Some packet of `ps` is recorded under `q`, in either direction. */
  ghost predicate Met(ps: seq<Packet>, pick: Packet -> Option<Quad>, q: Quad) {
    exists i :: 0 <= i < |ps| && pick(ps[i]).Some? && SamePair(pick(ps[i]).value, q)
  }

  /** Packet `i` is the first of its conversation. */
  ghost predicate Begins(ps: seq<Packet>, pick: Packet -> Option<Quad>, i: nat)
    requires i < |ps|
  {
    pick(ps[i]).Some? && !Met(ps[..i], pick, pick(ps[i]).value)
  }

  /** The file position the loop remembers when it comes to packet `i`: that of the packet after
      the last one it finished reading. */
  function OffsetAt(ps: seq<Packet>, i: nat): nat
    requires i <= |ps|
  {
    if i == 0 then 0
    else if Classify(ps[i - 1]).Unread? then OffsetAt(ps, i - 1)
    else i
  }

  /** The reference time once `ps` was seen: a time stamp of zero counts as not set. */
  function FirstTs(ps: seq<Packet>): real {
    if ps == [] then 0.0
    else
      var before := FirstTs(ps[..|ps| - 1]);
      if before == 0.0 then ps[|ps| - 1].ts else before
  }

  ghost function ConnAt(ps: seq<Packet>, pick: Packet -> Option<Quad>, i: nat): Conn
    requires i < |ps| && pick(ps[i]).Some?
  {
    Conn(pick(ps[i]).value, OffsetAt(ps, i), ps[i].ts - FirstTs(ps[..i + 1]))
  }

  ghost function Recorded(ps: seq<Packet>, pick: Packet -> Option<Quad>): seq<Conn> {
    if ps == [] then []
    else
      var n := |ps| - 1;
      Recorded(ps[..n], pick) + if Begins(ps, pick, n) then [ConnAt(ps, pick, n)] else []
  }

  lemma {:induction false} OffsetAtPrefix(ps: seq<Packet>, m: nat, i: nat)
    requires i <= m <= |ps|
    ensures OffsetAt(ps[..m], i) == OffsetAt(ps, i)
  {
    if i > 0 { OffsetAtPrefix(ps, m, i - 1); }
  }

  lemma {:induction false} ConnAtPrefix(ps: seq<Packet>, pick: Packet -> Option<Quad>, m: nat, i: nat)
    requires i < m <= |ps|
    ensures Begins(ps[..m], pick, i) == Begins(ps, pick, i)
    ensures pick(ps[i]).Some? ==> ConnAt(ps[..m], pick, i) == ConnAt(ps, pick, i)
  {
    OffsetAtPrefix(ps, m, i);
    assert ps[..m][..i] == ps[..i] && ps[..m][..i + 1] == ps[..i + 1];
  }

  /** The recorded entries are those made at the packets that begin a conversation. */
  lemma {:induction false} RecordedAre(ps: seq<Packet>, pick: Packet -> Option<Quad>, c: Conn)
    ensures c in Recorded(ps, pick) <==>
      exists i :: 0 <= i < |ps| && Begins(ps, pick, i) && c == ConnAt(ps, pick, i)
  {
    if ps != [] {
      var n := |ps| - 1;
      var front := ps[..n];
      RecordedAre(front, pick, c);
      forall i | 0 <= i < n
        ensures Begins(front, pick, i) == Begins(ps, pick, i)
        ensures pick(ps[i]).Some? ==> ConnAt(front, pick, i) == ConnAt(ps, pick, i)
      {
        ConnAtPrefix(ps, pick, n, i);
      }
      if c in Recorded(front, pick) {
        var i :| 0 <= i < n && Begins(front, pick, i) && c == ConnAt(front, pick, i);
        assert Begins(ps, pick, i) && c == ConnAt(ps, pick, i);
      }
      if i :| 0 <= i < |ps| && Begins(ps, pick, i) && c == ConnAt(ps, pick, i) {
        if i < n { assert Begins(front, pick, i) && c == ConnAt(front, pick, i); }
      }
    }
  }

  /** Every conversation is recorded once: no two entries share one. */
  lemma {:induction false} RecordedOnce(ps: seq<Packet>, pick: Packet -> Option<Quad>, a: nat, b: nat)
    requires a < b < |Recorded(ps, pick)|
    ensures !SamePair(Recorded(ps, pick)[a].quad, Recorded(ps, pick)[b].quad)
  {
    var n := |ps| - 1;
    var r := Recorded(ps[..n], pick);
    if b < |r| {
      RecordedOnce(ps[..n], pick, a, b);
    } else {
      RecordedAre(ps[..n], pick, r[a]);
      var i :| 0 <= i < n && Begins(ps[..n], pick, i) && r[a] == ConnAt(ps[..n], pick, i);
      assert ps[..n][i] == ps[i];
    }
  }

  /** The remembered position is the packet's own exactly when the packet before it was read. Else it
      is that of the first of the unread packets before it. */
  lemma {:induction false} OffsetExactIff(ps: seq<Packet>, i: nat)
    requires i <= |ps|
    ensures OffsetAt(ps, i) == i <==> i == 0 || !Classify(ps[i - 1]).Unread?
    ensures OffsetAt(ps, i) <= i
    ensures forall k :: OffsetAt(ps, i) <= k < i ==> Classify(ps[k]).Unread?
    ensures OffsetAt(ps, i) > 0 ==> !Classify(ps[OffsetAt(ps, i) - 1]).Unread?
  {
    if i > 0 { OffsetExactIff(ps, i - 1); }
  }

  // ---- specification of the dead hosts

  /** A TCP packet without payload: its 4-tuple and its numbers. */
  function Bare(p: Packet): Option<(Quad, SeqAck)> {
    var e := Classify(p);
    if e.TcpPacket? && e.seg.payload == [] then Some((e.quad, SeqAck(e.seg.seqno, e.seg.ack))) else None
  }

  /** The numbers of the last payload-less packet on the 4-tuple `q`. */
  function LastBare(ps: seq<Packet>, q: Quad): Option<SeqAck> {
    if ps == [] then None
    else
      var b := Bare(ps[|ps| - 1]);
      if b.Some? && b.value.0 == q then Some(b.value.1) else LastBare(ps[..|ps| - 1], q)
  }

  /** Packet `i` is a retry: it repeats the numbers of the payload-less packet before it on its
      4-tuple. */
  predicate Retry(ps: seq<Packet>, i: nat, h: Host)
    requires i < |ps|
  {
    var b := Bare(ps[i]);
    b.Some? && Host(b.value.0.dst, b.value.0.dport) == h && LastBare(ps[..i], b.value.0) == Some(b.value.1)
  }

  function Retries(ps: seq<Packet>, h: Host): nat {
    if ps == [] then 0
    else
      var n := |ps| - 1;
      Retries(ps[..n], h) + if Retry(ps, n, h) then 1 else 0
  }

  /** Some packet carries payload to the host. */
  ghost predicate Answered(ps: seq<Packet>, h: Host) {
    exists i :: 0 <= i < |ps| && TcpData(ps[i]).Some? && Host(TcpData(ps[i]).value.dst, TcpData(ps[i]).value.dport) == h
  }

  lemma {:induction false} RetryPrefix(ps: seq<Packet>, m: nat, i: nat, h: Host)
    requires i < m <= |ps|
    ensures Retry(ps[..m], i, h) == Retry(ps, i, h)
  {
    assert ps[..m][..i] == ps[..i];
  }

  lemma {:induction false} RetryExists(ps: seq<Packet>, h: Host)
    ensures Retries(ps, h) >= 1 <==> exists i :: 0 <= i < |ps| && Retry(ps, i, h)
  {
    if ps != [] {
      var n := |ps| - 1;
      RetryExists(ps[..n], h);
      forall i | 0 <= i < n ensures Retry(ps[..n], i, h) == Retry(ps, i, h) {
        RetryPrefix(ps, n, i, h);
      }
      if i :| 0 <= i < |ps[..n]| && Retry(ps[..n], i, h) { assert Retry(ps, i, h); }
      if i :| 0 <= i < |ps| && Retry(ps, i, h) {
        if i < n { assert Retry(ps[..n], i, h); }
      }
    }
  }

  /** Two retries at different places are what a count of two means. */
  lemma {:induction false} TwoRetries(ps: seq<Packet>, h: Host)
    ensures Retries(ps, h) >= 2 <==> exists i, j :: 0 <= i < j < |ps| && Retry(ps, i, h) && Retry(ps, j, h)
  {
    hide Retry;
    if ps != [] {
      var n := |ps| - 1;
      TwoRetries(ps[..n], h);
      RetryExists(ps[..n], h);
      forall i | 0 <= i < n ensures Retry(ps[..n], i, h) == Retry(ps, i, h) {
        RetryPrefix(ps, n, i, h);
      }
      if Retries(ps[..n], h) >= 2 {
        var i, j :| 0 <= i < j < n && Retry(ps[..n], i, h) && Retry(ps[..n], j, h);
        assert Retry(ps, i, h) && Retry(ps, j, h);
      } else if Retries(ps, h) >= 2 {
        var i :| 0 <= i < n && Retry(ps[..n], i, h);
        assert Retry(ps, i, h) && Retry(ps, n, h);
      }
      if i, j :| 0 <= i < j < |ps| && Retry(ps, i, h) && Retry(ps, j, h) {
        assert Retry(ps[..n], i, h);
        if j < n { assert Retry(ps[..n], j, h); }
      }
    }
  }

  // ---- the same, in the fields of the packets

  /** `p` is an IP packet from `src` to `dst` with the TCP segment `seg`, found by the first parse or by
      a second one. */
  ghost predicate SendsTcp(p: Packet, src: Address, dst: Address, seg: TcpSegment) {
    && !p.layer.NotIp? && p.layer.src == src && p.layer.dst == dst && p.layer.proto == PROTO_TCP
    && (p.layer.l3 == L3.Tcp(seg) || (p.layer.l3.Opaque? && p.layer.l3.asTcp == Some(seg)))
  }

  ghost predicate SendsUdp(p: Packet, src: Address, dst: Address, dgm: UdpDatagram) {
    && !p.layer.NotIp? && p.layer.src == src && p.layer.dst == dst && p.layer.proto == PROTO_UDP
    && (p.layer.l3 == L3.Udp(dgm) || (p.layer.l3.Opaque? && p.layer.l3.asUdp == Some(dgm)))
  }

  /** `p` carries TCP data from the first to the second end of `q`. */
  ghost predicate TcpDataOn(p: Packet, q: Quad) {
    exists seg :: SendsTcp(p, q.src, q.dst, seg) && seg.sport == q.sport && seg.dport == q.dport && seg.payload != []
  }

  /** `p` is a TCP packet without data from the first to the second end of `q`, with these numbers. */
  ghost predicate TcpBareOn(p: Packet, q: Quad, sa: SeqAck) {
    exists seg :: SendsTcp(p, q.src, q.dst, seg) && seg.sport == q.sport && seg.dport == q.dport
      && seg.payload == [] && seg.seqno == sa.seqno && seg.ack == sa.ack
  }

  ghost predicate UdpOn(p: Packet, q: Quad) {
    exists dgm :: SendsUdp(p, q.src, q.dst, dgm) && dgm.sport == q.sport && dgm.dport == q.dport
  }

  /** The loop reads sender and receiver off the packet as they stand there. */
  lemma {:induction false} PickedIff(p: Packet, q: Quad, sa: SeqAck)
    ensures TcpData(p) == Some(q) <==> TcpDataOn(p, q)
    ensures Bare(p) == Some((q, sa)) <==> TcpBareOn(p, q, sa)
    ensures AnyUdp(p) == Some(q) <==> UdpOn(p, q)
  {
    var e := Classify(p);
    if e.TcpPacket? {
      assert SendsTcp(p, e.quad.src, e.quad.dst, e.seg);
    } else if e.UdpPacket? {
      assert SendsUdp(p, e.quad.src, e.quad.dst, e.dgm);
    }
  }

  /** A packet is left unread exactly when its IP header promises TCP, UDP or ICMP and what follows is
      not that. */
  lemma {:induction false} UnreadIff(p: Packet)
    ensures Classify(p).Unread? <==>
      && !p.layer.NotIp?
      && ((p.layer.proto == PROTO_TCP && forall seg :: !SendsTcp(p, p.layer.src, p.layer.dst, seg))
          || (p.layer.proto == PROTO_UDP && forall dgm :: !SendsUdp(p, p.layer.src, p.layer.dst, dgm))
          || (p.layer.proto == PROTO_ICMP && !(p.layer.l3.Opaque? && p.layer.l3.asIcmp)))
  {
    var e := Classify(p);
    if e.TcpPacket? {
      assert SendsTcp(p, p.layer.src, p.layer.dst, e.seg);
    } else if e.UdpPacket? {
      assert SendsUdp(p, p.layer.src, p.layer.dst, e.dgm);
    }
  }

  /** The reference time is the first time stamp that is not zero, and zero without one. */
  lemma {:induction false} FirstTsIs(ps: seq<Packet>)
    ensures FirstTs(ps) == 0.0 <==> forall i :: 0 <= i < |ps| ==> ps[i].ts == 0.0
    ensures forall i :: 0 <= i < |ps| && ps[i].ts != 0.0 && (forall j :: 0 <= j < i ==> ps[j].ts == 0.0) ==>
      FirstTs(ps) == ps[i].ts
  {
    if ps != [] {
      var n := |ps| - 1;
      FirstTsIs(ps[..n]);
      assert forall i :: 0 <= i < n ==> ps[..n][i] == ps[i];
    }
  }

  /** `c` is the entry for packet `i`, which opens a TCP conversation: the first packet with data
      between its two ends, either way. */
  ghost predicate OpensTcp(ps: seq<Packet>, i: nat, c: Conn) {
    && i < |ps| && TcpDataOn(ps[i], c.quad)
    && (forall j :: 0 <= j < i ==> !TcpDataOn(ps[j], c.quad) && !TcpDataOn(ps[j], Reverse(c.quad)))
    && c.offset == OffsetAt(ps, i) && c.time == ps[i].ts - FirstTs(ps[..i + 1])
  }

  /** The same for UDP, where packets without data count. */
  ghost predicate OpensUdp(ps: seq<Packet>, i: nat, c: Conn) {
    && i < |ps| && UdpOn(ps[i], c.quad)
    && (forall j :: 0 <= j < i ==> !UdpOn(ps[j], c.quad) && !UdpOn(ps[j], Reverse(c.quad)))
    && c.offset == OffsetAt(ps, i) && c.time == ps[i].ts - FirstTs(ps[..i + 1])
  }

  lemma {:induction false} NotMetIff(ps: seq<Packet>, i: nat, q: Quad)
    requires i <= |ps|
    ensures !Met(ps[..i], TcpData, q) <==>
      forall j :: 0 <= j < i ==> !TcpDataOn(ps[j], q) && !TcpDataOn(ps[j], Reverse(q))
    ensures !Met(ps[..i], AnyUdp, q) <==>
      forall j :: 0 <= j < i ==> !UdpOn(ps[j], q) && !UdpOn(ps[j], Reverse(q))
  {
    forall j | 0 <= j < i
      ensures TcpData(ps[j]).Some? && SamePair(TcpData(ps[j]).value, q)
        <==> TcpDataOn(ps[j], q) || TcpDataOn(ps[j], Reverse(q))
      ensures AnyUdp(ps[j]).Some? && SamePair(AnyUdp(ps[j]).value, q)
        <==> UdpOn(ps[j], q) || UdpOn(ps[j], Reverse(q))
    {
      PickedIff(ps[j], q, SeqAck(0, 0));
      PickedIff(ps[j], Reverse(q), SeqAck(0, 0));
      hide TcpData, AnyUdp, TcpDataOn, UdpOn;
    }
    hide TcpData, AnyUdp, TcpDataOn, UdpOn, SamePair;
    assert forall j :: 0 <= j < i ==> ps[..i][j] == ps[j];
  }

  /** The lists of connections hold the entries of the packets that open a conversation, with the
      addresses and ports those packets bear. */
  lemma {:induction false} RecordedIff(ps: seq<Packet>, c: Conn)
    ensures c in Recorded(ps, TcpData) <==> exists i :: OpensTcp(ps, i, c)
    ensures c in Recorded(ps, AnyUdp) <==> exists i :: OpensUdp(ps, i, c)
  {
    RecordedAre(ps, TcpData, c);
    RecordedAre(ps, AnyUdp, c);
    forall i | 0 <= i < |ps|
      ensures Begins(ps, TcpData, i) && c == ConnAt(ps, TcpData, i) <==> OpensTcp(ps, i, c)
      ensures Begins(ps, AnyUdp, i) && c == ConnAt(ps, AnyUdp, i) <==> OpensUdp(ps, i, c)
    {
      PickedIff(ps[i], c.quad, SeqAck(0, 0));
      NotMetIff(ps, i, c.quad);
      hide TcpData, AnyUdp, TcpDataOn, UdpOn, Met, OffsetAt, FirstTs, Reverse;
    }
    hide Recorded, Begins, ConnAt;
    assert (exists i :: OpensTcp(ps, i, c)) ==> exists i: nat :: i < |ps| && OpensTcp(ps, i, c);
    assert (exists i :: OpensUdp(ps, i, c)) ==> exists i: nat :: i < |ps| && OpensUdp(ps, i, c);
  }

  /** Packet `i` goes to the host without data and bears the numbers of the last such packet before
      it between the same ends. */
  ghost predicate Repeats(ps: seq<Packet>, i: nat, h: Host) {
    && i < |ps|
    && exists q: Quad, sa, m ::
         && q.dst == h.ip && q.dport == h.port && TcpBareOn(ps[i], q, sa)
         && IsLastBare(ps, m, i, q, sa)
  }

  ghost predicate IsLastBare(ps: seq<Packet>, m: nat, i: nat, q: Quad, sa: SeqAck) {
    && m < i <= |ps| && TcpBareOn(ps[m], q, sa)
    && forall l, other :: m < l < i ==> !TcpBareOn(ps[l], q, other)
  }

  lemma {:induction false} LastBareIff(ps: seq<Packet>, i: nat, q: Quad, sa: SeqAck)
    requires i <= |ps|
    ensures LastBare(ps[..i], q) == Some(sa) <==> exists m :: IsLastBare(ps, m, i, q, sa)
  {
    hide Bare, TcpBareOn;
    if i > 0 {
      var k: nat := i - 1;
      var p := ps[k];
      assert ps[..i][..k] == ps[..k];
      LastBareIff(ps, k, q, sa);
      forall other ensures Bare(p) == Some((q, other)) <==> TcpBareOn(p, q, other) {
        PickedIff(p, q, other);
      }
      if exists other :: Bare(p) == Some((q, other)) {
        if Bare(p) == Some((q, sa)) {
          assert IsLastBare(ps, k, i, q, sa);
        }
        if m :| IsLastBare(ps, m, i, q, sa) {
          assert m == k;
        }
      } else {
        if m :| IsLastBare(ps, m, k, q, sa) {
          assert IsLastBare(ps, m, i, q, sa);
        }
        if m :| IsLastBare(ps, m, i, q, sa) {
          assert IsLastBare(ps, m, k, q, sa);
        }
      }
    }
  }

  lemma {:induction false} RetryIff(ps: seq<Packet>, i: nat, h: Host)
    requires i < |ps|
    ensures Retry(ps, i, h) <==> Repeats(ps, i, h)
  {
    hide Bare, TcpBareOn, LastBare, IsLastBare;
    var b := Bare(ps[i]);
    if b.Some? {
      PickedIff(ps[i], b.value.0, b.value.1);
      LastBareIff(ps, i, b.value.0, b.value.1);
    }
    if Repeats(ps, i, h) {
      var q: Quad, sa, m :|
        q.dst == h.ip && q.dport == h.port && TcpBareOn(ps[i], q, sa) && IsLastBare(ps, m, i, q, sa);
      PickedIff(ps[i], q, sa);
    }
  }

  lemma {:induction false} AnsweredIff(ps: seq<Packet>, h: Host)
    ensures Answered(ps, h) <==>
      exists i, q :: 0 <= i < |ps| && TcpDataOn(ps[i], q) && q.dst == h.ip && q.dport == h.port
  {
    forall i, q | 0 <= i < |ps| ensures TcpData(ps[i]) == Some(q) <==> TcpDataOn(ps[i], q) {
      PickedIff(ps[i], q, SeqAck(0, 0));
    }
    hide TcpData, TcpDataOn;
    if Answered(ps, h) {
      var i :| 0 <= i < |ps| && TcpData(ps[i]).Some? && Host(TcpData(ps[i]).value.dst, TcpData(ps[i]).value.dport) == h;
      assert TcpDataOn(ps[i], TcpData(ps[i]).value);
    }
  }

  /** A host to be reported: two packets to it repeat an attempt, and no packet to it bears data. */
  ghost predicate NeverAnswers(ps: seq<Packet>, h: Host) {
    && (exists i, j :: 0 <= i < j < |ps| && Repeats(ps, i, h) && Repeats(ps, j, h))
    && !exists i, q :: 0 <= i < |ps| && TcpDataOn(ps[i], q) && q.dst == h.ip && q.dport == h.port
  }

  lemma {:induction false} DeadIff(ps: seq<Packet>, h: Host)
    ensures Retries(ps, h) >= 2 && !Answered(ps, h) <==> NeverAnswers(ps, h)
  {
    TwoRetries(ps, h);
    AnsweredIff(ps, h);
    forall i | 0 <= i < |ps| ensures Retry(ps, i, h) <==> Repeats(ps, i, h) {
      RetryIff(ps, i, h);
    }
    hide Retry, Repeats, Answered, TcpDataOn;
  }

  // ---- one packet more

  /** The set of seen tuples knows, in one direction or the other, every conversation met. */
  ghost predicate Seen(seen: set<Quad>, ps: seq<Packet>, pick: Packet -> Option<Quad>) {
    forall q :: (q in seen || Reverse(q) in seen) <==> Met(ps, pick, q)
  }

  lemma {:induction false} MetSnoc(ps: seq<Packet>, p: Packet, pick: Packet -> Option<Quad>, q: Quad)
    ensures Met(ps + [p], pick, q) <==> Met(ps, pick, q) || (pick(p).Some? && SamePair(pick(p).value, q))
  {
    var ps' := ps + [p];
    if i :| 0 <= i < |ps| && pick(ps[i]).Some? && SamePair(pick(ps[i]).value, q) {
      assert ps'[i] == ps[i];
    }
    if pick(p).Some? && SamePair(pick(p).value, q) {
      assert ps'[|ps|] == p;
    }
  }

  lemma {:induction false} MetEither(ps: seq<Packet>, pick: Packet -> Option<Quad>, q: Quad)
    ensures Met(ps, pick, q) <==> Met(ps, pick, Reverse(q))
  {}

  lemma {:induction false} SeenStep(ps: seq<Packet>, p: Packet, pick: Packet -> Option<Quad>, seen: set<Quad>)
    requires Seen(seen, ps, pick)
    ensures pick(p).None? ==> Seen(seen, ps + [p], pick)
    ensures pick(p).Some? ==> Seen(seen + {pick(p).value}, ps + [p], pick)
    ensures pick(p).Some? && Met(ps, pick, pick(p).value) ==> Seen(seen, ps + [p], pick)
  {
    hide Met;
    forall q ensures Met(ps + [p], pick, q) <==> Met(ps, pick, q) || (pick(p).Some? && SamePair(pick(p).value, q)) {
      MetSnoc(ps, p, pick, q);
      MetEither(ps, pick, q);
    }
  }

  lemma {:induction false} RecordedUnfold(ps: seq<Packet>, n: nat, pick: Packet -> Option<Quad>)
    requires |ps| == n + 1
    ensures Recorded(ps, pick) == Recorded(ps[..n], pick) + if Begins(ps, pick, n) then [ConnAt(ps, pick, n)] else []
  {
    hide Met, FirstTs, OffsetAt;
  }

  lemma {:induction false} RecordStep(ps: seq<Packet>, p: Packet, pick: Packet -> Option<Quad>)
    ensures Recorded(ps + [p], pick) == Recorded(ps, pick) +
      if pick(p).Some? && !Met(ps, pick, pick(p).value)
      then [Conn(pick(p).value, OffsetAt(ps, |ps|), p.ts - FirstTs(ps + [p]))] else []
  {
    hide Met, FirstTs, OffsetAt, Recorded;
    var ps', n := ps + [p], |ps|;
    RecordedUnfold(ps', n, pick);
    assert ps'[..n] == ps && ps'[..n + 1] == ps' && ps'[n] == p;
    OffsetAtPrefix(ps', n, n);
  }

  lemma {:induction false} OffsetStep(ps: seq<Packet>, p: Packet)
    ensures OffsetAt(ps + [p], |ps| + 1) == if Classify(p).Unread? then OffsetAt(ps, |ps|) else |ps| + 1
    ensures FirstTs(ps + [p]) == if FirstTs(ps) == 0.0 then p.ts else FirstTs(ps)
  {
    var ps' := ps + [p];
    assert ps'[..|ps|] == ps && ps'[|ps|] == p;
    OffsetAtPrefix(ps', |ps|, |ps|);
  }

  /** The table of last numbers, and the retries counted per host. */
  ghost predicate DeadTables(tcpDead: map<Quad, SeqAck>, deadHosts: map<Host, nat>, ps: seq<Packet>) {
    && (forall q :: LastBare(ps, q) == if q in tcpDead then Some(tcpDead[q]) else None)
    && (forall h :: h in deadHosts <==> Retries(ps, h) >= 1)
    && (forall h :: h in deadHosts ==> deadHosts[h] == Retries(ps, h) + 1)
  }

  lemma {:induction false} DeadStep(ps: seq<Packet>, p: Packet, tcpDead: map<Quad, SeqAck>, deadHosts: map<Host, nat>)
    requires DeadTables(tcpDead, deadHosts, ps)
    ensures Bare(p).None? ==> DeadTables(tcpDead, deadHosts, ps + [p])
    ensures Bare(p).Some? ==>
      var (q, sa) := Bare(p).value;
      var h := Host(q.dst, q.dport);
      DeadTables(tcpDead[q := sa],
                 if q in tcpDead && tcpDead[q] == sa
                 then deadHosts[h := (if h in deadHosts then deadHosts[h] else 1) + 1] else deadHosts,
                 ps + [p])
  {}

  lemma {:induction false} AnsweredSnoc(ps: seq<Packet>, p: Packet, h: Host)
    ensures Answered(ps + [p], h) <==>
      Answered(ps, h) || (TcpData(p).Some? && Host(TcpData(p).value.dst, TcpData(p).value.dport) == h)
  {
    var ps' := ps + [p];
    if i :| 0 <= i < |ps| && TcpData(ps[i]).Some? && Host(TcpData(ps[i]).value.dst, TcpData(ps[i]).value.dport) == h {
      assert ps'[i] == ps[i];
    }
    if TcpData(p).Some? && Host(TcpData(p).value.dst, TcpData(p).value.dport) == h {
      assert ps'[|ps|] == p;
    }
  }

  /** The dictionary's keys, each once, in the order they were inserted. */
  ghost predicate KeyOrder(order: seq<Host>, m: map<Host, nat>) {
    && (forall h :: h in order <==> h in m)
    && (forall i, j :: 0 <= i < j < |order| ==> order[i] != order[j])
  }

  // ---- the loop

  class Pcap {
    var tcpConnections: seq<Conn>
    var tcpSeen: set<Quad>
    var udpConnections: seq<Conn>
    var udpSeen: set<Quad>
    var tcpDead: map<Quad, SeqAck>
    var deadHosts: map<Host, nat>
    var deadOrder: seq<Host>
    var aliveHosts: set<Host>

    /** The bookkeeping after the packets `ps`. */
    ghost predicate Tracks(ps: seq<Packet>)
      reads this
    {
      && tcpConnections == Recorded(ps, TcpData) && Seen(tcpSeen, ps, TcpData)
      && udpConnections == Recorded(ps, AnyUdp) && Seen(udpSeen, ps, AnyUdp)
      && DeadTables(tcpDead, deadHosts, ps)
      && KeyOrder(deadOrder, deadHosts)
      && (forall h :: h in aliveHosts <==> Answered(ps, h))
    }

    constructor ()
      ensures Tracks([])
    {
      tcpConnections, tcpSeen, udpConnections, udpSeen := [], {}, [], {};
      tcpDead, deadHosts, deadOrder, aliveHosts := map[], map[], [], {};
    }

    /** A TCP packet with payload. */
    method TcpPayload(p: Packet, q: Quad, offset: nat, rel: real, ghost ps: seq<Packet>)
      requires Tracks(ps) && TcpData(p) == Some(q)
      requires offset == OffsetAt(ps, |ps|) && rel == p.ts - FirstTs(ps + [p])
      modifies this
      ensures Tracks(ps + [p])
    {
      hide Recorded, Met, LastBare, Retries, Answered, OffsetAt, FirstTs, DeadTables, Classify;
      RecordStep(ps, p, TcpData);
      RecordStep(ps, p, AnyUdp);
      SeenStep(ps, p, TcpData, tcpSeen);
      SeenStep(ps, p, AnyUdp, udpSeen);
      DeadStep(ps, p, tcpDead, deadHosts);
      forall h ensures Answered(ps + [p], h) <==> Answered(ps, h) || Host(q.dst, q.dport) == h {
        AnsweredSnoc(ps, p, h);
      }
      if !(Reverse(q) in tcpSeen || q in tcpSeen) {
        tcpConnections := tcpConnections + [Conn(q, offset, rel)];
        tcpSeen := tcpSeen + {q};
      }
      aliveHosts := aliveHosts + {Host(q.dst, q.dport)};
    }

    /** A TCP packet without payload. */
    method TcpEmpty(p: Packet, q: Quad, sa: SeqAck, ghost ps: seq<Packet>)
      requires Tracks(ps) && Bare(p) == Some((q, sa))
      modifies this
      ensures Tracks(ps + [p])
    {
      hide Recorded, Met, LastBare, Retries, Answered, OffsetAt, FirstTs, DeadTables, Classify;
      RecordStep(ps, p, TcpData);
      RecordStep(ps, p, AnyUdp);
      SeenStep(ps, p, TcpData, tcpSeen);
      SeenStep(ps, p, AnyUdp, udpSeen);
      DeadStep(ps, p, tcpDead, deadHosts);
      forall h ensures Answered(ps + [p], h) <==> Answered(ps, h) {
        AnsweredSnoc(ps, p, h);
      }
      if q in tcpDead && tcpDead[q] == sa {
        var host := Host(q.dst, q.dport);
        if host !in deadHosts {
          deadOrder := deadOrder + [host];
        }
        deadHosts := deadHosts[host := (if host in deadHosts then deadHosts[host] else 1) + 1];
      }
      tcpDead := tcpDead[q := sa];
    }

    method Udp(p: Packet, q: Quad, offset: nat, rel: real, ghost ps: seq<Packet>)
      requires Tracks(ps) && AnyUdp(p) == Some(q)
      requires offset == OffsetAt(ps, |ps|) && rel == p.ts - FirstTs(ps + [p])
      modifies this
      ensures Tracks(ps + [p])
    {
      hide Recorded, Met, LastBare, Retries, Answered, OffsetAt, FirstTs, DeadTables, Classify;
      RecordStep(ps, p, TcpData);
      RecordStep(ps, p, AnyUdp);
      SeenStep(ps, p, TcpData, tcpSeen);
      SeenStep(ps, p, AnyUdp, udpSeen);
      DeadStep(ps, p, tcpDead, deadHosts);
      forall h ensures Answered(ps + [p], h) <==> Answered(ps, h) {
        AnsweredSnoc(ps, p, h);
      }
      if !(Reverse(q) in udpSeen || q in udpSeen) {
        udpConnections := udpConnections + [Conn(q, offset, rel)];
        udpSeen := udpSeen + {q};
      }
    }

    lemma {:induction false} OtherPacket(p: Packet, ps: seq<Packet>)
      requires Tracks(ps) && (Classify(p).Passed? || Classify(p).Unread?)
      ensures Tracks(ps + [p])
    {
      hide Recorded, Met, LastBare, Retries, Answered, OffsetAt, FirstTs, DeadTables;
      RecordStep(ps, p, TcpData);
      RecordStep(ps, p, AnyUdp);
      SeenStep(ps, p, TcpData, tcpSeen);
      SeenStep(ps, p, AnyUdp, udpSeen);
      DeadStep(ps, p, tcpDead, deadHosts);
      forall h ensures Answered(ps + [p], h) <==> Answered(ps, h) {
        AnsweredSnoc(ps, p, h);
      }
    }

    /** The packet loop, from a new object to the end of the capture. */
    method Run(ps: seq<Packet>)
      requires Tracks([])
      modifies this
      ensures Tracks(ps)
      ensures forall c :: c in tcpConnections <==> exists i :: OpensTcp(ps, i, c)
      ensures forall c :: c in udpConnections <==> exists i :: OpensUdp(ps, i, c)
    {
      hide Tracks, OffsetAt, FirstTs, OpensTcp, OpensUdp;
      var offset, firstTs := 0, 0.0;
      Start();
      for i := 0 to |ps|
        invariant Tracks(ps[..i])
        invariant offset == OffsetAt(ps[..i], i) && firstTs == FirstTs(ps[..i])
      {
        var p := ps[i];
        ghost var before := ps[..i];
        assert before + [p] == ps[..i + 1];
        OffsetStep(before, p);
        if firstTs == 0.0 {
          firstTs := p.ts;
        }
        match Classify(p)
        case Passed =>
          OtherPacket(p, before);
          offset := i + 1;
        case Unread =>
          OtherPacket(p, before);
        case TcpPacket(q, seg) =>
          if seg.payload != [] {
            TcpPayload(p, q, offset, p.ts - firstTs, before);
          } else {
            TcpEmpty(p, q, SeqAck(seg.seqno, seg.ack), before);
          }
          offset := i + 1;
        case UdpPacket(q, _) =>
          Udp(p, q, offset, p.ts - firstTs, before);
          offset := i + 1;
      }
      assert ps[..|ps|] == ps;
      TracksEntries(ps);
    }

    lemma {:induction false} TracksEntries(ps: seq<Packet>)
      requires Tracks(ps)
      ensures forall c :: c in tcpConnections <==> exists i :: OpensTcp(ps, i, c)
      ensures forall c :: c in udpConnections <==> exists i :: OpensUdp(ps, i, c)
    {
      forall c
        ensures c in tcpConnections <==> exists i :: OpensTcp(ps, i, c)
        ensures c in udpConnections <==> exists i :: OpensUdp(ps, i, c)
      {
        RecordedIff(ps, c);
        hide *;
      }
    }

    /** The dead-host report: refused at least twice more after a first try and never answered. */
    method DeadReport(ghost ps: seq<Packet>) returns (dead: seq<Host>)
      requires Tracks(ps)
      ensures forall h :: h in dead <==> Retries(ps, h) >= 2 && !Answered(ps, h)
      ensures forall h :: h in dead <==> NeverAnswers(ps, h)
      ensures forall i, j :: 0 <= i < j < |dead| ==> dead[i] != dead[j]
    {
      hide NeverAnswers;
      forall h ensures Retries(ps, h) >= 2 && !Answered(ps, h) <==> NeverAnswers(ps, h) {
        DeadIff(ps, h);
      }
      dead := [];
      for i := 0 to |deadOrder|
        invariant forall h :: h in dead <==> h in deadOrder[..i] && deadHosts[h] >= 3 && h !in aliveHosts
        invariant forall i, j :: 0 <= i < j < |dead| ==> dead[i] != dead[j]
      {
        var h := deadOrder[i];
        if deadHosts[h] < 3 || h in aliveHosts {
          continue;
        }
        if h !in dead {
          dead := dead + [h];
        }
      }
    }
  }

  lemma {:induction false} Start()
    ensures OffsetAt([], 0) == 0 && FirstTs([]) == 0.0
  {}
}
