/** Packets of a capture as the packet library hands them to modules/processing/network.py,
    and the flow tuple computed from a raw packet. */
module Capture {
  import opened Wrappers

  type Address = string
  type Bytes = seq<nat>

  datatype TcpSegment = TcpSegment(sport: nat, dport: nat, seqno: nat, ack: nat, payload: Bytes)
  datatype UdpDatagram = UdpDatagram(sport: nat, dport: nat, payload: Bytes)

  /** The data below the IP header. `Opaque` is data the library left unparsed; its fields say
      what a second, explicit parse as TCP, UDP or ICMP would give. */
  datatype L3 =
    | Tcp(seg: TcpSegment)
    | Udp(dgm: UdpDatagram)
    | Opaque(data: Bytes, asTcp: Option<TcpSegment>, asUdp: Option<UdpDatagram>, asIcmp: bool)

  datatype Layer =
    | NotIp(data: Bytes)
    | Ip4(src: Address, dst: Address, proto: nat, l3: L3)
    | Ip6(src: Address, dst: Address, proto: nat, l3: L3)

  /** `layer` is what the library parses out of the bytes `raw`. */
  datatype Packet = Packet(raw: Bytes, ts: real, layer: Layer)

  datatype FlowTuple = FlowTuple(sip: Address, dip: Address, sport: nat, dport: nat, proto: int)

  const PROTO_ICMP: nat := 1
  const PROTO_TCP: nat := 6
  const PROTO_UDP: nat := 17

  /** The one tuple every packet without an IPv4 header gets. */
  const NO_FLOW := FlowTuple("0", "0", 0, 0, -1)

  /** flowtuple_from_raw: only IPv4 is looked into, and ports are read only from an L3 object the
      library already parsed as the protocol the header names. */
  function FlowOf(p: Packet): FlowTuple {
    match p.layer
    case Ip4(src, dst, proto, l3) =>
      if proto == PROTO_TCP && l3.Tcp? then FlowTuple(src, dst, l3.seg.sport, l3.seg.dport, proto)
      else if proto == PROTO_UDP && l3.Udp? then FlowTuple(src, dst, l3.dgm.sport, l3.dgm.dport, proto)
      else FlowTuple(src, dst, 0, 0, proto)
    case _ => NO_FLOW
  }

  function Mirror(t: FlowTuple): FlowTuple {
    FlowTuple(t.dip, t.sip, t.dport, t.sport, t.proto)
  }

  /** Two tuples belong to one conversation: equal, or one is the other read backwards. */
  predicate SameConv(a: FlowTuple, b: FlowTuple) {
    a == b || a == Mirror(b)
  }

  /** The packets of `ps` that belong to the conversation of `t`, in order. */
  function ConvPackets(ps: seq<Packet>, t: FlowTuple): seq<Packet> {
    if ps == [] then []
    else (if SameConv(FlowOf(ps[0]), t) then [ps[0]] else []) + ConvPackets(ps[1..], t)
  }

  /** payload_from_raw */
  function PayloadOf(p: Packet): Bytes {
    match p.layer
    case NotIp(data) => data
    case Ip4(_, _, _, l3) => L3Data(l3)
    case Ip6(_, _, _, l3) => L3Data(l3)
  }

  function L3Data(l3: L3): Bytes {
    match l3
    case Tcp(seg) => seg.payload
    case Udp(dgm) => dgm.payload
    case Opaque(data, _, _, _) => data
  }
}
