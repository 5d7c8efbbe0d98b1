/** Values exchanged by the forwarding engine: identifiers, the entries of
    its tables, parsed frames, routes, and the commands and events it emits. */
module Types {

  /** Datapath id of a switch. */
  type Dpid = int
  /** OpenFlow port number. */
  type Port = int
  /** Ethernet address; only equality is used. */
  type Mac = int
  /** Id of a frame buffered on the switch that sent the PacketIn. */
  type BufferId = int
  /** The raw frame carried by a PacketIn. */
  type RawData = seq<bv8>

  datatype Option<T> = None | Some(value: T)

  /** A (dpid, port) pair: the key of switch_ports and the value of mac_table. */
  datatype SwitchPort = SwitchPort(dpid: Dpid, port: Port)

  /** A discovered directed link, as reported by the discovery component. */
  datatype Link = Link(dpid1: Dpid, port1: Port, dpid2: Dpid, port2: Port)

  /** port_map: dpid -> dpid -> egress port; an absent entry reads as None. */
  type PortMap = map<Dpid, map<Dpid, Port>>

  /** The egress port that port_map records from switch `a` toward switch `b`. */
  function PortToward(pm: PortMap, a: Dpid, b: Dpid): (r: Option<Port>)
    ensures r.Some? <==> a in pm && b in pm[a]
    ensures r.Some? ==> r.value == pm[a][b]
  {
    if a in pm && b in pm[a] then Some(pm[a][b]) else None
  }

  /** After a link from `d1` to `d2` over `p` is recorded, port_map answers
      `p` for that pair and what it answered before for every other pair. */
  lemma PortTowardAfterLink(pm: PortMap, d1: Dpid, d2: Dpid, p: Port, a: Dpid, b: Dpid)
    ensures var row := if d1 in pm then pm[d1] else map[];
            PortToward(pm[d1 := row[d2 := p]], a, b) == if a == d1 && b == d2 then Some(p) else PortToward(pm, a, b)
  {
  }

  /** A route returned by the routing controller: its source, its destination,
      and the switches its iterator yields after the source, in order. */
  datatype Path = Path(source: Dpid, destination: Dpid, hops: seq<Dpid>)

  /** The ethertype classes the dispatch tells apart. */
  datatype EtherClass = Lldp | Arp | OtherEtherType

  /** The parsed frame, as far as the dispatch looks at it. `headers` stands for
      every other header field that goes into a flow match. */
  datatype Packet = Packet(src: Mac, dst: Mac, dstMulticast: bool, etherClass: EtherClass, headers: int)

  /** An OpenFlow match built from a packet; only dl_dst is read by the engine. */
  datatype FlowMatch = FlowMatch(dlSrc: Mac, dlDst: Mac, headers: int)

  function MatchFromPacket(p: Packet): (m: FlowMatch)
    ensures m.dlSrc == p.src && m.dlDst == p.dst
  {
    FlowMatch(p.src, p.dst, p.headers)
  }

  /** What a packet-out carries: a buffer id on the switch, or the raw frame. */
  datatype Payload = Buffered(bufferId: BufferId) | Raw(data: RawData)

  /** Idle timeout, in seconds, of every installed flow rule. */
  const IdleTimeout: nat := 10

  /** Everything the engine sends to a switch or raises to its listeners, in order. */
  datatype Output =
    | /** ofp_flow_mod with one output action; SEND_FLOW_REM flag when sendFlowRem. */
      FlowMod(dpid: Dpid, flow: FlowMatch, outPort: Option<Port>, idleTimeout: nat, sendFlowRem: bool)
    | /** ofp_packet_out with one output action per port in outPorts. */
      PacketOut(dpid: Dpid, payload: Payload, inPort: Option<Port>, outPorts: seq<Port>)
    | /** ofp_packet_out releasing a buffered frame with no action (a drop). */
      BufferDrop(dpid: Dpid, bufferId: BufferId, ingressPort: Port)
    | /** NewFlowEvent raised by the switch `dpid`, carrying port_map as it stands. */
      NewFlowRaised(dpid: Dpid, path: Path, flow: FlowMatch, adj: PortMap)
    | /** NewSwitchEvent raised when the switch `dpid` connects. */
      NewSwitchRaised(dpid: Dpid)

  /** The outcome of a handler run: what it emitted, and false when it stopped
      on a KeyError (what was sent before the exception stays sent). */
  datatype Emitted = Emitted(out: seq<Output>, ok: bool)

  predicate NoFlowMods(s: seq<Output>)
  {
    forall i :: 0 <= i < |s| ==> !s[i].FlowMod?
  }

  /** Extending a prefix of `s` by one element. */
  lemma PrefixSnoc<T>(s: seq<T>, j: nat)
    requires j < |s|
    ensures s[..j + 1] == s[..j] + [s[j]]
  {
  }

  /** Appending a stretch that ends in two elements, one element at a time. */
  lemma AppendTwo<T>(s: seq<T>, u: seq<T>, x: T, y: T)
    ensures s + (u + [x, y]) == s + u + [x] + [y]
  {
  }

  lemma AppendAssoc<T>(s: seq<T>, u: seq<T>, w: seq<T>)
    ensures s + u + w == s + (u + w)
  {
  }

  /** The two halves of a concatenation, cut where they meet. */
  lemma SplitAtJoin<T>(a: seq<T>, b: seq<T>)
    ensures (a + b)[..|a|] == a && (a + b)[|a|..] == b
  {
  }
}
