/** The forwarding component: the module-level tables, the per-switch
    PacketIn and ConnectionDown handlers, the LinkEvent and ConnectionUp
    handlers of the component, and the path installer. */
module Forwarding {
  import opened Types
  import opened PathInstall
  import opened Decision

  /** The module-level tables, shared by every handler, and the outputs sent
      to switches or raised to listeners so far. */
  class Tables {
    var switches: map<Dpid, Switch>
    var switchPorts: map<SwitchPort, Link>
    var portMap: PortMap
    var macTable: map<Mac, SwitchPort>
    var emitted: seq<Output>

    /** Each switch is registered under its own dpid; each inter-switch port
        is keyed by its link's source end; port_map only names recorded
        inter-switch ports. */
    ghost predicate Valid()
      reads this`switches, this`switchPorts, this`portMap
    {
      && (forall d :: d in switches ==> switches[d].dpid == d)
      && (forall k :: k in switchPorts ==> switchPorts[k].dpid1 == k.dpid && switchPorts[k].port1 == k.port)
      && LinksRecorded(portMap, switchPorts)
    }

    constructor ()
      ensures Valid()
      ensures switches == map[] && switchPorts == map[] && portMap == map[] && macTable == map[]
      ensures emitted == []
    {
      switches, switchPorts, portMap, macTable := map[], map[], map[], map[];
      emitted := [];
    }

    /** The ports of every connected switch. */
    function Ports(): (r: map<Dpid, seq<Port>>)
      reads this`switches
      ensures r.Keys == switches.Keys
      ensures forall d :: d in switches ==> r[d] == switches[d].ports
    {
      map d | d in switches :: switches[d].ports
    }

    /** The dpid under which `sw` is registered, if it is. */
    function IngressOf(sw: Switch): (r: Option<Dpid>)
      reads this`switches, this`switchPorts, this`portMap
      requires Valid()
      ensures forall d :: d in switches ==> (switches[d] == sw <==> r == Some(d))
    {
      if sw.dpid in switches && switches[sw.dpid] == sw then Some(sw.dpid) else None
    }

    /** The tables as the switch `sw` sees them, iterating switches in `order`. */
    function ViewFrom(sw: Switch, order: seq<Dpid>): View
      reads this`switches, this`switchPorts, this`portMap, this`macTable
      requires Valid()
    {
      View(Ports(), IngressOf(sw), order, switchPorts, portMap, macTable)
    }
  }

  /** `order` lists each connected switch exactly once: the iteration order
      of the switches table. */
  predicate Enumerates(order: seq<Dpid>, keys: set<Dpid>)
  {
    && (forall d :: d in order ==> d in keys)
    && (forall d :: d in keys ==> d in order)
    && (forall i, j :: 0 <= i < j < |order| ==> order[i] != order[j])
  }

  /** A PacketIn event; drop() clears its buffer id. */
  class PacketInEvent {
    const dpid: Dpid
    const port: Port
    const packet: Packet
    const data: RawData
    var bufferId: Option<BufferId>

    constructor (dpid: Dpid, port: Port, packet: Packet, data: RawData, bufferId: Option<BufferId>)
      ensures this.dpid == dpid && this.port == port && this.packet == packet
      ensures this.data == data && this.bufferId == bufferId
    {
      this.dpid, this.port, this.packet, this.data := dpid, port, packet, data;
      this.bufferId := bufferId;
    }

    function FrameWith(buffer: Option<BufferId>): Frame
    {
      Frame(dpid, port, packet, data, buffer)
    }
  }

  /** _install_path: sends the destination's rule toward the host, then walks
      the path iterator and sends each hop's rule to the switch it leaves.
      Returns false where the source raises a KeyError. */
  method InstallPath(t: Tables, p: Path, flow: FlowMatch) returns (ok: bool)
    modifies t`emitted
    ensures var r := InstallEffects(p, flow, t.macTable, t.portMap, t.switches.Keys);
            t.emitted == old(t.emitted) + r.out && ok == r.ok
  {
    if flow.dlDst !in t.macTable {
      return false;
    }
    var hostPort := t.macTable[flow.dlDst].port;
    if p.destination !in t.switches {
      return false;
    }
    ghost var known := t.switches.Keys;
    ghost var rules := PathRules(p, flow, hostPort, t.portMap);
    ghost var n := KnownPrefix(p.source, p.hops, known);
    t.emitted := t.emitted + [FlowMod(p.destination, flow, Some(hostPort), IdleTimeout, true)];
    var current := p.source;
    var i := 0;
    while i < |p.hops|
      invariant i <= n
      invariant current == At(p.source, p.hops, i)
      invariant t.emitted == old(t.emitted) + rules[..1 + i]
    {
      var next := p.hops[i];
      if current !in t.switches {
        return false;
      }
      assert i < n;
      t.emitted := t.emitted + [FlowMod(current, flow, PortToward(t.portMap, current, next), IdleTimeout, true)];
      assert rules[1 + i] == FlowMod(current, flow, PortToward(t.portMap, current, next), IdleTimeout, true);
      PrefixSnoc(rules, 1 + i);
      current := next;
      i := i + 1;
    }
    return true;
  }

  /** A connected switch: its dpid and ports, taken from its connection. */
  class Switch {
    const dpid: Dpid
    const ports: seq<Port>

    constructor (dpid: Dpid, ports: seq<Port>)
      ensures this.dpid == dpid && this.ports == ports
    {
      this.dpid, this.ports := dpid, ports;
    }

    /** drop(): release the event's buffer on this switch, once. */
    method Drop(t: Tables, ev: PacketInEvent)
      modifies t`emitted, ev`bufferId
      ensures t.emitted == old(t.emitted) + DropEffect(dpid, ev.FrameWith(old(ev.bufferId)))
      ensures ev.bufferId == None
    {
      if ev.bufferId.Some? {
        t.emitted := t.emitted + [BufferDrop(dpid, ev.bufferId.value, ev.port)];
        ev.bufferId := None;
      }
    }

    /** flood(): one packet-out per connected switch that has a port which is
        not an inter-switch port, out of all such ports. */
    method Flood(t: Tables, ev: PacketInEvent, order: seq<Dpid>)
      requires t.Valid()
      requires Enumerates(order, t.switches.Keys)
      modifies t`emitted
      ensures t.emitted == old(t.emitted) +
                FloodMessages(order, t.Ports(), t.IngressOf(this), t.switchPorts, ev.FrameWith(ev.bufferId))
    {
      ghost var f := ev.FrameWith(ev.bufferId);
      ghost var ports := t.Ports();
      ghost var ingress := t.IngressOf(this);
      var i := 0;
      while i < |order|
        invariant 0 <= i <= |order|
        invariant t.emitted == old(t.emitted) + FloodMessages(order[..i], ports, ingress, t.switchPorts, f)
      {
        var d := order[i];
        FloodTo(t, ev, t.switches[d]);
        FloodMessagesStep(order, i, ports, ingress, t.switchPorts, f);
        i := i + 1;
      }
      assert order[..|order|] == order;
    }

    /** One round of flood()'s loop: the packet-out to the switch `sw`, if it
        has a port that is not an inter-switch port. */
    method FloodTo(t: Tables, ev: PacketInEvent, sw: Switch)
      requires t.Valid() && sw.dpid in t.switches && t.switches[sw.dpid] == sw
      modifies t`emitted
      ensures t.emitted == old(t.emitted) +
                if FloodsTo(sw.dpid, t.Ports(), t.switchPorts)
                then [FloodMessage(sw.dpid, FreePorts(sw.dpid, sw.ports, t.switchPorts),
                                   t.IngressOf(this) == Some(sw.dpid), ev.FrameWith(ev.bufferId))]
                else []
    {
      var free := FreePorts(sw.dpid, sw.ports, t.switchPorts);
      if |free| > 0 {
        var msg;
        if sw == this {
          var payload := if ev.bufferId.Some? then Buffered(ev.bufferId.value) else Raw(ev.data);
          msg := PacketOut(sw.dpid, payload, Some(ev.port), free);
        } else {
          msg := PacketOut(sw.dpid, Raw(ev.data), None, free);
        }
        t.emitted := t.emitted + [msg];
      }
    }

    /** _handle_PacketIn: learn the source, then drop, flood, deliver an ARP
        frame directly, or route the frame. The routing controller is the
        pair `isSegmented`, `route`; `islandsComputed` tells whether
        compute_islands is called. */
    method HandlePacketIn(t: Tables, ev: PacketInEvent, order: seq<Dpid>, isSegmented: bool,
                          route: (Dpid, Dpid) -> Option<Path>) returns (ok: bool, islandsComputed: bool)
      requires t.Valid()
      requires Enumerates(order, t.switches.Keys)
      modifies t`macTable, t`emitted, ev`bufferId
      ensures t.Valid()
      ensures t.macTable == Learn(old(t.macTable), t.switchPorts, SwitchPort(ev.dpid, ev.port), ev.packet.src)
      ensures var r := Decide(t.ViewFrom(this, order), ev.FrameWith(old(ev.bufferId)), dpid, isSegmented, route);
              && t.emitted == old(t.emitted) + r.out
              && ok == r.ok && islandsComputed == r.islandsComputed
              && ev.bufferId == r.bufferAfter
    {
      if SwitchPort(ev.dpid, ev.port) !in t.switchPorts {
        t.macTable := t.macTable[ev.packet.src := SwitchPort(ev.dpid, ev.port)];
      }
      ok, islandsComputed := Dispatch(t, ev, order, isSegmented, route);
    }

    /** _handle_PacketIn after learning: the dispatch on the frame. */
    method Dispatch(t: Tables, ev: PacketInEvent, order: seq<Dpid>, isSegmented: bool,
                    route: (Dpid, Dpid) -> Option<Path>) returns (ok: bool, islandsComputed: bool)
      requires t.Valid()
      requires Enumerates(order, t.switches.Keys)
      modifies t`emitted, ev`bufferId
      ensures var r := Decide(t.ViewFrom(this, order), ev.FrameWith(old(ev.bufferId)), dpid, isSegmented, route);
              && t.emitted == old(t.emitted) + r.out
              && ok == r.ok && islandsComputed == r.islandsComputed
              && ev.bufferId == r.bufferAfter
    {
      var packet := ev.packet;
      ok, islandsComputed := true, false;
      if packet.etherClass == Lldp {
        Drop(t, ev);
      } else if packet.dstMulticast {
        Flood(t, ev, order);
      } else if packet.dst !in t.macTable {
        Flood(t, ev, order);
      } else if packet.etherClass == Arp {
        Drop(t, ev);
        var dst := t.macTable[packet.dst];
        if dst.dpid !in t.switches {
          ok := false;
          return;
        }
        t.emitted := t.emitted + [DeliverToHost(dst, ev.FrameWith(ev.bufferId))];
      } else {
        ok, islandsComputed := ForwardRouted(t, ev, order, isSegmented, route);
      }
    }

    /** The last branch of _handle_PacketIn: a known unicast, non-ARP frame. */
    method ForwardRouted(t: Tables, ev: PacketInEvent, order: seq<Dpid>, isSegmented: bool,
                         route: (Dpid, Dpid) -> Option<Path>) returns (ok: bool, islandsComputed: bool)
      requires t.Valid()
      requires Enumerates(order, t.switches.Keys)
      requires ev.packet.dst in t.macTable
      modifies t`emitted, ev`bufferId
      ensures var r := RoutedReaction(t.ViewFrom(this, order), ev.FrameWith(old(ev.bufferId)), dpid, isSegmented, route);
              && t.emitted == old(t.emitted) + r.out
              && ok == r.ok && islandsComputed == r.islandsComputed
              && ev.bufferId == r.bufferAfter
    {
      var dst := t.macTable[ev.packet.dst];
      islandsComputed := false;
      if !isSegmented {
        islandsComputed := true;
      }
      var path := route(dpid, dst.dpid);
      if path.None? {
        Flood(t, ev, order);
        return true, islandsComputed;
      }
      ok := SendAlong(t, ev, order, path.value);
    }

    /** The route `p` was found: install it, then deliver the frame. */
    method SendAlong(t: Tables, ev: PacketInEvent, order: seq<Dpid>, p: Path) returns (ok: bool)
      requires t.Valid()
      requires ev.packet.dst in t.macTable
      modifies t`emitted, ev`bufferId
      ensures var r := PathReaction(t.ViewFrom(this, order), ev.FrameWith(old(ev.bufferId)), dpid, p);
              && t.emitted == old(t.emitted) + r.out
              && ok == r.ok && ev.bufferId == r.bufferAfter
    {
      ghost var before := t.emitted;
      var flow := MatchFromPacket(ev.packet);
      ghost var inst := InstallEffects(p, flow, t.macTable, t.portMap, t.switches.Keys);
      ok := InstallPath(t, p, flow);
      assert t.Ports().Keys == t.switches.Keys;
      if !ok {
        return;
      }
      ghost var tail;
      ok, tail := Deliver(t, ev, p, flow);
      AppendAssoc(before, inst.out, tail);
    }

    /** After the rules are sent: drop the frame, send it to the
        destination's port and raise NewFlowEvent. */
    method Deliver(t: Tables, ev: PacketInEvent, p: Path, flow: FlowMatch) returns (ok: bool, ghost tail: seq<Output>)
      requires ev.packet.dst in t.macTable
      modifies t`emitted, ev`bufferId
      ensures var f := ev.FrameWith(old(ev.bufferId));
              var dst := t.macTable[ev.packet.dst];
              && (ok <==> dst.dpid in t.switches)
              && tail == DropEffect(dpid, f) + (if ok then [DeliverToHost(dst, f), NewFlowRaised(dpid, p, flow, t.portMap)] else [])
      ensures t.emitted == old(t.emitted) + tail && ev.bufferId == None
    {
      ghost var f := ev.FrameWith(ev.bufferId);
      ghost var before := t.emitted;
      Drop(t, ev);
      var dst := t.macTable[ev.packet.dst];
      if dst.dpid !in t.switches {
        return false, DropEffect(dpid, f);
      }
      t.emitted := t.emitted + [DeliverToHost(dst, ev.FrameWith(ev.bufferId))];
      t.emitted := t.emitted + [NewFlowRaised(dpid, p, flow, t.portMap)];
      tail := DropEffect(dpid, f) + [DeliverToHost(dst, f), NewFlowRaised(dpid, p, flow, t.portMap)];
      AppendTwo(before, DropEffect(dpid, f), DeliverToHost(dst, f), NewFlowRaised(dpid, p, flow, t.portMap));
      ok := true;
    }

    /** _handle_ConnectionDown: unregister this switch's dpid and nothing
        else; false when it is not registered (a KeyError). */
    method HandleConnectionDown(t: Tables) returns (ok: bool)
      requires t.Valid()
      modifies t`switches
      ensures t.Valid()
      ensures ok <==> dpid in old(t.switches)
      ensures t.switches == old(t.switches) - {dpid}
      ensures t.switchPorts == old(t.switchPorts) && t.portMap == old(t.portMap)
      ensures t.macTable == old(t.macTable) && t.emitted == old(t.emitted)
    {
      if dpid !in t.switches {
        return false;
      }
      t.switches := t.switches - {dpid};
      return true;
    }
  }

  /** The component object; its handlers update the module-level tables. */
  class Forwarding {
    constructor ()
    {
    }

    /** _handle_LinkEvent: an added link records its egress port in port_map
        and its source end as an inter-switch port; a removed link changes
        nothing. */
    method HandleLinkEvent(t: Tables, added: bool, link: Link)
      requires t.Valid()
      modifies t`portMap, t`switchPorts
      ensures t.Valid()
      ensures added ==> t.portMap == old(t.portMap)[link.dpid1 :=
                          (if link.dpid1 in old(t.portMap) then old(t.portMap)[link.dpid1] else map[])
                          [link.dpid2 := link.port1]]
      ensures added ==> t.switchPorts == old(t.switchPorts)[SwitchPort(link.dpid1, link.port1) := link]
      ensures !added ==> t.portMap == old(t.portMap) && t.switchPorts == old(t.switchPorts)
      ensures t.switches == old(t.switches) && t.macTable == old(t.macTable) && t.emitted == old(t.emitted)
    {
      if added {
        var row := if link.dpid1 in t.portMap then t.portMap[link.dpid1] else map[];
        t.portMap := t.portMap[link.dpid1 := row[link.dpid2 := link.port1]];
        t.switchPorts := t.switchPorts[SwitchPort(link.dpid1, link.port1) := link];
      }
    }

    /** _handle_ConnectionUp: register a new switch under its dpid and raise
        NewSwitchEvent; the other tables are untouched. */
    method HandleConnectionUp(t: Tables, dpid: Dpid, ports: seq<Port>) returns (sw: Switch)
      requires t.Valid()
      modifies t`switches, t`emitted
      ensures t.Valid()
      ensures fresh(sw) && sw.dpid == dpid && sw.ports == ports
      ensures t.switches == old(t.switches)[dpid := sw]
      ensures t.emitted == old(t.emitted) + [NewSwitchRaised(dpid)]
      ensures t.switchPorts == old(t.switchPorts) && t.portMap == old(t.portMap)
      ensures t.macTable == old(t.macTable)
    {
      sw := new Switch(dpid, ports);
      t.switches := t.switches[dpid := sw];
      t.emitted := t.emitted + [NewSwitchRaised(dpid)];
    }
  }
}
