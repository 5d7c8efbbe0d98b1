/** The PacketIn logic of a switch as functions of the tables: source
    learning, the flood and drop helpers, and the order in which a frame is
    classified and answered. */
module Decision {
  import opened Types
  import opened PathInstall

  /** A PacketIn as the handler sees it: arrival switch and port, the parsed
      packet, the raw frame, and the buffer id the switch holds it under. */
  datatype Frame = Frame(dpid: Dpid, port: Port, packet: Packet, data: RawData, bufferId: Option<BufferId>)

  /** The shared tables as seen by the switch that handles a PacketIn.
      `ports` gives each connected switch's ports; `ingress` is the dpid under
      which the handling switch itself is registered, if it is; `order` is the
      order in which the switches table is iterated. */
  datatype View = View(ports: map<Dpid, seq<Port>>, ingress: Option<Dpid>, order: seq<Dpid>,
                       switchPorts: map<SwitchPort, Link>, portMap: PortMap,
                       macTable: map<Mac, SwitchPort>)

  /** What one PacketIn produces: the outputs in order, false when a KeyError
      ended the handler, whether compute_islands is called, and the event's
      buffer id afterwards. */
  datatype Reaction = Reaction(out: seq<Output>, ok: bool, islandsComputed: bool,
                               bufferAfter: Option<BufferId>)

  /** mac_table after a frame from `src` arrives at `at`: the source is
      recorded there unless `at` is a known inter-switch port. */
  function Learn(mac: map<Mac, SwitchPort>, switchPorts: map<SwitchPort, Link>,
                 at: SwitchPort, src: Mac): (r: map<Mac, SwitchPort>)
    ensures at !in switchPorts ==> src in r && r[src] == at
    ensures at in switchPorts ==> r == mac
    ensures r.Keys == if at in switchPorts then mac.Keys else mac.Keys + {src}
    ensures forall h :: h in mac && h != src ==> r[h] == mac[h]
  {
    if at !in switchPorts then mac[src := at] else mac
  }

  /** The ports of switch `d` that are not recorded inter-switch ports, in
      the order the switch lists them. */
  function FreePorts(d: Dpid, ports: seq<Port>, switchPorts: map<SwitchPort, Link>): (r: seq<Port>)
    ensures |r| <= |ports|
    ensures forall q :: q in r <==> q in ports && SwitchPort(d, q) !in switchPorts
  {
    if ports == [] then []
    else
      var rest := FreePorts(d, ports[1..], switchPorts);
      assert forall q :: q in ports <==> q == ports[0] || q in ports[1..];
      if SwitchPort(d, ports[0]) in switchPorts then rest else [ports[0]] + rest
  }

  /** The packet-out flood() builds for switch `d`: the ingress switch may
      reuse the buffer and names the arrival port; every other switch gets the
      raw frame. */
  function FloodMessage(d: Dpid, free: seq<Port>, isIngress: bool, f: Frame): Output
  {
    if isIngress then
      PacketOut(d, if f.bufferId.Some? then Buffered(f.bufferId.value) else Raw(f.data), Some(f.port), free)
    else
      PacketOut(d, Raw(f.data), None, free)
  }

  /** True when the switch `d` has at least one port that is not an
      inter-switch port, so that flood() sends to it. */
  predicate FloodsTo(d: Dpid, ports: map<Dpid, seq<Port>>, switchPorts: map<SwitchPort, Link>)
  {
    d in ports && FreePorts(d, ports[d], switchPorts) != []
  }

  /** The messages flood() sends, switch by switch in `order`. */
  function FloodMessages(order: seq<Dpid>, ports: map<Dpid, seq<Port>>, ingress: Option<Dpid>,
                         switchPorts: map<SwitchPort, Link>, f: Frame): seq<Output>
    decreases |order|
  {
    if order == [] then []
    else
      var last := order[|order| - 1];
      var rest := FloodMessages(order[..|order| - 1], ports, ingress, switchPorts, f);
      if FloodsTo(last, ports, switchPorts) then
        rest + [FloodMessage(last, FreePorts(last, ports[last], switchPorts), ingress == Some(last), f)]
      else rest
  }

  /** What flood() promises of its messages `r`: every one is a packet-out
      to a switch it visits that has a non-inter-switch port, out of exactly
      those ports; only the ingress switch's message names the arrival port or
      reuses the buffer, and it always does; every such switch gets a message,
      and, with each switch visited once, exactly one. */
  ghost predicate FloodShaped(r: seq<Output>, order: seq<Dpid>, ports: map<Dpid, seq<Port>>,
                              ingress: Option<Dpid>, switchPorts: map<SwitchPort, Link>, f: Frame)
  {
    && (forall i :: 0 <= i < |r| ==>
          && r[i].PacketOut?
          && r[i].dpid in order
          && FloodsTo(r[i].dpid, ports, switchPorts)
          && r[i].outPorts == FreePorts(r[i].dpid, ports[r[i].dpid], switchPorts))
    && (forall i :: 0 <= i < |r| && ingress != Some(r[i].dpid) ==>
          r[i].payload == Raw(f.data) && r[i].inPort == None)
    && (forall i :: 0 <= i < |r| && ingress == Some(r[i].dpid) ==>
          && r[i].inPort == Some(f.port)
          && r[i].payload == (if f.bufferId.Some? then Buffered(f.bufferId.value) else Raw(f.data)))
    && (forall d :: d in order && FloodsTo(d, ports, switchPorts) ==>
          exists i :: 0 <= i < |r| && r[i].dpid == d)
    && ((forall i, j :: 0 <= i < j < |order| ==> order[i] != order[j]) ==>
          forall i, j :: 0 <= i < j < |r| ==> r[i].dpid != r[j].dpid)
  }

  lemma {:induction false} FloodMessagesShape(order: seq<Dpid>, ports: map<Dpid, seq<Port>>,
                                              ingress: Option<Dpid>, switchPorts: map<SwitchPort, Link>,
                                              f: Frame)
    ensures FloodShaped(FloodMessages(order, ports, ingress, switchPorts, f), order, ports, ingress, switchPorts, f)
    decreases |order|
  {
    if order != [] {
      var last := order[|order| - 1];
      var front := order[..|order| - 1];
      FloodMessagesShape(front, ports, ingress, switchPorts, f);
      assert forall d :: d in order <==> d in front || d == last;
      var rest := FloodMessages(front, ports, ingress, switchPorts, f);
      if FloodsTo(last, ports, switchPorts) {
        var msg := FloodMessage(last, FreePorts(last, ports[last], switchPorts), ingress == Some(last), f);
        var r := FloodMessages(order, ports, ingress, switchPorts, f);
        assert r == rest + [msg];
        assert r[|rest|].dpid == last;
        assert forall i :: 0 <= i < |rest| ==> r[i] == rest[i];
        forall d | d in order && FloodsTo(d, ports, switchPorts)
          ensures exists i :: 0 <= i < |r| && r[i].dpid == d
        {
          if d != last {
            var i :| 0 <= i < |rest| && rest[i].dpid == d;
            assert r[i].dpid == d;
          }
        }
        if forall i, j :: 0 <= i < j < |order| ==> order[i] != order[j] {
          assert forall i :: 0 <= i < |front| ==> front[i] == order[i];
          assert last !in front;
        }
      }
    }
  }

  /** Visiting one more switch of `order` appends at most one message. */
  lemma FloodMessagesStep(order: seq<Dpid>, i: nat, ports: map<Dpid, seq<Port>>, ingress: Option<Dpid>,
                          switchPorts: map<SwitchPort, Link>, f: Frame)
    requires i < |order|
    ensures FloodMessages(order[..i + 1], ports, ingress, switchPorts, f) ==
              FloodMessages(order[..i], ports, ingress, switchPorts, f) +
              (if FloodsTo(order[i], ports, switchPorts)
               then [FloodMessage(order[i], FreePorts(order[i], ports[order[i]], switchPorts), ingress == Some(order[i]), f)]
               else [])
  {
    var o := order[..i + 1];
    assert o[|o| - 1] == order[i] && o[..|o| - 1] == order[..i];
  }

  /** What drop() sends: the buffered frame released on the handling switch,
      and nothing when the event carries no buffer. */
  function DropEffect(me: Dpid, f: Frame): seq<Output>
  {
    if f.bufferId.Some? then [BufferDrop(me, f.bufferId.value, f.port)] else []
  }

  /** The packet-out that sends the raw frame straight to the learned
      location of the destination. */
  function DeliverToHost(dst: SwitchPort, f: Frame): Output
  {
    PacketOut(dst.dpid, Raw(f.data), None, [dst.port])
  }

  /** A route `p` was found for a known unicast, non-ARP frame: install it,
      drop the frame, send it to the destination's port and raise
      NewFlowEvent; a KeyError in the installer or on the destination's
      switch stops short. */
  function PathReaction(v: View, f: Frame, me: Dpid, p: Path): Reaction
    requires f.packet.dst in v.macTable
  {
    var dst := v.macTable[f.packet.dst];
    var flow := MatchFromPacket(f.packet);
    var inst := InstallEffects(p, flow, v.macTable, v.portMap, v.ports.Keys);
    if !inst.ok then Reaction(inst.out, false, false, f.bufferId)
    else if dst.dpid !in v.ports then
      Reaction(inst.out + DropEffect(me, f), false, false, None)
    else
      Reaction(inst.out + DropEffect(me, f) + [DeliverToHost(dst, f), NewFlowRaised(me, p, flow, v.portMap)],
               true, false, None)
  }

  /** The known unicast, non-ARP case: ask the routing controller for a
      route from `me` to the destination's switch (computing islands first
      when not segmented); flood when there is none. */
  function RoutedReaction(v: View, f: Frame, me: Dpid, isSegmented: bool,
                          route: (Dpid, Dpid) -> Option<Path>): Reaction
    requires f.packet.dst in v.macTable
  {
    match route(me, v.macTable[f.packet.dst].dpid)
    case None => Reaction(FloodMessages(v.order, v.ports, v.ingress, v.switchPorts, f), true, !isSegmented, f.bufferId)
    case Some(p) => PathReaction(v, f, me, p).(islandsComputed := !isSegmented)
  }

  /** _handle_PacketIn after learning, for the switch `me` with router state
      `isSegmented` and route oracle `route`: LLDP is dropped; a multicast or
      unlearned destination is flooded; ARP is dropped and sent directly to
      the destination's port; anything else is routed. */
  function Decide(v: View, f: Frame, me: Dpid, isSegmented: bool,
                  route: (Dpid, Dpid) -> Option<Path>): Reaction
  {
    var pkt := f.packet;
    if pkt.etherClass == Lldp then
      Reaction(DropEffect(me, f), true, false, None)
    else if pkt.dstMulticast || pkt.dst !in v.macTable then
      Reaction(FloodMessages(v.order, v.ports, v.ingress, v.switchPorts, f), true, false, f.bufferId)
    else if pkt.etherClass == Arp then
      var dst := v.macTable[pkt.dst];
      if dst.dpid in v.ports then Reaction(DropEffect(me, f) + [DeliverToHost(dst, f)], true, false, None)
      else Reaction(DropEffect(me, f), false, false, None)
    else
      RoutedReaction(v, f, me, isSegmented, route)
  }

  /** A flood sends no flow rule. */
  lemma {:induction false} FloodInstallsNothing(order: seq<Dpid>, ports: map<Dpid, seq<Port>>,
                                                ingress: Option<Dpid>, switchPorts: map<SwitchPort, Link>,
                                                f: Frame)
    ensures NoFlowMods(FloodMessages(order, ports, ingress, switchPorts, f))
  {
    FloodMessagesShape(order, ports, ingress, switchPorts, f);
  }

  /** Learning a host twice keeps the later location, unless the later
      frame arrived on an inter-switch port. */
  lemma LastWriteWins(mac: map<Mac, SwitchPort>, switchPorts: map<SwitchPort, Link>,
                      first: SwitchPort, second: SwitchPort, h: Mac)
    requires first !in switchPorts
    ensures var r := Learn(Learn(mac, switchPorts, first, h), switchPorts, second, h);
            h in r && r[h] == (if second in switchPorts then first else second)
  {
  }

  /** Learning comes before the lookup: a unicast frame addressed to its own
      source, arriving on a port that is not an inter-switch port, finds its
      destination in the table it just updated, so it is not flooded as
      unknown but routed (or, for ARP, delivered). */
  lemma LearningPrecedesLookup(v: View, f: Frame, me: Dpid, isSegmented: bool,
                               route: (Dpid, Dpid) -> Option<Path>)
    requires f.packet.src == f.packet.dst && !f.packet.dstMulticast
    requires f.packet.etherClass == OtherEtherType
    requires SwitchPort(f.dpid, f.port) !in v.switchPorts
    ensures var learned := v.(macTable := Learn(v.macTable, v.switchPorts, SwitchPort(f.dpid, f.port), f.packet.src));
            && f.packet.dst in learned.macTable
            && Decide(learned, f, me, isSegmented, route) == RoutedReaction(learned, f, me, isSegmented, route)
  {
  }

  /** An LLDP frame is only dropped: nothing but the buffer release is sent. */
  lemma LldpIsOnlyDropped(v: View, f: Frame, me: Dpid, isSegmented: bool,
                          route: (Dpid, Dpid) -> Option<Path>)
    requires f.packet.etherClass == Lldp
    ensures var r := Decide(v, f, me, isSegmented, route);
            && r.out == (if f.bufferId.Some? then [BufferDrop(me, f.bufferId.value, f.port)] else [])
            && r.ok && !r.islandsComputed && r.bufferAfter == None
  {
  }

  /** A non-LLDP frame to a multicast or unlearned destination is flooded,
      with no rule installed and the routing controller not consulted. */
  lemma MulticastOrUnknownIsFlooded(v: View, f: Frame, me: Dpid, isSegmented: bool,
                                    route: (Dpid, Dpid) -> Option<Path>)
    requires f.packet.etherClass != Lldp
    requires f.packet.dstMulticast || f.packet.dst !in v.macTable
    ensures var r := Decide(v, f, me, isSegmented, route);
            && r.out == FloodMessages(v.order, v.ports, v.ingress, v.switchPorts, f)
            && NoFlowMods(r.out) && r.ok && !r.islandsComputed
  {
    FloodInstallsNothing(v.order, v.ports, v.ingress, v.switchPorts, f);
  }

  /** An ARP frame to a learned unicast destination is dropped and its raw
      data sent straight to the destination's port, with no rule installed. */
  lemma ArpIsDeliveredDirectly(v: View, f: Frame, me: Dpid, isSegmented: bool,
                               route: (Dpid, Dpid) -> Option<Path>)
    requires f.packet.etherClass == Arp && !f.packet.dstMulticast && f.packet.dst in v.macTable
    requires v.macTable[f.packet.dst].dpid in v.ports
    ensures var r := Decide(v, f, me, isSegmented, route);
            var dst := v.macTable[f.packet.dst];
            && r.out == DropEffect(me, f) + [DeliverToHost(dst, f)]
            && NoFlowMods(r.out) && r.ok && !r.islandsComputed
  {
  }

  /** compute_islands is called exactly for a known unicast non-ARP frame
      handled by a switch whose routing controller is not yet segmented. */
  lemma IslandsOnlyWhenUnsegmented(v: View, f: Frame, me: Dpid, isSegmented: bool,
                                   route: (Dpid, Dpid) -> Option<Path>)
    ensures Decide(v, f, me, isSegmented, route).islandsComputed <==>
              && f.packet.etherClass == OtherEtherType && !f.packet.dstMulticast
              && f.packet.dst in v.macTable && !isSegmented
  {
  }

  /** A known unicast frame with no route is flooded and installs nothing. */
  lemma UnroutableIsFlooded(v: View, f: Frame, me: Dpid, isSegmented: bool,
                            route: (Dpid, Dpid) -> Option<Path>)
    requires f.packet.etherClass == OtherEtherType && !f.packet.dstMulticast
    requires f.packet.dst in v.macTable
    requires route(me, v.macTable[f.packet.dst].dpid).None?
    ensures var r := Decide(v, f, me, isSegmented, route);
            && r.out == FloodMessages(v.order, v.ports, v.ingress, v.switchPorts, f)
            && NoFlowMods(r.out) && r.ok
  {
    FloodInstallsNothing(v.order, v.ports, v.ingress, v.switchPorts, f);
  }

  /** A known unicast frame with a route whose switches are all connected:
      the 1 + |hops| rules of the path, then the drop, then one packet-out to
      the destination's learned port, then exactly one NewFlowEvent. */
  lemma RoutedFrameInstallsPath(v: View, f: Frame, me: Dpid, isSegmented: bool,
                                route: (Dpid, Dpid) -> Option<Path>)
    requires f.packet.etherClass == OtherEtherType && !f.packet.dstMulticast
    requires f.packet.dst in v.macTable
    requires route(me, v.macTable[f.packet.dst].dpid).Some?
    requires var p := route(me, v.macTable[f.packet.dst].dpid).value;
             && p.destination in v.ports && v.macTable[f.packet.dst].dpid in v.ports
             && forall k :: 0 <= k < |p.hops| ==> At(p.source, p.hops, k) in v.ports
    ensures var r := Decide(v, f, me, isSegmented, route);
            var p := route(me, v.macTable[f.packet.dst].dpid).value;
            var dst := v.macTable[f.packet.dst];
            var flow := MatchFromPacket(f.packet);
            var n := 1 + |p.hops|;
            && r.ok && r.bufferAfter == None
            && r.out[..n] == PathRules(p, flow, dst.port, v.portMap)
            && r.out[n..] == DropEffect(me, f) + [DeliverToHost(dst, f),
                                                  NewFlowRaised(me, p, flow, v.portMap)]
            && NoFlowMods(r.out[n..])
  {
    var r := Decide(v, f, me, isSegmented, route);
    var p := route(me, v.macTable[f.packet.dst].dpid).value;
    var dst := v.macTable[f.packet.dst];
    var flow := MatchFromPacket(f.packet);
    var inst := InstallEffects(p, flow, v.macTable, v.portMap, v.ports.Keys);
    var rules := PathRules(p, flow, dst.port, v.portMap);
    var tail := DropEffect(me, f) + [DeliverToHost(dst, f), NewFlowRaised(me, p, flow, v.portMap)];
    assert inst.ok && |inst.out| == 1 + |p.hops|;
    assert inst.out == rules[..|rules|] == rules;
    assert r.out == inst.out + DropEffect(me, f) + [DeliverToHost(dst, f), NewFlowRaised(me, p, flow, v.portMap)];
    AppendAssoc(inst.out, DropEffect(me, f), [DeliverToHost(dst, f), NewFlowRaised(me, p, flow, v.portMap)]);
    SplitAtJoin(inst.out, tail);
  }

  /** A flow rule appears in a PacketIn's outputs only for a known unicast
      non-ARP frame that the routing controller found a route for. */
  lemma RulesOnlyForRoutedFrames(v: View, f: Frame, me: Dpid, isSegmented: bool,
                                 route: (Dpid, Dpid) -> Option<Path>)
    requires !NoFlowMods(Decide(v, f, me, isSegmented, route).out)
    ensures f.packet.etherClass == OtherEtherType && !f.packet.dstMulticast
    ensures f.packet.dst in v.macTable && route(me, v.macTable[f.packet.dst].dpid).Some?
  {
    FloodInstallsNothing(v.order, v.ports, v.ingress, v.switchPorts, f);
  }
}
