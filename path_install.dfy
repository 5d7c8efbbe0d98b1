/** What _install_path sends: one rule on the destination switch toward the
    host, then one rule per hop the path iterator yields, each on the switch
    the walk stands at, toward the hop. */
module PathInstall {
  import opened Types

  /** The switch the walk stands at after k moves of the path iterator. */
  function At(source: Dpid, hops: seq<Dpid>, k: nat): Dpid
    requires k <= |hops|
  {
    if k == 0 then source else hops[k - 1]
  }

  /** The flow rule that sends matching frames from switch `from` toward `to`. */
  function HopRule(from: Dpid, to: Dpid, flow: FlowMatch, pm: PortMap): Output
  {
    FlowMod(from, flow, PortToward(pm, from, to), IdleTimeout, true)
  }

  /** The rules of the loop, one per yielded hop, in the order they are sent. */
  function HopRules(cur: Dpid, hops: seq<Dpid>, flow: FlowMatch, pm: PortMap): (r: seq<Output>)
    ensures |r| == |hops|
    ensures forall k {:trigger r[k]} :: 0 <= k < |hops| ==> r[k] == HopRule(At(cur, hops, k), hops[k], flow, pm)
    decreases |hops|
  {
    if hops == [] then []
    else [HopRule(cur, hops[0], flow, pm)] + HopRules(hops[0], hops[1..], flow, pm)
  }

  /** Every rule _install_path sends when no lookup fails, in order. */
  function PathRules(p: Path, flow: FlowMatch, hostPort: Port, pm: PortMap): (r: seq<Output>)
    ensures |r| == 1 + |p.hops|
    ensures r[0] == FlowMod(p.destination, flow, Some(hostPort), IdleTimeout, true)
    ensures forall k {:trigger r[k]} :: 1 <= k <= |p.hops| ==>
              r[k] == FlowMod(At(p.source, p.hops, k - 1), flow,
                              PortToward(pm, At(p.source, p.hops, k - 1), p.hops[k - 1]), IdleTimeout, true)
  {
    [FlowMod(p.destination, flow, Some(hostPort), IdleTimeout, true)] + HopRules(p.source, p.hops, flow, pm)
  }

  /** How many loop rounds find their current switch in `known` before the
      first one that does not (a KeyError on switches[current]). */
  function KnownPrefix(cur: Dpid, hops: seq<Dpid>, known: set<Dpid>): (n: nat)
    ensures n <= |hops|
    ensures forall k {:trigger At(cur, hops, k)} :: 0 <= k < n ==> At(cur, hops, k) in known
    ensures n < |hops| ==> At(cur, hops, n) !in known
    decreases |hops|
  {
    if hops == [] || cur !in known then 0
    else
      var m := KnownPrefix(hops[0], hops[1..], known);
      assert forall k {:trigger At(cur, hops, k)} :: 1 <= k <= m ==> At(cur, hops, k) == At(hops[0], hops[1..], k - 1);
      1 + m
  }

  /** The effect of _install_path(p, flow) on tables `mac`, `pm` and the set
      `known` of connected switches: a KeyError on mac_table or on switches
      stops it, after whatever it has already sent. */
  function InstallEffects(p: Path, flow: FlowMatch, mac: map<Mac, SwitchPort>, pm: PortMap,
                          known: set<Dpid>): (r: Emitted)
    ensures flow.dlDst !in mac || p.destination !in known ==> r == Emitted([], false)
    ensures flow.dlDst in mac && p.destination in known ==>
              && 1 <= |r.out| <= 1 + |p.hops|
              && r.out == PathRules(p, flow, mac[flow.dlDst].port, pm)[..|r.out|]
              && (r.ok <==> |r.out| == 1 + |p.hops|)
    ensures r.ok <==> && flow.dlDst in mac && p.destination in known
                      && forall k {:trigger At(p.source, p.hops, k)} :: 0 <= k < |p.hops| ==> At(p.source, p.hops, k) in known
    ensures !r.ok && |r.out| > 0 ==> At(p.source, p.hops, |r.out| - 1) !in known
  {
    if flow.dlDst !in mac || p.destination !in known then Emitted([], false)
    else
      var n := KnownPrefix(p.source, p.hops, known);
      Emitted(PathRules(p, flow, mac[flow.dlDst].port, pm)[..1 + n], n == |p.hops|)
  }

  /** The ordering promised for a route A -> B -> C: the iterator yields B
      and C; C's rule toward the host goes first, then A's toward B, then B's
      toward C. */
  lemma ThreeSwitchOrder(a: Dpid, b: Dpid, c: Dpid, flow: FlowMatch, hostPort: Port, pm: PortMap)
    ensures PathRules(Path(a, c, [b, c]), flow, hostPort, pm) ==
              [ FlowMod(c, flow, Some(hostPort), IdleTimeout, true),
                FlowMod(a, flow, PortToward(pm, a, b), IdleTimeout, true),
                FlowMod(b, flow, PortToward(pm, b, c), IdleTimeout, true) ]
  {
    var r := PathRules(Path(a, c, [b, c]), flow, hostPort, pm);
    assert r[1] == HopRule(At(a, [b, c], 0), b, flow, pm);
    assert r[2] == HopRule(At(a, [b, c], 1), c, flow, pm);
  }

  /** Every rule the installer sends carries the same match, the 10-second
      idle timeout and the flow-removed flag. */
  lemma RulesShareMatchAndTimeout(p: Path, flow: FlowMatch, hostPort: Port, pm: PortMap, i: nat)
    requires i < 1 + |p.hops|
    ensures var rule := PathRules(p, flow, hostPort, pm)[i];
            rule.FlowMod? && rule.flow == flow && rule.idleTimeout == 10 && rule.sendFlowRem
  {
    if i > 0 {
      var k := i - 1;
      assert PathRules(p, flow, hostPort, pm)[k + 1].FlowMod?;
    }
  }

  /** Every port recorded in port_map is a recorded inter-switch port. */
  ghost predicate LinksRecorded(pm: PortMap, switchPorts: map<SwitchPort, Link>)
  {
    forall a, b :: a in pm && b in pm[a] ==> SwitchPort(a, pm[a][b]) in switchPorts
  }

  /** When port_map only holds recorded inter-switch ports, each hop rule
      either has no port (the link was never seen) or outputs on an
      inter-switch port of the switch it is sent to. */
  lemma HopRulesUseLinkPorts(p: Path, flow: FlowMatch, hostPort: Port, pm: PortMap,
                             switchPorts: map<SwitchPort, Link>, k: nat)
    requires LinksRecorded(pm, switchPorts)
    requires k < |p.hops|
    ensures var rule := PathRules(p, flow, hostPort, pm)[k + 1];
            rule.outPort.Some? ==> SwitchPort(rule.dpid, rule.outPort.value) in switchPorts
  {
    var from := At(p.source, p.hops, k);
    var rule := PathRules(p, flow, hostPort, pm)[k + 1];
    if rule.outPort.Some? {
      assert from in pm && p.hops[k] in pm[from];
    }
  }
}
