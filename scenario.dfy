/** A worked case: three switches in a line, 1 - 2 - 3, host X behind port 2
    of switch 3 and host Y behind port 2 of switch 1. */
module Scenario {
  import opened Types
  import opened PathInstall
  import opened Decision

  /** The reaction to Y's unicast toward X, from switch 1 of the line, when
      the routing controller answers 1 -> 2 -> 3: three rules (switch 3
      toward X, switch 1 toward 2, switch 2 toward 3), the drop, the
      packet-out at X's port, and one NewFlowEvent; compute_islands runs. */
  lemma RoutedAlongLine(v: View, f: Frame, x: Mac, y: Mac, flowHeaders: int, data: RawData,
                        route: (Dpid, Dpid) -> Option<Path>)
    requires v.ports.Keys == {1, 2, 3}
    requires x in v.macTable && v.macTable[x] == SwitchPort(3, 2)
    requires PortToward(v.portMap, 1, 2) == Some(1) && PortToward(v.portMap, 2, 3) == Some(2)
    requires f == Frame(1, 2, Packet(y, x, false, OtherEtherType, flowHeaders), data, Some(7))
    requires route(1, 3) == Some(Path(1, 3, [2, 3]))
    ensures var flow := FlowMatch(y, x, flowHeaders);
            Decide(v, f, 1, false, route) == Reaction(
              [ FlowMod(3, flow, Some(2), 10, true),
                FlowMod(1, flow, Some(1), 10, true),
                FlowMod(2, flow, Some(2), 10, true),
                BufferDrop(1, 7, 2),
                PacketOut(3, Raw(data), None, [2]),
                NewFlowRaised(1, Path(1, 3, [2, 3]), flow, v.portMap) ],
              true, true, None)
  {
    var flow := FlowMatch(y, x, flowHeaders);
    assert At(1, [2, 3], 0) == 1 && At(1, [2, 3], 1) == 2;
    RoutedFrameInstallsPath(v, f, 1, false, route);
    IslandsOnlyWhenUnsegmented(v, f, 1, false, route);
    ThreeSwitchOrder(1, 2, 3, flow, 2, v.portMap);
    var out := Decide(v, f, 1, false, route).out;
    assert out == out[..3] + out[3..];
  }
}
