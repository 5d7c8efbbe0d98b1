# Forwarding engine of an OpenFlow routing controller, in Dafny

This project models `forwarding.py`, the forwarding component of an SDN
controller built on POX. The component keeps four module-level tables:

- `switches`: dpid to connected switch.
- `switch_ports`: (dpid, port) to the discovered link leaving through that port.
- `port_map`: dpid to dpid to egress port.
- `mac_table`: host address to (dpid, port).

It reacts to four kinds of event:

- **PacketIn**: learn the source, then drop LLDP, flood multicast and unknown
  destinations, deliver ARP directly, and route every other frame. Routing asks
  the routing controller for a path, installs one flow rule per switch of the
  path, drops the buffered frame, sends the frame to the destination's port and
  raises `NewFlowEvent`.
- **ConnectionDown**: unregister the switch.
- **LinkEvent**: record a discovered link.
- **ConnectionUp**: register a new switch and raise `NewSwitchEvent`.

The model has five modules:

- `Types` holds the values: identifiers, table entries, parsed packets, routes,
  and the outputs. An output is one of: an `ofp_flow_mod`, an `ofp_packet_out`,
  a buffer release, a raised `NewFlowEvent` or a raised `NewSwitchEvent`.
- `PathInstall` specifies `_install_path` as functions: which rules it sends,
  in which order, and where a `KeyError` stops it.
- `Decision` specifies the PacketIn logic as functions of the tables: learning,
  `flood()`, `drop()` and the dispatch order.
- `Forwarding` is the imperative model:
  - class `Tables` holds the module-level dictionaries as fields, plus the
    sequence `emitted` of everything sent to switches or raised to listeners.
  - class `Switch` has the PacketIn and ConnectionDown handlers.
  - class `Forwarding` has the LinkEvent and ConnectionUp handlers.
  - method `InstallPath` is the path installer.

  Each method's loop is proved against the functions of `PathInstall` and
  `Decision`, and the properties are proved as lemmas about those functions.
- `Scenario` works one case through: a line of three switches.

How the model treats the source's environment:

- **The routing controller** is outside the model. It is represented by two
  parameters: `isSegmented` (its `is_segmented` flag) and `route`
  (`compute_path`, a function from two dpids to an optional path). The
  out-parameter `islandsComputed` says whether `compute_islands` is called.
- **Dict iteration order**: the order in which `switches` is iterated by
  `flood()` is the parameter `order`. The predicate `Enumerates` requires it to
  list every key exactly once.
- **Helpers**: `Types.PortToward` reads `port_map` the way the nested
  `defaultdict` does, with a missing entry read as None.
  `Types.MatchFromPacket` stands for `ofp_match.from_packet`.
  `Forwarding.Tables.Ports` gives each connected switch's `connection.ports`.
- **Exceptions**: a `KeyError` in the source (a switch missing from
  `switches`) appears as `ok == false`. Whatever was sent before the exception
  stays in `emitted`.

## Model

| member | source | states |
|---|---|---|
| Types.PortTowardAfterLink | forwarding.py:211 | after a link from d1 to d2 over port p is recorded, reading `port_map[d1][d2]` gives p and every other pair reads as before |
| PathInstall.HopRules | forwarding.py:40-53 | one rule per hop the path iterator yields, in order; the k-th is sent to the switch the walk stands at after k moves and outputs on the port toward the k-th hop |
| PathInstall.PathRules | forwarding.py:26-53 | 1 + number of hops rules: first the destination switch's rule toward the host's port, then the hop rules in walk order |
| PathInstall.KnownPrefix | forwarding.py:41-51 | the number of loop rounds before the walk reaches a switch missing from `switches`: every earlier switch is connected, and the one reached is not |
| PathInstall.InstallEffects | forwarding.py:26-53 | a missing `mac_table` entry or destination switch sends nothing and fails; otherwise the sent rules are a non-empty prefix of `PathRules`, and the call completes exactly when the destination and every switch the walk leaves are connected |
| PathInstall.ThreeSwitchOrder | forwarding.py:26-53 | for the route A -> B -> C: C's rule toward the host, then A's rule toward B, then B's rule toward C |
| PathInstall.RulesShareMatchAndTimeout | forwarding.py:31-47 | every installed rule carries the given match, idle timeout 10 and the flow-removed flag |
| PathInstall.HopRulesUseLinkPorts | forwarding.py:49-50 | when `port_map` names only recorded inter-switch ports, each hop rule has no port or outputs on an inter-switch port of its switch |
| Decision.Learn | forwarding.py:137-138 | the source is recorded at the arrival port exactly when that port is not an inter-switch port; every other host keeps its entry |
| Decision.LastWriteWins | forwarding.py:137-138 | learning the same host twice keeps the later location unless the later frame came over an inter-switch port |
| Decision.FreePorts | forwarding.py:118 | a port is chosen exactly when it is a port of the switch and not an inter-switch port |
| Decision.FloodMessagesShape | forwarding.py:106-122 | each flood message is a packet-out to a visited switch with a free port, out of exactly those ports. Only the ingress switch's message names the arrival port and may reuse the buffer. Every other switch gets the raw frame. Every switch with a free port gets a message, and exactly one when each switch is visited once |
| Decision.FloodMessagesStep | forwarding.py:108-122 | visiting one more switch appends at most one message, the one for that switch |
| Decision.FloodInstallsNothing | forwarding.py:106-122 | a flood sends no flow rule |
| Decision.LearningPrecedesLookup | forwarding.py:137-145 | the destination lookup sees the table after learning: a unicast non-ARP frame to its own source address, arriving on a port that is not an inter-switch port, finds its destination and takes the routed branch, not the unknown-destination flood |
| Decision.LldpIsOnlyDropped | forwarding.py:140-141 | an LLDP frame only has its buffer released; the routing controller is not consulted |
| Decision.MulticastOrUnknownIsFlooded | forwarding.py:142-145 | a multicast or unlearned destination is flooded, installs no rule and does not consult the routing controller |
| Decision.ArpIsDeliveredDirectly | forwarding.py:146-153 | an ARP frame to a learned host is dropped and its raw data sent straight to the host's port; no rule is installed |
| Decision.IslandsOnlyWhenUnsegmented | forwarding.py:154-158 | compute_islands is called exactly for a learned unicast non-ARP frame while the routing controller is not segmented |
| Decision.UnroutableIsFlooded | forwarding.py:160-163 | with no route, the frame is flooded and no rule is installed |
| Decision.RoutedFrameInstallsPath | forwarding.py:160-175 | with a route through connected switches: the path's rules, then the drop, one packet-out to the host's port and one NewFlowEvent, and the buffer is cleared |
| Decision.RulesOnlyForRoutedFrames | forwarding.py:140-175 | a flow rule is sent only for a learned unicast non-ARP frame for which a route was found |
| Scenario.RoutedAlongLine | forwarding.py:154-175 | on the line 1 - 2 - 3 the six outputs for Y's frame to X, in order, with compute_islands called |
| Forwarding.Tables.constructor | forwarding.py:19-23 | all tables start empty and nothing has been sent |
| Forwarding.Tables.IngressOf | forwarding.py:110 | `switch == self` holds for the registered switch exactly when its dpid is the handling switch's registration |
| Forwarding.InstallPath | forwarding.py:26-53 | the rules sent and the completion flag are exactly `InstallEffects` of the tables |
| Forwarding.Switch.constructor | forwarding.py:67-73 | a switch takes its dpid and ports from its connection |
| Forwarding.Switch.Drop | forwarding.py:124-130 | releases a held buffer once, on this switch at the arrival port, and clears the event's buffer id |
| Forwarding.Switch.Flood | forwarding.py:106-122 | sends exactly `FloodMessages` over the switches in iteration order |
| Forwarding.Switch.FloodTo | forwarding.py:109-122 | one loop round: the packet-out for one switch if it has a free port, nothing otherwise |
| Forwarding.Switch.HandlePacketIn | forwarding.py:94-175 | `mac_table` becomes `Learn` of the old table; the outputs, the KeyError flag, the compute_islands call and the buffer id are `Decide` on the learned tables; the table invariant is kept |
| Forwarding.Switch.Dispatch | forwarding.py:140-175 | the classification after learning sends exactly what `Decide` says |
| Forwarding.Switch.ForwardRouted | forwarding.py:154-175 | the routed branch sends exactly what `RoutedReaction` says |
| Forwarding.Switch.SendAlong | forwarding.py:166-175 | with a route, sends exactly what `PathReaction` says |
| Forwarding.Switch.Deliver | forwarding.py:168-175 | drop, then the packet-out to the host's port and NewFlowEvent, or a KeyError when the host's switch is gone |
| Forwarding.Switch.HandleConnectionDown | forwarding.py:177-179 | removes exactly this switch's dpid from `switches` and changes no other table; KeyError when it is not registered |
| Forwarding.Forwarding.HandleLinkEvent | forwarding.py:206-215 | an added link sets `port_map[dpid1][dpid2]` to `port1` and `switch_ports[(dpid1, port1)]` to the link; a removed link changes nothing; the table invariant is kept |
| Forwarding.Forwarding.HandleConnectionUp | forwarding.py:217-221 | registers a new switch under its dpid, replacing any earlier one, raises NewSwitchEvent and changes no other table |

## Left out

- The routing controller (`RoutingController`, `is_segmented`, `compute_islands`, `compute_path`) is not part of this model. It is an input: a flag and a route function. How `compute_islands` changes `is_segmented` is not modelled.
- `WeightsMatrixParser`, `weight_map` and reading `weights_matrix.txt`: file input that the forwarding logic does not consult.
- POX plumbing (`launch`, `startup`, listener registration, `connection.send`): a send appears as an entry appended to `emitted`, and a raised event as a `NewFlowRaised` or `NewSwitchRaised` entry.
- Forwarding.Forwarding.HandleConnectionUp: the `enable_flooding` port-mod messages sent by the `Switch` constructor, and `disable_flooding`, which is never called, are not modelled. They configure devices and do not affect the tables.
- Packet parsing: a parsed frame is reduced to its addresses, a multicast flag, an ethertype class (LLDP, ARP, other) and an opaque rest of headers.
- Logging, `__repr__` and the `l3_matching` flag: these have no effect on behaviour.
- The inner `forward()` of `_handle_PacketIn` is never called, so it is not modelled.
- Forwarding.InstallPath: reading `port_map[a][b]` through the nested `defaultdict` inserts None entries into `port_map`. The model treats a missing entry as None and does not record those insertions.
- Forwarding.Switch.HandlePacketIn: the `NewFlowEvent` carries a reference to the live `port_map`. The model records the table's value at the moment the event is raised.
- A switch's port list is taken once, when it connects. Port-status changes are not modelled.
- How POX handles an exception that escapes a handler is not modelled. The model only records that the handler stopped (`ok == false`).
- Two behaviours of the code are kept as written:
  - A link-removed event changes no table.
  - ConnectionDown leaves `switch_ports`, `port_map` and `mac_table` untouched.

  So a host learned at a departed switch keeps its `mac_table` entry. A later
  PacketIn to that host always stops with a KeyError on the ARP branch
  (forwarding.py:153). On the routed branch it stops only once a route is
  returned: in `_install_path` (forwarding.py:38 or 51) or when delivering
  (forwarding.py:173). LLDP frames, multicast frames and routed frames with
  no route complete normally.
