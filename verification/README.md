# A verified model of a hierarchical SDN control plane

The repository holds a two-level control plane for OpenFlow networks. A central controller
(`Controllers/tflc`) talks over a framed binary protocol to local controllers
(`Controllers/cc_client`), each of which programs the switches of its own domain. Beside it lies the
network emulator used with it (`containernet`), whose topology library, address allocation and
node placement are modelled too.

The project has five groups of modules.

- **Wire protocol.** `Wire` has the message formats, the printer and the parser; `Layout` says byte by
  byte where every field of every message lies and which messages fit; `Receipt` says which end takes
  which messages; `Serializer` is the message object whose buffer is built in place; `Reassembly` is
  the receive loop over byte pieces of any size, with its termination, its buffer bound and the round
  trip of whole streams.
- **Local controller.** `Graphs` (walks, shortest paths, a verified breadth-first search in the place of
  networkx's), `Fabric` (learned graph and port tables), `FlowTables` (rules and loop freedom for a
  domain's own hosts), `Transit` (the rules of a FLOW_MOD and loop freedom in a domain that frames
  pass), `HalfWay` (when a FLOW_MOD that is half carried out leaves no loop), `Pending` (the packets
  that wait under an xid), `LocalSteps` (each handler as a function on values), `Layer2Switch` (the
  class, every handler proved against its function), and `LocalRuns` and `LocalPending` (runs of
  the handlers never make frames loop, and give live requests different xids). About those functions:
  `Discovery` (what a discovery adds to the graph, whose edges are cables in every run), `LocalPaths`
  (the rules and the way of a packet for a known host), `Answers` (how a packet comes to wait and when
  the answer sends it on) and `Observed` (what the controller remembers, told from what happened).
- **Central controller.** `Ids` (the numbers of the local controllers), `Registry` (hosts and
  datapaths), `DomainGraph` (the graph of domains), `FirstKeys` (what follows when the first of several
  links goes), `Roles` (generation ids and masters), `Silence` (the three-flag silence detector),
  `Stitching` (one order per domain of a path), `Mailing` (the messages for them) and `AppManager` (the
  class with its `Datapath` and `LocalController` objects, every handler proved against those).
- **Both together.** `Delivery` (the rules of the central controller's orders, laid in any order, take
  a frame from domain to domain), `NetworkRuns` (so do the local controllers' handlers, given those
  orders), `NetworkMail` (and given what the queues hold, or the bytes of it), `Borders` (the edges of the
  graph of domains are cables in every run), `Histories` (so what delivery assumes of the controllers'
  knowledge holds after any runs), `Mastership` (an assignment, from the central controller to the
  switch), `Reports` (the central registry mirrors the local tables), `NetworkLoops` (tables that such
  orders and the destination's own domain made lead in no circle in the whole network) and
  `NetworkTraffic` (such are the tables after any run of packet-ins and FLOW_MODs at all controllers).
- **Emulator.** `Text` (numerals, splitting, the order of strings), `Topologies` and `Topo` (the
  multigraph with its shared dictionaries, ports), `PortNumbers` (which ports a link gets), `Torus`,
  `Tree` and `TreeShape`, `Placement` and `Addresses`.

Handlers that change state are methods of classes. Their contracts give the whole new state as a
function of the old one, and the properties are proved about those functions and about runs of
them. Exceptions are results: a `bool` that is false, or `None`.

`dafny verify dfyconfig.toml` checks the project.

## What turned out to be false

Some properties that one would expect do not hold of the code. For each there is the condition under
which it holds, or an input for which it does not.

- The loops that clear a datapath's MACs remove from the list they go over and so keep every second
  MAC. The list is empty afterwards exactly if it had at most one MAC (`Registry.ClearKeepsOdds`), and
  that is also when no host is left without a datapath after a departure (`Registry.LeaveStale`).
- HOST_LEAVE keeps the registry's invariant exactly if no other datapath than the one it names has the
  MAC (`Registry.HostLeaveExact`); otherwise a later departure can raise (`Registry.WrongHostLeave`).
- DATAPATH_LEAVE removes edges of the domain graph without saying which of several parallel ones.
  It is sure to leave no edge that mentions the datapath, and sure to keep the two directions of the
  graph mirror images, each exactly if between each two domains all edges mention it or none does
  (`DomainGraph.LeaveExact`, `DomainGraph.MirrorExact`; `DomainGraph.DirtyDeparture` is a run where it
  goes wrong).
- A request from a domain that does not have the source host is answered with a single rule if the
  destination's domain is next to it, and raises before anything is sent otherwise
  (`Stitching.ForeignSource`).
- The receive loop's inner loop ends exactly if it meets no frame of length 0 that its handler accepts
  (`Reassembly.LoopEnds`); it is then busy with that frame for good (`Reassembly.ZeroLengthSpins`).
- A datapath that is deleted and connects again starts at generation id 1, so the newest assignment need
  not win. A request for mastership is granted exactly if no id that reached the switch is greater
  (`Roles.GrantedIffGreatest`); otherwise the new object's requests are all refused and the switch
  stays with its old master (`Roles.RestartRefused`).
- Complete installations of transit rules never make a loop, but half of one can
  (`HalfWay.TransientLoop`). Stopped after any of its messages, a FLOW_MOD leaves no loop exactly if
  the old rules do not lead from the next switch of its path back to one that has its new rule
  (`HalfWay.FlowModHalfWay`). And a frame that is on its way while FLOW_MODs change the rules can come
  back to a switch, though the rules lead in no circle at any moment (`HalfWay.FlightReturns`); in its
  destination's own domain it cannot (`LocalRuns.RunFlightLoopFree`).
- An order that leaves its domain by a switch the local controller has not seen in its topology, so that
  `dpid_to_is_win` does not have it as a key, is dropped without an error
  (`NetworkRuns.UnseenNoRules`). That the switch counts as a window is not asked.
- `get_topology_data` joins the entries of its window list for a log line, and two lines on subscripts
  them with texts. While they are dictionaries it raises exactly if there is a window, before the graph
  is updated and GRAPH_INFO is sent (`LocalSteps.WindowsRaise`).
- The packet that a request was sent for is not always sent on by the answer. It is exactly if it lies in
  a buffer of its switch with another number than 0, or has no buffer and leaves the domain by another
  switch than it came in at (`Answers.AnswerSendsOn`): `add_flow` takes buffer 0 for none, and the branch
  for one switch sends no packet.
- If the first of several links between two domains goes and another stays, key 0 does not come back
  before all links are gone (`FirstKeys.FirstStaysLost`), and until then every request that is to cross
  the pair into a domain it has to leave again raises (`FirstKeys.CrossingRaises`).
- Two local controllers can get the same id: exactly if a multiple of 2^32-1 new addresses came between
  them (`Ids.SameIdIff`).
- The orders for a request of the source's domain are chained, each domain entered where the one before
  leads to, exactly if key 0 and the first key mean links to the same switch wherever a domain after the
  first gets an order (`Stitching.ChainIffAgrees`).
- A port number given to `addLink` that leaves out one number is used again for the next link
  (`Topologies.GivenPortReused`).
- The datapath ids of a torus are distinct exactly if its rows have at most 256 switches
  (`Torus.DpidsDistinct`).
- `HostSwitchBinPlacer` finds a server for all nodes of a kind exactly if there are at most as many as
  servers, or a multiple of them (`Placement.InRangeIff`, `Placement.PlaceNodes`).

Code and comments disagree in two places, and the model follows the code: `layer_2_switch.py:327` says
that wildcards 0 means the source's domain, but `app_manager.py:201-203` sends 1 there; and
`MultiGraph.edges_iter` gives keys whatever its flag `keys` says, because its inner loop uses the same
name (`topo.py:58-75`).

## Model

| member | source | states |
|---|---|---|
| Wire.UnpackPack | Controllers/tflc/msg_proto.py:5-113 | unpacking what a format packed gives every value back, texts cut or filled to their width |
| Wire.Pack | Controllers/tflc/msg_proto_parser.py:197-209 | packing succeeds exactly if there is one fitting value per field, and gives the format's size |
| Wire.FrameHeader | Controllers/tflc/msg_proto_parser.py:212-214 | the header read off a frame, whatever follows it, has the message's type, the frame's length and its xid |
| Layout.FirstIsMost | Controllers/tflc/msg_proto.py:5 | a number's first byte is its most significant |
| Layout.FrameLies | Controllers/tflc/msg_proto.py:5-113 | the frame of every message byte by byte: version 1, type, length and xid, then each field at its offset and of its width, and zeros between; in a FLOW_MOD of 56 bytes in_dpid, out_dpid and out_port at 8, 16 and 24, the MAC at 32 and wildcards at 54 |
| Layout.FrameIff | Controllers/tflc/msg_proto_parser.py:165-182 | a message can be serialised exactly if each of its numbers fits its field and the frame its length |
| Wire.DispatchOfFrame | Controllers/tflc/msg_handler.py:14-153 | a serialised message at the head of a buffer is dispatched as the same message with equal fields, whatever bytes follow |
| Wire.Carried | Controllers/cc_client/msg_proto_parser.py:57-69 | a message arrives unchanged exactly if its MAC texts have the format's 17 bytes |
| Receipt.EachItsOwn | Controllers/cc_client/msg_handler.py:153-174 | the agent decodes HELLO_DOWN, ROLE_ASSIGN, GID_REPLY, FLOW_MOD, ECHO_REQUEST, BARRIER_REQUEST and SWITCH_MAP_UPDATE, the central controller all the others |
| Receipt.WrongWay | Controllers/tflc/msg_handler.py:156-184 | a message that comes the wrong way raises at the central controller and is passed over by the agent, whatever its bytes |
| Receipt.ShortRaises | Controllers/tflc/msg_handler.py:14-154 | a handler raises exactly if the whole receive buffer is shorter than a frame of its type; the frame's own length does not count |
| Serializer.OutMsg.MsgPackInto | Controllers/tflc/msg_proto_parser.py:197-209 | in all three branches exactly the addressed bytes change, the others stay and a gap is zero |
| Serializer.OutMsg.Serialize | Controllers/tflc/msg_proto_parser.py:165-182 | zeros, body, and the header written over the zeros make the message's frame, exactly if its numbers fit; every field then lies where `Layout.Lies` says; a missing xid becomes 0 |
| Reassembly.RecvLoop | Controllers/tflc/controller.py:67-92 | the nested loops over the received pieces dispatch and keep exactly what `Feed` says, also when a handler raises or the loop cannot end |
| Reassembly.LoopEnds | Controllers/cc_client/cc_agent.py:46-57 | the inner loop ends exactly if no pass meets a complete frame of length 0 that its handler accepts, and then with the state of `Drain` |
| Reassembly.SpinsIff | Controllers/tflc/controller.py:78-87 | `Drain` reports an endless loop exactly if some pass meets such a frame |
| Reassembly.GoodFramesEnd | Controllers/tflc/controller.py:78-87 | the inner loop ends if every frame it meets is at least as long as its header |
| Reassembly.ZeroLengthSpins | Controllers/tflc/controller.py:78-87 | a frame of length 0 is dispatched again in every pass and the buffer never changes |
| Reassembly.BufferBound | Controllers/tflc/controller.py:67-92 | on any bytes the loop waits with fewer bytes than it asked for and never holds more than 2*65535-1 |
| Reassembly.StreamRoundTrip | Controllers/cc_client/cc_agent.py:31-57 | however a stream of messages is cut into pieces and however much of it came, exactly the messages with complete frames were dispatched, in order, and a proper prefix of the next frame is left |
| Reassembly.WholeStream | Controllers/tflc/controller.py:67-87 | when all came every message was dispatched in order and nothing is left; they equal the sent ones exactly if their texts have the formats' widths |
| Graphs.ShortestPath | Controllers/cc_client/layer_2_switch.py:219 | breadth-first search finds a shortest path, and none exactly if there is no walk |
| Graphs.ShortestSimple | Controllers/cc_client/layer_2_switch.py:346 | a shortest path passes no vertex twice |
| Fabric.RunInv | Controllers/cc_client/layer_2_switch.py:185-213 | in every run of joining, learning, discovery and departure a MAC is in at most one table, a port has at most one MAC, a MAC is a node exactly if it is in a table, and its only neighbour is that switch by the table's port |
| Fabric.StepKeeps | Controllers/cc_client/layer_2_switch.py:531-563 | each of those steps keeps the invariant, from any state that has it |
| Fabric.SecondPurgeIdle | Controllers/cc_client/layer_2_switch.py:198-206 | a source that is not a node is in no table, so the second purge loop finds nothing |
| Fabric.InteriorSwitches | Controllers/cc_client/layer_2_switch.py:219-225 | a shortest path from a switch passes switches only, and every hop of it has a port |
| Fabric.SwitchDistance | Controllers/cc_client/layer_2_switch.py:219 | between switches the shortest paths of the whole graph are those of the switches alone |
| Fabric.HostPath | Controllers/cc_client/layer_2_switch.py:209-224 | a shortest path to a host is a shortest path to the switch that has it in its table, and its port |
| Fabric.LearnKeepsSwitches | Controllers/cc_client/layer_2_switch.py:186-213 | learning a host changes no edge between switches |
| Fabric.LearnExact | Controllers/cc_client/layer_2_switch.py:185-213 | learning puts the host into the switch's table at its port, takes out the host that was on the port, and leaves every other entry |
| Fabric.LeaveExact | Controllers/cc_client/layer_2_switch.py:552-566 | a departure takes the switch, its table and the hosts in it, and nothing else |
| Discovery.DiscoverFinds | Controllers/cc_client/layer_2_switch.py:530-536 | discovery adds exactly the reported switches and links, in both directions; between two switches the last link of the list gives the port |
| Discovery.ReportedKnown | Controllers/cc_client/layer_2_switch.py:530-536 | each reported switch is a node then, and each reported link an edge both ways |
| Discovery.OwnPorts | Controllers/cc_client/layer_2_switch.py:533-536 | where one link joins two switches its edges have the ports of their own ends |
| Discovery.DiscoverAgrees | Controllers/cc_client/layer_2_switch.py:530-536 | discovery of links that are cables keeps every edge a cable |
| Discovery.RunAgrees | Controllers/cc_client/layer_2_switch.py:185-213 | every edge between switches is a cable in every run of joining, learning, discovery and departure |
| Discovery.HandlersAgree | Controllers/cc_client/layer_2_switch.py:125-566 | and in every run of all handlers |
| FlowTables.DomainStepKeeps | Controllers/cc_client/layer_2_switch.py:217-247 | a packet-in, buffered or not, and the rules of FLOW_MODs for foreign hosts keep every rule for a host of the domain pointing to it or strictly nearer |
| FlowTables.RunRulesPoint | Controllers/cc_client/layer_2_switch.py:217-247 | so it is in every state of every run |
| FlowTables.LoopFree | Controllers/cc_client/layer_2_switch.py:484-497 | whichever matching rule each switch uses, a frame gets nearer to its host at each hop, visits no switch twice and needs no more hops than the distance |
| FlowTables.DeliveredOrOn | Controllers/cc_client/layer_2_switch.py:217-247 | at a switch with a matching rule the frame goes to its host's port or on to another switch, never both |
| FlowTables.FlightLoopFree | Controllers/cc_client/layer_2_switch.py:185-247 | a frame that makes its hops by the tables of different states of a run also gets nearer at each and visits no switch twice |
| LocalRuns.PacketInRefines | Controllers/cc_client/layer_2_switch.py:125-296 | the whole packet-in handler, exceptions included, is a packet step of the domain |
| LocalRuns.AfterRefines | Controllers/cc_client/layer_2_switch.py:314-396 | so is the FLOW_MOD handler a transit step, and both keep the controller's invariant |
| LocalRuns.RunLoopFree | Controllers/cc_client/layer_2_switch.py:125-396 | after any run of packet-ins and FLOW_MODs a frame for a host of the domain visits no switch twice |
| LocalRuns.RunFlightLoopFree | Controllers/cc_client/layer_2_switch.py:125-396 | nor does one that is on its way while the handlers run |
| LocalPaths.KeyCatches | Controllers/cc_client/layer_2_switch.py:226-236 | the rules for a packet match it and exactly those of its flow, or of its destination if it has no ports |
| LocalPaths.UnbufferedInstalls | Controllers/cc_client/layer_2_switch.py:221-252 | an unbuffered packet for a known host: each switch of the path up to the first that is not connected gets a rule to the next node and the packet with its data out of the same port, in order; on any tables these rules are then there and all others as they were; the handler raises exactly if a switch is not connected |
| LocalPaths.BufferedInstalls | Controllers/cc_client/layer_2_switch.py:237-240 | a buffered packet: exactly its own switch gets its rule, with the buffer, and all other rules stay |
| LocalPaths.FrameGoes | Controllers/cc_client/layer_2_switch.py:217-252 | afterwards a frame of the match goes from the packet's switch along exactly the path that was chosen, and out at the host's own port, whatever the tables were |
| Answers.UnknownAsks | Controllers/cc_client/layer_2_switch.py:283-296 | for a host that is not known a request with the packet's switch, addresses and ports is sent, and the packet waits from now on under the request's xid; no other packet's waiting changes |
| Answers.OthersDoNotWait | Controllers/cc_client/layer_2_switch.py:269-281 | a broadcast is flooded by its own switch, with its buffer or its data, a protocol frame is dropped, and neither waits |
| Answers.ProtocolFrames | Controllers/cc_client/layer_2_switch.py:500-503 | protocol frames are those whose destination begins with 33 |
| Answers.AnswerSendsOn | Controllers/cc_client/layer_2_switch.py:332-396 | the answer ends the packet's waiting, and sends it on exactly if it is in a buffer other than 0 or, unbuffered, leaves by another switch than its own |
| Observed.InnerIffNoticed | Controllers/cc_client/layer_2_switch.py:169-178 | in every run the ports taken for ports between switches are exactly those at which a discovery frame came in since the switch connected |
| Observed.HostsAtEdges | Controllers/cc_client/layer_2_switch.py:185-213 | a host gets into a table only by a packet of its own, at that packet's switch and port, and never at a port where a discovery frame came in |
| Observed.WindowsKnown | Controllers/cc_client/layer_2_switch.py:520-529 | in every run the controller has a switch for a window exactly if the last discovery that says something of the switch says so |
| Observed.DroppedIffUnlisted | Controllers/cc_client/layer_2_switch.py:328-331 | a FLOW_MOD is dropped exactly if no discovery so far listed the switch it leaves by |
| Observed.LoadCounts | Controllers/cc_client/layer_2_switch.py:182 | the load of a connected switch is the number of its packets since it connected, without discovery frames |
| Observed.MissesReported | Controllers/cc_client/layer_2_switch.py:108-114 | every connected switch was sent the rule that brings its unmatched packets here |
| Observed.ConnectionTold | Controllers/cc_client/layer_2_switch.py:98-100 | a switch that connects is reported with the flag that the last discovery gave it |
| Observed.DiscoveryTold | Controllers/cc_client/layer_2_switch.py:520-542 | a discovery that gets through sends one GRAPH_INFO, one that raises sends nothing |
| Observed.DepartureExact | Controllers/cc_client/layer_2_switch.py:552-566 | a departure gets through exactly if the switch is a node and connected; it is no node afterwards in any case, and graph and tables are those without it and its hosts |
| LocalPending.RunIsAgentRun | Controllers/cc_client/layer_2_switch.py:288-341 | every run of the handlers and timeouts is the run of `Pending`'s agent through the events of their moves: same waiting packets, same counter, one draw for each message sent, and each packet waits since its own request |
| LocalPending.HandlersXids | Controllers/cc_client/layer_2_switch.py:290-295 | in every run of the handlers the three xid maps agree, each packet waits under the xid of a request the run sent, and a new request gets the xid of one that waits exactly if the request of some packet that waits is a multiple of 2^32 messages back |
| LocalSteps.HeardKeeps | Controllers/cc_client/layer_2_switch.py:182-215 | counting and learning keep the invariant; a host is learned exactly if it is new and its port is not between switches |
| LocalSteps.PacketInKeeps | Controllers/cc_client/layer_2_switch.py:125-296 | the packet-in handler keeps the invariant, also when it raises |
| LocalSteps.SwitchLeaveKeeps | Controllers/cc_client/layer_2_switch.py:552-566 | so does a departure, also of a switch that was never connected |
| LocalSteps.InstallRaises | Controllers/cc_client/layer_2_switch.py:221-247 | installing along a shortest path raises exactly if a switch of it is not connected here; never for a hop without a port |
| LocalSteps.WindowsRaise | Controllers/cc_client/layer_2_switch.py:526-542 | while the entries of the window list are dictionaries the handler raises exactly if there is one, and then the graph and the messages stay and no discovered switch is marked |
| Layer2Switch.Layer2Switch.SwitchFeatures | Controllers/cc_client/layer_2_switch.py:90-114 | the handler's new state: table, load, port list, message and table-miss rule |
| Layer2Switch.Layer2Switch.LearnHost | Controllers/cc_client/layer_2_switch.py:186-214 | both purge loops and the entry of the host, with the messages in their order |
| Layer2Switch.Layer2Switch.InstallPath | Controllers/cc_client/layer_2_switch.py:221-247 | the installation loop sends exactly the messages of `Installs`, up to an exception; what these are and do is in `LocalPaths` |
| Layer2Switch.Layer2Switch.PacketIn | Controllers/cc_client/layer_2_switch.py:125-296 | the new state and whether it raises are those of `LocalSteps.PacketIn`, for a shortest path of the current graph; `LocalPaths`, `Answers` and `Observed` say what that is |
| Layer2Switch.Layer2Switch.FlowMod | Controllers/cc_client/layer_2_switch.py:314-396 | the same for the FLOW_MOD handler |
| Layer2Switch.Layer2Switch.PacketTimeout | Controllers/cc_client/layer_2_switch.py:507-514 | exactly the packets that waited too long leave all three maps |
| Layer2Switch.Layer2Switch.TopologyData | Controllers/cc_client/layer_2_switch.py:520-542 | nodes and links of both directions enter the graph, as `Discovery.DiscoverFinds` says, windows are marked, the message goes out; or the log line raises after the marks were reset |
| Layer2Switch.Layer2Switch.SwitchLeave | Controllers/cc_client/layer_2_switch.py:552-566 | the switch, its hosts and its table go, or it raises half way as the code does |
| Layer2Switch.Layer2Switch.RoleAssign | Controllers/cc_client/layer_2_switch.py:304-312 | state and outcome as `LocalSteps.RoleAssign`: a role request with the assigned role and id goes to a connected switch, else it raises |
| Transit.BranchesSame | Controllers/cc_client/layer_2_switch.py:355-396 | on any path between the two switches, whatever the graph and whichever switches are connected, the buffered and the unbuffered branch install the same rules in the same order and raise together |
| Transit.BranchesStop | Controllers/cc_client/layer_2_switch.py:366-394 | on a shortest path both install the rules up to the first switch that is not connected, and raise exactly if there is one |
| Transit.BranchesAgree | Controllers/cc_client/layer_2_switch.py:355-396 | when all are connected, both install one rule on every switch of the path towards the next, and the region's port on the last |
| Transit.OneRulePerSwitch | Controllers/cc_client/layer_2_switch.py:366-393 | no switch gets two rules |
| Transit.FlowModThreads | Controllers/cc_client/layer_2_switch.py:355-396 | following the rules leads from in_dpid by the cables out of region_out_port at out_dpid |
| Transit.FlowModInstalls | Controllers/cc_client/layer_2_switch.py:484-497 | on any tables, the handler's messages leave those rules in place of the old ones and all else as it was |
| Transit.TransitLoopFree | Controllers/cc_client/layer_2_switch.py:345-396 | in a domain, after any sequence of complete installations for a destination, over any paths, a frame visits no switch twice |
| HalfWay.LayLoopFree | Controllers/cc_client/layer_2_switch.py:361-394 | laying the rules of a way, or of a first part of one, keeps tables free of loops exactly if the old rules do not lead from where it leads back to it |
| HalfWay.HalfSafe | Controllers/cc_client/layer_2_switch.py:366-376 | with the first j rules laid there is a loop exactly if the old rules lead from the next switch of the path back to one of those |
| HalfWay.FlowModHalfWay | Controllers/cc_client/layer_2_switch.py:355-396 | the same for the handler stopped after any number of its messages, by an exception or otherwise |
| HalfWay.TransientLoop | Controllers/cc_client/layer_2_switch.py:383-394 | with the handler's first message after an older FLOW_MOD of the other direction, a frame goes in a circle |
| HalfWay.FlightReturns | Controllers/cc_client/layer_2_switch.py:378-394 | after the first of two complete FLOW_MODs of opposite direction a frame goes on to a switch that, after the second, sends it back, and neither tables have a loop |
| Pending.RunAligned | Controllers/cc_client/layer_2_switch.py:290-295 | in every run the three xid maps have the same keys, and each xid is the one its draw gave |
| Pending.XidClash | Controllers/cc_client/cc_agent.py:84-95 | a new request gets the xid of one that waits exactly if a multiple of 2^32 xids was drawn since; so never with fewer |
| Pending.ExpireExact | Controllers/cc_client/layer_2_switch.py:507-514 | exactly the packets that waited for more than 65536 tenths of a millisecond go, the others wait on as they were |
| Registry.ClearKeepsOdds | Controllers/tflc/app_manager.py:119-123 | the clearing loop takes out the MACs at even positions and keeps those at odd ones, and leaves none exactly if there was at most one |
| Registry.StepKeeps | Controllers/tflc/app_manager.py:250-306 | each message that names the datapath of its MAC keeps the lists free of repetitions, disjoint and within the known hosts, and the registry's part of its handler raises exactly if the datapath is unknown |
| Registry.RunInv | Controllers/tflc/app_manager.py:116-128 | so it is in every run: no handler deletes a missing key |
| Registry.HostLeaveExact | Controllers/tflc/app_manager.py:302-306 | HOST_LEAVE keeps the invariant exactly if no other datapath has the MAC |
| Registry.WrongHostLeave | Controllers/tflc/app_manager.py:302-306 | an example where a wrong HOST_LEAVE makes the next departure raise |
| Registry.LeaveStale | Controllers/tflc/app_manager.py:270-280 | after the last controller left a datapath, the hosts without a datapath are exactly its odd-position MACs |
| Registry.ReconnectStale | Controllers/tflc/app_manager.py:116-123 | a datapath that connects again keeps exactly its odd-position MACs |
| Registry.MeantExact | Controllers/tflc/app_manager.py:119-123 | if the loops cleared all MACs, the known hosts would be those of the lists, in every run |
| Registry.HostConnectsOnce | Controllers/tflc/app_manager.py:256-267 | whichever datapath the search meets first, the outcome is the same |
| Registry.HostConnectedKeeps | Controllers/tflc/app_manager.py:250-267 | after HOST_CONNECTED the MAC is at the named datapath and nowhere else, all others stay |
| Registry.LeaveLast | Controllers/tflc/app_manager.py:279-280 | a datapath goes when its last controller leaves it and not before, and the lists of the others stay |
| Reports.MoveMirrors | Controllers/cc_client/layer_2_switch.py:90-566 | every handler of a local controller, once the central one has taken in what it sent, keeps the registry a mirror of all local tables |
| Reports.RegistryMirrors | Controllers/tflc/app_manager.py:111-306 | in every run of the local controllers' handlers, in any order among them, the registry has exactly the connected datapaths, each with exactly the hosts of its table there, and names for each of these hosts the controller that has it |
| Reports.HostsKnown | Controllers/tflc/app_manager.py:161-173 | so every host that is in some controller's table is found, at that controller |
| DomainGraph.AddWindowsKeeps | Controllers/tflc/app_manager.py:314-359 | every GRAPH_INFO keeps each edge paired with its mirror image, once, and no domain linked with itself, also when it raises half way |
| DomainGraph.AddWindowKeeps | Controllers/tflc/app_manager.py:315-359 | one window: the invariant, and that it raises exactly if a new link's controller is no node |
| DomainGraph.ReportedTwice | Controllers/tflc/app_manager.py:323-338 | a link reported from its other end too adds nothing |
| DomainGraph.LeaveOfAllOrNone | Controllers/tflc/app_manager.py:290-294 | where all edges of a pair mention the datapath or none does, exactly the edges that mention it go and the mirror stays |
| DomainGraph.LeaveExact | Controllers/tflc/app_manager.py:290-294 | in every state that runs reach, no edge mentions the departed datapath, whichever edges networkx picks, exactly under that condition |
| DomainGraph.MirrorExact | Controllers/tflc/app_manager.py:290-294 | the mirror survives, whichever edges it picks, exactly under that condition |
| DomainGraph.DirtyDeparture | Controllers/tflc/app_manager.py:287-294 | a run with two links between two domains after which an edge mentions a departed datapath |
| DomainGraph.RunSensible | Controllers/tflc/app_manager.py:309-361 | in every run, whatever departures meet, there is no pair without edges and no edge from a switch to itself |
| DomainGraph.RunMirror | Controllers/tflc/app_manager.py:309-361 | the mirror invariant in every run whose departures meet it |
| DomainGraph.SingleRun | Controllers/tflc/app_manager.py:309-361 | with one link for each two domains it holds in every run, and every edge has key 0 |
| FirstKeys.FirstStaysLost | Controllers/tflc/app_manager.py:309-361 | while a pair of domains has links but none with key 0, reports and departures bring none with key 0 |
| FirstKeys.CrossingRaises | Controllers/tflc/app_manager.py:204-205 | meanwhile a request whose path crosses the pair and goes on raises |
| Borders.WindowLinks | Controllers/tflc/app_manager.py:315-359 | one window: the links afterwards are those there were and its own, in both directions, each with the switch and port of its own end first |
| Borders.ReportLinks | Controllers/tflc/app_manager.py:314-359 | the links after a report that got through are exactly those before and the windows between different domains, with their own four numbers |
| Borders.RunCables | Controllers/tflc/app_manager.py:287-361 | where windows are cables, every edge of the graph is a cable into the domain it leads to, in every run of reports and departures |
| Roles.IssuedIncreases | Controllers/tflc/controller.py:146-148 | the ids of one Datapath object's assignments are strictly increasing |
| Roles.IssuedExact | Controllers/tflc/app_manager.py:124-145 | an assignment is issued exactly for each draw that was for one, with the draw's number for its id |
| Roles.NewestIsMax | Controllers/tflc/controller.py:146-148 | the newest of the ids that arrived is one of them and none is greater |
| Roles.SingleMaster | Controllers/tflc/app_manager.py:124-145 | whatever assignments reach the switch in whatever order, and repeated or lost, exactly one controller is master: the one with the greatest id that arrived |
| Roles.WinnerIsLastMax | Controllers/tflc/controller.py:146-148 | the request that wins has the greatest id, and no later one has as great an id |
| Roles.LastMaxIsMaster | Controllers/tflc/app_manager.py:124-145 | whatever requests arrive, of any number of Datapath objects for a switch and in any order, the cached id is the greatest and the only master is the controller of the last request that has it |
| Roles.GrantedIffGreatest | Controllers/tflc/app_manager.py:124-145 | a new request makes its controller the only master with its id exactly if no id that arrived is greater, and changes nothing otherwise |
| Roles.RolesTold | Controllers/tflc/app_manager.py:124-145 | after any requests the controller of the greatest id is master, every other one that was ever granted its request is slave, and the rest keep their roles |
| Roles.RestartRefused | Controllers/tflc/controller.py:140 | of the requests of an object made anew, in whatever order they arrive, the newest decides if no id of the earlier objects is greater than its own; else all are refused |
| Mastership.AppointmentAsks | Controllers/tflc/app_manager.py:124-137 | the message that appoints a controller makes it ask the switch, through its own handler, to be master under the drawn id |
| Silence.Counts | Controllers/tflc/app_manager.py:376-390 | the three flags are a counter that stops at three, the second is never up without the first, and the switch-over runs exactly at the third silent visit in a row |
| Silence.OncePerSilence | Controllers/tflc/app_manager.py:231-240 | between two switch-overs the controller was heard |
| Stitching.StitchChain | Controllers/tflc/app_manager.py:193-209 | for a request of the source's domain every domain of the path but the last gets one order, from where the link before leads to the link to the next |
| Stitching.ChainIffAgrees | Controllers/tflc/app_manager.py:193-209 | the loop gets through with such orders exactly if there is a link at each step and, wherever it is read again as the way in, key 0 leads to the same switch as the first key |
| Stitching.StitchDst | Controllers/tflc/app_manager.py:193-209 | all orders are for the destination |
| Stitching.StitchFlags | Controllers/tflc/app_manager.py:200-203 | wildcards is 1 in the order of the source's domain and 0 in the others |
| Mailing.MailTells | Controllers/tflc/app_manager.py:206-209 | each message in a controller's mail says what one of its orders says, field by field, under the request's xid, and each of its orders is told |
| Stitching.SingleAgrees | Controllers/tflc/app_manager.py:195-205 | with one link under key 0 for each two domains, keys()[0] and key 0 mean the same link |
| Stitching.ForeignSource | Controllers/tflc/app_manager.py:195-205 | for a foreign source: one order that enters where it leaves if the domains are neighbours, else an exception with nothing sent |
| Delivery.InterdomainDelivery | Controllers/tflc/app_manager.py:193-209 | the rules of the orders, laid in any order and any number of times on any tables, take a frame from in_dpid through every domain of the path, over each link once and past no switch twice, into the destination's domain at the last link's right_dpid |
| NetworkRuns.FlowModIsBatch | Controllers/cc_client/layer_2_switch.py:328-396 | the handler of an order whose out_dpid the controller has seen raises nothing and sends exactly the order's rules |
| NetworkRuns.UnseenNoRules | Controllers/cc_client/layer_2_switch.py:328-331 | an order by a switch that is not a key of dpid_to_is_win changes and sends nothing |
| NetworkRuns.HandlersDeliver | Controllers/tflc/app_manager.py:164-209 | for a request the central controller answers, the local controllers' handlers, given its orders in any order and any number of times, all get through and leave tables that deliver the frame |
| NetworkMail.QueuesDeliver | Controllers/tflc/app_manager.py:147-211 | what the queues hold delivers: the messages taken out in any order and any number of times, and handled by what cc_flow_mod_handler reads off them, take a frame from in_dpid through the domains of the path in order into the last, past no switch twice |
| NetworkMail.RequestDelivers | Controllers/cc_client/layer_2_switch.py:288-296 | the same for the request message a local controller sent for a packet: the packet's destination is reached from its switch |
| NetworkMail.BytesDeliver | Controllers/cc_client/cc_agent.py:31-57 | the same when the queues go over the wire and arrive in pieces of any size |
| Histories.ReachedConsistent | Controllers/cc_client/layer_2_switch.py:520-542 | after any runs of the local and of the central controller, whose discoveries and reports are of cables, what the controllers know fits the cables, no switch is in two domains, and the graph's edges are cables between them |
| Histories.ReachedDelivers | Controllers/tflc/app_manager.py:147-211 | so after any such runs the queues deliver |
| NetworkLoops.StitchHeads | Controllers/tflc/app_manager.py:193-209 | each order for a request belongs to a shortest path of the domain graph to the destination's domain |
| NetworkLoops.WayHeads | Controllers/cc_client/layer_2_switch.py:366-394 | the rules of such an order stay in their domain and leave it into one strictly nearer |
| NetworkLoops.SoundLoopFree | Controllers/cc_client/layer_2_switch.py:484-497 | where the rules for a host are those of orders heading for its domain and, in that domain, rules towards it, no frame visits a switch of the network twice, whichever matching rules it meets |
| NetworkLoops.JobSound | Controllers/cc_client/layer_2_switch.py:314-396 | one more order, for that host on a shortest path of domains or for another, keeps that so |
| NetworkTraffic.PacketDoes | Controllers/cc_client/layer_2_switch.py:125-296 | a packet-in's rules are for the packet's own match, at switches of the controller's domain, and there are none if the destination is not one of its hosts |
| NetworkTraffic.PacketSteady | Controllers/cc_client/layer_2_switch.py:125-296 | a packet-in at any controller keeps it so too |
| NetworkTraffic.NetworkLoopFree | Controllers/cc_client/layer_2_switch.py:125-396 | after any run of packet-ins and FLOW_MODs through the handlers of all domains, interleaved in any way, a frame visits no switch of the network twice, whichever matching rule each switch uses |
| AppManager.AppManager.HelloUp | Controllers/tflc/app_manager.py:87-109 | a known address keeps its id, a new one gets the next and becomes a node; the flags are cleared and the id is sent |
| Ids.IdsGoRound | Controllers/tflc/app_manager.py:92-101 | addresses are numbered in the order in which they first say hello, from 1 round to 2^32-1 |
| Ids.SameIdIff | Controllers/tflc/app_manager.py:92-101 | two addresses have the same id exactly if a multiple of 2^32-1 new ones came between them |
| Ids.IdKept | Controllers/tflc/app_manager.py:92-93 | an address keeps its id |
| AppManager.AppManager.DatapathConnected | Controllers/tflc/app_manager.py:111-137 | registry as `Registry.Connected`; the controller becomes home and is sent the next generation id, which is the next of the object's `Roles.Issued`; connected controllers keep the datapath in their dictionaries |
| AppManager.AppManager.GidRequest | Controllers/tflc/app_manager.py:139-145 | the next generation id of the datapath and of no other is drawn and sent, and counts as a `Roles.Reply` |
| AppManager.AppManager.HostConnected | Controllers/tflc/app_manager.py:250-268 | registry as `Registry.HostConnects`, over the mutable MAC lists |
| AppManager.AppManager.HostLeave | Controllers/tflc/app_manager.py:297-306 | registry as `Registry.HostLeave`, also when it raises |
| AppManager.AppManager.ClearMacs | Controllers/tflc/app_manager.py:276-278 | the loop over the list it removes from, as `Registry.ClearFrom` |
| AppManager.AppManager.Part | Controllers/tflc/app_manager.py:281-286 | the controller's dictionaries lose the datapath as far as the handler gets, and it raises exactly if one of them does not have it or the controller is not connected |
| AppManager.AppManager.DatapathLeave | Controllers/tflc/app_manager.py:270-294 | registry as `Registry.Leave`, edges as `DomainGraph.LeaveResult` if nothing raised, else untouched; it raises exactly if the datapath, a host of its list or one of the controller's entries is missing; never for a connected controller, and then that stays so for all others |
| AppManager.AppManager.GraphInfo | Controllers/tflc/app_manager.py:309-361 | the graph as `DomainGraph.AddWindows` with the current homes; `Borders.ReportLinks` says which links those are |
| AppManager.AppManager.PacketIn | Controllers/tflc/app_manager.py:147-211 | the orders are those of `Stitching.PacketIn` for a shortest path, and each controller's queue has the messages of exactly its own at its end, which `Mailing.MailTells` reads and `NetworkMail.QueuesDeliver` carries out |
| AppManager.AppManager.EchoReply | Controllers/tflc/app_manager.py:231-240 | the flags as after `Silence.Heard` |
| AppManager.AppManager.MsSwitchDecide | Controllers/tflc/app_manager.py:376-390 | one visit of every listed controller and of no other, with the switch-overs it makes, each once |
| AppManager.Datapath.GetGenerationId | Controllers/tflc/controller.py:146-148 | gives the current id and leaves the next |
| AppManager.Datapath.DelMac | Controllers/tflc/controller.py:164-165 | the first occurrence goes, the order stays; raises exactly if there is none |
| AppManager.Datapath.DelLc | Controllers/tflc/controller.py:154-155 | the first occurrence goes; raises exactly if there is none |
| Topologies.LinkAdds | containernet/mininet/topo.py:148-160 | without a key and ports given, the new key and both ports were not in use |
| Topologies.DoKeeps | containernet/mininet/topo.py:219-236 | adding a node or a link keeps the invariant of `RunInv`, from any state that has it |
| Topologies.RunInv | containernet/mininet/topo.py:219-236 | in every run ports pair up, are numbered without a gap from 1 at switches and 0 at hosts, and each is the end of exactly one link |
| Topologies.LinksKept | containernet/mininet/topo.py:32-51 | between two nodes are exactly the links added between them, under the keys 1, 2, ... in their order: none is overwritten |
| Topologies.LinkedIffAdded | containernet/mininet/topo.py:32-51 | two nodes have as many links as were added, and are neighbours exactly if one was |
| Topologies.ListedOnce | containernet/mininet/topo.py:58-75 | every link is listed in one order of its ends, and in both only if they are one node |
| Text.AboveIff | containernet/mininet/topo.py:58-75 | the order of names by which an entry is listed or passed over is that of texts: by the first character where they differ, or by length |
| Topologies.EntryTells | containernet/mininet/topo.py:185-201 | different links make different entries of links() |
| Topologies.PortsAreLinks | containernet/mininet/topo.py:238-251 | port() gives exactly the port pairs of the links between two nodes, and asked the other way round the same pairs turned |
| Topologies.CableKeepsPairing | containernet/mininet/topo.py:219-236 | ports given by the caller keep the pairing exactly if neither has a cable to a third port |
| Topologies.GivenPortReused | containernet/mininet/topo.py:227-235 | a link on the port after the next default one makes the next default port that same port, and the pairing breaks |
| PortNumbers.PortsNumbered | containernet/mininet/topo.py:219-236 | in every run a node has one port for each of its links, a switch from 1 on and a host from 0 on |
| PortNumbers.LinkPortsFollow | containernet/mininet/topo.py:148-160 | each link has at either end the port that follows those of that node's earlier links, and keeps it |
| Topo.MultiGraph.AddEdge | containernet/mininet/topo.py:32-51 | edge[u][v] and edge[v][u] stay one object that no other pair has; exactly the one link is added to it |
| Topo.MultiGraph.EdgesIter | containernet/mininet/topo.py:58-75 | lists every link exactly once |
| Topo.Topo.AddPort | containernet/mininet/topo.py:219-236 | the two table entries of a cable, or nothing if a node is unknown |
| Topo.Topo.AddLink | containernet/mininet/topo.py:148-160 | state as `Topologies.LinkNodes`; it returns the key it was given, not the one it made |
| Topo.Topo.Links | containernet/mininet/topo.py:185-217 | one entry for every link, its ends in the order they were given |
| Topo.Topo.Port | containernet/mininet/topo.py:238-251 | exactly the port pairs from src to dst, each once; a single one comes alone, and a node raises exactly if no call of addPort, failed or not, has named it |
| Torus.SwitchLinks | containernet/mininet/topolib.py:73-80 | two switches of the built torus have one link if one is around the other, else none, and none has one to itself; the loop makes 2xy links |
| Torus.FourAround | containernet/mininet/topolib.py:74-78 | around a switch are four different others |
| Torus.LinksAre | containernet/mininet/topolib.py:62-80 | build links exactly each host with its switch and each switch with the next in its row and in its column, round the edge, in that order of the ends |
| Torus.BuiltSound | containernet/mininet/topolib.py:62-80 | build links only nodes there are, and its ports and links meet `Topologies.Inv` |
| Torus.SwitchesConnected | containernet/mininet/topolib.py:73-80 | there is a way between any two switches |
| Torus.HostLinked | containernet/mininet/topolib.py:69-72 | every host has a link to its switch |
| Torus.TorusConnected | containernet/mininet/topolib.py:62-80 | there is a way between any two nodes, switches or hosts |
| Torus.HostInjective | containernet/mininet/topolib.py:55-58 | host names differ from one another and from switch names |
| Torus.SwitchInjective | containernet/mininet/topolib.py:64-68 | so do switch names |
| Torus.DpidsDistinct | containernet/mininet/topolib.py:66 | the dpids are pairwise different exactly if y is at most 256 |
| Torus.SwitchTells | containernet/mininet/topolib.py:64-68 | a switch's name reads as its row and column, and these give its dpid |
| Torus.Build | containernet/mininet/topolib.py:48-80 | the nested loops make the topology of `Built`, and raise exactly if x or y is below 3 |
| Tree.IsTree | containernet/mininet/topolib.py:12-32 | f^d hosts and the sum of f^k for k below d switches, numbered from 1 on, one link less than nodes, and a way between any two |
| Tree.GrowAdds | containernet/mininet/topolib.py:19-32 | a subtree adds the names from the counters on, each once and in order, and one link less than nodes |
| Tree.GrowCounts | containernet/mininet/topolib.py:19-32 | the counters after a subtree |
| Tree.GrowSprouts | containernet/mininet/topolib.py:19-32 | from the node it returns, all that a subtree adds can be reached |
| TreeShape.FullTree | containernet/mininet/topolib.py:19-32 | each host has one link, the root as many as the fanout, every other switch one more |
| TreeShape.GrowDownward | containernet/mininet/topolib.py:26-28 | every link was added from a switch to a host or to a switch with a greater number |
| Tree.TreeTopo.AddTree | containernet/mininet/topolib.py:19-32 | the recursive method does the calls of `Grow` and returns its root |
| Placement.Bin | containernet/examples/cluster.py:551-567 | every node gets a server of the list, also if servers repeat; for distinct nodes and servers each load is the quotient, or one more for the first few, and no node is lost |
| Placement.CalculatePlacement | containernet/examples/cluster.py:569-595 | fails exactly without servers or with a host that is neither placed nor linked to a switch; else hosts go to the server of their last-linked switch |
| Placement.SwitchFor | containernet/examples/cluster.py:575-580 | each host is mapped to the switch of its last link to one |
| Placement.InRangeIff | containernet/examples/cluster.py:611-640 | the index stays in range for all n nodes exactly if n is at most the number of servers or a multiple of it |
| Placement.PlaceNodes | containernet/examples/cluster.py:733-752 | placing all nodes of a topology gets through exactly if that holds of its hosts and of its switches; a node without a server gets that of its place among its kind, given ones stay |
| Placement.HostSwitchBinPlacer.Place | containernet/examples/cluster.py:624-643 | the server of the current bin of the node's kind; only that counter moves on, and only without an exception |
| Addresses.ParseOfStr | containernet/mininet/util.py:309-341 | ipParse gives back the low 32 bits of whatever ipStr printed |
| Addresses.ParseIp | containernet/mininet/util.py:336-341 | the padding loop and the failures of ipParse |
| Addresses.IpAddInSubnet | containernet/mininet/util.py:324-334 | ipAdd accepts exactly the indexes that fit the host bits; the address has the base's prefix and the index as host part |
| Addresses.IpAddInjective | containernet/mininet/util.py:324-334 | different indexes give different addresses |
| Addresses.HostIpParses | containernet/mininet/util.py:343-354 | netParse reads a default host address back as its number and the net's prefix length |
| Addresses.BareParses | containernet/mininet/util.py:343-354 | an address without a prefix length is read with 24 |
| Addresses.GivenDistinct | containernet/mininet/net.py:225-236 | default host addresses are pairwise different |
| Addresses.Mininet.AddHost | containernet/mininet/net.py:220-236 | each host takes the next default address, also if it is given another, until the subnet is full |
| Addresses.ControlAddresses | containernet/mininet/net.py:1137-1150 | each switch gets the least number above the one before whose last octet is neither 0 nor 255 |
| Addresses.ControlDistinct | containernet/mininet/net.py:1137-1150 | while there is room, those addresses differ from one another and from the controller's, and none ends in 0 or 255 |

## Left out

- Reassembly.RecvLoop: an exception of an event listener also ends the loop, since events are dispatched synchronously (`tflc_event.py:85-92`); the model has the decoders' exceptions only, and the listeners' are in the contracts of `AppManager` and `Layer2Switch`.
- Sockets, greenlets, queues, timers and logging: they are byte pieces, message sequences and steps.
- The networkx library is not part of this model: its graphs are sets of nodes and maps of edges, shortest_path is the breadth-first search of `Graphs`, and where it may choose (dict.keys()[0], remove_edge without a key) every choice is covered.
- The loops of several dictionaries, whose order Python leaves open, are proved for every order.
- The message types 9 and 10 (migration and controller pool change): the central side cannot serialise them, and their events count as silent.
- TFLCT_ERROR: its handler always raises, since it slices data that is None.
- GRAPH_INFO's length field has the machine's byte order; the model takes little endian. The JSON text is bytes on the wire and a list of windows in the handler.
- Messages that reach the central handlers before HELLO_UP: they need a controller with an id.
- The domain graph is not followed past the point where controllers share an id (`Ids.SameIdIff`).
- The attribute win_dpid of the domain graph's nodes, UPDATE_COUNTER, load reports, the REST interface, ovsdb and the switch-controller map.
- What the entries of the window list are, which another library decides: `Layer2Switch.TopologyData` has both cases, texts that the log line can join and dictionaries that the lines after it can read. With dictionaries, as those lines need them, the handler raises for every domain with a window.
- get_all_switch, get_all_link and get_all_window_switch belong to another library and are parameters of `Layer2Switch.TopologyData`; the periodic resending of GRAPH_INFO is left out.
- Answers.AnswerSendsOn: what a switch makes of a packet-out whose in_port is the number of another switch, as the handler sends it, is not part of this model.
- Observed.LoadCounts: the thread that reports the loads and sets them back to 0 is left out.
- _packet_timeout_handler is called once by the code; in the model it is a step that may come at any time.
- Changes of the domain graph and of the cables while `NetworkTraffic` runs, and orders that are dropped or raise half way in those runs (`HalfWay` has the latter).
- The rule of priority 0 that sends misses to the controller is a message of its own and not in the tables.
- The step-by-step dispatch of FLOW_MODs, which the configuration turns off.
- Packet parsing: a packet-in comes with its addresses and ports. A five-tuple match is taken to stand for one destination in `LocalRuns.Lawful`.
- Controllers/L2Controller, whose protocol files repeat cc_client's.
- ECHO_REPLY, which a local controller sends under the xid of the ECHO_REQUEST, draws none and is not among the messages of `LocalSteps.Local`.
- net and mac_to_port are one field of the class `Layer2Switch`, as are the three xid dictionaries; the three flag dictionaries of `AppManager` are one map.
- A FLOW_MOD carries the xid of the request also to domains that did not ask, where it may meet another packet's xid and release that; the tables are the same, which `Delivery.InterdomainDelivery` covers by letting any packet wait anywhere.
- edge[u][v] and ports[u][p] are maps on pairs, so the empty inner dictionaries that setdefault makes are not seen.
- Node and link options other than isSwitch, and the sorted listings of nodes and links.
- int() of a text with signs or spaces: `Text.ParseDec` reads digits only.
- RoundRobinPlacer, RandomPlacer, CPU pinning and MAC addresses of hosts.
