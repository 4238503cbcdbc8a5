/** How one ERPP node reacts, for one ring, to a link event, a control packet or
    the expiry of its fail timer.

    Roles and port states are datatypes. Node states stay numbers, because the
    enumerations that name them overlap in src/include/erpp/erpp_dbus.h and the
    handlers compare the numbers, whatever the role of the ring is. */
module ErppNode {

  // src/include/erpp/erpp_dbus.h:54-71
  const NODE_COMPLETE := 0
  const NODE_FAIL := 1
  const ERPP_LINK_NORMAL := 1
  const ERPP_LINK_FAIL := 2
  const LINK_UP := 0
  const LINK_DOWN := 1
  const PRE_FORWARDING := 2

  // src/include/erpp/erpp_packet.h:22-30
  const HELLO_PACKET := 1
  const COMPLETE_FLUSH_PACKET := 2
  const COMMON_FLUSH_PACKET := 3
  const LINK_DOWN_PACKET := 4
  const EDGE_HELLO_PACKET := 5
  const FAULT_PACKET := 6

  datatype PortStatus = Forwarding | Block

  /** The configuration stores any byte as a role; `OtherRole` is a byte that names none. */
  datatype Role = Master | Transmit | Edge | AssistantEdge | OtherRole(code: int)

  datatype Port = Port(netif: int, status: PortStatus)

  datatype Node = Node(role: Role, status: int, port0: Port, port1: Port) {

    predicate BothForwarding() {
      port0.status.Forwarding? && port1.status.Forwarding?
    }

    predicate Owns(netif: int) {
      netif == port0.netif || netif == port1.netif
    }

    /** The interface by which a packet that came in on `netif` is passed on. */
    function Opposite(netif: int): int {
      if netif == port0.netif then port1.netif else port0.netif
    }

    function WithPorts(s0: PortStatus, s1: PortStatus): Node {
      this.(port0 := port0.(status := s0), port1 := port1.(status := s1))
    }
  }

  /** A packet that the node itself builds. */
  datatype Emit = Emit(ptype: int, netif: int)

  /** The node after an event, the packets it builds, and whether the handler
      first records the ring as the one its packets are about. */
  datatype Reaction = Reaction(node: Node, emits: seq<Emit>, stamps: bool)

  // ---------------------------------------------------------------- link events

  /** A master comes out of a link-up with one forwarding port, the primary one
      if it already forwarded or is the port that came up. Any other role never
      opens a port: it goes to PRE_FORWARDING when the port that came up is
      blocked, and when both ports forward it blocks both. */
  function LinkUpNode(n: Node, netif: int): Node
    requires n.Owns(netif)
  {
    var at0, at1 := netif == n.port0.netif, netif == n.port1.netif;
    if n.role.Master? then
      if n.port0.status.Forwarding? || at0 then n.WithPorts(Forwarding, Block) else n.WithPorts(Block, Forwarding)
    else if n.BothForwarding() then
      n.WithPorts(Block, Block).(status := PRE_FORWARDING)
    else if (at0 && n.port0.status.Block?) || (at1 && n.port1.status.Block?)
            || (n.port0.status.Block? && n.port1.status.Block?) then
      n.(status := PRE_FORWARDING)
    else
      n
  }

  /** The event takes the primary port out of service. */
  predicate LosesPrimary(n: Node, netif: int) {
    n.port0.status.Forwarding? && netif == n.port0.netif
  }

  /** The event takes the secondary port out of service. */
  predicate LosesSecondary(n: Node, netif: int) {
    n.port1.status.Forwarding? && !LosesPrimary(n, netif) &&
    (n.port0.status.Forwarding? || netif == n.port1.netif)
  }

  /** A non-master that loses its only forwarding primary port, or whose blocked
      secondary port goes down, sends the number LINK_DOWN as a packet type,
      which is the number of HELLO_PACKET. */
  function LinkDownNode(n: Node, netif: int): Reaction
    requires n.Owns(netif)
  {
    if n.role.Master? then
      if LosesPrimary(n, netif) then
        Reaction(n.WithPorts(Block, Forwarding), [Emit(COMMON_FLUSH_PACKET, n.port1.netif)], true)
      else if LosesSecondary(n, netif) then
        Reaction(n.WithPorts(n.port0.status, Block), [Emit(COMMON_FLUSH_PACKET, n.port0.netif)], true)
      else
        Reaction(n, [], false)
    else
      if LosesPrimary(n, netif) && n.port1.status.Forwarding? then
        Reaction(n.WithPorts(Block, Forwarding).(status := LINK_DOWN), [Emit(LINK_DOWN_PACKET, n.port1.netif)], true)
      else if LosesPrimary(n, netif) then
        Reaction(n.WithPorts(Block, Block), [Emit(LINK_DOWN, n.port1.netif)], true)
      else if LosesSecondary(n, netif) then
        Reaction(n.WithPorts(n.port0.status, Block).(status := LINK_DOWN), [Emit(LINK_DOWN_PACKET, n.port0.netif)],
                 true)
      else if n.port0.status.Forwarding? then
        Reaction(n, [Emit(LINK_DOWN, n.port0.netif)], false)
      else
        Reaction(n, [], false)
  }

  // ------------------------------------------------------------ control packets

  /** A forwarding primary port and a forwarding secondary port do not stay together. */
  function Secured(n: Node): Node {
    if n.port0.status.Forwarding? then n.WithPorts(Forwarding, Block) else n
  }

  /** A HELLO that carries the node's own address. */
  function OwnHello(n: Node): Reaction {
    if n.status == NODE_FAIL then
      Reaction(Secured(n.(status := NODE_COMPLETE)),
               [Emit(COMPLETE_FLUSH_PACKET, n.port0.netif), Emit(COMPLETE_FLUSH_PACKET, n.port1.netif)], true)
    else
      Reaction(Secured(n), [], false)
  }

  /** A COMPLETE_FLUSH from another node. */
  function Released(n: Node): Node {
    if n.status != PRE_FORWARDING then n
    else if n.BothForwarding() then n.(status := LINK_UP)
    else n.WithPorts(Forwarding, Forwarding).(status := LINK_UP)
  }

  /** A LINK_DOWN_PACKET at a master of a ring of the given level. */
  function Failed(n: Node, level: int): Reaction {
    Reaction(n.WithPorts(Forwarding, if level == 1 then Forwarding else Block).(status := NODE_FAIL),
             [Emit(COMMON_FLUSH_PACKET, n.port0.netif), Emit(COMMON_FLUSH_PACKET, n.port1.netif)], true)
  }

  /** A FAULT_PACKET at an edge node. */
  function Faulted(n: Node): Node {
    n.WithPorts(n.port0.status, Block)
  }

  /** The fail timer of a master has run out. */
  function Expired(n: Node): Node {
    n.WithPorts(n.port0.status, Forwarding).(status := NODE_FAIL)
  }

  /** What a node does with a packet: how it changes, whether it passes the packet
      on by its other port, and what it builds itself. */
  datatype Outcome = Outcome(node: Node, passes: bool, emits: seq<Emit>)

  function HandleNode(n: Node, level: int, own: bool, ptype: int): Outcome {
    if ptype == HELLO_PACKET then
      if own then Outcome(OwnHello(n).node, false, OwnHello(n).emits) else Outcome(n, true, [])
    else if ptype == COMPLETE_FLUSH_PACKET then
      if own then Outcome(n, false, []) else Outcome(Released(n), true, [])
    else if ptype == LINK_DOWN_PACKET then
      if n.role.Master? then Outcome(Failed(n, level).node, false, Failed(n, level).emits) else Outcome(n, true, [])
    else if ptype == FAULT_PACKET then
      if n.role.Edge? then Outcome(Faulted(n), false, []) else Outcome(n, !own, [])
    else Outcome(n, false, [])
  }

  // -------------------------------------------------------------- configuration

  function Configured(n: Node, mode: Role, primary: int, secondary: int): Node {
    var m :=
      match mode
      case Master => n.WithPorts(Forwarding, Block).(status := NODE_COMPLETE)
      case OtherRole(_) => n
      case _ => n.WithPorts(Forwarding, Forwarding).(status := LINK_UP);
    m.(role := mode, port0 := m.port0.(netif := primary), port1 := m.port1.(netif := secondary))
  }

  // ---------------------------------------------------------------- invariants

  /** What holds of a configured master ring. */
  predicate MasterOk(n: Node) {
    n.role.Master? ==>
      && (n.status == NODE_COMPLETE || n.status == NODE_FAIL)
      && (n.BothForwarding() ==> n.status == NODE_FAIL)
  }

  /** What holds of a configured transit ring that gets no HELLO of its own. */
  predicate TransitOk(n: Node) {
    n.role.Transmit? ==>
      && (n.status == LINK_UP || n.status == LINK_DOWN || n.status == PRE_FORWARDING)
      && (n.status == LINK_UP <==> n.BothForwarding())
  }

  /** After a link-up event the node that handles it has a blocked port, in every role and state. */
  lemma LinkUpLeavesBlockedPort(n: Node, netif: int)
    requires n.Owns(netif)
    ensures !LinkUpNode(n, netif).BothForwarding()
    ensures n.role.Master? ==>
              (LinkUpNode(n, netif).port0.status.Forwarding? <==> LinkUpNode(n, netif).port1.status.Block?)
    ensures !n.role.Master? && LinkUpNode(n, netif).port0.status.Forwarding? ==> n.port0.status.Forwarding?
    ensures !n.role.Master? && LinkUpNode(n, netif).port1.status.Forwarding? ==> n.port1.status.Forwarding?
  {
  }

  /** The port that an event at `netif` is about, and the one it is not about. */
  function Mine(n: Node, netif: int): Port { if netif == n.port0.netif then n.port0 else n.port1 }

  function Other(n: Node, netif: int): Port { if netif == n.port0.netif then n.port1 else n.port0 }

  /** What a lost link leaves open. The port is blocked. A master that loses its forwarding primary port opens the
      other one; in every other case the other port stays as it was. */
  predicate DownPorts(n: Node, netif: int, n': Node) {
    && n' == n.(status := n'.status, port0 := n'.port0, port1 := n'.port1) && SameInterfaces(n, n')
    && Mine(n', netif) == Mine(n, netif).(status := Block)
    && (Other(n', netif) == if n.role.Master? && netif == n.port0.netif && n.port0.status.Forwarding?
                            then Other(n, netif).(status := Forwarding) else Other(n, netif))
  }

  /** What a lost link makes the node send, by its other port: a master one flush for a forwarding port; another
      node its report, if both ports forwarded or the secondary one was lost; and the number LINK_DOWN where
      its primary port alone forwarded. */
  predicate DownPackets(n: Node, netif: int, re: Reaction) {
    var mine := Mine(n, netif).status.Forwarding?;
    var reports := n.BothForwarding() || (mine && netif == n.port1.netif);
    && re.stamps == mine
    && re.node.status == (if !n.role.Master? && reports then LINK_DOWN else n.status)
    && re.emits == (if n.role.Master? then if mine then [Emit(COMMON_FLUSH_PACKET, n.Opposite(netif))] else []
                    else if reports then [Emit(LINK_DOWN_PACKET, n.Opposite(netif))]
                    else if n.port0.status.Forwarding? then [Emit(LINK_DOWN, n.Opposite(netif))] else [])
  }

  /** What a link that comes up opens. A master ends with one forwarding port: the one that came up, if the other
      was blocked, and the primary one if the other forwarded. Another node opens nothing: it waits if the
      port that came up is blocked, and blocks both ports if both forwarded. */
  predicate UpPorts(n: Node, netif: int, n': Node) {
    && n' == n.(status := n'.status, port0 := n'.port0, port1 := n'.port1) && SameInterfaces(n, n')
    && (n.role.Master? ==>
          && n'.status == n.status
          && (n'.port0.status.Forwarding? <==> n'.port1.status.Block?)
          && (Other(n, netif).status.Block? ==> Mine(n', netif).status.Forwarding?)
          && (Other(n, netif).status.Forwarding? ==> n'.port0.status.Forwarding?))
    && (!n.role.Master? ==>
          && (n.BothForwarding() ==> n'.port0.status.Block? && n'.port1.status.Block?)
          && (!n.BothForwarding() ==> n'.port0 == n.port0 && n'.port1 == n.port1)
          && n'.status == if n.BothForwarding() || Mine(n, netif).status.Block? then PRE_FORWARDING else n.status)
  }

  lemma LinkReactions(n: Node, netif: int)
    requires n.Owns(netif) && n.port0.netif != n.port1.netif
    ensures DownPorts(n, netif, LinkDownNode(n, netif).node) && DownPackets(n, netif, LinkDownNode(n, netif))
    ensures UpPorts(n, netif, LinkUpNode(n, netif))
  {
  }

  predicate SameInterfaces(n: Node, m: Node) {
    n.port0.netif == m.port0.netif && n.port1.netif == m.port1.netif
  }

  /** What a packet does to a node, field by field. A master that ends or notes a failure flushes by both its ports. */
  lemma PacketTable(n: Node, level: int, own: bool, ptype: int)
    ensures var o := HandleNode(n, level, own, ptype);
            var hello := ptype == HELLO_PACKET && own;
            var report := ptype == LINK_DOWN_PACKET && n.role.Master?;
            var release := ptype == COMPLETE_FLUSH_PACKET && !own && n.status == PRE_FORWARDING;
            && o.node == n.(status := o.node.status, port0 := o.node.port0, port1 := o.node.port1)
            && SameInterfaces(n, o.node)
            && o.node.status == (if hello && n.status == NODE_FAIL then NODE_COMPLETE else if report then NODE_FAIL
                                 else if release then LINK_UP else n.status)
            && o.node.port0.status == (if report || release then Forwarding else n.port0.status)
            && o.node.port1.status ==
               (if release || (report && level == 1) then Forwarding
                else if report || (hello && n.port0.status.Forwarding?) || (ptype == FAULT_PACKET && n.role.Edge?)
                then Block else n.port1.status)
            && (o.passes <==> || (ptype in {HELLO_PACKET, COMPLETE_FLUSH_PACKET} && !own)
                              || (ptype == FAULT_PACKET && !n.role.Edge? && !own)
                              || (ptype == LINK_DOWN_PACKET && !n.role.Master?))
            && o.emits == (if hello && n.status == NODE_FAIL
                           then [Emit(COMPLETE_FLUSH_PACKET, n.port0.netif), Emit(COMPLETE_FLUSH_PACKET, n.port1.netif)]
                           else if report
                           then [Emit(COMMON_FLUSH_PACKET, n.port0.netif), Emit(COMMON_FLUSH_PACKET, n.port1.netif)]
                           else [])
  {
  }

  /** A HELLO of its own leaves a transit ring consistent exactly when the ring waits in
      PRE_FORWARDING: the numbers of LINK_DOWN and NODE_FAIL are the same. */
  lemma OwnHelloOnTransit(n: Node)
    requires n.role.Transmit? && TransitOk(n)
    ensures TransitOk(OwnHello(n).node) <==> n.status == PRE_FORWARDING
  {
  }
}
