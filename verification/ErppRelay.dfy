/** From switches to the ring: a HELLO on its way round, and the daemon's handlers
    seen as reactions of one node. */
module ErppRelay {
  import opened ErppNode
  import opened ErppProtocol

  /** Packets of this switch about ring index `i` of a domain. */
  function About(mac: Mac, d: Domain, i: nat, emits: seq<Emit>): seq<Packet>
    requires i < |d.rings|
  {
    seq(|emits|, k requires 0 <= k < |emits| =>
      Packet(emits[k].netif, emits[k].ptype, d.domainId, d.rings[i].ringId, d.rings[i].level,
             d.helloTimer, d.failTimer, mac))
  }

  /** A packet, not an edge hello, changes only the ring it names, and that as `HandleNode` says.
      What leaves the switch is the packet itself by the other port, or packets about that ring. */
  lemma HandleRefinesNode(mac: Mac, d: Domain, p: Packet)
    requires |d.rings| == ERPP_RING_SIZE && InRange(p) && p.ringId <= ERPP_RING_SIZE && p.ptype != EDGE_HELLO_PACKET
    ensures var i := p.ringId - 1;
            var n, w := d.rings[i].node, Handle(mac, d, p);
            var o := HandleNode(n, d.rings[i].level, p.mac == mac, p.ptype);
            && w.d.rings == d.rings[i := d.rings[i].(node := o.node)]
            && w.tx == if o.passes then [p.(netif := n.Opposite(p.netif))] else About(mac, d, i, o.emits)
  {
    var i := p.ringId - 1;
    var w := Handle(mac, d, p);
    assert w.d.rings == d.rings[i := d.rings[i].(node := w.d.rings[i].node)];
  }

  /** The counters and marks of a domain after a packet. The fail counter starts anew with a HELLO of its own on a ring
      that is not failed; a flush, the end of a failure and its report raise the flush flag. */
  lemma HandleCounts(mac: Mac, d: Domain, p: Packet)
    requires |d.rings| == ERPP_RING_SIZE && InRange(p) && p.ringId <= ERPP_RING_SIZE
    ensures var d', r, own := Handle(mac, d, p).d, d.rings[p.ringId - 1], p.mac == mac;
            var hello, edge := p.ptype == HELLO_PACKET && own, p.ptype == EDGE_HELLO_PACKET;
            var turns := (hello && r.node.status == NODE_FAIL) || (p.ptype == LINK_DOWN_PACKET && r.node.role.Master?);
            var flush := turns || p.ptype == COMPLETE_FLUSH_PACKET || p.ptype == COMMON_FLUSH_PACKET;
            var assists := edge && !own && d.rings[p.ringId].node.role.AssistantEdge?;
            && d'.failCount == (if hello && r.node.status != NODE_FAIL then d.failTimer else d.failCount)
            && d'.helloCount == (if edge && own then d.helloTimer else d.helloCount)
            && d'.faultCount == (if assists then d.faultTimer else d.faultCount)
            && d'.flushFlag == (if flush then 1 else d.flushFlag)
            && d'.packetRing == (if turns then p.ringId else d.packetRing)
            && d'.domainId == d.domainId && d'.instance == d.instance && d'.helloTimer == d.helloTimer
            && d'.failTimer == d.failTimer && d'.faultTimer == d.faultTimer
            && (assists ==> d'.rings == d.rings[p.ringId := d.rings[p.ringId].(node :=
                  d.rings[p.ringId].node.(status := ERPP_LINK_NORMAL))])
            && (edge && !assists ==> d'.rings == d.rings)
  {
    hide AssembleAll;
  }

  /** A switch on the ring; `upstream` and `downstream` are the interfaces of the two ports of
      its ring, in the order in which the HELLO of the master meets them. */
  datatype Switch = Switch(mac: Mac, domain: Domain, upstream: int, downstream: int)

  predicate OnRing(sw: Switch, id: int, ringId: int) {
    && sw.domain.domainId == id && |sw.domain.rings| == ERPP_RING_SIZE && 1 <= ringId <= ERPP_RING_SIZE
    && sw.domain.rings[ringId - 1].isEnable != 0 && sw.upstream != sw.downstream
    && Wired(sw, sw.domain.rings[ringId - 1].node)
  }

  predicate Wired(sw: Switch, n: Node) {
    || (sw.upstream == n.port0.netif && sw.downstream == n.port1.netif)
    || (sw.upstream == n.port1.netif && sw.downstream == n.port0.netif)
  }

  datatype Hop = Hop(mac: Mac, arrived: int, left: int)

  /** The journey of a packet past `switches`: the packet that leaves the last one, the ports it
      used, and the switches afterwards. It ends early where a switch does not send exactly one
      packet by its downstream port. */
  datatype Journey = Stopped | Through(packet: Packet, hops: seq<Hop>, after: seq<Switch>)

  function Travel(switches: seq<Switch>, p: Packet): Journey
    requires InRange(p) && p.ringId <= ERPP_RING_SIZE
    requires forall k :: 0 <= k < |switches| ==> OnRing(switches[k], p.domainId, p.ringId)
  {
    if switches == [] then Through(p, [], [])
    else
      var sw := switches[0];
      assert OnRing(sw, p.domainId, p.ringId);
      var w := Handle(sw.mac, sw.domain, p.(netif := sw.upstream));
      if |w.tx| != 1 || w.tx[0].netif != sw.downstream || w.tx[0].(netif := 0) != p.(netif := 0) then Stopped
      else
        match Travel(switches[1..], w.tx[0])
        case Stopped => Stopped
        case Through(q, hops, after) =>
          Through(q, [Hop(sw.mac, sw.upstream, sw.downstream)] + hops, [sw.(domain := w.d)] + after)
  }

  /** A HELLO passes any number of switches that are not its sender, each exactly once, leaves
      each by the port it did not arrive on, changes none of them, and comes out as it went in. */
  lemma {:induction false} HelloPassesAll(switches: seq<Switch>, p: Packet)
    requires InRange(p) && p.ringId <= ERPP_RING_SIZE && p.ptype == HELLO_PACKET
    requires forall k :: 0 <= k < |switches| ==> OnRing(switches[k], p.domainId, p.ringId) && switches[k].mac != p.mac
    ensures var j := Travel(switches, p);
            && j.Through? && j.after == switches && |j.hops| == |switches|
            && (forall k :: 0 <= k < |switches| ==>
                  j.hops[k] == Hop(switches[k].mac, switches[k].upstream, switches[k].downstream))
            && j.packet == p.(netif := if switches == [] then p.netif else switches[|switches| - 1].downstream)
  {
    if switches != [] {
      var sw, rest := switches[0], switches[1..];
      var w := Handle(sw.mac, sw.domain, p.(netif := sw.upstream));
      assert w.d == sw.domain && w.tx == [p.(netif := sw.downstream)];
      HelloPassesAll(rest, w.tx[0]);
      assert [sw] + rest == switches;
    }
  }

  function HelloOf(mac: Mac, d: Domain, i: nat): Packet
    requires i < |d.rings|
  {
    Packet(d.rings[i].node.port0.netif, HELLO_PACKET, d.domainId, i + 1, d.rings[i].level,
           d.helloTimer, d.failTimer, mac)
  }

  /** The HELLO that the timer of a master sends comes back, over any number of switches, as a
      packet that the master takes for its own. */
  lemma {:induction false} MasterHelloReturns(mac: Mac, w: Work, i: nat, switches: seq<Switch>)
    requires |w.d.rings| == ERPP_RING_SIZE && i < ERPP_RING_SIZE
    requires w.d.helloCount == 0 && w.d.rings[i].ringId == i + 1
    requires forall k :: 0 <= k < |switches| ==> OnRing(switches[k], w.d.domainId, i + 1) && switches[k].mac != mac
    ensures MasterHello(mac, w, i).tx == w.tx + [HelloOf(mac, w.d, i)]
    ensures Travel(switches, HelloOf(mac, w.d, i)).Through?
    ensures Returns(mac, MasterHello(mac, w, i).d, i, Travel(switches, HelloOf(mac, w.d, i)).packet)
  {
    HelloPassesAll(switches, HelloOf(mac, w.d, i));
  }

  /** The packet, arriving at the secondary port, is the master's own HELLO about ring `i`. */
  predicate Returns(mac: Mac, d: Domain, i: nat, p: Packet)
    requires |d.rings| == ERPP_RING_SIZE && i < ERPP_RING_SIZE
  {
    && p.ptype == HELLO_PACKET && p.mac == mac && p.domainId == d.domainId && p.ringId == i + 1
    && Handle(mac, d, p.(netif := d.rings[i].node.port1.netif)).d.rings[i].node == OwnHello(d.rings[i].node).node
  }
}
