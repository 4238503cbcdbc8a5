/** What every run of one daemon keeps, over all interleavings of configuration,
    seconds, link events and packets. */
module ErppSafety {
  import opened ErppNode
  import opened ErppProtocol

  // ------------------------------------------- how one step changes one ring

  function LinkedRing(r: Ring, netif: int, up: bool): Ring {
    if r.isEnable == 0 || !r.node.Owns(netif) then r
    else r.(node := if up then LinkUpNode(r.node, netif) else LinkDownNode(r.node, netif).node)
  }

  predicate TickMove(r: Ring, r': Ring) {
    || (r.node.role.Master? && r' == r.(node := Expired(r.node)))
    || (r.node.role.AssistantEdge? && r' == r.(node := r.node.(status := ERPP_LINK_FAIL)))
  }

  predicate PacketMove(mac: Mac, p: Packet, r: Ring, r': Ring) {
    || (p.ptype == HELLO_PACKET && p.mac == mac && r' == r.(node := OwnHello(r.node).node))
    || (p.ptype == COMPLETE_FLUSH_PACKET && p.mac != mac && r' == r.(node := Released(r.node)))
    || (p.ptype == LINK_DOWN_PACKET && r.node.role.Master? && r' == r.(node := Failed(r.node, r.level).node))
    || (p.ptype == FAULT_PACKET && r.node.role.Edge? && r' == r.(node := Faulted(r.node)))
  }

  /** All ways in which `step` can change the ring at index `i` of domain `id`. */
  predicate Moves(mac: Mac, step: Step, id: int, i: int, r: Ring, r': Ring) {
    match step
    case Configure(cid, ringId, mode, primary, secondary, level) =>
      cid == id && i == ringId - 1 && r' == ConfigureRing(r, ringId, mode, primary, secondary, level)
    case Enable(cid, ringId, flag) => cid == id && i == ringId - 1 && r' == r.(isEnable := flag)
    case Tick => r.isEnable != 0 && TickMove(r, r')
    case LinkUp(netif) => i < ERPP_RING_SIZE - 1 && r' == LinkedRing(r, netif, true)
    case LinkDown(netif) => i < ERPP_RING_SIZE - 1 && r' == LinkedRing(r, netif, false)
    case Receive(p) =>
      && p.domainId == id
      && ((i == p.ringId - 1 && r.isEnable != 0 && PacketMove(mac, p, r, r'))
          || (i == p.ringId && p.ptype == EDGE_HELLO_PACKET && r.node.role.AssistantEdge?
              && r' == r.(node := r.node.(status := ERPP_LINK_NORMAL))))
    case _ => false
  }

  lemma LinkRingAt(s: State, id: int, i: nat, netif: int, up: bool, id': int, j: nat)
    requires Valid(s) && id in s.table && id' in s.table && i < ERPP_RING_SIZE && j < ERPP_RING_SIZE
    ensures var r := s.table[id'].rings[j];
            LinkRing(s, id, i, netif, up).table[id'].rings[j] ==
            if id' == id && j == i then LinkedRing(r, netif, up) else r
  {
    hide Notices, AssembleAll;
  }

  lemma {:induction false} LinkRingsAt(s: State, id: int, i: nat, netif: int, up: bool, id': int, j: nat)
    requires Valid(s) && id in s.table && id' in s.table && j < ERPP_RING_SIZE
    ensures var t := LinkRings(s, id, i, netif, up);
            var r := s.table[id'].rings[j];
            t.table[id'].rings[j] ==
            if id' == id && i <= j < ERPP_RING_SIZE - 1 then LinkedRing(r, netif, up) else r
    decreases ERPP_RING_SIZE - i
  {
    hide LinkRing, LinkedRing;
    if i + 1 < ERPP_RING_SIZE {
      LinkRingAt(s, id, i, netif, up, id', j);
      LinkRingsAt(LinkRing(s, id, i, netif, up), id, i + 1, netif, up, id', j);
    }
  }

  lemma {:induction false} LinkDomainsAt(s: State, from: nat, netif: int, up: bool, id: int, j: nat)
    requires Valid(s) && id in s.table && j < ERPP_RING_SIZE
    ensures var t := LinkDomains(s, from, netif, up);
            var r := s.table[id].rings[j];
            t.table[id].rings[j] ==
            if from <= id <= ERPP_DOMAIN_SIZE && j < ERPP_RING_SIZE - 1 then LinkedRing(r, netif, up) else r
    decreases ERPP_DOMAIN_SIZE + 1 - from
  {
    hide LinkRings, LinkedRing;
    if from <= ERPP_DOMAIN_SIZE {
      var s' := if from in s.table then LinkRings(s, from, 0, netif, up) else s;
      if from in s.table {
        LinkRingsAt(s, from, 0, netif, up, id, j);
      }
      LinkDomainsAt(s', from + 1, netif, up, id, j);
    }
  }

  lemma {:induction false} TickRingsAt(mac: Mac, w: Work, i: nat, j: nat)
    requires |w.d.rings| == ERPP_RING_SIZE && j < ERPP_RING_SIZE
    ensures var r, r' := w.d.rings[j], TickRings(mac, w, i).d.rings[j];
            r' == r || (i <= j && r.isEnable != 0 && TickMove(r, r'))
    decreases ERPP_RING_SIZE - i
  {
    if i < ERPP_RING_SIZE {
      TickRingsAt(mac, TickRing(mac, w, i), i + 1, j);
    }
  }

  /** A ring is as it was, or its domain is not before `from` and the timer moved it. */
  ghost predicate Ticked(s: State, t: State, from: int, id: int, j: nat)
    requires Valid(s) && Keeps(s, t) && id in s.table && j < ERPP_RING_SIZE
  {
    var r, r' := s.table[id].rings[j], t.table[id].rings[j];
    r' == r || (from <= id && r.isEnable != 0 && TickMove(r, r'))
  }

  lemma TickDomainAt(s: State, from: int, id: int, j: nat)
    requires Valid(s) && from in s.table && id in s.table && j < ERPP_RING_SIZE
    ensures Ticked(s, TickDomain(s, from), from, id, j)
    ensures from != id ==> TickDomain(s, from).table[id] == s.table[id]
  {
    TickRingsAt(s.mac, Work(s.table[from], s.tx), 0, j);
    hide TickRings, TickMove;
  }

  lemma TickedThen(s: State, t: State, u: State, from: int, id: int, j: nat)
    requires Valid(s) && Keeps(s, t) && Keeps(t, u) && id in s.table && j < ERPP_RING_SIZE
    requires Ticked(s, t, from, id, j) && (from != id ==> t.table[id] == s.table[id]) && Ticked(t, u, from + 1, id, j)
    ensures Ticked(s, u, from, id, j)
  {
    hide TickMove;
  }

  lemma TickDomainsUnfold(s: State, from: nat)
    requires Valid(s)
    ensures TickDomains(s, from) ==
            if from > ERPP_DOMAIN_SIZE then s
            else TickDomains(if from in s.table then TickDomain(s, from) else s, from + 1)
  {
    hide TickDomain;
  }

  lemma {:induction false} TickDomainsAt(s: State, from: nat, id: int, j: nat)
    requires Valid(s) && id in s.table && j < ERPP_RING_SIZE
    ensures Ticked(s, TickDomains(s, from), from, id, j)
    decreases ERPP_DOMAIN_SIZE + 1 - from
  {
    hide TickDomains, TickDomain, TickMove;
    TickDomainsUnfold(s, from);
    if from <= ERPP_DOMAIN_SIZE {
      if from in s.table {
        var t := TickDomain(s, from);
        TickDomainAt(s, from, id, j);
        TickDomainsAt(t, from + 1, id, j);
        TickedThen(s, t, TickDomains(t, from + 1), from, id, j);
      } else {
        TickDomainsAt(s, from + 1, id, j);
      }
    }
  }

  lemma HandleAt(mac: Mac, d: Domain, p: Packet, j: nat)
    requires |d.rings| == ERPP_RING_SIZE && InRange(p) && p.ringId <= ERPP_RING_SIZE && j < ERPP_RING_SIZE
    requires d.rings[p.ringId - 1].isEnable != 0 && p.domainId == d.domainId
    ensures var r, r' := d.rings[j], Handle(mac, d, p).d.rings[j];
            r' == r || Moves(mac, Receive(p), d.domainId, j, r, r')
  {
  }

  /** Every step leaves every ring of every domain that survives it as it is, or moves it in a listed way. */
  lemma StepMoves(s: State, step: Step, id: int, j: nat)
    requires Valid(s) && StepOk(step) && id in s.table && id in Apply(s, step).table && j < ERPP_RING_SIZE
    ensures var r, r' := s.table[id].rings[j], Apply(s, step).table[id].rings[j];
            r' == r || Moves(s.mac, step, id, j, r, r')
  {
    match step
    case Tick => if s.serviceOn { TickDomainsAt(s, 1, id, j); }
    case LinkUp(netif) => if s.serviceOn { LinkDomainsAt(s, 1, netif, true, id, j); }
    case LinkDown(netif) => if s.serviceOn { LinkDomainsAt(s, 1, netif, false, id, j); }
    case Receive(p) =>
      if Accepts(s, p) && p.domainId == id {
        HandleAt(s.mac, s.table[id], p, j);
      }
    case _ =>
  }

  // ------------------------------------------------------------ master safety

  ghost predicate MasterSafe(s: State) {
    forall id, j :: id in s.table && 0 <= j < |s.table[id].rings| && s.table[id].rings[j].ringId != 0 ==>
      MasterOk(s.table[id].rings[j].node)
  }

  lemma MasterMove(mac: Mac, step: Step, id: int, i: int, r: Ring, r': Ring)
    requires StepOk(step) && Moves(mac, step, id, i, r, r')
    requires r.ringId != 0 ==> MasterOk(r.node)
    ensures r'.ringId != 0 ==> MasterOk(r'.node)
  {
  }

  lemma MasterStep(s: State, step: Step)
    requires Valid(s) && StepOk(step) && MasterSafe(s)
    ensures MasterSafe(Apply(s, step))
  {
    var t := Apply(s, step);
    forall id, j | id in t.table && 0 <= j < |t.table[id].rings| && t.table[id].rings[j].ringId != 0
      ensures MasterOk(t.table[id].rings[j].node)
    {
      if id in s.table {
        StepMoves(s, step, id, j);
        if t.table[id].rings[j] != s.table[id].rings[j] {
          MasterMove(s.mac, step, id, j, s.table[id].rings[j], t.table[id].rings[j]);
        }
      }
    }
  }

  /** In every run a configured master ring is COMPLETE or FAIL, and forwards on both ports only in FAIL. */
  lemma {:induction false} MasterSafety(s: State, steps: seq<Step>, k: nat)
    requires Initial(s) && StepsOk(steps) && k <= |steps|
    ensures MasterSafe(After(s, steps, k))
  {
    hide Apply;
    if k > 0 {
      MasterSafety(s, steps, k - 1);
      MasterStep(After(s, steps, k - 1), steps[k - 1]);
    }
  }

  // ----------------------------------------------------------- transit safety

  /** The step is a HELLO with the daemon's own address, accepted for a transit ring. */
  predicate SelfHello(s: State, step: Step)
    requires Valid(s) && StepOk(step)
  {
    && step.Receive? && step.packet.ptype == HELLO_PACKET && step.packet.mac == s.mac
    && Accepts(s, step.packet)
    && s.table[step.packet.domainId].rings[step.packet.ringId - 1].node.role.Transmit?
  }

  /** Such a HELLO, at a ring that does not wait in PRE_FORWARDING. */
  predicate StrayHello(s: State, step: Step)
    requires Valid(s) && StepOk(step)
  {
    SelfHello(s, step) && s.table[step.packet.domainId].rings[step.packet.ringId - 1].node.status != PRE_FORWARDING
  }

  ghost predicate NoStrayHello(s: State, steps: seq<Step>)
    requires Valid(s) && StepsOk(steps)
  {
    forall k :: 0 <= k < |steps| ==> !StrayHello(After(s, steps, k), steps[k])
  }

  ghost predicate TransitSafe(s: State) {
    forall id, j :: id in s.table && 0 <= j < |s.table[id].rings| ==> TransitOk(s.table[id].rings[j].node)
  }

  /** A blocked port of the ring begins to forward. */
  predicate Opens(n: Node, n': Node) {
    || (n.port0.status.Block? && n'.port0.status.Forwarding?)
    || (n.port1.status.Block? && n'.port1.status.Forwarding?)
  }

  lemma TransitMove(mac: Mac, step: Step, id: int, i: int, r: Ring, r': Ring)
    requires StepOk(step) && Moves(mac, step, id, i, r, r') && TransitOk(r.node)
    requires step.Receive? && step.packet.ptype == HELLO_PACKET && step.packet.mac == mac ==>
               !r.node.role.Transmit? || r.node.status == PRE_FORWARDING
    ensures TransitOk(r'.node)
    ensures r.node.role.Transmit? && !step.Configure? ==>
              && r'.node.role.Transmit?
              && (Opens(r.node, r'.node) ==>
                    && step.Receive? && step.packet.ptype == COMPLETE_FLUSH_PACKET && step.packet.mac != mac
                    && step.packet.domainId == id && step.packet.ringId == i + 1
                    && r.node.status == PRE_FORWARDING)
              && (r'.node.status == PRE_FORWARDING && r.node.status != PRE_FORWARDING ==>
                    step.LinkUp? && r.node.Owns(step.netif))
  {
  }

  lemma TransitStep(s: State, step: Step)
    requires Valid(s) && StepOk(step) && TransitSafe(s) && !StrayHello(s, step)
    ensures TransitSafe(Apply(s, step))
  {
    var t := Apply(s, step);
    forall id, j | id in t.table && 0 <= j < |t.table[id].rings|
      ensures TransitOk(t.table[id].rings[j].node)
    {
      if id in s.table && t.table[id].rings[j] != s.table[id].rings[j] {
        StepMoves(s, step, id, j);
        TransitMove(s.mac, step, id, j, s.table[id].rings[j], t.table[id].rings[j]);
      }
    }
  }

  /** In every run in which a HELLO of its own reaches a transit ring at most while the ring waits in
      PRE_FORWARDING, a transit ring is LINK_UP exactly when it forwards on both ports. */
  lemma {:induction false} TransitSafety(s: State, steps: seq<Step>, k: nat)
    requires Initial(s) && StepsOk(steps) && k <= |steps| && NoStrayHello(s, steps)
    ensures TransitSafe(After(s, steps, k))
  {
    hide Apply;
    if k > 0 {
      TransitSafety(s, steps, k - 1);
      TransitStep(After(s, steps, k - 1), steps[k - 1]);
    }
  }

  /** The HELLO of its own that the run theorem excludes is exactly what breaks it. */
  lemma SelfHelloBreaks(s: State, step: Step)
    requires Valid(s) && StepOk(step) && TransitSafe(s) && SelfHello(s, step)
    ensures TransitSafe(Apply(s, step)) <==>
            s.table[step.packet.domainId].rings[step.packet.ringId - 1].node.status == PRE_FORWARDING
  {
    var t, id, i := Apply(s, step), step.packet.domainId, step.packet.ringId - 1;
    OwnHelloOnTransit(s.table[id].rings[i].node);
    assert t.table[id].rings[i].node == OwnHello(s.table[id].rings[i].node).node;
    assert forall id', j :: id' in t.table && 0 <= j < |t.table[id'].rings| && !(id' == id && j == i) ==>
      t.table[id'].rings[j] == s.table[id'].rings[j];
  }

  /** The run theorem is exact: transit rings stay consistent throughout if and only if no stray HELLO
      arrives. */
  lemma TransitSafeExactly(s: State, steps: seq<Step>)
    requires Initial(s) && StepsOk(steps)
    ensures (forall k :: 0 <= k <= |steps| ==> TransitSafe(After(s, steps, k))) <==> NoStrayHello(s, steps)
  {
    hide Apply, TransitSafe, StrayHello;
    if NoStrayHello(s, steps) {
      forall k | 0 <= k <= |steps| ensures TransitSafe(After(s, steps, k)) {
        TransitSafety(s, steps, k);
      }
    } else {
      var k :| 0 <= k < |steps| && StrayHello(After(s, steps, k), steps[k]);
      AfterUnfold(s, steps, k + 1);
      StrayBreaks(After(s, steps, k), steps[k]);
    }
  }

  lemma StrayBreaks(s: State, step: Step)
    requires Valid(s) && StepOk(step) && StrayHello(s, step)
    ensures TransitSafe(s) ==> !TransitSafe(Apply(s, step))
  {
    hide Apply, TransitSafe;
    if TransitSafe(s) { SelfHelloBreaks(s, step); }
  }

  ghost predicate TransitAt(s: State, id: int, i: nat) {
    id in s.table && i < |s.table[id].rings| && s.table[id].rings[i].node.role.Transmit?
  }

  ghost predicate WaitsAt(s: State, id: int, i: nat) {
    TransitAt(s, id, i) && s.table[id].rings[i].node.status == PRE_FORWARDING
  }

  lemma WaitsMove(mac: Mac, step: Step, id: int, i: int, r: Ring, r': Ring)
    requires StepOk(step) && Moves(mac, step, id, i, r, r') && TransitOk(r.node)
    requires step.Receive? && step.packet.ptype == HELLO_PACKET && step.packet.mac == mac ==>
               !r.node.role.Transmit? || r.node.status == PRE_FORWARDING
    requires r'.node.role.Transmit? && r'.node.status == PRE_FORWARDING
    ensures r.node.role.Transmit?
    ensures r.node.status == PRE_FORWARDING || (step.LinkUp? && r.node.Owns(step.netif))
  {
  }

  lemma NewRings(s: State, step: Step, id: int)
    requires Valid(s) && StepOk(step) && id !in s.table && id in Apply(s, step).table
    ensures Apply(s, step).table[id] == NewDomain(id)
  {
  }

  lemma WaitsBefore(s: State, step: Step, id: int, i: nat)
    requires Valid(s) && StepOk(step) && TransitSafe(s) && !StrayHello(s, step) && WaitsAt(Apply(s, step), id, i)
    ensures TransitAt(s, id, i)
    ensures WaitsAt(s, id, i) || (step.LinkUp? && s.table[id].rings[i].node.Owns(step.netif))
  {
    hide Apply;
    var t := Apply(s, step);
    if id !in s.table {
      NewRings(s, step, id);
      assert false;
    } else {
      StepMoves(s, step, id, i);
      var r, r' := s.table[id].rings[i], t.table[id].rings[i];
      if r != r' {
        WaitsMove(s.mac, step, id, i, r, r');
      }
    }
  }

  lemma AfterUnfold(s: State, steps: seq<Step>, k: nat)
    requires Valid(s) && StepsOk(steps) && k <= |steps|
    ensures After(s, steps, k) == if k == 0 then s else Apply(After(s, steps, k - 1), steps[k - 1])
  {
    hide Apply;
  }

  lemma WaitsLater(s: State, steps: seq<Step>, id: int, i: nat, k: nat)
    requires Initial(s) && StepsOk(steps) && k <= |steps| && WaitsAt(After(s, steps, k), id, i)
    ensures k > 0
  {
    hide Apply;
  }

  /** One step back from a waiting ring: it waited already, or the step was a link-up event at one of its ports. */
  lemma WaitsBack(s: State, steps: seq<Step>, id: int, i: nat, k: nat)
    requires Valid(s) && Initial(s) && StepsOk(steps) && 0 < k <= |steps| && NoStrayHello(s, steps)
    requires WaitsAt(After(s, steps, k), id, i)
    ensures TransitAt(After(s, steps, k - 1), id, i)
    ensures WaitsAt(After(s, steps, k - 1), id, i) ||
            (steps[k - 1].LinkUp? && After(s, steps, k - 1).table[id].rings[i].node.Owns(steps[k - 1].netif))
  {
    hide Apply, WaitsAt, TransitAt, After, TransitSafe, Initial, Valid, StrayHello;
    AfterUnfold(s, steps, k);
    TransitSafety(s, steps, k - 1);
    WaitsBefore(After(s, steps, k - 1), steps[k - 1], id, i);
  }

  /** A transit ring waits in PRE_FORWARDING only since a link-up event at one of its own ports. */
  lemma {:induction false} WaitsSinceLinkUp(s: State, steps: seq<Step>, id: int, i: nat, k: nat) returns (j: nat)
    requires Initial(s) && StepsOk(steps) && k <= |steps| && NoStrayHello(s, steps)
    requires WaitsAt(After(s, steps, k), id, i)
    ensures j < k && steps[j].LinkUp?
    ensures TransitAt(After(s, steps, j), id, i) && After(s, steps, j).table[id].rings[i].node.Owns(steps[j].netif)
    ensures forall m :: j < m <= k ==> WaitsAt(After(s, steps, m), id, i)
  {
    hide Apply, WaitsAt, TransitAt, After, NoStrayHello, StepsOk;
    WaitsLater(s, steps, id, i, k);
    WaitsBack(s, steps, id, i, k);
    if WaitsAt(After(s, steps, k - 1), id, i) {
      j := WaitsSinceLinkUp(s, steps, id, i, k - 1);
    } else {
      j := k - 1;
    }
  }

  /** Without reconfiguration a blocked port of a transit ring opens only on the COMPLETE_FLUSH of
      another node, received while the ring waits in PRE_FORWARDING since a link-up event. */
  lemma BlockedPortOpensOnFlush(s: State, steps: seq<Step>, id: int, i: nat, k: nat) returns (j: nat)
    requires Initial(s) && StepsOk(steps) && k < |steps| && NoStrayHello(s, steps)
    requires TransitAt(After(s, steps, k), id, i) && id in After(s, steps, k + 1).table && !steps[k].Configure?
    requires Opens(After(s, steps, k).table[id].rings[i].node, After(s, steps, k + 1).table[id].rings[i].node)
    ensures steps[k].Receive? && steps[k].packet.ptype == COMPLETE_FLUSH_PACKET && steps[k].packet.mac != s.mac
    ensures steps[k].packet.domainId == id && steps[k].packet.ringId == i + 1
    ensures j < k && steps[j].LinkUp?
    ensures TransitAt(After(s, steps, j), id, i) && After(s, steps, j).table[id].rings[i].node.Owns(steps[j].netif)
    ensures forall m :: j < m <= k ==> WaitsAt(After(s, steps, m), id, i)
  {
    hide Apply;
    var u := After(s, steps, k);
    StepMoves(u, steps[k], id, i);
    TransitSafety(s, steps, k);
    TransitMove(u.mac, steps[k], id, i, u.table[id].rings[i], Apply(u, steps[k]).table[id].rings[i]);
    j := WaitsSinceLinkUp(s, steps, id, i, k);
  }
}
