/** The daemon as it runs: entries are read from the table, changed field by field
    and stored; loops walk domains and rings. Every method is the step of the state
    machine that `ErppProtocol` names. */
module ErppDaemon {
  import opened ErppNode
  import opened ErppProtocol
  import opened ErppSafety
  import opened ErppTimers
  import opened ErppMirror
  import opened ErppSending

  // ---------------------------------------------------------- one ring at a time

  /** The branches of the link-up event. */
  method LinkUpAt(n: Node, netif: int) returns (m: Node)
    requires n.Owns(netif)
    ensures m == LinkUpNode(n, netif)
    ensures n.port0.netif != n.port1.netif ==> UpPorts(n, netif, m)
  {
    m := n;
    if n.port0.status.Block? && n.port1.status.Block? {
      if netif == n.port0.netif {
        if n.role.Master? { m := m.(port0 := m.port0.(status := Forwarding)); }
        else { m := m.(status := PRE_FORWARDING); }
      } else {
        if n.role.Master? { m := m.(port1 := m.port1.(status := Forwarding)); }
        else { m := m.(status := PRE_FORWARDING); }
      }
    } else if n.port0.status.Forwarding? && n.port1.status.Block? {
      if netif == n.port1.netif && !n.role.Master? { m := m.(status := PRE_FORWARDING); }
    } else if n.port0.status.Block? && n.port1.status.Forwarding? {
      if netif == n.port0.netif {
        if n.role.Master? {
          m := m.(port0 := m.port0.(status := Forwarding));
          m := m.(port1 := m.port1.(status := Block));
        } else {
          m := m.(status := PRE_FORWARDING);
        }
      }
    } else {
      if n.role.Master? {
        m := m.(port0 := m.port0.(status := Forwarding));
        m := m.(port1 := m.port1.(status := Block));
      } else {
        m := m.(status := PRE_FORWARDING);
        m := m.(port0 := m.port0.(status := Block));
        m := m.(port1 := m.port1.(status := Block));
      }
    }
  }

  /** The branches of the link-down event. */
  method LinkDownAt(n: Node, netif: int) returns (re: Reaction)
    requires n.Owns(netif)
    ensures re == LinkDownNode(n, netif)
    ensures n.port0.netif != n.port1.netif ==> DownPorts(n, netif, re.node) && DownPackets(n, netif, re)
  {
    var m := n;
    re := Reaction(n, [], false);
    if n.port0.status.Forwarding? && n.port1.status.Block? {
      if netif == n.port0.netif {
        m := m.(port0 := m.port0.(status := Block));
        if n.role.Master? {
          m := m.(port1 := m.port1.(status := Forwarding));
          re := Reaction(m, [Emit(COMMON_FLUSH_PACKET, n.port1.netif)], true);
        } else {
          re := Reaction(m, [Emit(LINK_DOWN, n.port1.netif)], true);
        }
      } else if !n.role.Master? {
        re := Reaction(m, [Emit(LINK_DOWN, n.port0.netif)], false);
      }
    } else if n.port0.status.Block? && n.port1.status.Forwarding? {
      if netif == n.port1.netif {
        m := m.(port1 := m.port1.(status := Block));
        if n.role.Master? {
          re := Reaction(m, [Emit(COMMON_FLUSH_PACKET, n.port0.netif)], true);
        } else {
          m := m.(status := LINK_DOWN);
          re := Reaction(m, [Emit(LINK_DOWN_PACKET, n.port0.netif)], true);
        }
      }
    } else if n.port0.status.Forwarding? && n.port1.status.Forwarding? {
      if netif == n.port0.netif {
        m := m.(port0 := m.port0.(status := Block));
        if n.role.Master? {
          m := m.(port1 := m.port1.(status := Forwarding));
          re := Reaction(m, [Emit(COMMON_FLUSH_PACKET, n.port1.netif)], true);
        } else {
          m := m.(status := LINK_DOWN);
          re := Reaction(m, [Emit(LINK_DOWN_PACKET, n.port1.netif)], true);
        }
      } else {
        m := m.(port1 := m.port1.(status := Block));
        if n.role.Master? {
          m := m.(port0 := m.port0.(status := Forwarding));
          re := Reaction(m, [Emit(COMMON_FLUSH_PACKET, n.port0.netif)], true);
        } else {
          m := m.(status := LINK_DOWN);
          re := Reaction(m, [Emit(LINK_DOWN_PACKET, n.port0.netif)], true);
        }
      }
    }
  }

  /** What the timer does to ring `i`. */
  method RingTimer(mac: Mac, d: Domain, tx: seq<Packet>, i: nat) returns (entry: Domain, sent: seq<Packet>)
    requires |d.rings| == ERPP_RING_SIZE && 1 <= i <= ERPP_RING_SIZE
    ensures Work(entry, sent) == TickRing(mac, Work(d, tx), i - 1)
  {
    entry, sent := d, tx;
    var ring := entry.rings[i - 1];
    if ring.isEnable != 0 {
      if ring.node.role.Master? {
        if entry.helloCount == 0 {
          entry := entry.(helloCount := entry.helloTimer, packetRing := i);
          sent := sent + [Assemble(mac, entry, Emit(HELLO_PACKET, ring.node.port0.netif))];
        }
        if entry.failCount == 0 {
          var node := ring.node.(status := NODE_FAIL, port1 := ring.node.port1.(status := Forwarding));
          entry := entry.(failCount := entry.failTimer, flushFlag := 1, packetRing := i,
                          rings := entry.rings[i - 1 := ring.(node := node)]);
          sent := sent + [Assemble(mac, entry, Emit(COMMON_FLUSH_PACKET, node.port0.netif))];
        }
        entry := entry.(helloCount := entry.helloCount - 1, failCount := entry.failCount - 1);
      } else if ring.node.role.Edge? {
        if entry.helloCount == 0 {
          entry := entry.(helloCount := entry.helloTimer, packetRing := i - 1);
          var first := entry.rings[0].node;
          sent := sent + [Assemble(mac, entry, Emit(EDGE_HELLO_PACKET, first.port0.netif)),
                          Assemble(mac, entry, Emit(EDGE_HELLO_PACKET, first.port1.netif))];
        }
        entry := entry.(helloCount := entry.helloCount - 1);
      } else if ring.node.role.AssistantEdge? {
        if entry.faultCount == 0 {
          var node := ring.node.(status := ERPP_LINK_FAIL);
          entry := entry.(packetRing := i, rings := entry.rings[i - 1 := ring.(node := node)]);
          sent := sent + [Assemble(mac, entry, Emit(FAULT_PACKET, node.port0.netif))];
        }
        entry := entry.(faultCount := entry.faultCount - 1);
      }
    }
  }

  /** The timer handler of one domain. */
  method DomainTimer(mac: Mac, d: Domain, tx: seq<Packet>) returns (w: Work)
    requires |d.rings| == ERPP_RING_SIZE
    ensures w == TickRings(mac, Work(d, tx), 0)
  {
    hide TickRing, TickRings;
    var entry, sent := d, tx;
    var i := 1;
    while i < ERPP_RING_SIZE + 1
      invariant 1 <= i <= ERPP_RING_SIZE + 1 && |entry.rings| == ERPP_RING_SIZE
      invariant TickRings(mac, Work(entry, sent), i - 1) == TickRings(mac, Work(d, tx), 0)
    {
      TimerRound(mac, Work(entry, sent), i - 1);
      entry, sent := RingTimer(mac, entry, sent, i);
      i := i + 1;
    }
    w := Work(entry, sent);
    TimerEnds(mac, w);
  }

  lemma TimerEnds(mac: Mac, w: Work)
    requires |w.d.rings| == ERPP_RING_SIZE
    ensures TickRings(mac, w, ERPP_RING_SIZE) == w
  {
  }

  lemma TimerRound(mac: Mac, w: Work, i: nat)
    requires |w.d.rings| == ERPP_RING_SIZE && i < ERPP_RING_SIZE
    ensures TickRings(mac, w, i) == TickRings(mac, TickRing(mac, w, i), i + 1)
  {
    hide TickRing;
  }

  // -------------------------------------------------------------- packet handlers

  method HelloProcess(mac: Mac, d: Domain, p: Packet) returns (w: Work)
    requires |d.rings| == ERPP_RING_SIZE && 1 <= p.ringId <= ERPP_RING_SIZE && p.ptype == HELLO_PACKET
    ensures w == Handle(mac, d, p)
  {
    var i := p.ringId - 1;
    var entry, node := d, d.rings[p.ringId - 1].node;
    if p.mac != mac {
      var out := if node.port0.netif == p.netif then node.port1.netif else node.port0.netif;
      w := Work(entry, [p.(netif := out)]);
    } else if node.status == NODE_FAIL {
      node := node.(status := NODE_COMPLETE);
      if node.port0.status.Forwarding? { node := node.(port1 := node.port1.(status := Block)); }
      entry := entry.(flushFlag := 1, packetRing := p.ringId, rings := entry.rings[i := entry.rings[i].(node := node)]);
      w := Work(entry, [Assemble(mac, entry, Emit(COMPLETE_FLUSH_PACKET, node.port0.netif)),
                        Assemble(mac, entry, Emit(COMPLETE_FLUSH_PACKET, node.port1.netif))]);
    } else {
      if node.port0.status.Forwarding? { node := node.(port1 := node.port1.(status := Block)); }
      entry := entry.(failCount := entry.failTimer, rings := entry.rings[i := entry.rings[i].(node := node)]);
      w := Work(entry, []);
    }
  }

  method CompleteFlushProcess(mac: Mac, d: Domain, p: Packet) returns (w: Work)
    requires |d.rings| == ERPP_RING_SIZE && 1 <= p.ringId <= ERPP_RING_SIZE && p.ptype == COMPLETE_FLUSH_PACKET
    ensures w == Handle(mac, d, p)
  {
    var i := p.ringId - 1;
    var entry, node, sent := d, d.rings[p.ringId - 1].node, [];
    if p.mac != mac {
      if node.status == PRE_FORWARDING {
        node := node.(status := LINK_UP);
        if node.port0.status.Block? || node.port1.status.Block? {
          node := node.(port0 := node.port0.(status := Forwarding));
          node := node.(port1 := node.port1.(status := Forwarding));
        }
      }
      entry := entry.(rings := entry.rings[i := entry.rings[i].(node := node)]);
      sent := [p.(netif := if node.port0.netif == p.netif then node.port1.netif else node.port0.netif)];
    }
    w := Work(entry.(flushFlag := 1), sent);
  }

  method LinkDownProcess(mac: Mac, d: Domain, p: Packet) returns (w: Work)
    requires |d.rings| == ERPP_RING_SIZE && 1 <= p.ringId <= ERPP_RING_SIZE && p.ptype == LINK_DOWN_PACKET
    ensures w == Handle(mac, d, p)
  {
    var i := p.ringId - 1;
    var entry, node := d, d.rings[p.ringId - 1].node;
    if !node.role.Master? {
      w := Work(entry, [p.(netif := if node.port0.netif == p.netif then node.port1.netif else node.port0.netif)]);
    } else {
      node := node.(port0 := node.port0.(status := Forwarding));
      if entry.rings[i].level == 1 {
        node := node.(port1 := node.port1.(status := Forwarding));
      } else {
        node := node.(port1 := node.port1.(status := Block));
      }
      node := node.(status := NODE_FAIL);
      entry := entry.(flushFlag := 1, packetRing := p.ringId, rings := entry.rings[i := entry.rings[i].(node := node)]);
      w := Work(entry, [Assemble(mac, entry, Emit(COMMON_FLUSH_PACKET, node.port0.netif)),
                        Assemble(mac, entry, Emit(COMMON_FLUSH_PACKET, node.port1.netif))]);
    }
  }

  method EdgeHelloProcess(mac: Mac, d: Domain, p: Packet) returns (w: Work)
    requires |d.rings| == ERPP_RING_SIZE && 1 <= p.ringId < ERPP_RING_SIZE && p.ptype == EDGE_HELLO_PACKET
    ensures w == Handle(mac, d, p)
  {
    var next := d.rings[p.ringId];
    if p.mac == mac {
      w := Work(d.(helloCount := d.helloTimer), []);
    } else if next.node.role.AssistantEdge? {
      var node := next.node.(status := ERPP_LINK_NORMAL);
      w := Work(d.(faultCount := d.faultTimer, rings := d.rings[p.ringId := next.(node := node)]), []);
    } else {
      var node := d.rings[p.ringId - 1].node;
      w := Work(d, [p.(netif := if node.port0.netif == p.netif then node.port1.netif else node.port0.netif)]);
    }
  }

  method FaultProcess(mac: Mac, d: Domain, p: Packet) returns (w: Work)
    requires |d.rings| == ERPP_RING_SIZE && 1 <= p.ringId <= ERPP_RING_SIZE && p.ptype == FAULT_PACKET
    ensures w == Handle(mac, d, p)
  {
    var i := p.ringId - 1;
    var node := d.rings[p.ringId - 1].node;
    if node.role.Edge? {
      if node.port1.status.Forwarding? { node := node.(port1 := node.port1.(status := Block)); }
      w := Work(d.(rings := d.rings[i := d.rings[i].(node := node)]), []);
    } else if p.mac == mac {
      w := Work(d, []);
    } else {
      w := Work(d, [p.(netif := if node.port0.netif == p.netif then node.port1.netif else node.port0.netif)]);
    }
  }

  method PacketHandler(mac: Mac, d: Domain, p: Packet) returns (w: Work)
    requires |d.rings| == ERPP_RING_SIZE && InRange(p) && p.ringId <= ERPP_RING_SIZE
    ensures w == Handle(mac, d, p)
  {
    if p.ptype == HELLO_PACKET {
      w := HelloProcess(mac, d, p);
    } else if p.ptype == COMPLETE_FLUSH_PACKET {
      w := CompleteFlushProcess(mac, d, p);
    } else if p.ptype == COMMON_FLUSH_PACKET {
      w := Work(d.(flushFlag := 1), []);
    } else if p.ptype == LINK_DOWN_PACKET {
      w := LinkDownProcess(mac, d, p);
    } else if p.ptype == EDGE_HELLO_PACKET {
      w := EdgeHelloProcess(mac, d, p);
    } else if p.ptype == FAULT_PACKET {
      w := FaultProcess(mac, d, p);
    } else {
      w := Work(d, []);
    }
  }

  // ------------------------------------------------------------------ the daemon

  /** The message to NPD, if any, about one ring of an entry that is stored over `was`. */
  method RingMessage(d: Domain, was: Domain, count: nat) returns (sent: seq<NpdEntry>)
    requires count < |d.rings| && count < |was.rings|
    ensures sent == RingNotice(d, was, count)
  {
    var flush := if d.flushFlag == was.flushFlag then false else if d.flushFlag == 0 then false else true;
    var n, o := d.rings[count], was.rings[count];
    var msg := NpdMessage(n.node.port0, n.node.port1, d.instance, flush, n.isEnable);
    sent := [];
    if n.ringId != 0 {
      if n.isEnable != o.isEnable {
        if n.node.port0.netif != 0 || n.node.port1.netif != 0 {
          sent := [NpdEntry(d.domainId, count, msg)];
        }
      } else if n.isEnable != 0 {
        if n.node.port0.status != o.node.port0.status || n.node.port1.status != o.node.port1.status {
          sent := [NpdEntry(d.domainId, count, msg)];
        }
      }
    }
  }

  lemma NoticesFront(npd: seq<NpdEntry>, d: Domain, was: Domain, count: nat)
    requires |d.rings| == |was.rings| == ERPP_RING_SIZE && count < ERPP_RING_SIZE
    ensures npd + RingNotice(d, was, count) + Notices(d, was, count + 1) == npd + Notices(d, was, count)
  {
  }

  lemma NoticesEnd(d: Domain, was: Domain)
    requires |d.rings| == |was.rings| == ERPP_RING_SIZE
    ensures Notices(d, was, ERPP_RING_SIZE) == []
  {
  }

  /** Domains that are not in the table take no part in a walk over it. */
  lemma {:induction false} SkipLink(s: State, id: nat, next: nat, netif: int, up: bool)
    requires Valid(s) && id <= next <= ERPP_DOMAIN_SIZE + 1 && forall j :: id <= j < next ==> j !in s.table
    ensures LinkDomains(s, id, netif, up) == LinkDomains(s, next, netif, up)
    decreases next - id
  {
    if id < next { SkipLink(s, id + 1, next, netif, up); }
  }

  lemma StepLink(s: State, id: nat, netif: int, up: bool)
    requires Valid(s) && id in s.table && id <= ERPP_DOMAIN_SIZE
    ensures LinkDomains(s, id, netif, up) == LinkDomains(LinkRings(s, id, 0, netif, up), id + 1, netif, up)
  {
  }

  lemma StepTick(s: State, id: nat)
    requires Valid(s) && id in s.table && id <= ERPP_DOMAIN_SIZE
    ensures TickDomains(s, id) == TickDomains(TickDomain(s, id), id + 1)
  {
  }

  lemma WalkEnds(s: State, id: nat, netif: int, up: bool)
    requires Valid(s) && id > ERPP_DOMAIN_SIZE
    ensures LinkDomains(s, id, netif, up) == s && TickDomains(s, id) == s
  {
  }

  lemma {:induction false} SkipTick(s: State, id: nat, next: nat)
    requires Valid(s) && id <= next <= ERPP_DOMAIN_SIZE + 1 && forall j :: id <= j < next ==> j !in s.table
    ensures TickDomains(s, id) == TickDomains(s, next)
    decreases next - id
  {
    if id < next { SkipTick(s, id + 1, next); }
  }

  /** What the daemon keeps from its creation on: masters are COMPLETE or FAIL and forward on both ports only in
      FAIL, counters lie within their timers, and NPD knows every ring. */
  ghost predicate SafeState(s: State) {
    Valid(s) && MasterSafe(s) && AllTimersOk(s) && (s.active ==> Mirror(s) && Named(s))
  }

  /** What the run theorems say of one step that sets no timer below one. */
  lemma StepSafe(s: State, step: Step)
    requires Valid(s) && StepOk(step) && PositiveTimers(step)
    ensures SafeState(s) ==> (SafeState(Apply(s, step)) <==> (s.active ==> Disciplined(s, step)))
  {
    hide Apply, MasterSafe, AllTimersOk, Mirror, Named, Disciplined;
    if SafeState(s) {
      MasterStep(s, step);
      StepTimers(s, step);
      if s.active { MirrorStep(s, step); }
    }
  }

  /** A link event as a step. */
  lemma LinkStep(s: State, netif: int, up: bool)
    requires Valid(s)
    ensures var t := if s.serviceOn then LinkDomains(s, 1, netif, up) else s;
            && t == Apply(s, if up then LinkUp(netif) else LinkDown(netif)) && (SafeState(s) ==> SafeState(t))
            && t.tx == s.tx + if s.serviceOn && !up then DownSendsAll(s.mac, s.table, 1, netif) else []
  {
    hide DownSendsAll, LinkDomains, SafeState, Disciplined, Valid;
    LinkSends(s, netif);
    if up {
      StepSafe(s, LinkUp(netif));
      Undisturbed(s, LinkUp(netif));
    } else {
      StepSafe(s, LinkDown(netif));
      Undisturbed(s, LinkDown(netif));
    }
  }

  lemma TimersExact(s: State, id: int, hello: int, fail: int)
    requires Valid(s)
    ensures SafeState(s) ==>
              (SafeState(Apply(s, SetTimers(id, hello, fail))) <==> (id in s.table ==> 1 <= hello && 1 <= fail))
  {
    hide Notices, MasterSafe, Mirror, Named, Disciplined;
    if id in s.table {
      var step := SetTimers(id, hello, fail);
      assert Apply(s, step).table[id].helloTimer == hello && Apply(s, step).table[id].failTimer == fail;
      if 1 <= hello && 1 <= fail {
        StepSafe(s, step);
        Undisturbed(s, step);
      }
    }
  }

  /** Steps that leave flags and interfaces alone are disciplined. */
  lemma Undisturbed(s: State, step: Step)
    requires Valid(s) && StepOk(step) && !step.DomainSet? && !step.Enable? && !step.Configure?
    ensures Disciplined(s, step)
  {
  }

  /** The step changes nothing but the entry of one domain, and sends no packet. */
  ghost predicate OnlyEntry(s: State, t: State, id: int) {
    && t.mac == s.mac && t.active == s.active && t.serviceOn == s.serviceOn && t.tx == s.tx
    && forall j :: j != id ==> (j in t.table <==> j in s.table) && (j in s.table ==> t.table[j] == s.table[j])
  }

  /** The timers that are set are the ones that count from then on; a settled ring stays free of a cycle under them
      if and only if the first is smaller than the second. */
  lemma TimersSet(s: State, id: int, hello: int, fail: int)
    requires Valid(s)
    ensures var t := Apply(s, SetTimers(id, hello, fail));
            if id !in s.table then t == s
            else
              && OnlyEntry(s, t, id) && id in t.table
              && t.table[id] == s.table[id].(helloTimer := hello, helloCount := hello, failTimer := fail,
                                             failCount := fail, faultTimer := fail, faultCount := fail)
              && (OutlastsHello(t.table[id]) <==> hello < fail)
  {
    hide Notices;
  }

  /** A configured ring has the role, the level and the interfaces it was given. A master starts COMPLETE with its
      primary port open and its secondary one blocked, any other role LINK_UP with both open. The enable flag
      and every other ring stay. */
  lemma RingConfigured(s: State, id: int, ringId: int, mode: Role, primary: int, secondary: int, level: int)
    requires Valid(s) && 1 <= ringId <= ERPP_RING_SIZE
    ensures var t := Apply(s, Configure(id, ringId, mode, primary, secondary, level));
            if id !in s.table then t == s
            else
              && OnlyEntry(s, t, id) && id in t.table
              && t.table[id] == s.table[id].(rings := s.table[id].rings[ringId - 1 := t.table[id].rings[ringId - 1]])
              && var r, o := t.table[id].rings[ringId - 1], s.table[id].rings[ringId - 1];
                 && r.ringId == ringId && r.level == level && r.isEnable == o.isEnable && r.node.role == mode
                 && r.node.port0.netif == primary && r.node.port1.netif == secondary
                 && (mode.Master? ==>
                       r.node.status == NODE_COMPLETE && r.node.port0.status.Forwarding? && r.node.port1.status.Block?)
                 && (mode.Transmit? || mode.Edge? || mode.AssistantEdge? ==>
                       r.node.status == LINK_UP && r.node.BothForwarding())
                 && (mode.OtherRole? ==> r.node.status == o.node.status && SameStatus(o.node, r.node))
                 && (!mode.OtherRole? ==> MasterOk(r.node) && TransitOk(r.node))
  {
    hide Notices;
  }

  /** A new domain has no ring and default timers: a HELLO every three seconds, nine until it fails. */
  lemma DomainCreated(s: State, id: int)
    requires Valid(s)
    ensures var t := Apply(s, DomainSet(id, true));
            if id in s.table || id < 0 || ERPP_DOMAIN_SIZE < id then t == s
            else
              && OnlyEntry(s, t, id) && t.npd == s.npd && id in t.table
              && var d := t.table[id];
                 && d.helloTimer == d.helloCount == 3 && d.failTimer == d.failCount == 9 && OutlastsHello(d)
                 && d.flushFlag == 0
                 && forall i :: 0 <= i < ERPP_RING_SIZE ==> d.rings[i].ringId == d.rings[i].isEnable == 0
  {
  }

  /** The other configuration steps store what they are given, and nothing else changes. */
  lemma SettingStored(s: State, id: int, ringId: int, flag: int, instance: int, on: bool)
    requires Valid(s) && 1 <= ringId <= ERPP_RING_SIZE
    ensures var t := Apply(s, Enable(id, ringId, flag));
            if id !in s.table then t == s
            else
              && OnlyEntry(s, t, id) && id in t.table
              && var r := s.table[id].rings[ringId - 1].(isEnable := flag);
                 t.table[id] == s.table[id].(rings := s.table[id].rings[ringId - 1 := r])
    ensures var t := Apply(s, InstanceSet(id, instance));
            if id !in s.table then t == s
            else OnlyEntry(s, t, id) && id in t.table && t.table[id] == s.table[id].(instance := instance)
    ensures var t := Apply(s, DomainSet(id, false)); OnlyEntry(s, t, id) && id !in t.table && t.npd == s.npd
    ensures Apply(s, Service(on)) == s.(serviceOn := on)
  {
    hide Notices;
  }

  class Daemon {
    const mac: Mac
    const active: bool
    var serviceOn: bool
    var table: map<int, Domain>
    var tx: seq<Packet>
    var npd: seq<NpdEntry>

    ghost function View(): State
      reads this
    {
      State(mac, active, serviceOn, table, tx, npd)
    }

    ghost predicate Safe()
      reads this
    {
      SafeState(View())
    }

    constructor (mac: Mac, active: bool)
      ensures View() == State(mac, active, false, map[], [], []) && Initial(View()) && Safe()
    {
      this.mac := mac;
      this.active := active;
      serviceOn, table, tx, npd := false, map[], [], [];
    }

    /** Store an entry; on the active board tell NPD what changed. */
    method DomainUpdate(d: Domain)
      requires Valid(View()) && d.domainId in table && |d.rings| == ERPP_RING_SIZE
      modifies this`table, this`npd
      ensures View() == Update(old(View()), d)
      ensures if active then old(npd) <= npd && Spoken(d, old(table)[d.domainId], npd[|old(npd)|..], 0)
              else npd == old(npd)
    {
      hide Spoken, Notices, RingNotice;
      UpdateSays(View(), d);
      NoticesEnd(d, table[d.domainId]);
      var was := table[d.domainId];
      table := table[d.domainId := d];
      if active {
        var count := 0;
        while count < ERPP_RING_SIZE
          invariant 0 <= count <= ERPP_RING_SIZE
          invariant table == old(table)[d.domainId := d]
          invariant npd + Notices(d, was, count) == old(npd) + Notices(d, was, 0)
        {
          var sent := RingMessage(d, was, count);
          NoticesFront(npd, d, was, count);
          npd := npd + sent;
          count := count + 1;
        }
      }
    }

    /** The next domain in the table after `id`, or a number past the last one. */
    method DomainGetNext(id: int) returns (next: int)
      requires 0 <= id <= ERPP_DOMAIN_SIZE
      ensures id < next <= ERPP_DOMAIN_SIZE + 1
      ensures next <= ERPP_DOMAIN_SIZE ==> next in table
      ensures forall j :: id < j < next ==> j !in table
    {
      next := id + 1;
      while next <= ERPP_DOMAIN_SIZE && next !in table
        invariant id < next <= ERPP_DOMAIN_SIZE + 1
        invariant forall j :: id < j < next ==> j !in table
      {
        next := next + 1;
      }
    }

    /** A link event at one ring of one domain. */
    method LinkEventAt(id: int, ringId: int, netif: int, up: bool)
      requires Valid(View()) && id in table && 1 <= ringId <= ERPP_RING_SIZE
      modifies this
      ensures View() == LinkRing(old(View()), id, ringId - 1, netif, up)
    {
      var entry := table[id];
      var ring := entry.rings[ringId - 1];
      if ring.isEnable != 0 && (netif == ring.node.port0.netif || netif == ring.node.port1.netif) {
        if up {
          var node := LinkUpAt(ring.node, netif);
          entry := entry.(rings := entry.rings[ringId - 1 := ring.(node := node)]);
        } else {
          var re := LinkDownAt(ring.node, netif);
          entry := entry.(rings := entry.rings[ringId - 1 := ring.(node := re.node)]);
          if re.stamps { entry := entry.(packetRing := ringId); }
          tx := tx + AssembleAll(mac, entry, re.emits);
        }
        DomainUpdate(entry);
      }
    }

    /** A link event at one domain: all rings but the last. */
    method LinkEventIn(id: int, netif: int, up: bool)
      requires Valid(View()) && id in table
      modifies this
      ensures View() == LinkRings(old(View()), id, 0, netif, up)
    {
      var ringId := 1;
      while ringId < ERPP_RING_SIZE
        invariant 1 <= ringId <= ERPP_RING_SIZE && Keeps(old(View()), View())
        invariant LinkRings(View(), id, ringId - 1, netif, up) == LinkRings(old(View()), id, 0, netif, up)
      {
        LinkEventAt(id, ringId, netif, up);
        ringId := ringId + 1;
      }
    }

    /** A link event: all domains, once the service is on. */
    method LinkEvent(netif: int, up: bool)
      requires Valid(View())
      modifies this
      ensures View() == Apply(old(View()), if up then LinkUp(netif) else LinkDown(netif))
      ensures tx == old(tx) + if serviceOn && !up then DownSendsAll(mac, old(table), 1, netif) else []
      ensures old(Safe()) ==> Safe()
    {
      LinkStep(View(), netif, up);
      hide DownSendsAll, LinkDomains, SafeState, Apply;
      if serviceOn { LinkEventAll(netif, up); }
    }

    method LinkEventAll(netif: int, up: bool)
      requires Valid(View())
      modifies this
      ensures View() == LinkDomains(old(View()), 1, netif, up)
    {
      hide LinkDomains, LinkRings, TickDomains;
      var id := DomainGetNext(0);
      SkipLink(View(), 1, id, netif, up);
      while id <= ERPP_DOMAIN_SIZE
        invariant 1 <= id <= ERPP_DOMAIN_SIZE + 1 && Valid(View())
        invariant id <= ERPP_DOMAIN_SIZE ==> id in table
        invariant LinkDomains(View(), id, netif, up) == LinkDomains(old(View()), 1, netif, up)
        decreases ERPP_DOMAIN_SIZE + 1 - id
      {
        StepLink(View(), id, netif, up);
        LinkEventIn(id, netif, up);
        var next := DomainGetNext(id);
        SkipLink(View(), id + 1, next, netif, up);
        id := next;
      }
      WalkEnds(View(), id, netif, up);
    }

    /** The one-second timer. */
    method Timer()
      requires Valid(View())
      modifies this
      ensures View() == Apply(old(View()), Tick)
      ensures tx == old(tx) + if serviceOn then SecondSends(mac, old(table), 1) else []
      ensures old(Safe()) ==> Safe()
    {
      StepSafe(View(), Tick);
      Undisturbed(View(), Tick);
      TickSends(View());
      hide SecondSends, TickDomains, SafeState, Disciplined;
      if serviceOn { TimerAll(); }
    }

    method TimerIn(id: int)
      requires Valid(View()) && id in table
      modifies this
      ensures View() == TickDomain(old(View()), id)
    {
      hide TickRings;
      var w := DomainTimer(mac, table[id], tx);
      tx := w.tx;
      DomainUpdate(w.d);
    }

    method TimerAll()
      requires Valid(View())
      modifies this
      ensures View() == TickDomains(old(View()), 1)
    {
      hide TickDomains, TickDomain, LinkDomains;
      var id := DomainGetNext(0);
      SkipTick(View(), 1, id);
      while id <= ERPP_DOMAIN_SIZE
        invariant 1 <= id <= ERPP_DOMAIN_SIZE + 1 && Valid(View())
        invariant id <= ERPP_DOMAIN_SIZE ==> id in table
        invariant TickDomains(View(), id) == TickDomains(old(View()), 1)
        decreases ERPP_DOMAIN_SIZE + 1 - id
      {
        StepTick(View(), id);
        TimerIn(id);
        var next := DomainGetNext(id);
        SkipTick(View(), id + 1, next);
        id := next;
      }
      WalkEnds(View(), id, 0, true);
    }

    /** The handlers find the rings that the packet makes them read inside the array. */
    ghost predicate Inside(p: Packet)
      requires Valid(View())
      reads this
    {
      p.ringId <= ERPP_RING_SIZE && p.domainId in table ==>
        1 <= p.ringId && (table[p.domainId].rings[p.ringId - 1].isEnable != 0 ==> InRange(p))
    }

    /** A packet arrives; -1 when it is dropped, and then nothing changes. */
    method PacketReceive(p: Packet) returns (ret: int)
      requires Valid(View()) && Inside(p)
      modifies this
      ensures InRange(p) ==> View() == Apply(old(View()), Receive(p))
      ensures InRange(p) ==> ret == if Accepts(old(View()), p) then 0 else -1
      ensures ret == 0 ==> InRange(p) && tx == old(tx) + Answer(mac, old(table)[p.domainId], p)
      ensures !InRange(p) ==> View() == old(View()) && ret == -1
      ensures old(Safe()) ==> Safe()
    {
      if InRange(p) {
        StepSafe(View(), Receive(p));
        Undisturbed(View(), Receive(p));
        ReceiveSends(View(), p);
      }
      hide SafeState, Handle, Update, Answer, Disciplined;
      if p.ringId > ERPP_RING_SIZE { return -1; }
      if p.domainId !in table { return -1; }
      var entry := table[p.domainId];
      if entry.rings[p.ringId - 1].isEnable == 0 { return -1; }
      var w := PacketHandler(mac, entry, p);
      tx := tx + w.tx;
      DomainUpdate(w.d);
      ret := 0;
    }

    /** Configure a ring; false when there is no such domain. */
    method RingConfigure(id: int, ringId: int, mode: Role, primary: int, secondary: int, level: int) returns (ok: bool)
      requires Valid(View()) && 1 <= ringId <= ERPP_RING_SIZE
      modifies this
      ensures View() == Apply(old(View()), Configure(id, ringId, mode, primary, secondary, level)) &&
              ok == (id in old(table))
      ensures old(Safe()) ==> (Safe() <==>
                (active ==> old(Disciplined(View(), Configure(id, ringId, mode, primary, secondary, level)))))
    {
      StepSafe(View(), Configure(id, ringId, mode, primary, secondary, level));
      hide SafeState, Update, Disciplined;
      if id !in table { return false; }
      var entry := table[id];
      var ring := entry.rings[ringId - 1];
      var node := ring.node;
      if mode.Master? {
        node := node.(port0 := node.port0.(status := Forwarding), port1 := node.port1.(status := Block),
                      status := NODE_COMPLETE);
      } else if mode.Transmit? || mode.Edge? || mode.AssistantEdge? {
        node := node.(port0 := node.port0.(status := Forwarding), port1 := node.port1.(status := Forwarding),
                      status := LINK_UP);
      }
      node := node.(role := mode, port0 := node.port0.(netif := primary), port1 := node.port1.(netif := secondary));
      ring := ring.(ringId := ringId, level := level, node := node);
      DomainUpdate(entry.(rings := entry.rings[ringId - 1 := ring]));
      ok := true;
    }

    method RingEnable(id: int, ringId: int, flag: int) returns (ok: bool)
      requires Valid(View()) && 1 <= ringId <= ERPP_RING_SIZE
      modifies this
      ensures View() == Apply(old(View()), Enable(id, ringId, flag)) && ok == (id in old(table))
      ensures old(Safe()) ==> (Safe() <==> (active ==> old(Disciplined(View(), Enable(id, ringId, flag)))))
    {
      StepSafe(View(), Enable(id, ringId, flag));
      hide SafeState, Update, Disciplined;
      if id !in table { return false; }
      var entry := table[id];
      DomainUpdate(entry.(rings := entry.rings[ringId - 1 := entry.rings[ringId - 1].(isEnable := flag)]));
      ok := true;
    }

    method TimerConfigure(id: int, hello: int, fail: int) returns (ok: bool)
      requires Valid(View())
      modifies this
      ensures View() == Apply(old(View()), SetTimers(id, hello, fail)) && ok == (id in old(table))
      ensures old(Safe()) ==> (Safe() <==> (ok ==> 1 <= hello && 1 <= fail))
    {
      TimersExact(View(), id, hello, fail);
      hide SafeState, Update;
      if id !in table { return false; }
      DomainUpdate(table[id].(helloTimer := hello, helloCount := hello, failTimer := fail, failCount := fail,
                              faultTimer := fail, faultCount := fail));
      ok := true;
    }

    method InstanceConfigure(id: int, instance: int) returns (ok: bool)
      requires Valid(View())
      modifies this
      ensures View() == Apply(old(View()), InstanceSet(id, instance)) && ok == (id in old(table))
      ensures old(Safe()) ==> Safe()
    {
      StepSafe(View(), InstanceSet(id, instance));
      Undisturbed(View(), InstanceSet(id, instance));
      hide SafeState, Update, Disciplined;
      if id !in table { return false; }
      DomainUpdate(table[id].(instance := instance));
      ok := true;
    }

    /** Nothing is written when the service already is in the wanted state. */
    method ServiceProcess(on: bool)
      requires Valid(View())
      modifies this
      ensures View() == Apply(old(View()), Service(on))
      ensures old(Safe()) ==> Safe()
    {
      StepSafe(View(), Service(on));
      Undisturbed(View(), Service(on));
      hide SafeState, Disciplined;
      if on == serviceOn { return; }
      serviceOn := on;
    }

    method DomainProcess(id: int, on: bool)
      requires Valid(View())
      modifies this
      ensures View() == Apply(old(View()), DomainSet(id, on))
      ensures old(Safe()) ==> (Safe() <==> (active ==> old(Disciplined(View(), DomainSet(id, on)))))
    {
      StepSafe(View(), DomainSet(id, on));
      hide SafeState, Disciplined;
      if id !in table {
        if on && 0 <= id <= ERPP_DOMAIN_SIZE { table := table[id := NewDomain(id)]; }
      } else if !on {
        table := table - {id};
      }
    }
  }
}
