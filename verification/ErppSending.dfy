/** What a step of the daemon sends: every packet, in order, and nothing else. */
module ErppSending {
  import opened ErppNode
  import opened ErppProtocol
  import opened ErppRelay
  import opened ErppSafety
  import opened ErppTimers

  // ------------------------------------------------------------------- receive

  /** What a packet for an enabled ring makes the switch send. An edge hello is kept by its sender and by the
      assistant edge of the next ring. */
  function Answer(mac: Mac, d: Domain, p: Packet): seq<Packet>
    requires |d.rings| == ERPP_RING_SIZE && InRange(p) && p.ringId <= ERPP_RING_SIZE
  {
    var r := d.rings[p.ringId - 1];
    var on := [p.(netif := r.node.Opposite(p.netif))];
    if p.ptype == EDGE_HELLO_PACKET then
      if p.mac == mac || d.rings[p.ringId].node.role.AssistantEdge? then [] else on
    else
      var o := HandleNode(r.node, r.level, p.mac == mac, p.ptype);
      if o.passes then on else About(mac, d, p.ringId - 1, o.emits)
  }

  /** A packet for an enabled ring of a known domain is handled and answered; any other packet leaves the daemon as
      it was. */
  lemma ReceiveSends(s: State, p: Packet)
    requires Valid(s) && InRange(p)
    ensures var t := Apply(s, Receive(p));
            if p.ringId <= ERPP_RING_SIZE && p.domainId in s.table
               && s.table[p.domainId].rings[p.ringId - 1].isEnable != 0
            then && t.tx == s.tx + Answer(s.mac, s.table[p.domainId], p)
                 && t.table == s.table[p.domainId := Handle(s.mac, s.table[p.domainId], p).d]
            else t == s
  {
    hide Handle, Notices, Answer;
    if Accepts(s, p) { HandleAnswers(s.mac, s.table[p.domainId], p); }
  }

  lemma HandleAnswers(mac: Mac, d: Domain, p: Packet)
    requires |d.rings| == ERPP_RING_SIZE && InRange(p) && p.ringId <= ERPP_RING_SIZE
    ensures Handle(mac, d, p).tx == Answer(mac, d, p)
  {
    if p.ptype != EDGE_HELLO_PACKET {
      hide Handle, HandleNode, About;
      HandleRefinesNode(mac, d, p);
    }
  }

  // --------------------------------------------------------------- link events

  /** Packets about the ring that the domain recorded last, or about no ring. */
  function AboutRecorded(mac: Mac, d: Domain, emits: seq<Emit>): seq<Packet> {
    if 1 <= d.packetRing <= |d.rings| then About(mac, d, d.packetRing - 1, emits)
    else seq(|emits|, k requires 0 <= k < |emits| =>
           Packet(emits[k].netif, emits[k].ptype, d.domainId, 0, 0, d.helloTimer, d.failTimer, mac))
  }

  /** What the rings of a domain from `i` on send when the link at `netif` goes down: each enabled ring with that
      interface sends what its node emits. Only a reaction that records its ring is sure to name it. */
  function DownSends(mac: Mac, d: Domain, i: nat, netif: int): seq<Packet>
    requires |d.rings| == ERPP_RING_SIZE
    decreases ERPP_RING_SIZE - i
  {
    if i + 1 >= ERPP_RING_SIZE then []
    else if d.rings[i].isEnable == 0 || !d.rings[i].node.Owns(netif) then DownSends(mac, d, i + 1, netif)
    else
      var re := LinkDownNode(d.rings[i].node, netif);
      if re.stamps then About(mac, d, i, re.emits) + DownSends(mac, d.(packetRing := i + 1), i + 1, netif)
      else AboutRecorded(mac, d, re.emits) + DownSends(mac, d, i + 1, netif)
  }

  /** Two entries from which the rings from `i` on send the same. */
  predicate SameFrom(a: Domain, b: Domain, i: nat) {
    && |a.rings| == |b.rings| == ERPP_RING_SIZE && a.domainId == b.domainId && a.packetRing == b.packetRing
    && a.helloTimer == b.helloTimer && a.failTimer == b.failTimer
    && (forall j :: 0 <= j < ERPP_RING_SIZE ==> a.rings[j].(node := b.rings[j].node) == b.rings[j])
    && (forall j :: i <= j < ERPP_RING_SIZE ==> a.rings[j] == b.rings[j])
  }

  lemma AboutSame(mac: Mac, a: Domain, b: Domain, i: nat, emits: seq<Emit>)
    requires SameFrom(a, b, i) && i < ERPP_RING_SIZE
    ensures About(mac, a, i, emits) == About(mac, b, i, emits)
    ensures AboutRecorded(mac, a, emits) == AboutRecorded(mac, b, emits)
  {
  }

  lemma {:induction false} DownSendsSame(mac: Mac, a: Domain, b: Domain, i: nat, netif: int)
    requires SameFrom(a, b, i)
    ensures DownSends(mac, a, i, netif) == DownSends(mac, b, i, netif)
    decreases ERPP_RING_SIZE - i
  {
    hide LinkDownNode, About, AboutRecorded;
    if i + 1 < ERPP_RING_SIZE {
      DownSendsSame(mac, a, b, i + 1, netif);
      DownSendsSame(mac, a.(packetRing := i + 1), b.(packetRing := i + 1), i + 1, netif);
      if a.rings[i].isEnable != 0 && a.rings[i].node.Owns(netif) {
        AboutSame(mac, a, b, i, LinkDownNode(a.rings[i].node, netif).emits);
      }
    }
  }

  lemma LinkRingElsewhere(s: State, id: int, i: nat, netif: int, up: bool)
    requires Valid(s) && id in s.table && i < ERPP_RING_SIZE
    ensures var t := LinkRing(s, id, i, netif, up);
            && (forall id' :: id' in s.table && id' != id ==> t.table[id'] == s.table[id'])
            && (up || s.table[id].rings[i].isEnable == 0 || !s.table[id].rings[i].node.Owns(netif) ==> t.tx == s.tx)
            && (s.table[id].rings[i].isEnable == 0 || !s.table[id].rings[i].node.Owns(netif) ==> t == s)
  {
    hide Notices, LinkUpNode, LinkDownNode, AssembleAll;
  }

  /** The entry with the reaction of ring `i`. */
  function Downed(d: Domain, i: nat, netif: int): Domain
    requires i < |d.rings| && d.rings[i].node.Owns(netif)
  {
    var re := LinkDownNode(d.rings[i].node, netif);
    var d1 := WithNode(d, i, re.node);
    if re.stamps then d1.(packetRing := i + 1) else d1
  }

  lemma LinkRingDowned(s: State, id: int, i: nat, netif: int)
    requires Valid(s) && id in s.table && i < ERPP_RING_SIZE
    requires s.table[id].rings[i].isEnable != 0 && s.table[id].rings[i].node.Owns(netif)
    ensures var t, d := LinkRing(s, id, i, netif, false), s.table[id];
            && t.table[id] == Downed(d, i, netif)
            && t.tx == s.tx + AssembleAll(s.mac, Downed(d, i, netif), LinkDownNode(d.rings[i].node, netif).emits)
  {
    hide Notices, LinkDownNode, AssembleAll;
  }

  lemma DownedSends(mac: Mac, d: Domain, i: nat, netif: int)
    requires |d.rings| == ERPP_RING_SIZE && i + 1 < ERPP_RING_SIZE
    requires d.rings[i].isEnable != 0 && d.rings[i].node.Owns(netif)
    ensures DownSends(mac, d, i, netif) ==
            AssembleAll(mac, Downed(d, i, netif), LinkDownNode(d.rings[i].node, netif).emits)
            + DownSends(mac, Downed(d, i, netif), i + 1, netif)
  {
    hide LinkDownNode;
    var re := LinkDownNode(d.rings[i].node, netif);
    var d' := if re.stamps then d.(packetRing := i + 1) else d;
    DownSendsSame(mac, Downed(d, i, netif), d', i + 1, netif);
    assert AssembleAll(mac, Downed(d, i, netif), re.emits) ==
           if re.stamps then About(mac, d, i, re.emits) else AboutRecorded(mac, d, re.emits);
  }

  lemma DownSendsUnfold(mac: Mac, d: Domain, i: nat, netif: int)
    requires |d.rings| == ERPP_RING_SIZE
    requires i + 1 < ERPP_RING_SIZE ==> d.rings[i].isEnable == 0 || !d.rings[i].node.Owns(netif)
    ensures DownSends(mac, d, i, netif) ==
            if i + 1 < ERPP_RING_SIZE then DownSends(mac, d, i + 1, netif) else []
  {
  }

  lemma {:induction false} LinkRingsSend(s: State, id: int, i: nat, netif: int, up: bool)
    requires Valid(s) && id in s.table
    ensures var t := LinkRings(s, id, i, netif, up);
            && t.tx == s.tx + (if up then [] else DownSends(s.mac, s.table[id], i, netif))
            && forall id' :: id' in s.table && id' != id ==> t.table[id'] == s.table[id']
    decreases ERPP_RING_SIZE - i
  {
    hide LinkRing, DownSends, Downed, AssembleAll;
    if i + 1 < ERPP_RING_SIZE {
      var t, d := LinkRing(s, id, i, netif, up), s.table[id];
      LinkRingElsewhere(s, id, i, netif, up);
      LinkRingsSend(t, id, i + 1, netif, up);
      if !up {
        if d.rings[i].isEnable == 0 || !d.rings[i].node.Owns(netif) {
          DownSendsUnfold(s.mac, d, i, netif);
        } else {
          LinkRingDowned(s, id, i, netif);
          DownedSends(s.mac, d, i, netif);
        }
      }
    } else if !up {
      DownSendsUnfold(s.mac, s.table[id], i, netif);
    }
  }

  /** What the domains from `id` on send when a link goes down. */
  function DownSendsAll(mac: Mac, table: map<int, Domain>, id: nat, netif: int): seq<Packet>
    requires forall j :: j in table ==> |table[j].rings| == ERPP_RING_SIZE
    decreases ERPP_DOMAIN_SIZE + 1 - id
  {
    if id > ERPP_DOMAIN_SIZE then []
    else (if id in table then DownSends(mac, table[id], 0, netif) else []) + DownSendsAll(mac, table, id + 1, netif)
  }

  lemma {:induction false} DownSendsAllSame(mac: Mac, a: map<int, Domain>, b: map<int, Domain>, id: nat, netif: int)
    requires forall j :: j in a ==> |a[j].rings| == ERPP_RING_SIZE
    requires forall j :: j in b ==> |b[j].rings| == ERPP_RING_SIZE
    requires a.Keys == b.Keys && forall j :: j in a && id <= j ==> a[j] == b[j]
    ensures DownSendsAll(mac, a, id, netif) == DownSendsAll(mac, b, id, netif)
    decreases ERPP_DOMAIN_SIZE + 1 - id
  {
    hide DownSends;
    if id <= ERPP_DOMAIN_SIZE { DownSendsAllSame(mac, a, b, id + 1, netif); }
  }

  lemma DownSendsAllUnfold(mac: Mac, table: map<int, Domain>, id: nat, netif: int)
    requires forall j :: j in table ==> |table[j].rings| == ERPP_RING_SIZE
    ensures DownSendsAll(mac, table, id, netif) ==
            if id > ERPP_DOMAIN_SIZE then []
            else (if id in table then DownSends(mac, table[id], 0, netif) else [])
                 + DownSendsAll(mac, table, id + 1, netif)
  {
    hide DownSends;
  }

  lemma LinkDomainsUnfold(s: State, from: nat, netif: int, up: bool)
    requires Valid(s)
    ensures LinkDomains(s, from, netif, up) ==
            if from > ERPP_DOMAIN_SIZE then s
            else LinkDomains(if from in s.table then LinkRings(s, from, 0, netif, up) else s, from + 1, netif, up)
  {
    hide LinkRings;
  }

  lemma {:induction false} LinkUpsSend(s: State, from: nat, netif: int)
    requires Valid(s)
    ensures LinkDomains(s, from, netif, true).tx == s.tx
    decreases ERPP_DOMAIN_SIZE + 1 - from
  {
    hide LinkRings, LinkDomains;
    LinkDomainsUnfold(s, from, netif, true);
    if from <= ERPP_DOMAIN_SIZE {
      if from in s.table {
        LinkRingsSend(s, from, 0, netif, true);
        LinkUpsSend(LinkRings(s, from, 0, netif, true), from + 1, netif);
      } else {
        LinkUpsSend(s, from + 1, netif);
      }
    }
  }

  lemma {:induction false} LinkDownsSend(s: State, from: nat, netif: int)
    requires Valid(s)
    ensures LinkDomains(s, from, netif, false).tx == s.tx + DownSendsAll(s.mac, s.table, from, netif)
    decreases ERPP_DOMAIN_SIZE + 1 - from
  {
    hide LinkRings, LinkDomains, DownSends, DownSendsAll;
    LinkDomainsUnfold(s, from, netif, false);
    DownSendsAllUnfold(s.mac, s.table, from, netif);
    if from <= ERPP_DOMAIN_SIZE {
      if from in s.table {
        var t := LinkRings(s, from, 0, netif, false);
        LinkRingsSend(s, from, 0, netif, false);
        LinkDownsSend(t, from + 1, netif);
        DownSendsAllSame(s.mac, t.table, s.table, from + 1, netif);
      } else {
        LinkDownsSend(s, from + 1, netif);
      }
    }
  }

  /** A link that comes up makes the daemon send nothing. A link that goes down makes every domain send what its
      rings emit, and nothing else leaves. While the service is off nothing leaves at all. */
  lemma LinkSends(s: State, netif: int)
    requires Valid(s)
    ensures Apply(s, LinkUp(netif)).tx == s.tx
    ensures Apply(s, LinkDown(netif)).tx == s.tx + if s.serviceOn then DownSendsAll(s.mac, s.table, 1, netif) else []
  {
    hide LinkDomains, DownSendsAll;
    if s.serviceOn {
      LinkUpsSend(s, 1, netif);
      LinkDownsSend(s, 1, netif);
    }
  }

  /** Configuration sends no packet. */
  lemma ConfigurationSends(s: State, step: Step)
    requires Valid(s) && StepOk(step) && !step.Tick? && !step.LinkUp? && !step.LinkDown? && !step.Receive?
    ensures Apply(s, step).tx == s.tx
  {
    hide Notices;
  }

  // --------------------------------------------------------------------- timer

  /** What ring `i` sends in a second: a master its HELLO and, when its fail counter has run out, a flush, by its
      primary port; an edge two edge hellos by the ports of the first ring, about the ring before it; an
      assistant edge a fault packet. Each counts its own counter down. */
  function RingSends(mac: Mac, d: Domain, i: nat): seq<Packet>
    requires i < |d.rings|
  {
    var r := d.rings[i];
    var port := r.node.port0.netif;
    if r.isEnable == 0 then []
    else match r.node.role
      case Master =>
        (if d.helloCount == 0 then About(mac, d, i, [Emit(HELLO_PACKET, port)]) else [])
        + (if d.failCount == 0 then About(mac, d, i, [Emit(COMMON_FLUSH_PACKET, port)]) else [])
      case Edge =>
        var n := d.rings[0].node;
        if d.helloCount != 0 then []
        else AboutRecorded(mac, d.(packetRing := i),
                           [Emit(EDGE_HELLO_PACKET, n.port0.netif), Emit(EDGE_HELLO_PACKET, n.port1.netif)])
      case AssistantEdge => if d.faultCount == 0 then About(mac, d, i, [Emit(FAULT_PACKET, port)]) else []
      case _ => []
  }

  lemma RingSecond(mac: Mac, d: Domain, i: nat)
    requires i < |d.rings|
    ensures var w, role := TickRing(mac, Work(d, []), i), d.rings[i].node.role;
            var on := d.rings[i].isEnable != 0;
            var hellos, fails := on && (role.Master? || role.Edge?), on && role.Master?;
            var faults := on && role.AssistantEdge?;
            && w.tx == RingSends(mac, d, i)
            && w.d.helloCount == (if !hellos then d.helloCount
                                  else (if d.helloCount == 0 then d.helloTimer else d.helloCount) - 1)
            && w.d.failCount == (if !fails then d.failCount
                                 else (if d.failCount == 0 then d.failTimer else d.failCount) - 1)
            && w.d.faultCount == (if faults then d.faultCount - 1 else d.faultCount)
            && w.d.flushFlag == (if fails && d.failCount == 0 then 1 else d.flushFlag)
            && w.d.rings[i].node == (if fails && d.failCount == 0
                                     then d.rings[i].node.(status := NODE_FAIL,
                                                           port1 := d.rings[i].node.port1.(status := Forwarding))
                                     else if faults && d.faultCount == 0
                                     then d.rings[i].node.(status := ERPP_LINK_FAIL) else d.rings[i].node)
  {
  }

  /** One second of a domain by itself. */
  function Second(mac: Mac, d: Domain): Work
    requires |d.rings| == ERPP_RING_SIZE
  {
    TickRings(mac, Work(d, []), 0)
  }

  lemma MasterAppends(mac: Mac, d: Domain, tx: seq<Packet>, i: nat)
    requires i < |d.rings|
    ensures var w, v := MasterHello(mac, Work(d, tx), i), MasterHello(mac, Work(d, []), i);
            w.d == v.d && w.tx == tx + v.tx && |v.d.rings| == |d.rings|
    ensures var w, v := MasterFail(mac, Work(d, tx), i), MasterFail(mac, Work(d, []), i);
            w.d == v.d && w.tx == tx + v.tx
  {
    hide Assemble;
  }

  lemma TickRingAppends(mac: Mac, d: Domain, tx: seq<Packet>, i: nat)
    requires i < |d.rings|
    ensures var w, v := TickRing(mac, Work(d, tx), i), TickRing(mac, Work(d, []), i); w.d == v.d && w.tx == tx + v.tx
  {
    if d.rings[i].node.role.Master? {
      hide Assemble, MasterHello, MasterFail;
      MasterAppends(mac, d, tx, i);
      var w, v := MasterHello(mac, Work(d, tx), i), MasterHello(mac, Work(d, []), i);
      MasterAppends(mac, v.d, w.tx, i);
      MasterAppends(mac, v.d, v.tx, i);
    } else {
      hide Assemble, MasterHello, MasterFail, AssembleAll;
    }
  }

  lemma {:induction false} TickRingsAppend(mac: Mac, d: Domain, tx: seq<Packet>, i: nat)
    requires |d.rings| == ERPP_RING_SIZE
    ensures var w, v := TickRings(mac, Work(d, tx), i), TickRings(mac, Work(d, []), i);
            w.d == v.d && w.tx == tx + v.tx
    decreases ERPP_RING_SIZE - i
  {
    if i < ERPP_RING_SIZE {
      hide TickRing;
      var w, v := TickRing(mac, Work(d, tx), i), TickRing(mac, Work(d, []), i);
      TickRingAppends(mac, d, tx, i);
      TickRingsAppend(mac, w.d, w.tx, i + 1);
      TickRingsAppend(mac, v.d, v.tx, i + 1);
    }
  }

  /** What the domains from `id` on send in one second. */
  function SecondSends(mac: Mac, table: map<int, Domain>, id: nat): seq<Packet>
    requires forall j :: j in table ==> |table[j].rings| == ERPP_RING_SIZE
    decreases ERPP_DOMAIN_SIZE + 1 - id
  {
    if id > ERPP_DOMAIN_SIZE then []
    else (if id in table then Second(mac, table[id]).tx else []) + SecondSends(mac, table, id + 1)
  }

  lemma {:induction false} SecondSendsSame(mac: Mac, a: map<int, Domain>, b: map<int, Domain>, id: nat)
    requires forall j :: j in a ==> |a[j].rings| == ERPP_RING_SIZE
    requires forall j :: j in b ==> |b[j].rings| == ERPP_RING_SIZE
    requires a.Keys == b.Keys && forall j :: j in a && id <= j ==> a[j] == b[j]
    ensures SecondSends(mac, a, id) == SecondSends(mac, b, id)
    decreases ERPP_DOMAIN_SIZE + 1 - id
  {
    if id <= ERPP_DOMAIN_SIZE { SecondSendsSame(mac, a, b, id + 1); }
  }

  lemma SecondSendsUnfold(mac: Mac, table: map<int, Domain>, id: nat)
    requires forall j :: j in table ==> |table[j].rings| == ERPP_RING_SIZE
    ensures SecondSends(mac, table, id) ==
            if id > ERPP_DOMAIN_SIZE then []
            else (if id in table then Second(mac, table[id]).tx else []) + SecondSends(mac, table, id + 1)
  {
    hide Second;
  }

  lemma TickDomainSends(s: State, id: int)
    requires Valid(s) && id in s.table
    ensures var t := TickDomain(s, id);
            t.tx == s.tx + Second(s.mac, s.table[id]).tx && t.table == s.table[id := Second(s.mac, s.table[id]).d]
  {
    hide Notices, TickRings;
    TickRingsAppend(s.mac, s.table[id], s.tx, 0);
  }

  lemma {:induction false} TickDomainsTable(s: State, from: nat, id: int)
    requires Valid(s) && id in s.table
    ensures TickDomains(s, from).table[id] ==
            if from <= id <= ERPP_DOMAIN_SIZE then Second(s.mac, s.table[id]).d else s.table[id]
    decreases ERPP_DOMAIN_SIZE + 1 - from
  {
    hide TickDomain, Second, TickDomains;
    TickDomainsUnfold(s, from);
    if from <= ERPP_DOMAIN_SIZE {
      if from in s.table {
        TickDomainSends(s, from);
        TickDomainsTable(TickDomain(s, from), from + 1, id);
      } else {
        TickDomainsTable(s, from + 1, id);
      }
    }
  }

  lemma {:induction false} TickDomainsSend(s: State, from: nat)
    requires Valid(s)
    ensures TickDomains(s, from).tx == s.tx + SecondSends(s.mac, s.table, from)
    decreases ERPP_DOMAIN_SIZE + 1 - from
  {
    hide TickDomain, Second, TickDomains, SecondSends;
    TickDomainsUnfold(s, from);
    SecondSendsUnfold(s.mac, s.table, from);
    if from <= ERPP_DOMAIN_SIZE {
      if from in s.table {
        TickDomainSends(s, from);
        var t := TickDomain(s, from);
        TickDomainsSend(t, from + 1);
        SecondSendsSame(s.mac, t.table, s.table, from + 1);
      } else {
        TickDomainsSend(s, from + 1);
      }
    }
  }

  /** A second of the daemon is a second of each of its domains, in the order of their numbers. While the
      service is off nothing happens. */
  lemma TickSends(s: State)
    requires Valid(s)
    ensures var t := Apply(s, Tick);
            if !s.serviceOn then t == s
            else
              && t.tx == s.tx + SecondSends(s.mac, s.table, 1)
              && forall id :: id in s.table ==>
                   t.table[id] == if 1 <= id <= ERPP_DOMAIN_SIZE then Second(s.mac, s.table[id]).d else s.table[id]
  {
    hide TickDomains, Second;
    if s.serviceOn {
      TickDomainsSend(s, 1);
      forall id | id in s.table
        ensures Apply(s, Tick).table[id] ==
                if 1 <= id <= ERPP_DOMAIN_SIZE then Second(s.mac, s.table[id]).d else s.table[id]
      {
        TickDomainsTable(s, 1, id);
      }
    }
  }

  /** The HELLOs about domain `id` among the packets sent. */
  function HellosAbout(tx: seq<Packet>, id: int): nat {
    if tx == [] then 0
    else HellosAbout(tx[..|tx| - 1], id) +
         if tx[|tx| - 1].ptype == HELLO_PACKET && tx[|tx| - 1].domainId == id then 1 else 0
  }

  lemma {:induction false} HellosAboutBoth(a: seq<Packet>, b: seq<Packet>, id: int)
    ensures HellosAbout(a + b, id) == HellosAbout(a, id) + HellosAbout(b, id)
  {
    if b == [] {
      assert a + b == a;
    } else {
      assert (a + b)[..|a + b| - 1] == a + b[..|b| - 1];
      HellosAboutBoth(a, b[..|b| - 1], id);
    }
  }

  lemma {:induction false} HellosBoth(a: seq<Packet>, b: seq<Packet>)
    ensures Hellos(a + b) == Hellos(a) + Hellos(b)
  {
    if b == [] {
      assert a + b == a;
    } else {
      assert (a + b)[..|a + b| - 1] == a + b[..|b| - 1];
      HellosBoth(a, b[..|b| - 1]);
    }
  }

  predicate OfDomain(tx: seq<Packet>, id: int) {
    forall k :: 0 <= k < |tx| ==> tx[k].domainId == id
  }

  lemma {:induction false} HellosOfDomain(tx: seq<Packet>, domain: int, id: int)
    requires OfDomain(tx, domain)
    ensures HellosAbout(tx, id) == if id == domain then Hellos(tx) else 0
  {
    if tx != [] { HellosOfDomain(tx[..|tx| - 1], domain, id); }
  }

  lemma {:induction false} TickRingsOfDomain(mac: Mac, w: Work, i: nat)
    requires |w.d.rings| == ERPP_RING_SIZE && OfDomain(w.tx, w.d.domainId)
    ensures OfDomain(TickRings(mac, w, i).tx, w.d.domainId)
    decreases ERPP_RING_SIZE - i
  {
    if i < ERPP_RING_SIZE { TickRingsOfDomain(mac, TickRing(mac, w, i), i + 1); }
  }

  lemma {:induction false} HellosOfSecond(s: State, from: nat, id: int)
    requires Valid(s)
    ensures HellosAbout(SecondSends(s.mac, s.table, from), id) ==
            if from <= id <= ERPP_DOMAIN_SIZE && id in s.table then Hellos(Second(s.mac, s.table[id]).tx) else 0
    decreases ERPP_DOMAIN_SIZE + 1 - from
  {
    hide Second, HellosAbout, Hellos;
    if from <= ERPP_DOMAIN_SIZE {
      HellosOfSecond(s, from + 1, id);
      if from in s.table {
        HellosAboutBoth(Second(s.mac, s.table[from]).tx, SecondSends(s.mac, s.table, from + 1), id);
        HellosOfOne(s.mac, s.table[from], id);
      } else {
        assert [] + SecondSends(s.mac, s.table, from + 1) == SecondSends(s.mac, s.table, from + 1);
      }
    } else {
      NoHellos(id);
    }
  }

  lemma NoHellos(id: int)
    ensures HellosAbout([], id) == 0
  {
  }

  lemma HellosOfOne(mac: Mac, d: Domain, id: int)
    requires |d.rings| == ERPP_RING_SIZE
    ensures HellosAbout(Second(mac, d).tx, id) == if id == d.domainId then Hellos(Second(mac, d).tx) else 0
  {
    hide TickRings, HellosAbout, Hellos;
    TickRingsOfDomain(mac, Work(d, []), 0);
    HellosOfDomain(Second(mac, d).tx, d.domainId, id);
  }

  ghost predicate AllTicks(steps: seq<Step>) {
    forall k :: 0 <= k < |steps| ==> steps[k] == Tick
  }

  lemma SecondsNext(mac: Mac, d: Domain, t: nat)
    requires |d.rings| == ERPP_RING_SIZE
    ensures var v, w := Seconds(mac, Work(d, []), t), Seconds(mac, Work(d, []), t + 1);
            w.d == Second(mac, v.d).d && Hellos(w.tx) == Hellos(v.tx) + Hellos(Second(mac, v.d).tx)
  {
    hide TickRings;
    var v := Seconds(mac, Work(d, []), t);
    TickRingsAppend(mac, v.d, v.tx, 0);
    HellosBoth(v.tx, Second(mac, v.d).tx);
  }

  /** The daemon has come from `s` to `u` as domain `id` comes through `t` seconds. */
  ghost predicate Elapsed(s: State, u: State, id: int, t: nat)
    requires Valid(s) && id in s.table
  {
    var w := Seconds(s.mac, Work(s.table[id], []), t);
    && u.serviceOn && id in u.table && u.table[id] == w.d
    && HellosAbout(u.tx, id) == HellosAbout(s.tx, id) + Hellos(w.tx)
  }

  lemma ElapsedNext(s: State, u: State, id: int, t: nat)
    requires Valid(s) && Valid(u) && u.mac == s.mac && 1 <= id <= ERPP_DOMAIN_SIZE && id in s.table
    requires Elapsed(s, u, id, t)
    ensures Elapsed(s, Apply(u, Tick), id, t + 1)
  {
    hide Apply, Second, Seconds, HellosAbout, Hellos;
    OneSecond(u, id);
    SecondsNext(s.mac, s.table[id], t);
  }

  lemma ElapsedStart(s: State, id: int)
    requires Valid(s) && s.serviceOn && id in s.table
    ensures Elapsed(s, s, id, 0)
  {
    NoSeconds(s.mac, s.table[id]);
    hide Seconds;
  }

  lemma TickAt(steps: seq<Step>, k: nat)
    requires AllTicks(steps) && k < |steps|
    ensures steps[k] == Tick
  {
  }

  /** Seconds of the daemon are seconds of each domain. */
  lemma {:induction false} DaemonSeconds(s: State, steps: seq<Step>, t: nat, id: int)
    requires Valid(s) && s.serviceOn && AllTicks(steps) && StepsOk(steps) && t <= |steps|
    requires 1 <= id <= ERPP_DOMAIN_SIZE && id in s.table
    ensures Elapsed(s, After(s, steps, t), id, t)
  {
    hide Apply, Elapsed, Valid, After, AllTicks;
    AfterUnfold(s, steps, t);
    if t == 0 {
      ElapsedStart(s, id);
    } else {
      TickAt(steps, t - 1);
      DaemonSeconds(s, steps, t - 1, id);
      ElapsedNext(s, After(s, steps, t - 1), id, t - 1);
    }
  }

  lemma NoSeconds(mac: Mac, d: Domain)
    requires |d.rings| == ERPP_RING_SIZE
    ensures Seconds(mac, Work(d, []), 0) == Work(d, []) && Hellos([]) == 0
  {
  }

  lemma OneSecond(s: State, id: int)
    requires Valid(s) && s.serviceOn && 1 <= id <= ERPP_DOMAIN_SIZE && id in s.table
    ensures var t, w := Apply(s, Tick), Second(s.mac, s.table[id]);
            && t.serviceOn && id in t.table && t.table[id] == w.d
            && HellosAbout(t.tx, id) == HellosAbout(s.tx, id) + Hellos(w.tx)
  {
    hide Second, HellosAbout, Hellos, TickDomains;
    TickSends(s);
    HellosAboutBoth(s.tx, SecondSends(s.mac, s.table, 1), id);
    HellosOfSecond(s, 1, id);
  }

  /** In `t` seconds with the service on, the HELLOs that leave the daemon about a domain with `m` enabled masters
      are none while `m * t` is at most its counter, and `1 + (m * t - c - 1) / helloTimer` after that. */
  lemma HellosLeave(s: State, steps: seq<Step>, t: nat, id: int)
    requires Valid(s) && s.serviceOn && AllTicks(steps) && StepsOk(steps) && t <= |steps|
    requires 1 <= id <= ERPP_DOMAIN_SIZE && id in s.table && OnlyMasters(s.table[id]) && TimersOk(s.table[id])
    ensures var m, c, h := Masters(s.table[id].rings, 0), s.table[id].helloCount, s.table[id].helloTimer;
            HellosAbout(After(s, steps, t).tx, id) - HellosAbout(s.tx, id) ==
            if m * t <= c then 0 else 1 + (m * t - c - 1) / h
  {
    hide Seconds, After, HellosAbout, Hellos, Masters, OnlyMasters, TimersOk;
    DaemonSeconds(s, steps, t, id);
    HellosSent(s.mac, Work(s.table[id], []), t);
    NoSeconds(s.mac, s.table[id]);
  }

  /** With the service off, seconds change nothing and send nothing. */
  lemma {:induction false} NothingLeaves(s: State, steps: seq<Step>, t: nat)
    requires Valid(s) && !s.serviceOn && AllTicks(steps) && StepsOk(steps) && t <= |steps|
    ensures After(s, steps, t) == s
  {
    hide TickDomains;
    if t > 0 { NothingLeaves(s, steps, t - 1); }
  }
}
