/** What NPD was last told about a ring agrees with the ring. */
module ErppMirror {
  import opened ErppNode
  import opened ErppProtocol

  datatype Option<T> = None | Some(value: T)

  /** The last message about ring index `i` of domain `id`. */
  function LastFor(npd: seq<NpdEntry>, id: int, i: int): Option<NpdMessage> {
    if npd == [] then None
    else
      var e := npd[|npd| - 1];
      if e.domainId == id && e.index == i then Some(e.msg) else LastFor(npd[..|npd| - 1], id, i)
  }

  predicate HasPort(n: Node) {
    n.port0.netif != 0 || n.port1.netif != 0
  }

  /** NPD last heard that the ring is off, or nothing. */
  predicate ToldOff(m: Option<NpdMessage>) {
    m.Some? ==> m.value.isEnable == 0
  }

  /** NPD last heard the flag of the ring and, when it is enabled, its two ports: which interface each
      is and whether it forwards. */
  predicate Told(r: Ring, m: Option<NpdMessage>) {
    if r.isEnable == 0 then ToldOff(m)
    else m.Some? && m.value.isEnable == r.isEnable && m.value.port0 == r.node.port0 && m.value.port1 == r.node.port1
  }

  ghost predicate ToldAt(s: State, id: int, i: int) {
    if id in s.table && 0 <= i < |s.table[id].rings| then Told(s.table[id].rings[i], LastFor(s.npd, id, i))
    else ToldOff(LastFor(s.npd, id, i))
  }

  ghost predicate Mirror(s: State) {
    forall id: int, i: int :: ToldAt(s, id, i)
  }

  /** Every enabled ring has been configured. */
  ghost predicate Named(s: State) {
    forall id, i :: id in s.table && 0 <= i < |s.table[id].rings| && s.table[id].rings[i].isEnable != 0 ==>
      s.table[id].rings[i].ringId != 0
  }

  // ----------------------------------------------------------------- one update

  /** What a message about a ring of the stored entry says. */
  predicate Says(new_: Domain, old_: Domain, e: NpdEntry) {
    && e.domainId == new_.domainId && 0 <= e.index < |new_.rings|
    && e.msg.port0 == new_.rings[e.index].node.port0 && e.msg.port1 == new_.rings[e.index].node.port1
    && e.msg.isEnable == new_.rings[e.index].isEnable && e.msg.instance == new_.instance
    && (e.msg.flush <==> new_.flushFlag != 0 && old_.flushFlag != new_.flushFlag)
  }

  /** What makes the daemon send a message about ring `i`. */
  predicate Speaks(new_: Domain, old_: Domain, i: int)
    requires 0 <= i < |new_.rings| && i < |old_.rings|
  {
    var n, o := new_.rings[i], old_.rings[i];
    && n.ringId != 0
    && if n.isEnable != o.isEnable then HasPort(n.node)
       else n.isEnable != 0 && !SameStatus(o.node, n.node)
  }

  /** The messages about the rings from `from` on: one for each ring that calls for one, in the order of the
      rings, and each says what the stored entry says of its ring. */
  ghost predicate Spoken(new_: Domain, old_: Domain, es: seq<NpdEntry>, from: int)
    requires |new_.rings| == |old_.rings| == ERPP_RING_SIZE && 0 <= from
  {
    && (forall k :: 0 <= k < |es| ==> Says(new_, old_, es[k]) && from <= es[k].index)
    && (forall j, k :: 0 <= j < k < |es| ==> es[j].index < es[k].index)
    && (forall i :: from <= i < ERPP_RING_SIZE ==> (SpokenOf(es, i) <==> Speaks(new_, old_, i)))
  }

  ghost predicate SpokenOf(es: seq<NpdEntry>, i: int) {
    exists k :: 0 <= k < |es| && es[k].index == i
  }

  lemma {:induction false} NoticesSay(new_: Domain, old_: Domain, from: nat)
    requires |new_.rings| == |old_.rings| == ERPP_RING_SIZE && from <= ERPP_RING_SIZE
    ensures Spoken(new_, old_, Notices(new_, old_, from), from)
    decreases ERPP_RING_SIZE - from
  {
    if from < ERPP_RING_SIZE {
      NoticesSay(new_, old_, from + 1);
      RingSays(new_, old_, from, Notices(new_, old_, from + 1));
    }
  }

  lemma RingSays(new_: Domain, old_: Domain, from: nat, rest: seq<NpdEntry>)
    requires |new_.rings| == |old_.rings| == ERPP_RING_SIZE && from < ERPP_RING_SIZE
    requires Spoken(new_, old_, rest, from + 1)
    ensures Spoken(new_, old_, RingNotice(new_, old_, from) + rest, from)
  {
    var head := RingNotice(new_, old_, from);
    var es := head + rest;
    forall i | from <= i < ERPP_RING_SIZE ensures SpokenOf(es, i) <==> Speaks(new_, old_, i) {
      if i == from {
        if Speaks(new_, old_, i) { assert es[0].index == i; }
      } else if Speaks(new_, old_, i) {
        assert SpokenOf(rest, i);
        var k :| 0 <= k < |rest| && rest[k].index == i;
        assert es[|head| + k].index == i;
      }
    }
  }

  /** An update on the active board sends exactly the messages that the change calls for. */
  lemma UpdateSays(s: State, d: Domain)
    requires Valid(s) && d.domainId in s.table && |d.rings| == ERPP_RING_SIZE
    ensures var t := Update(s, d);
            && s.npd <= t.npd && (!s.active ==> t.npd == s.npd)
            && (s.active ==> Spoken(d, s.table[d.domainId], t.npd[|s.npd|..], 0))
  {
    NoticesSay(d, s.table[d.domainId], 0);
    hide Notices, Spoken;
    var es := Notices(d, s.table[d.domainId], 0);
    assert s.active ==> Update(s, d).npd[|s.npd|..] == es;
  }

  lemma {:induction false} LastForAppend(a: seq<NpdEntry>, b: seq<NpdEntry>, id: int, i: int)
    ensures LastFor(a + b, id, i) == if LastFor(b, id, i).Some? then LastFor(b, id, i) else LastFor(a, id, i)
  {
    if b == [] {
      assert a + b == a;
    } else {
      assert (a + b)[..|a + b| - 1] == a + b[..|b| - 1];
      LastForAppend(a, b[..|b| - 1], id, i);
    }
  }

  function NoticeFor(new_: Domain, old_: Domain, id: int, i: int): Option<NpdMessage> {
    if id == new_.domainId && 0 <= i < |new_.rings| && i < |old_.rings| && RingNotice(new_, old_, i) != []
    then Some(RingNotice(new_, old_, i)[0].msg) else None
  }

  lemma {:induction false} NoticesLast(new_: Domain, old_: Domain, from: nat, id: int, i: int)
    requires |new_.rings| == |old_.rings| == ERPP_RING_SIZE && from <= ERPP_RING_SIZE
    ensures LastFor(Notices(new_, old_, from), id, i) == if from <= i then NoticeFor(new_, old_, id, i) else None
    decreases ERPP_RING_SIZE - from
  {
    if from < ERPP_RING_SIZE {
      NoticesLast(new_, old_, from + 1, id, i);
      LastForAppend(RingNotice(new_, old_, from), Notices(new_, old_, from + 1), id, i);
      var n := RingNotice(new_, old_, from);
      assert n != [] ==> n == [n[0]] && n[..0] == [];
    }
  }

  /** The change of one ring that an update brings to NPD's notice in full. */
  predicate Announced(r: Ring, r': Ring) {
    && (r'.isEnable != r.isEnable ==> r'.ringId != 0 && HasPort(r'.node))
    && (r'.isEnable != 0 ==> r'.ringId != 0)
    && (r'.isEnable == r.isEnable && r.isEnable != 0 && !SameInterfaces(r.node, r'.node) ==>
          !SameStatus(r.node, r'.node))
  }

  predicate SameStatus(n: Node, m: Node) {
    m.port0.status == n.port0.status && m.port1.status == n.port1.status
  }

  lemma UpdateTells(s: State, d: Domain, id: int, i: int)
    requires Valid(s) && s.active && d.domainId in s.table && |d.rings| == ERPP_RING_SIZE && ToldAt(s, id, i)
    requires id == d.domainId && 0 <= i < ERPP_RING_SIZE ==> Announced(s.table[id].rings[i], d.rings[i])
    ensures ToldAt(Update(s, d), id, i)
  {
    var old_ := s.table[d.domainId];
    NoticesLast(d, old_, 0, id, i);
    LastForAppend(s.npd, Notices(d, old_, 0), id, i);
  }

  /** The ring is the same ring, with the same ports, switched on or off as before. */
  predicate Steady(r: Ring, r': Ring) {
    && r'.ringId == r.ringId && r'.isEnable == r.isEnable
    && r'.node.port0.netif == r.node.port0.netif && r'.node.port1.netif == r.node.port1.netif
  }

  lemma SteadyUpdate(s: State, d: Domain)
    requires Valid(s) && s.active && Mirror(s) && Named(s) && d.domainId in s.table && |d.rings| == ERPP_RING_SIZE
    requires forall i :: 0 <= i < ERPP_RING_SIZE ==> Steady(s.table[d.domainId].rings[i], d.rings[i])
    ensures Mirror(Update(s, d)) && Named(Update(s, d))
  {
    SteadyNamed(s, d);
    hide Update, LastFor;
    forall id: int, i: int ensures ToldAt(Update(s, d), id, i) {
      assert ToldAt(s, id, i);
      UpdateTells(s, d, id, i);
    }
  }

  lemma SteadyNamed(s: State, d: Domain)
    requires Valid(s) && Named(s) && d.domainId in s.table && |d.rings| == ERPP_RING_SIZE
    requires forall i :: 0 <= i < ERPP_RING_SIZE ==> Steady(s.table[d.domainId].rings[i], d.rings[i])
    ensures Named(Update(s, d))
  {
    hide Notices;
  }

  // ----------------------------------------------- events, seconds and packets

  lemma SendKeeps(s: State, tx: seq<Packet>)
    requires Mirror(s) && Named(s)
    ensures Mirror(s.(tx := tx)) && Named(s.(tx := tx))
  {
    forall id: int, i: int ensures ToldAt(s.(tx := tx), id, i) {
      assert ToldAt(s, id, i);
    }
  }

  lemma LinkRingMirror(s: State, id: int, i: nat, netif: int, up: bool)
    requires Valid(s) && s.active && Mirror(s) && Named(s) && id in s.table && i < ERPP_RING_SIZE
    ensures Mirror(LinkRing(s, id, i, netif, up)) && Named(LinkRing(s, id, i, netif, up))
  {
    hide Update, Named, Mirror, AssembleAll;
    var d := s.table[id];
    var r := d.rings[i];
    if r.isEnable != 0 && r.node.Owns(netif) {
      if up {
        SteadyUpdate(s, WithNode(d, i, LinkUpNode(r.node, netif)));
      } else {
        var re := LinkDownNode(r.node, netif);
        var d1 := WithNode(d, i, re.node);
        var d2 := if re.stamps then d1.(packetRing := i + 1) else d1;
        var tx := s.tx + AssembleAll(s.mac, d2, re.emits);
        SendKeeps(s, tx);
        SteadyUpdate(s.(tx := tx), d2);
      }
    }
  }

  lemma {:induction false} LinkRingsMirror(s: State, id: int, i: nat, netif: int, up: bool)
    requires Valid(s) && s.active && Mirror(s) && Named(s) && id in s.table
    ensures Mirror(LinkRings(s, id, i, netif, up)) && Named(LinkRings(s, id, i, netif, up))
    decreases ERPP_RING_SIZE - i
  {
    hide LinkRing, Named, Mirror;
    if i + 1 < ERPP_RING_SIZE {
      LinkRingMirror(s, id, i, netif, up);
      LinkRingsMirror(LinkRing(s, id, i, netif, up), id, i + 1, netif, up);
    }
  }

  lemma {:induction false} LinkDomainsMirror(s: State, id: nat, netif: int, up: bool)
    requires Valid(s) && s.active && Mirror(s) && Named(s)
    ensures Mirror(LinkDomains(s, id, netif, up)) && Named(LinkDomains(s, id, netif, up))
    decreases ERPP_DOMAIN_SIZE + 1 - id
  {
    hide LinkRings, Named, Mirror;
    if id <= ERPP_DOMAIN_SIZE {
      if id in s.table {
        LinkRingsMirror(s, id, 0, netif, up);
        LinkDomainsMirror(LinkRings(s, id, 0, netif, up), id + 1, netif, up);
      } else {
        LinkDomainsMirror(s, id + 1, netif, up);
      }
    }
  }

  lemma {:induction false} TickRingsSteady(mac: Mac, w: Work, i: nat, j: nat)
    requires |w.d.rings| == ERPP_RING_SIZE && j < ERPP_RING_SIZE
    ensures Steady(w.d.rings[j], TickRings(mac, w, i).d.rings[j])
    decreases ERPP_RING_SIZE - i
  {
    if i < ERPP_RING_SIZE {
      TickRingsSteady(mac, TickRing(mac, w, i), i + 1, j);
    }
  }

  lemma TickDomainMirror(s: State, id: int)
    requires Valid(s) && s.active && Mirror(s) && Named(s) && id in s.table
    ensures Mirror(TickDomain(s, id)) && Named(TickDomain(s, id))
  {
    hide Update, Named, Mirror, TickRings;
    var w := TickRings(s.mac, Work(s.table[id], s.tx), 0);
    forall j | 0 <= j < ERPP_RING_SIZE ensures Steady(s.table[id].rings[j], w.d.rings[j]) {
      TickRingsSteady(s.mac, Work(s.table[id], s.tx), 0, j);
    }
    SendKeeps(s, w.tx);
    SteadyUpdate(s.(tx := w.tx), w.d);
  }

  lemma {:induction false} TickDomainsMirror(s: State, id: nat)
    requires Valid(s) && s.active && Mirror(s) && Named(s)
    ensures Mirror(TickDomains(s, id)) && Named(TickDomains(s, id))
    decreases ERPP_DOMAIN_SIZE + 1 - id
  {
    hide TickDomain, Named, Mirror;
    if id <= ERPP_DOMAIN_SIZE {
      if id in s.table {
        TickDomainMirror(s, id);
        TickDomainsMirror(TickDomain(s, id), id + 1);
      } else {
        TickDomainsMirror(s, id + 1);
      }
    }
  }

  lemma HandleSteady(mac: Mac, d: Domain, p: Packet, j: nat)
    requires |d.rings| == ERPP_RING_SIZE && InRange(p) && p.ringId <= ERPP_RING_SIZE && j < ERPP_RING_SIZE
    ensures Steady(d.rings[j], Handle(mac, d, p).d.rings[j])
  {
    hide AssembleAll;
  }

  lemma RxMirror(s: State, p: Packet)
    requires Valid(s) && s.active && Mirror(s) && Named(s) && InRange(p)
    ensures Mirror(Rx(s, p)) && Named(Rx(s, p))
  {
    hide Update, Named, Mirror, Handle;
    if Accepts(s, p) {
      var d := s.table[p.domainId];
      var w := Handle(s.mac, d, p);
      forall j | 0 <= j < ERPP_RING_SIZE ensures Steady(d.rings[j], w.d.rings[j]) {
        HandleSteady(s.mac, d, p, j);
      }
      SendKeeps(s, s.tx + w.tx);
      SteadyUpdate(s.(tx := s.tx + w.tx), w.d);
    }
  }

  // ------------------------------------------------------------- configuration

  /** Whether configuring the role changes a port state. */
  predicate RoleMoves(n: Node, mode: Role) {
    match mode
    case Master => !(n.port0.status.Forwarding? && n.port1.status.Block?)
    case OtherRole(_) => false
    case _ => !n.BothForwarding()
  }

  /** The enable flag of a ring changes only while the ring is configured with a port, an enabled ring gets
      other interfaces only together with another port state, and rings are disabled before their domain is
      deleted. */
  ghost predicate Disciplined(s: State, step: Step)
    requires Valid(s) && StepOk(step)
  {
    match step
    case DomainSet(id, on) =>
      !on && id in s.table ==> forall i :: 0 <= i < ERPP_RING_SIZE ==> s.table[id].rings[i].isEnable == 0
    case Enable(id, ringId, flag) =>
      id in s.table && flag != s.table[id].rings[ringId - 1].isEnable ==>
        s.table[id].rings[ringId - 1].ringId != 0 && HasPort(s.table[id].rings[ringId - 1].node)
    case Configure(id, ringId, mode, primary, secondary, _) =>
      id in s.table && s.table[id].rings[ringId - 1].isEnable != 0 ==>
        var n := s.table[id].rings[ringId - 1].node;
        (primary == n.port0.netif && secondary == n.port1.netif) || RoleMoves(n, mode)
    case _ => true
  }

  lemma EditRingMirror(s: State, id: int, i: nat, r: Ring)
    requires Valid(s) && s.active && Mirror(s) && Named(s) && id in s.table && i < ERPP_RING_SIZE
    requires Announced(s.table[id].rings[i], r)
    ensures Mirror(EditRing(s, id, i, r)) && Named(EditRing(s, id, i, r))
  {
    var d := s.table[id].(rings := s.table[id].rings[i := r]);
    EditRingNamed(s, id, i, r);
    hide Update, LastFor;
    forall id': int, j: int ensures ToldAt(Update(s, d), id', j) {
      assert ToldAt(s, id', j);
      UpdateTells(s, d, id', j);
    }
  }

  lemma EditRingNamed(s: State, id: int, i: nat, r: Ring)
    requires Valid(s) && Named(s) && id in s.table && i < ERPP_RING_SIZE && (r.isEnable != 0 ==> r.ringId != 0)
    ensures Named(EditRing(s, id, i, r))
  {
    hide Notices;
  }

  /** A flag that changes without a message leaves NPD with the old one. */
  lemma UnannouncedFlag(s: State, id: int, i: nat, flag: int)
    requires Valid(s) && s.active && Mirror(s) && id in s.table && i < ERPP_RING_SIZE
    requires flag != s.table[id].rings[i].isEnable
    requires s.table[id].rings[i].ringId == 0 || !HasPort(s.table[id].rings[i].node)
    ensures !Mirror(EditRing(s, id, i, s.table[id].rings[i].(isEnable := flag)))
  {
    var r := s.table[id].rings[i].(isEnable := flag);
    var d := s.table[id].(rings := s.table[id].rings[i := r]);
    assert ToldAt(s, id, i);
    NoticesLast(d, s.table[id], 0, id, i);
    LastForAppend(s.npd, Notices(d, s.table[id], 0), id, i);
    assert !ToldAt(Update(s, d), id, i);
  }

  /** Other interfaces without a message leave NPD with the old ones. */
  lemma UnannouncedPorts(s: State, id: int, i: nat, r: Ring)
    requires Valid(s) && s.active && Mirror(s) && id in s.table && i < ERPP_RING_SIZE
    requires var o := s.table[id].rings[i];
             && o.isEnable != 0 && r.isEnable == o.isEnable
             && SameStatus(o.node, r.node) && !SameInterfaces(o.node, r.node)
    ensures !Mirror(EditRing(s, id, i, r))
  {
    var d := s.table[id].(rings := s.table[id].rings[i := r]);
    assert ToldAt(s, id, i);
    NoticesLast(d, s.table[id], 0, id, i);
    LastForAppend(s.npd, Notices(d, s.table[id], 0), id, i);
    assert !ToldAt(Update(s, d), id, i);
  }

  lemma ConfigureMirror(s: State, id: int, ringId: int, mode: Role, primary: int, secondary: int, level: int)
    requires Valid(s) && s.active && Mirror(s) && Named(s) && id in s.table && 1 <= ringId <= ERPP_RING_SIZE
    ensures var step := Configure(id, ringId, mode, primary, secondary, level);
            (Mirror(Apply(s, step)) <==> Disciplined(s, step)) && (Disciplined(s, step) ==> Named(Apply(s, step)))
  {
    hide EditRing, Mirror;
    var o := s.table[id].rings[ringId - 1];
    var r := ConfigureRing(o, ringId, mode, primary, secondary, level);
    if Disciplined(s, Configure(id, ringId, mode, primary, secondary, level)) {
      EditRingMirror(s, id, ringId - 1, r);
    } else {
      UnannouncedPorts(s, id, ringId - 1, r);
    }
  }

  lemma DomainMirror(s: State, id: int, on: bool)
    requires Valid(s) && s.active && Mirror(s) && Named(s)
    ensures Mirror(Apply(s, DomainSet(id, on))) <==> Disciplined(s, DomainSet(id, on))
    ensures Named(Apply(s, DomainSet(id, on)))
  {
    var t := Apply(s, DomainSet(id, on));
    if Disciplined(s, DomainSet(id, on)) {
      forall id': int, i: int ensures ToldAt(t, id', i) {
        assert ToldAt(s, id', i);
      }
    } else {
      var i :| 0 <= i < ERPP_RING_SIZE && s.table[id].rings[i].isEnable != 0;
      assert ToldAt(s, id, i) && !ToldAt(t, id, i);
    }
  }

  lemma ServiceMirror(s: State, on: bool)
    requires Mirror(s) && Named(s)
    ensures Mirror(s.(serviceOn := on)) && Named(s.(serviceOn := on))
  {
    forall id: int, i: int ensures ToldAt(s.(serviceOn := on), id, i) {
      assert ToldAt(s, id, i);
    }
  }

  lemma EnableMirror(s: State, id: int, ringId: int, flag: int)
    requires Valid(s) && s.active && Mirror(s) && Named(s) && id in s.table && 1 <= ringId <= ERPP_RING_SIZE
    ensures var t := EditRing(s, id, ringId - 1, s.table[id].rings[ringId - 1].(isEnable := flag));
            && (Mirror(t) <==> Disciplined(s, Enable(id, ringId, flag)))
            && (Disciplined(s, Enable(id, ringId, flag)) ==> Named(t))
  {
    hide EditRing, Mirror;
    var r := s.table[id].rings[ringId - 1];
    if Disciplined(s, Enable(id, ringId, flag)) {
      EditRingMirror(s, id, ringId - 1, r.(isEnable := flag));
    } else {
      UnannouncedFlag(s, id, ringId - 1, flag);
    }
  }

  /** On the active board, with every enabled ring configured, a step keeps NPD informed if and only if
      it is disciplined. */
  lemma MirrorStep(s: State, step: Step)
    requires Valid(s) && s.active && Mirror(s) && Named(s) && StepOk(step)
    ensures Mirror(Apply(s, step)) <==> Disciplined(s, step)
    ensures Disciplined(s, step) ==> Named(Apply(s, step))
  {
    hide Update, Mirror, LinkDomains, TickDomains, Rx, EditRing;
    match step
    case DomainSet(id, on) => DomainMirror(s, id, on);
    case Service(on) => ServiceMirror(s, on);
    case Tick => TickDomainsMirror(s, 1);
    case LinkUp(netif) => LinkDomainsMirror(s, 1, netif, true);
    case LinkDown(netif) => LinkDomainsMirror(s, 1, netif, false);
    case Receive(p) => RxMirror(s, p);
    case InstanceSet(id, instance) =>
      if id in s.table { SteadyUpdate(s, s.table[id].(instance := instance)); }
    case SetTimers(id, hello, fail) =>
      if id in s.table {
        SteadyUpdate(s, s.table[id].(helloTimer := hello, helloCount := hello, failTimer := fail, failCount := fail,
                                     faultTimer := fail, faultCount := fail));
      }
    case Configure(id, ringId, mode, primary, secondary, level) =>
      if id in s.table {
        ConfigureMirror(s, id, ringId, mode, primary, secondary, level);
      }
    case Enable(id, ringId, flag) =>
      if id in s.table {
        EnableMirror(s, id, ringId, flag);
      }
  }

  /** After every disciplined run, the last message about a ring carries its enable flag and, when it
      is enabled, both its ports with interface and state. */
  lemma {:induction false} NpdFollowsRing(s: State, steps: seq<Step>, k: nat)
    requires Initial(s) && s.active && StepsOk(steps) && k <= |steps|
    requires forall j :: 0 <= j < |steps| ==> Disciplined(After(s, steps, j), steps[j])
    ensures Mirror(After(s, steps, k)) && Named(After(s, steps, k))
  {
    hide Apply, Disciplined, Named, Mirror;
    if k == 0 {
      InitialMirror(s);
    } else {
      NpdFollowsRing(s, steps, k - 1);
      MirrorStep(After(s, steps, k - 1), steps[k - 1]);
    }
  }

  ghost predicate Informs(s: State, steps: seq<Step>, n: nat)
    requires Valid(s) && StepsOk(steps) && n <= |steps|
  {
    forall k :: 0 <= k <= n ==> Mirror(After(s, steps, k))
  }

  ghost predicate AllDisciplined(s: State, steps: seq<Step>, n: nat)
    requires Valid(s) && StepsOk(steps) && n <= |steps|
  {
    forall j :: 0 <= j < n ==> Disciplined(After(s, steps, j), steps[j])
  }

  /** A run keeps NPD informed throughout if and only if every step is disciplined. */
  lemma {:induction false} NpdFollowsExactly(s: State, steps: seq<Step>, n: nat)
    requires Initial(s) && s.active && StepsOk(steps) && n <= |steps|
    ensures Informs(s, steps, n) <==> AllDisciplined(s, steps, n)
    ensures Informs(s, steps, n) ==> Named(After(s, steps, n))
  {
    hide Apply, Disciplined, Mirror, Named, After;
    if n == 0 {
      StartsInformed(s, steps);
    } else {
      NpdFollowsExactly(s, steps, n - 1);
      InformsNext(s, steps, n);
    }
  }

  lemma StartsInformed(s: State, steps: seq<Step>)
    requires Initial(s) && StepsOk(steps)
    ensures Informs(s, steps, 0) && Named(After(s, steps, 0))
  {
    InitialMirror(s);
  }

  lemma InformsNext(s: State, steps: seq<Step>, n: nat)
    requires Valid(s) && s.active && StepsOk(steps) && 0 < n <= |steps|
    requires Informs(s, steps, n - 1) ==> Named(After(s, steps, n - 1))
    ensures Informs(s, steps, n) <==> Informs(s, steps, n - 1) && Disciplined(After(s, steps, n - 1), steps[n - 1])
    ensures Informs(s, steps, n) ==> Named(After(s, steps, n))
  {
    hide Apply, Disciplined, Mirror, Named;
    if Informs(s, steps, n - 1) {
      assert After(s, steps, n) == Apply(After(s, steps, n - 1), steps[n - 1]);
      assert Mirror(After(s, steps, n - 1));
      MirrorStep(After(s, steps, n - 1), steps[n - 1]);
    }
  }

  lemma InitialMirror(s: State)
    requires Initial(s)
    ensures Mirror(s) && Named(s)
  {
  }
}
