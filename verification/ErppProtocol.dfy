/** The ERPP daemon of one switch as a state machine: its table of domains, the
    control packets it sends and the messages by which it tells NPD, the process
    that programs the ports, what to forward. Every handler is one atomic step. */
module ErppProtocol {
  import opened ErppNode

  const ERPP_RING_SIZE: nat := 4
  const ERPP_DOMAIN_SIZE: nat := 8
  const ERPP_TIMER_HELLO_DEFAULT := 1
  const ERPP_TIMER_FAIL_DEFAULT := 3

  /** A system MAC address; the handlers only compare two of them. */
  type Mac = int

  datatype Ring = Ring(ringId: int, level: int, isEnable: int, node: Node)

  datatype Domain = Domain(
    domainId: int, instance: int,
    helloTimer: int, failTimer: int, faultTimer: int,
    helloCount: int, failCount: int, faultCount: int,
    flushFlag: int, packetRing: int, rings: seq<Ring>)

  datatype Packet = Packet(netif: int, ptype: int, domainId: int, ringId: int, level: int,
                           helloTimer: int, failTimer: int, mac: Mac)

  datatype NpdMessage = NpdMessage(port0: Port, port1: Port, instance: int, flush: bool, isEnable: int)

  /** A message to NPD, filed under the domain and the ring index it was sent for. */
  datatype NpdEntry = NpdEntry(domainId: int, index: int, msg: NpdMessage)

  datatype State = State(mac: Mac, active: bool, serviceOn: bool, table: map<int, Domain>,
                         tx: seq<Packet>, npd: seq<NpdEntry>)

  datatype Step =
    | DomainSet(id: int, on: bool)
    | InstanceSet(id: int, instance: int)
    | Configure(id: int, ringId: int, mode: Role, primary: int, secondary: int, level: int)
    | Enable(id: int, ringId: int, flag: int)
    | SetTimers(id: int, hello: int, fail: int)
    | Service(on: bool)
    | Tick
    | LinkUp(netif: int)
    | LinkDown(netif: int)
    | Receive(packet: Packet)

  // ------------------------------------------------------------------- packets

  /** The ring a packet is about. An index outside the array reads foreign memory
      in the source; here such a packet names ring 0. */
  function Assemble(mac: Mac, d: Domain, e: Emit): Packet {
    var r := d.packetRing - 1;
    var inside := 0 <= r < |d.rings|;
    Packet(e.netif, e.ptype, d.domainId,
           if inside then d.rings[r].ringId else 0,
           if inside then d.rings[r].level else 0,
           d.helloTimer, d.failTimer, mac)
  }

  function AssembleAll(mac: Mac, d: Domain, es: seq<Emit>): seq<Packet> {
    seq(|es|, i requires 0 <= i < |es| => Assemble(mac, d, es[i]))
  }

  // ------------------------------------------------- the domain table and NPD

  /** What storing `new` over `old` makes the daemon tell NPD about ring `i`. */
  function RingNotice(new_: Domain, old_: Domain, i: nat): seq<NpdEntry>
    requires i < |new_.rings| && i < |old_.rings|
  {
    var n, o := new_.rings[i], old_.rings[i];
    var flush := new_.flushFlag != old_.flushFlag && new_.flushFlag != 0;
    var entry := NpdEntry(new_.domainId, i, NpdMessage(n.node.port0, n.node.port1, new_.instance, flush, n.isEnable));
    if n.ringId == 0 then []
    else if n.isEnable != o.isEnable then
      if n.node.port0.netif != 0 || n.node.port1.netif != 0 then [entry] else []
    else if n.isEnable != 0
         && (n.node.port0.status != o.node.port0.status || n.node.port1.status != o.node.port1.status) then [entry]
    else []
  }

  function Notices(new_: Domain, old_: Domain, from: nat): seq<NpdEntry>
    requires |new_.rings| == |old_.rings| == ERPP_RING_SIZE
    requires from <= ERPP_RING_SIZE
    decreases ERPP_RING_SIZE - from
  {
    if from == ERPP_RING_SIZE then [] else RingNotice(new_, old_, from) + Notices(new_, old_, from + 1)
  }

  ghost predicate Valid(s: State) {
    forall id :: id in s.table ==>
      s.table[id].domainId == id && |s.table[id].rings| == ERPP_RING_SIZE
  }

  /** The frame of every handler: the table stays well formed and holds the same domains. */
  ghost predicate Keeps(s: State, t: State) {
    Valid(t) && t.table.Keys == s.table.Keys && t.mac == s.mac && t.active == s.active && t.serviceOn == s.serviceOn
  }

  /** Store a changed entry over the one it was read from. */
  function Update(s: State, d: Domain): (t: State)
    requires Valid(s) && d.domainId in s.table && |d.rings| == ERPP_RING_SIZE
    ensures Keeps(s, t)
  {
    s.(table := s.table[d.domainId := d],
       npd := s.npd + if s.active then Notices(d, s.table[d.domainId], 0) else [])
  }

  // --------------------------------------------------------------- link events

  function WithNode(d: Domain, i: nat, n: Node): Domain
    requires i < |d.rings|
  {
    d.(rings := d.rings[i := d.rings[i].(node := n)])
  }

  /** The link event at ring index `i` of domain `id`. */
  function LinkRing(s: State, id: int, i: nat, netif: int, up: bool): (t: State)
    requires Valid(s) && id in s.table && i < ERPP_RING_SIZE
    ensures Keeps(s, t)
  {
    var d := s.table[id];
    var r := d.rings[i];
    if r.isEnable == 0 || !r.node.Owns(netif) then s
    else if up then
      Update(s, WithNode(d, i, LinkUpNode(r.node, netif)))
    else
      var re := LinkDownNode(r.node, netif);
      var d1 := WithNode(d, i, re.node);
      var d2 := if re.stamps then d1.(packetRing := i + 1) else d1;
      Update(s.(tx := s.tx + AssembleAll(s.mac, d2, re.emits)), d2)
  }

  /** Rings `i` up to, but not including, the last one. */
  function LinkRings(s: State, id: int, i: nat, netif: int, up: bool): (t: State)
    requires Valid(s) && id in s.table
    ensures Keeps(s, t)
    decreases ERPP_RING_SIZE - i
  {
    if i + 1 >= ERPP_RING_SIZE then s else LinkRings(LinkRing(s, id, i, netif, up), id, i + 1, netif, up)
  }

  function LinkDomains(s: State, id: nat, netif: int, up: bool): (t: State)
    requires Valid(s)
    ensures Keeps(s, t)
    decreases ERPP_DOMAIN_SIZE + 1 - id
  {
    if id > ERPP_DOMAIN_SIZE then s
    else LinkDomains(if id in s.table then LinkRings(s, id, 0, netif, up) else s, id + 1, netif, up)
  }

  // --------------------------------------------------------------------- timer

  /** A domain while one of its handlers works on it, and the packets sent so far. */
  datatype Work = Work(d: Domain, tx: seq<Packet>)

  function MasterHello(mac: Mac, w: Work, i: nat): Work
    requires i < |w.d.rings|
  {
    if w.d.helloCount == 0 then
      var d := w.d.(helloCount := w.d.helloTimer, packetRing := i + 1);
      Work(d, w.tx + [Assemble(mac, d, Emit(HELLO_PACKET, d.rings[i].node.port0.netif))])
    else w
  }

  function MasterFail(mac: Mac, w: Work, i: nat): Work
    requires i < |w.d.rings|
  {
    if w.d.failCount == 0 then
      var d := WithNode(w.d, i, Expired(w.d.rings[i].node))
               .(failCount := w.d.failTimer, flushFlag := 1, packetRing := i + 1);
      Work(d, w.tx + [Assemble(mac, d, Emit(COMMON_FLUSH_PACKET, d.rings[i].node.port0.netif))])
    else w
  }

  /** One second at ring index `i`. The counters belong to the domain, so every
      enabled master ring of the domain counts them down. */
  function TickRing(mac: Mac, w: Work, i: nat): (w': Work)
    requires i < |w.d.rings|
    ensures |w'.d.rings| == |w.d.rings| && w'.d.domainId == w.d.domainId
  {
    var r := w.d.rings[i];
    if r.isEnable == 0 then w
    else match r.node.role
      case Master =>
        var v := MasterFail(mac, MasterHello(mac, w, i), i);
        v.(d := v.d.(helloCount := v.d.helloCount - 1, failCount := v.d.failCount - 1))
      case Edge =>
        var v :=
          if w.d.helloCount == 0 then
            var d := w.d.(helloCount := w.d.helloTimer, packetRing := i);
            var n := d.rings[0].node;
            Work(d, w.tx + AssembleAll(mac, d, [Emit(EDGE_HELLO_PACKET, n.port0.netif),
                                                Emit(EDGE_HELLO_PACKET, n.port1.netif)]))
          else w;
        v.(d := v.d.(helloCount := v.d.helloCount - 1))
      case AssistantEdge =>
        var v :=
          if w.d.faultCount == 0 then
            var d := WithNode(w.d, i, r.node.(status := ERPP_LINK_FAIL)).(packetRing := i + 1);
            Work(d, w.tx + [Assemble(mac, d, Emit(FAULT_PACKET, r.node.port0.netif))])
          else w;
        v.(d := v.d.(faultCount := v.d.faultCount - 1))
      case _ => w
  }

  function TickRings(mac: Mac, w: Work, i: nat): (w': Work)
    requires |w.d.rings| == ERPP_RING_SIZE
    ensures |w'.d.rings| == ERPP_RING_SIZE && w'.d.domainId == w.d.domainId
    decreases ERPP_RING_SIZE - i
  {
    if i >= ERPP_RING_SIZE then w else TickRings(mac, TickRing(mac, w, i), i + 1)
  }

  function TickDomain(s: State, id: int): (t: State)
    requires Valid(s) && id in s.table
    ensures Keeps(s, t)
  {
    var w := TickRings(s.mac, Work(s.table[id], s.tx), 0);
    Update(s.(tx := w.tx), w.d)
  }

  function TickDomains(s: State, id: nat): (t: State)
    requires Valid(s)
    ensures Keeps(s, t)
    decreases ERPP_DOMAIN_SIZE + 1 - id
  {
    if id > ERPP_DOMAIN_SIZE then s
    else TickDomains(if id in s.table then TickDomain(s, id) else s, id + 1)
  }

  // ------------------------------------------------------------------- receive

  /** The indices a packet makes the handlers use lie inside the ring array. A
      packet that names ring 0, and an edge hello that names the last ring, make
      the source read outside it. */
  predicate InRange(p: Packet) {
    1 <= p.ringId && (p.ptype == EDGE_HELLO_PACKET ==> p.ringId != ERPP_RING_SIZE)
  }

  function Forward(n: Node, p: Packet): Packet {
    p.(netif := n.Opposite(p.netif))
  }

  /** The reaction of the node at index `i`, and the packets it builds. */
  function React(mac: Mac, d: Domain, i: nat, re: Reaction): Work
    requires i < |d.rings|
  {
    var d1 := WithNode(d, i, re.node);
    var d2 := if re.stamps then d1.(flushFlag := 1, packetRing := i + 1) else d1;
    Work(d2, AssembleAll(mac, d2, re.emits))
  }

  /** What a packet for an enabled ring does to its domain, and what is sent. */
  function Handle(mac: Mac, d: Domain, p: Packet): (w: Work)
    requires |d.rings| == ERPP_RING_SIZE && InRange(p) && p.ringId <= ERPP_RING_SIZE
    ensures |w.d.rings| == ERPP_RING_SIZE && w.d.domainId == d.domainId
  {
    var i := p.ringId - 1;
    var n := d.rings[i].node;
    var own := p.mac == mac;
    var pass := Work(d, [Forward(n, p)]);
    if p.ptype == HELLO_PACKET then
      if !own then pass
      else if n.status == NODE_FAIL then React(mac, d, i, OwnHello(n))
      else Work(WithNode(d, i, OwnHello(n).node).(failCount := d.failTimer), [])
    else if p.ptype == COMPLETE_FLUSH_PACKET then
      if own then Work(d.(flushFlag := 1), [])
      else Work(WithNode(d, i, Released(n)).(flushFlag := 1), pass.tx)
    else if p.ptype == COMMON_FLUSH_PACKET then Work(d.(flushFlag := 1), [])
    else if p.ptype == LINK_DOWN_PACKET then
      if !n.role.Master? then pass else React(mac, d, i, Failed(n, d.rings[i].level))
    else if p.ptype == EDGE_HELLO_PACKET then
      if own then Work(d.(helloCount := d.helloTimer), [])
      else if d.rings[i + 1].node.role.AssistantEdge? then
        Work(WithNode(d, i + 1, d.rings[i + 1].node.(status := ERPP_LINK_NORMAL)).(faultCount := d.faultTimer), [])
      else pass
    else if p.ptype == FAULT_PACKET then
      if n.role.Edge? then Work(WithNode(d, i, Faulted(n)), [])
      else if own then Work(d, [])
      else pass
    else Work(d, [])
  }

  /** A packet is dropped when it names no ring, no domain or a disabled ring. */
  predicate Accepts(s: State, p: Packet)
    requires Valid(s) && InRange(p)
  {
    p.ringId <= ERPP_RING_SIZE && p.domainId in s.table && s.table[p.domainId].rings[p.ringId - 1].isEnable != 0
  }

  function Rx(s: State, p: Packet): (t: State)
    requires Valid(s) && InRange(p)
    ensures Keeps(s, t)
  {
    if !Accepts(s, p) then s
    else
      var w := Handle(s.mac, s.table[p.domainId], p);
      Update(s.(tx := s.tx + w.tx), w.d)
  }

  // ------------------------------------------------------------- configuration

  const BLANK_RING := Ring(0, 0, 0, Node(Master, NODE_COMPLETE, Port(0, Forwarding), Port(0, Forwarding)))

  function NewDomain(id: int): Domain {
    var hello, fail := 3 * ERPP_TIMER_HELLO_DEFAULT, 3 * ERPP_TIMER_FAIL_DEFAULT;
    Domain(id, 0, hello, fail, fail, hello, fail, fail, 0, 0, seq(ERPP_RING_SIZE, _ => BLANK_RING))
  }

  function ConfigureRing(r: Ring, ringId: int, mode: Role, primary: int, secondary: int, level: int): Ring {
    Ring(ringId, level, r.isEnable, Configured(r.node, mode, primary, secondary))
  }

  /** The ring index a configuration step names lies inside the array; nothing in the source checks it. */
  predicate StepOk(step: Step) {
    match step
    case Configure(_, ringId, _, _, _, _) => 1 <= ringId <= ERPP_RING_SIZE
    case Enable(_, ringId, _) => 1 <= ringId <= ERPP_RING_SIZE
    case Receive(p) => InRange(p)
    case _ => true
  }

  function EditRing(s: State, id: int, i: nat, r: Ring): (t: State)
    requires Valid(s) && id in s.table && i < ERPP_RING_SIZE
    ensures Keeps(s, t)
  {
    Update(s, s.table[id].(rings := s.table[id].rings[i := r]))
  }

  function Apply(s: State, step: Step): (t: State)
    requires Valid(s) && StepOk(step)
    ensures Valid(t) && t.mac == s.mac && t.active == s.active
  {
    match step
    case DomainSet(id, on) =>
      if on && id !in s.table && 0 <= id <= ERPP_DOMAIN_SIZE then s.(table := s.table[id := NewDomain(id)])
      else if !on then s.(table := s.table - {id})
      else s
    case InstanceSet(id, instance) =>
      if id in s.table then Update(s, s.table[id].(instance := instance)) else s
    case Configure(id, ringId, mode, primary, secondary, level) =>
      if id in s.table then
        EditRing(s, id, ringId - 1,
                 ConfigureRing(s.table[id].rings[ringId - 1], ringId, mode, primary, secondary, level))
      else s
    case Enable(id, ringId, flag) =>
      if id in s.table then EditRing(s, id, ringId - 1, s.table[id].rings[ringId - 1].(isEnable := flag)) else s
    case SetTimers(id, hello, fail) =>
      if id in s.table then
        Update(s, s.table[id].(helloTimer := hello, helloCount := hello, failTimer := fail, failCount := fail,
                               faultTimer := fail, faultCount := fail))
      else s
    case Service(on) => s.(serviceOn := on)
    case Tick => if s.serviceOn then TickDomains(s, 1) else s
    case LinkUp(netif) => if s.serviceOn then LinkDomains(s, 1, netif, true) else s
    case LinkDown(netif) => if s.serviceOn then LinkDomains(s, 1, netif, false) else s
    case Receive(p) => Rx(s, p)
  }

  // ----------------------------------------------------------------------- runs

  ghost predicate StepsOk(steps: seq<Step>) {
    forall k :: 0 <= k < |steps| ==> StepOk(steps[k])
  }

  /** The state after the first `k` steps. */
  function After(s: State, steps: seq<Step>, k: nat): (t: State)
    requires Valid(s) && StepsOk(steps) && k <= |steps|
    ensures Valid(t) && t.mac == s.mac && t.active == s.active
  {
    if k == 0 then s else Apply(After(s, steps, k - 1), steps[k - 1])
  }

  predicate Initial(s: State) {
    s.table == map[] && s.tx == [] && s.npd == []
  }
}
