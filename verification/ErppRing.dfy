/** One master and any number of transit nodes, wired into a ring. Node 0 is the
    master; link `i` joins the clockwise side of node `i` to the counter-clockwise
    side of the next node. The primary port of the master faces clockwise; a
    transit node may be plugged in either way round. */
module ErppRing {
  import opened ErppNode

  datatype Side = Cw | Ccw {
    function Opposite(): Side { if Cw? then Ccw else Cw }
  }

  /** A control packet on its way to node `to`, where it arrives on `side`. The
      address it carries is that of node `origin`. */
  datatype Frame = Frame(to: nat, side: Side, ptype: int, origin: nat)

  /** The HELLO of the master on its way round. */
  function HelloTo(to: nat): Frame { Frame(to, Ccw, HELLO_PACKET, 0) }

  /** A link event that node `node` has yet to handle. */
  datatype Notice = Notice(node: nat, side: Side, up: bool)

  datatype Net = Net(level: int, cwPrimary: seq<bool>, nodes: seq<Node>, links: seq<bool>,
                     frames: multiset<Frame>, pending: set<Notice>)

  datatype Action =
    | Fail(link: nat)        // a link breaks
    | Restore(link: nat)     // a link comes back
    | Handle(notice: Notice) // a node handles its link event
    | Deliver(frame: Frame)  // a packet reaches its next node
    | Hello                  // the hello timer of the master
    | Expire                 // the fail timer of the master

  // -------------------------------------------------------------------- wiring

  predicate Static(s: Net) {
    && 2 <= |s.nodes| == |s.links| == |s.cwPrimary|
    && s.cwPrimary[0]
    && forall i :: 0 <= i < |s.nodes| ==>
         && s.nodes[i].port0.netif != s.nodes[i].port1.netif
         && (if i == 0 then s.nodes[i].role.Master? else s.nodes[i].role.Transmit?)
  }

  /** In a ring of `m` nodes, the link on the given side of node `i`. */
  function LinkAt(m: nat, i: nat, side: Side): (l: nat)
    requires i < m
    ensures l < m
  {
    if side.Cw? then i else if i == 0 then m - 1 else i - 1
  }

  function Neighbour(m: nat, i: nat, side: Side): (j: nat)
    requires i < m
    ensures j < m && LinkAt(m, j, side.Opposite()) == LinkAt(m, i, side)
  {
    if side.Ccw? then if i == 0 then m - 1 else i - 1
    else if i + 1 == m then 0 else i + 1
  }

  predicate IsPrimary(s: Net, i: nat, side: Side)
    requires Static(s) && i < |s.nodes|
  {
    side.Cw? == s.cwPrimary[i]
  }

  function PortAt(s: Net, i: nat, side: Side): Port
    requires Static(s) && i < |s.nodes|
  {
    if IsPrimary(s, i, side) then s.nodes[i].port0 else s.nodes[i].port1
  }

  /** Packets that node `i` sends by `netif`; they are lost when the link is down. */
  function Put(s: Net, i: nat, netif: int, ptype: int, origin: nat): multiset<Frame>
    requires Static(s) && i < |s.nodes|
  {
    var side := if netif == PortAt(s, i, Cw).netif then Cw else Ccw;
    if s.links[LinkAt(|s.nodes|, i, side)]
    then multiset{Frame(Neighbour(|s.nodes|, i, side), side.Opposite(), ptype, origin)}
    else multiset{}
  }

  function PutAll(s: Net, i: nat, emits: seq<Emit>): multiset<Frame>
    requires Static(s) && i < |s.nodes|
  {
    if emits == [] then multiset{} else Put(s, i, emits[0].netif, emits[0].ptype, i) + PutAll(s, i, emits[1..])
  }

  // --------------------------------------------------------------------- steps

  predicate Quiet(s: Net) {
    s.frames == multiset{} && s.pending == {}
  }

  predicate AllUp(s: Net) {
    forall j :: 0 <= j < |s.links| ==> s.links[j]
  }

  /** Links change only once every packet and event of the previous change has been
      handled. The fail timer runs out only while a link is down. */
  predicate Enabled(s: Net, a: Action) {
    match a
    case Fail(j) => Quiet(s) && j < |s.links| && s.links[j]
    case Restore(j) => Quiet(s) && j < |s.links| && !s.links[j]
    case Handle(p) => p in s.pending
    case Deliver(f) => f in s.frames
    case Hello => true
    case Expire => !AllUp(s)
  }

  function Change(s: Net, j: nat, up: bool): Net
    requires Static(s) && j < |s.links|
  {
    s.(links := s.links[j := up],
       pending := {Notice(j, Cw, up), Notice(Neighbour(|s.nodes|, j, Cw), Ccw, up)})
  }

  function HandleNotice(s: Net, p: Notice): Net
    requires Static(s) && p.node < |s.nodes|
  {
    var n := s.nodes[p.node];
    var netif := PortAt(s, p.node, p.side).netif;
    var re := NoticeReaction(n, netif, p.up);
    s.(nodes := s.nodes[p.node := re.node], pending := s.pending - {p},
       frames := s.frames + PutAll(s, p.node, re.emits))
  }

  function DeliverFrame(s: Net, f: Frame): Net
    requires Static(s) && f.to < |s.nodes|
  {
    var n := s.nodes[f.to];
    var o := HandleNode(n, s.level, f.origin == f.to, f.ptype);
    var passed := if o.passes then Put(s, f.to, n.Opposite(PortAt(s, f.to, f.side).netif), f.ptype, f.origin)
                  else multiset{};
    s.(nodes := s.nodes[f.to := o.node],
       frames := s.frames - multiset{f} + passed + PutAll(s, f.to, o.emits))
  }

  function Do(s: Net, a: Action): Net
    requires Static(s) && InBounds(s) && Enabled(s, a)
  {
    match a
    case Fail(j) => Change(s, j, false)
    case Restore(j) => Change(s, j, true)
    case Handle(p) => HandleNotice(s, p)
    case Deliver(f) => DeliverFrame(s, f)
    case Hello => s.(frames := s.frames + Put(s, 0, s.nodes[0].port0.netif, HELLO_PACKET, 0))
    case Expire =>
      s.(nodes := s.nodes[0 := Expired(s.nodes[0])],
         frames := s.frames + Put(s, 0, s.nodes[0].port0.netif, COMMON_FLUSH_PACKET, 0))
  }

  ghost predicate InBounds(s: Net) {
    && (forall p :: p in s.pending ==> p.node < |s.nodes|)
    && (forall f :: f in s.frames ==> f.to < |s.nodes|)
  }

  /** The forwarding ports close a cycle. */
  predicate Looped(s: Net) {
    AllUp(s) && forall i :: 0 <= i < |s.nodes| ==> s.nodes[i].BothForwarding()
  }

  // -------------------------------------------------------- the safety invariant

  ghost predicate FrameOk(s: Net, f: Frame)
    requires Static(s)
  {
    && f.to < |s.nodes| && f.origin < |s.nodes|
    && s.links[LinkAt(|s.nodes|, f.to, f.side)]
    && (f.ptype == COMPLETE_FLUSH_PACKET ==> AllUp(s) && !s.nodes[0].BothForwarding())
    && (f.ptype == LINK_DOWN_PACKET ==> !AllUp(s))
    && (f.ptype == HELLO_PACKET && f.origin == 0 ==>
          f.side.Ccw? && forall j :: 0 <= j < (if f.to == 0 then |s.links| else f.to) ==> s.links[j])
    && (f.ptype == HELLO_PACKET && f.origin != 0 ==> !s.links[LinkAt(|s.nodes|, f.origin, f.side)])
  }

  ghost predicate NoticesOk(s: Net)
    requires Static(s)
  {
    forall p :: p in s.pending ==> p.node < |s.nodes| && p.up == s.links[LinkAt(|s.nodes|, p.node, p.side)]
  }

  /** A transit node that knows a link is down blocks its port to it. */
  ghost predicate DownBlocked(s: Net)
    requires Static(s)
  {
    forall i, side ::
      1 <= i < |s.nodes| && !s.links[LinkAt(|s.nodes|, i, side)] && Notice(i, side, false) !in s.pending ==>
      PortAt(s, i, side).status.Block?
  }

  ghost predicate Inv(s: Net) {
    && Static(s) && NoticesOk(s) && DownBlocked(s) && MasterOk(s.nodes[0]) && !Looped(s)
    && forall f :: f in s.frames ==> FrameOk(s, f)
  }

  // ---------------------------------------------- what nodes and packets may do

  /** No port that was blocked forwards now. */
  predicate Closes(n: Node, n': Node) {
    && (n'.port0.status.Forwarding? ==> n.port0.status.Forwarding?)
    && (n'.port1.status.Forwarding? ==> n.port1.status.Forwarding?)
  }

  predicate SameNode(n: Node, n': Node) {
    n'.role == n.role && n'.port0.netif == n.port0.netif && n'.port1.netif == n.port1.netif
  }

  function NoticeReaction(n: Node, netif: int, up: bool): Reaction
    requires n.Owns(netif)
  {
    if up then Reaction(LinkUpNode(n, netif), [], false) else LinkDownNode(n, netif)
  }

  predicate NoticeEmit(n: Node, netif: int, up: bool, e: Emit) {
    && !up && e.ptype != COMPLETE_FLUSH_PACKET
    && (if n.role.Master? then e.ptype == COMMON_FLUSH_PACKET else e.netif == n.Opposite(netif))
  }

  lemma NoticeFacts(n: Node, netif: int, up: bool)
    requires n.Owns(netif) && n.port0.netif != n.port1.netif
    ensures var re := NoticeReaction(n, netif, up);
            && SameNode(n, re.node)
            && (n.role.Master? ==> !re.node.BothForwarding() && re.node.status == n.status)
            && (!n.role.Master? ==> Closes(n, re.node))
            && (!n.role.Master? && !up && netif == n.port0.netif ==> re.node.port0.status.Block?)
            && (!n.role.Master? && !up && netif == n.port1.netif ==> re.node.port1.status.Block?)
            && (forall e :: e in re.emits ==> NoticeEmit(n, netif, up, e))
  {
  }

  lemma PacketFacts(n: Node, level: int, own: bool, ptype: int)
    requires MasterOk(n) && !n.role.Edge?
    ensures var o := HandleNode(n, level, own, ptype);
            && SameNode(n, o.node) && MasterOk(o.node)
            && (n.role.Master? && o.node.BothForwarding() && !n.BothForwarding() ==> ptype == LINK_DOWN_PACKET)
            && (!n.role.Master? && !Closes(n, o.node) ==> ptype == COMPLETE_FLUSH_PACKET && !own)
            && (o.passes ==> o.emits == [] && (n.role.Master? ==> o.node == n || ptype == COMPLETE_FLUSH_PACKET))
            && (forall e :: e in o.emits ==>
                  || (e.ptype == COMMON_FLUSH_PACKET && ptype == LINK_DOWN_PACKET)
                  || (e.ptype == COMPLETE_FLUSH_PACKET && ptype == HELLO_PACKET && own && !o.node.BothForwarding()))
  {
  }

  lemma {:induction false} PutAllIn(s: Net, i: nat, emits: seq<Emit>, f: Frame) returns (e: Emit)
    requires Static(s) && i < |s.nodes| && f in PutAll(s, i, emits)
    ensures e in emits && f in Put(s, i, e.netif, e.ptype, i)
    ensures f.origin == i && f.ptype == e.ptype && f.to < |s.nodes| && s.links[LinkAt(|s.nodes|, f.to, f.side)]
  {
    if f in Put(s, i, emits[0].netif, emits[0].ptype, i) {
      e := emits[0];
    } else {
      e := PutAllIn(s, i, emits[1..], f);
    }
  }

  // -------------------------------------------------------------- safety, by step

  lemma ChangeInv(s: Net, j: nat, up: bool)
    requires Inv(s) && Quiet(s) && j < |s.links| && s.links[j] != up
    ensures Inv(Change(s, j, up))
  {
    var t := Change(s, j, up);
    assert Static(t);
    if up {
      // The end of the link that is a transit node still blocks its port to it.
      var i, side := if j == 0 then 1 else j, if j == 0 then Ccw else Cw;
      assert !s.links[LinkAt(|s.nodes|, i, side)] && Notice(i, side, false) !in s.pending;
      assert !t.nodes[i].BothForwarding();
    } else {
      assert !t.links[j];
    }
  }

  lemma NoLoopKept(s: Net, t: Net, i: nat)
    requires Static(s) && Static(t) && !Looped(s) && t.links == s.links && i < |s.nodes|
    requires t.nodes == s.nodes[i := t.nodes[i]]
    requires t.nodes[i].BothForwarding() && AllUp(t) ==> s.nodes[i].BothForwarding() || !t.nodes[0].BothForwarding()
    ensures !Looped(t)
  {
    if AllUp(t) {
      assert AllUp(s);
      var k :| 0 <= k < |s.nodes| && !s.nodes[k].BothForwarding();
      assert !t.nodes[k].BothForwarding() || !t.nodes[0].BothForwarding();
    }
  }

  lemma FrameKept(s: Net, t: Net, f: Frame)
    requires Static(s) && Static(t) && t.links == s.links && FrameOk(s, f)
    requires AllUp(s) && t.nodes[0].BothForwarding() ==> s.nodes[0].BothForwarding()
    ensures FrameOk(t, f)
  {
  }

  lemma HandleInv(s: Net, p: Notice)
    requires Inv(s) && p in s.pending
    ensures Inv(HandleNotice(s, p))
  {
    hide LinkUpNode, LinkDownNode, PutAll, FrameOk, Looped;
    var t := HandleNotice(s, p);
    var netif := PortAt(s, p.node, p.side).netif;
    NoticeFacts(s.nodes[p.node], netif, p.up);
    assert Static(t);
    forall f | f in t.frames ensures FrameOk(t, f) {
      if f in s.frames {
        FrameKept(s, t, f);
      } else {
        NewNoticeFrame(s, p, f);
      }
    }
    NoLoopKept(s, t, p.node);
  }

  lemma NewNoticeFrame(s: Net, p: Notice, f: Frame)
    requires Inv(s) && p in s.pending && f in HandleNotice(s, p).frames && f !in s.frames
    requires Static(HandleNotice(s, p))
    ensures FrameOk(HandleNotice(s, p), f)
  {
    hide LinkUpNode, LinkDownNode;
    var n, netif := s.nodes[p.node], PortAt(s, p.node, p.side).netif;
    NoticeFacts(n, netif, p.up);
    var e := PutAllIn(s, p.node, NoticeReaction(n, netif, p.up).emits, f);
  }

  lemma PassedFrame(s: Net, f: Frame, g: Frame)
    requires Static(s) && f.to < |s.nodes|
    requires g in Put(s, f.to, s.nodes[f.to].Opposite(PortAt(s, f.to, f.side).netif), f.ptype, f.origin)
    ensures g == Frame(Neighbour(|s.nodes|, f.to, f.side.Opposite()), f.side, f.ptype, f.origin)
    ensures s.links[LinkAt(|s.nodes|, f.to, f.side.Opposite())]
  {
  }

  lemma NewPacketFrame(s: Net, f: Frame, g: Frame)
    requires Inv(s) && f in s.frames && g in DeliverFrame(s, f).frames && g !in s.frames
    requires Static(DeliverFrame(s, f))
    ensures FrameOk(DeliverFrame(s, f), g)
  {
    hide HandleNode, Put, PutAll;
    assert FrameOk(s, f);
    var t, n := DeliverFrame(s, f), s.nodes[f.to];
    var o := HandleNode(n, s.level, f.origin == f.to, f.ptype);
    PacketFacts(n, s.level, f.origin == f.to, f.ptype);
    assert AllUp(t) == AllUp(s);
    if g in PutAll(s, f.to, o.emits) {
      var e := PutAllIn(s, f.to, o.emits, g);
      if e.ptype == COMPLETE_FLUSH_PACKET {
        assert f.origin == 0;  // a HELLO of a transit node never comes back to it
      }
    } else {
      PassedFrame(s, f, g);
    }
  }

  lemma DeliverInv(s: Net, f: Frame)
    requires Inv(s) && f in s.frames
    ensures Inv(DeliverFrame(s, f))
  {
    hide HandleNode, Put, PutAll, Looped;
    assert FrameOk(s, f);
    var t := DeliverFrame(s, f);
    PacketFacts(s.nodes[f.to], s.level, f.origin == f.to, f.ptype);
    assert Static(t);
    forall g | g in t.frames ensures FrameOk(t, g) {
      if g in s.frames {
        FrameKept(s, t, g);
      } else {
        NewPacketFrame(s, f, g);
      }
    }
    NoLoopKept(s, t, f.to);
  }

  lemma TimerInv(s: Net, a: Action)
    requires Inv(s) && (a.Hello? || a.Expire?) && InBounds(s) && Enabled(s, a)
    ensures Inv(Do(s, a))
  {
    var t := Do(s, a);
    assert Static(t);
    forall g | g in t.frames ensures FrameOk(t, g) {
      if g in s.frames {
        FrameKept(s, t, g);
      }
    }
  }

  lemma StepInv(s: Net, a: Action)
    requires Inv(s) && InBounds(s) && Enabled(s, a)
    ensures Inv(Do(s, a)) && InBounds(Do(s, a))
  {
    hide Change, HandleNotice, DeliverFrame, Put;
    match a
    case Fail(j) => ChangeInv(s, j, false);
    case Restore(j) => ChangeInv(s, j, true);
    case Handle(p) => HandleInv(s, p);
    case Deliver(f) => DeliverInv(s, f);
    case _ => TimerInv(s, a);
    assert forall f :: f in Do(s, a).frames ==> FrameOk(Do(s, a), f);
  }

  // ----------------------------------------------------------------------- runs

  /** The ring as configured: every link up, the master COMPLETE with its secondary port
      blocked, every transit node LINK_UP and forwarding. */
  predicate Initial(s: Net) {
    && Static(s) && Quiet(s) && AllUp(s)
    && s.nodes[0].status == NODE_COMPLETE && s.nodes[0].port0.status.Forwarding? && s.nodes[0].port1.status.Block?
    && forall i :: 1 <= i < |s.nodes| ==> s.nodes[i].status == LINK_UP && s.nodes[i].BothForwarding()
  }

  ghost predicate IsRun(states: seq<Net>, actions: seq<Action>) {
    && |states| == |actions| + 1 && Initial(states[0])
    && forall k :: 0 <= k < |actions| ==> Follows(states[k], actions[k], states[k + 1])
  }

  ghost predicate Follows(s: Net, a: Action, t: Net) {
    Static(s) && InBounds(s) && Enabled(s, a) && t == Do(s, a)
  }

  /** Ring safety: in no state of any run, on a ring of any size, do forwarding ports close a cycle. */
  lemma {:induction false} RingSafety(states: seq<Net>, actions: seq<Action>, k: nat)
    requires IsRun(states, actions) && k < |states|
    ensures Inv(states[k]) && !Looped(states[k])
  {
    hide Inv, Do, Enabled;
    if k == 0 {
      InitialInv(states[0]);
    } else {
      RingSafety(states, actions, k - 1);
      assert Follows(states[k - 1], actions[k - 1], states[k]);
      StepInv(states[k - 1], actions[k - 1]);
    }
    InvNotLooped(states[k]);
  }

  lemma InvNotLooped(s: Net)
    requires Inv(s)
    ensures !Looped(s)
  {
  }

  lemma InitialInv(s: Net)
    requires Initial(s)
    ensures Inv(s)
  {
    assert !s.nodes[0].BothForwarding();
  }

  /** Without the guard on the fail timer the theorem fails: on an intact ring that has
      settled, its expiry closes the cycle. */
  lemma ExpiryOnIntactRing(s: Net)
    requires Static(s) && AllUp(s) && s.nodes[0].port0.status.Forwarding?
    ensures Looped(s.(nodes := s.nodes[0 := Expired(s.nodes[0])])) <==>
            forall i :: 1 <= i < |s.nodes| ==> s.nodes[i].BothForwarding()
  {
    var t := s.(nodes := s.nodes[0 := Expired(s.nodes[0])]);
    assert AllUp(t);
    assert forall i :: 1 <= i < |s.nodes| ==> t.nodes[i] == s.nodes[i];
  }

  /** Nor may a LINK_DOWN_PACKET outlive the failure it reports: on an intact ring that has settled
      it closes the cycle exactly when the ring is of level 1. */
  lemma StaleLinkDown(s: Net, origin: nat, side: Side)
    requires Static(s) && AllUp(s) && forall i :: 1 <= i < |s.nodes| ==> s.nodes[i].BothForwarding()
    ensures Looped(DeliverFrame(s, Frame(0, side, LINK_DOWN_PACKET, origin))) <==> s.level == 1
  {
    var t := DeliverFrame(s, Frame(0, side, LINK_DOWN_PACKET, origin));
    assert AllUp(t);
    assert t.nodes[0] == Failed(s.nodes[0], s.level).node;
    assert forall i :: 1 <= i < |s.nodes| ==> t.nodes[i] == s.nodes[i];
  }
}
