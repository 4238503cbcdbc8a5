/** The ring stays connected: what forwards after a link of a settled ring has failed, and what decides it. */
module ErppAvailable {
  import opened ErppNode
  import opened ErppRing
  import opened ErppConvergence
  import opened ErppWaiting
  import opened ErppReports

  /** Every link that is up forwards at both ends. With one link down the nodes are then one line. */
  ghost predicate Connected(s: Net)
    requires Static(s)
  {
    forall i, side :: 0 <= i < |s.nodes| && s.links[LinkAt(|s.nodes|, i, side)] ==>
      PortAt(s, i, side).status.Forwarding?
  }

  /** Anything but a change of a link. */
  predicate Stays(a: Action) { !a.Fail? && !a.Restore? }

  /** The master opens its secondary port: it handles the loss of its primary link, or its fail timer runs out. */
  predicate Opens(a: Action) { a == Handle(Notice(0, Cw, false)) || a.Expire? }

  /** A report reaches the master. */
  predicate Reaches(a: Action) { a.Deliver? && a.frame.to == 0 && a.frame.ptype == LINK_DOWN_PACKET }

  /** Since step `k` the master has opened its secondary port, and no report has reached it after that. */
  ghost predicate OpenedLast(actions: seq<Action>, k: nat, l: nat)
    requires l <= |actions|
  {
    exists x :: k < x < l && Opens(actions[x]) && forall y :: x < y < l ==> !Reaches(actions[y])
  }

  lemma OpenedNext(actions: seq<Action>, k: nat, l: nat)
    requires k < l < |actions|
    ensures OpenedLast(actions, k, l + 1) <==>
            Opens(actions[l]) || (OpenedLast(actions, k, l) && !Reaches(actions[l]))
  {
    if OpenedLast(actions, k, l + 1) {
      var x :| k < x < l + 1 && Opens(actions[x]) && forall y :: x < y < l + 1 ==> !Reaches(actions[y]);
      if x < l { assert !Reaches(actions[l]); }
    }
    if Opens(actions[l]) {
      assert OpenedLast(actions, k, l + 1);
    } else if OpenedLast(actions, k, l) && !Reaches(actions[l]) {
      var x :| k < x < l && Opens(actions[x]) && forall y :: x < y < l ==> !Reaches(actions[y]);
      assert forall y :: x < y < l + 1 ==> !Reaches(actions[y]);
    }
  }

  // ------------------------------------------------------- after a link has failed

  ghost predicate OnlyDown(s: Net, j: nat)
    requires Static(s)
  {
    j < |s.links| && !s.links[j] && forall k :: 0 <= k < |s.links| && k != j ==> s.links[k]
  }

  /** A transit node forwards to every link that is up, and on both sides until it hears of the failure. */
  ghost predicate TransitsOpen(s: Net)
    requires Static(s)
  {
    && (forall i, side :: 1 <= i < |s.nodes| && s.links[LinkAt(|s.nodes|, i, side)] ==>
          PortAt(s, i, side).status.Forwarding?)
    && (forall p :: p in s.pending && 1 <= p.node < |s.nodes| ==> s.nodes[p.node].BothForwarding())
  }

  /** The master forwards to its primary link, unless that is the broken one; then it does until it hears of it.
      Its secondary port is open if it was opened last, or if a report has arrived on a ring of level 1. */
  ghost predicate MasterOpen(s: Net, j: nat, wide: bool)
    requires Static(s)
  {
    var n := s.nodes[0];
    && (j != 0 || Notice(0, Cw, false) in s.pending ==> n.port0.status.Forwarding?)
    && (j + 1 != |s.nodes| ==>
          (n.port1.status.Forwarding? <==> wide || (n.status == NODE_FAIL && s.level == 1)))
  }

  ghost predicate Open(s: Net, j: nat, wide: bool) {
    && Static(s) && OnlyDown(s, j) && TransitsOpen(s) && MasterOpen(s, j, wide)
    && forall p :: p in s.pending ==> !p.up
  }

  lemma FailureOpen(s: Net, j: nat)
    requires Settled(s) && Quiet(s) && j < |s.links|
    ensures Open(Change(s, j, false), j, false)
  {
  }

  lemma NoRelease(s: Net, j: nat, f: Frame)
    requires Loose(s) && Static(s) && OnlyDown(s, j) && f in s.frames
    ensures f.to < |s.nodes| && f.ptype != COMPLETE_FLUSH_PACKET
    ensures f.origin == f.to ==> f.ptype != HELLO_PACKET
  {
    hide Looped;
    assert FrameOk(s, f);
  }

  /** A packet that neither ends a failure nor reports one leaves a node as it is. */
  lemma PacketIdle(n: Node, level: int, own: bool, ptype: int)
    requires !n.role.Edge? && ptype != COMPLETE_FLUSH_PACKET && (own ==> ptype != HELLO_PACKET)
    ensures var n' := HandleNode(n, level, own, ptype).node;
            if n.role.Master? && ptype == LINK_DOWN_PACKET
            then n' == n.WithPorts(Forwarding, if level == 1 then Forwarding else Block).(status := NODE_FAIL)
            else n' == n
  {
  }

  lemma DeliverOpen(s: Net, j: nat, wide: bool, f: Frame)
    requires Loose(s) && Open(s, j, wide) && f in s.frames
    ensures Open(DeliverFrame(s, f), j, wide && !Reaches(Deliver(f)))
  {
    hide HandleNode, Put, PutAll, Loose;
    NoRelease(s, j, f);
    PacketIdle(s.nodes[f.to], s.level, f.origin == f.to, f.ptype);
  }

  /** A link event of this failure is about the broken link, and each end hears of it once. */
  lemma NoticeSide(s: Net, j: nat, p: Notice)
    requires Loose(s) && Static(s) && OnlyDown(s, j) && p in s.pending && !p.up
    ensures p.node < |s.nodes| && LinkAt(|s.nodes|, p.node, p.side) == j
    ensures forall q :: q in s.pending && !q.up && q.node == p.node ==> q == p
  {
    hide Looped, FrameOk;
    forall q | q in s.pending && !q.up && q.node == p.node ensures q == p {
      assert LinkAt(|s.nodes|, q.node, q.side) == j;
    }
  }

  /** The two sides of a node after the loss of the link on one of them. */
  lemma HandleSides(s: Net, p: Notice)
    requires Static(s) && p.node < |s.nodes| && !p.up
    ensures var t, i := HandleNotice(s, p), p.node;
            && Static(t) && t.links == s.links && t.level == s.level
            && (s.nodes[i].role.Master? ==> t.nodes[i].status == s.nodes[i].status)
            && PortAt(t, i, p.side).status.Block?
            && (PortAt(t, i, p.side.Opposite()).status ==
                if s.nodes[i].role.Master? && p.side.Cw? && PortAt(s, i, Cw).status.Forwarding? && i == 0
                then Forwarding else PortAt(s, i, p.side.Opposite()).status)
  {
    hide LinkDownNode, LinkUpNode, PutAll, UpPorts;
    var netif := PortAt(s, p.node, p.side).netif;
    LinkReactions(s.nodes[p.node], netif);
  }

  lemma HandleOpen(s: Net, j: nat, wide: bool, p: Notice)
    requires Loose(s) && Open(s, j, wide) && p in s.pending
    ensures Open(HandleNotice(s, p), j, wide || Opens(Handle(p)))
  {
    NoticeSide(s, j, p);
    hide LinkDownNode, PutAll, Loose, NoticeReaction;
    HandleSides(s, p);
    var t := HandleNotice(s, p);
    assert t.nodes == s.nodes[p.node := t.nodes[p.node]] && t.pending == s.pending - {p};
    forall i, side | 1 <= i < |t.nodes| && t.links[LinkAt(|t.nodes|, i, side)]
      ensures PortAt(t, i, side).status.Forwarding?
    {
      assert PortAt(s, i, side).status.Forwarding?;
      if i == p.node { assert side == p.side.Opposite(); }
    }
    assert TransitsOpen(t);
    assert MasterOpen(t, j, wide || Opens(Handle(p)));
  }

  lemma TimerOpen(s: Net, j: nat, wide: bool, a: Action)
    requires Loose(s) && Open(s, j, wide) && InBounds(s) && Enabled(s, a) && (a.Hello? || a.Expire?)
    ensures Open(Do(s, a), j, wide || Opens(a))
  {
    hide Loose, Put;
  }

  lemma StepOpen(s: Net, j: nat, wide: bool, a: Action)
    requires Loose(s) && Open(s, j, wide) && InBounds(s) && Enabled(s, a) && Stays(a)
    ensures Open(Do(s, a), j, Opens(a) || (wide && !Reaches(a)))
  {
    hide HandleNotice, DeliverFrame, Open, Put, Loose;
    match a
    case Handle(p) => HandleOpen(s, j, wide, p);
    case Deliver(f) => DeliverOpen(s, j, wide, f);
    case _ => TimerOpen(s, j, wide, a);
  }

  lemma OpenConnected(s: Net, j: nat, wide: bool)
    requires Open(s, j, wide)
    ensures Connected(s) <==> j + 1 == |s.nodes| || wide || (s.nodes[0].status == NODE_FAIL && s.level == 1)
  {
    var m := |s.nodes|;
    if j + 1 != m && !s.nodes[0].port1.status.Forwarding? {
      assert s.links[LinkAt(m, 0, Ccw)] && !PortAt(s, 0, Ccw).status.Forwarding?;
    }
  }

  // ------------------------------------------------------------------ over whole runs

  /** A COMPLETE master will learn of the failure, whatever happens short of a change of a link. */
  lemma StepKnown(s: Net, a: Action, t: Net)
    requires Loose(s) && Known(s) && Follows(s, a, t) && Stays(a)
    ensures Known(t)
  {
    hide Loose, Known, Do, Enabled;
    if a.Expire? { KnownExpire(s, t); } else { KnownStep(s, a); }
  }

  lemma {:induction false} SinceFailure(states: seq<Net>, actions: seq<Action>, k: nat, l: nat, j: nat)
    requires IsRun(states, actions) && k < l < |states| && actions[k] == Fail(j)
    requires Settled(states[k]) && forall x :: k < x < l ==> Stays(actions[x])
    ensures l <= |actions| && Open(states[l], j, OpenedLast(actions, k, l)) && Known(states[l])
    ensures states[l].level == states[k].level && |states[l].nodes| == |states[k].nodes|
    decreases l - k
  {
    hide IsRun, Do, Loose, Known, Open, Settled, Enabled, OpenedLast;
    RunFollows(states, actions, l - 1);
    RunLoose(states, actions, l - 1);
    if l - 1 == k {
      FailureStarts(states[k], j, states[l]);
      NothingOpened(actions, k);
    } else {
      SinceFailure(states, actions, k, l - 1, j);
      StepOpen(states[l - 1], j, OpenedLast(actions, k, l - 1), actions[l - 1]);
      StepKnown(states[l - 1], actions[l - 1], states[l]);
      OpenedNext(actions, k, l - 1);
      SameLevel(states[l - 1], actions[l - 1]);
    }
  }

  lemma NothingOpened(actions: seq<Action>, k: nat)
    requires k < |actions|
    ensures !OpenedLast(actions, k, k + 1)
  {
  }

  lemma SameLevel(s: Net, a: Action)
    requires Static(s) && InBounds(s) && Enabled(s, a)
    ensures Do(s, a).level == s.level && |Do(s, a).nodes| == |s.nodes|
  {
  }

  lemma FailureStarts(s: Net, j: nat, t: Net)
    requires Follows(s, Fail(j), t) && Settled(s)
    ensures Open(t, j, false) && Known(t) && t.level == s.level && |t.nodes| == |s.nodes|
  {
    hide Open, Failing;
    FailureOpen(s, j);
    assert Reported(s, j) by { assert s.nodes[if j == 0 then 1 else j].BothForwarding(); }
    FailureReported(s, j);
  }

  /** In every run: once a link of a settled ring has failed and nothing is under way, every other link forwards at
      both ends if and only if the ring is of level 1, or the link is the secondary one of the master, or the
      master has opened its secondary port and no report has reached it after that. */
  lemma ConnectedExactly(states: seq<Net>, actions: seq<Action>, k: nat, l: nat, j: nat)
    requires IsRun(states, actions) && k < l < |states| && actions[k] == Fail(j)
    requires Settled(states[k]) && (forall x :: k < x < l ==> Stays(actions[x])) && Quiet(states[l])
    ensures l <= |actions| && Static(states[l]) && states[l].nodes[0].status == NODE_FAIL
    ensures OnlyDown(states[l], j)
    ensures Connected(states[l]) <==>
            states[k].level == 1 || j + 1 == |states[k].nodes| || OpenedLast(actions, k, l)
  {
    hide IsRun, Settled, OpenedLast, Loose;
    SinceFailure(states, actions, k, l, j);
    OpenConnected(states[l], j, OpenedLast(actions, k, l));
    RunLoose(states, actions, l);
    MasterKnown(states[l]);
    if states[l].nodes[0].status == NODE_COMPLETE {
      QuietKnown(states[l]);
      assert false;
    }
  }

  // ------------------------------------------------------------------- a run that cuts off

  function Pair(level: int, master: Node, transit: Node, up: bool, frames: multiset<Frame>, pending: set<Notice>): Net {
    Net(level, [true, true], [master, transit], [up, true], frames, pending)
  }

  function MasterOf(status: int, s0: PortStatus, s1: PortStatus): Node {
    Node(Master, status, Port(1, s0), Port(2, s1))
  }

  function TransitOf(status: int, s1: PortStatus): Node { Node(Transmit, status, Port(3, Forwarding), Port(4, s1)) }

  const FLUSH := Frame(1, Cw, COMMON_FLUSH_PACKET, 0)
  const REPORT := Frame(0, Ccw, LINK_DOWN_PACKET, 1)

  /** The primary link of the master fails; the master opens its secondary port, and then the report arrives. */
  function Stage(level: int, k: nat): Net {
    var whole, up, down := MasterOf(NODE_COMPLETE, Forwarding, Block), TransitOf(LINK_UP, Forwarding),
                           TransitOf(LINK_DOWN, Block);
    var turned := MasterOf(NODE_COMPLETE, Block, Forwarding);
    var failed := MasterOf(NODE_FAIL, Forwarding, if level == 1 then Forwarding else Block);
    match k
    case 0 => Pair(level, whole, up, true, multiset{}, {})
    case 1 => Pair(level, whole, up, false, multiset{}, {Notice(0, Cw, false), Notice(1, Ccw, false)})
    case 2 => Pair(level, turned, up, false, multiset{FLUSH}, {Notice(1, Ccw, false)})
    case 3 => Pair(level, turned, down, false, multiset{FLUSH, REPORT}, {})
    case 4 => Pair(level, failed, down, false, multiset{FLUSH, FLUSH}, {})
    case 5 => Pair(level, failed, down, false, multiset{FLUSH}, {})
    case _ => Pair(level, failed, down, false, multiset{}, {})
  }

  const CUT_OFF: seq<Action> := [
    Fail(0), Handle(Notice(0, Cw, false)), Handle(Notice(1, Ccw, false)),
    Deliver(REPORT), Deliver(FLUSH), Deliver(FLUSH)]

  lemma Stage0(level: int)
    ensures Follows(Stage(level, 0), Fail(0), Stage(level, 1))
  {
  }

  lemma Stage1(level: int)
    ensures Follows(Stage(level, 1), Handle(Notice(0, Cw, false)), Stage(level, 2))
  {
    var s := Stage(level, 1);
    PutOne(s, 0, Emit(COMMON_FLUSH_PACKET, 2));
    hide PutAll;
    assert HandleNotice(s, Notice(0, Cw, false)).nodes == Stage(level, 2).nodes;
  }

  lemma TransitReports(level: int)
    ensures var s := Stage(level, 2);
            && Static(s) && PutAll(s, 1, [Emit(LINK_DOWN_PACKET, 3)]) == multiset{REPORT}
            && NoticeReaction(s.nodes[1], 4, false) ==
               Reaction(Stage(level, 3).nodes[1], [Emit(LINK_DOWN_PACKET, 3)], true)
  {
    PutOne(Stage(level, 2), 1, Emit(LINK_DOWN_PACKET, 3));
    hide PutAll;
  }

  lemma Stage2(level: int)
    ensures Follows(Stage(level, 2), Handle(Notice(1, Ccw, false)), Stage(level, 3))
  {
    TransitReports(level);
    hide PutAll, NoticeReaction, LinkDownNode;
    var s := Stage(level, 2);
    assert HandleNotice(s, Notice(1, Ccw, false)).nodes == Stage(level, 3).nodes;
  }

  lemma PutTwo(s: Net, i: nat, e0: Emit, e1: Emit)
    requires Static(s) && i < |s.nodes|
    ensures PutAll(s, i, [e0, e1]) == Put(s, i, e0.netif, e0.ptype, i) + Put(s, i, e1.netif, e1.ptype, i)
  {
    hide Put;
    assert [e0, e1][1..] == [e1];
    PutOne(s, i, e1);
  }

  lemma MasterFlushes(level: int)
    ensures var s := Stage(level, 3);
            Static(s) && PutAll(s, 0, [Emit(COMMON_FLUSH_PACKET, 1), Emit(COMMON_FLUSH_PACKET, 2)]) == multiset{FLUSH}
  {
    var s := Stage(level, 3);
    PutTwo(s, 0, Emit(COMMON_FLUSH_PACKET, 1), Emit(COMMON_FLUSH_PACKET, 2));
    hide PutAll;
  }

  lemma ReportTaken(level: int)
    ensures HandleNode(Stage(level, 3).nodes[0], level, false, LINK_DOWN_PACKET) ==
            Outcome(Stage(level, 4).nodes[0], false, [Emit(COMMON_FLUSH_PACKET, 1), Emit(COMMON_FLUSH_PACKET, 2)])
  {
  }

  lemma MasterTakes(level: int, m: Node, t: Node, fs: multiset<Frame>, f: Frame, o: Outcome)
    requires f.to == 0 && Static(Pair(level, m, t, false, fs, {}))
    requires HandleNode(m, level, f.origin == 0, f.ptype) == o && !o.passes
    ensures var s := Pair(level, m, t, false, fs, {});
            DeliverFrame(s, f) == Pair(level, o.node, t, false, fs - multiset{f} + PutAll(s, 0, o.emits), {})
  {
    hide HandleNode, Put, PutAll;
    assert [m, t][0 := o.node] == [o.node, t];
  }

  lemma ReportArrives(level: int)
    ensures Static(Stage(level, 3)) && DeliverFrame(Stage(level, 3), REPORT) == Stage(level, 4)
  {
    var s := Stage(level, 3);
    MasterFlushes(level);
    ReportTaken(level);
    var o := HandleNode(s.nodes[0], level, false, LINK_DOWN_PACKET);
    MasterTakes(level, s.nodes[0], s.nodes[1], s.frames, REPORT, o);
    hide PutAll, HandleNode, Put, DeliverFrame;
    assert multiset{FLUSH, REPORT} - multiset{REPORT} + multiset{FLUSH} == multiset{FLUSH, FLUSH};
  }

  lemma ReportReady(level: int)
    ensures var s := Stage(level, 3); Static(s) && InBounds(s) && Enabled(s, Deliver(REPORT))
  {
    hide HandleNode, PutAll, Put, DeliverFrame;
  }

  lemma Stage3(level: int)
    ensures Follows(Stage(level, 3), Deliver(REPORT), Stage(level, 4))
  {
    ReportReady(level);
    ReportArrives(level);
    hide Stage, DeliverFrame, Static, InBounds;
  }

  lemma Stage4(level: int)
    ensures Follows(Stage(level, 4), Deliver(FLUSH), Stage(level, 5))
  {
    var s := Stage(level, 4);
    assert DeliverFrame(s, FLUSH).nodes == Stage(level, 5).nodes;
  }

  lemma Stage5(level: int)
    ensures Follows(Stage(level, 5), Deliver(FLUSH), Stage(level, 6))
  {
    var s := Stage(level, 5);
    assert DeliverFrame(s, FLUSH).nodes == Stage(level, 6).nodes;
  }

  function Stages(level: int): seq<Net> {
    seq(7, k requires 0 <= k < 7 => Stage(level, k))
  }

  lemma StageFollows(level: int, k: nat)
    requires k < 6
    ensures Follows(Stage(level, k), CUT_OFF[k], Stage(level, k + 1))
  {
    hide Follows, Stage;
    match k
    case 0 => Stage0(level);
    case 1 => Stage1(level);
    case 2 => Stage2(level);
    case 3 => Stage3(level);
    case 4 => Stage4(level);
    case _ => Stage5(level);
  }

  lemma StageInitial(level: int)
    ensures Initial(Stage(level, 0))
  {
  }

  lemma StagesRun(level: int)
    ensures IsRun(Stages(level), CUT_OFF)
  {
    hide Follows, Stage, Initial;
    StageInitial(level);
    forall k | 0 <= k < 6 ensures Follows(Stages(level)[k], CUT_OFF[k], Stages(level)[k + 1]) {
      StageFollows(level, k);
    }
  }

  /** On a ring that is not of level 1 the run ends with nothing under way, one link down, and the master cut off
      from its secondary link, which is up. */
  lemma CutOff(level: int)
    ensures IsRun(Stages(level), CUT_OFF) && Settled(Stages(level)[0])
    ensures var s := Stages(level)[6];
            Quiet(s) && Static(s) && OnlyDown(s, 0) && (Connected(s) <==> level == 1)
  {
    hide IsRun, Follows;
    StagesRun(level);
    var s := Stage(level, 6);
    if level != 1 {
      assert s.links[LinkAt(2, 0, Ccw)] && !PortAt(s, 0, Ccw).status.Forwarding?;
    }
  }
}
