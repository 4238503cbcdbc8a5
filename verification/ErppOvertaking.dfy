/** Two runs on a ring of two nodes. In the first a COMPLETE_FLUSH overtakes a link-up event and leaves a
    node waiting on a whole ring; in the second the link of that node fails and the master misses it. */
module ErppOvertaking {
  import opened ErppNode
  import opened ErppRing
  import opened ErppConvergence

  function MasterIs(status: int, s1: PortStatus): Node { Node(Master, status, Port(1, Forwarding), Port(2, s1)) }

  function TransitIs(status: int, s0: PortStatus): Node { Node(Transmit, status, Port(3, s0), Port(4, Forwarding)) }

  const WHOLE := MasterIs(NODE_COMPLETE, Block)
  const UP := TransitIs(LINK_UP, Forwarding)
  const DOWN := TransitIs(LINK_DOWN, Block)
  const LEFT := TransitIs(PRE_FORWARDING, Block)

  function FailedMaster(level: int): Node { MasterIs(NODE_FAIL, if level == 1 then Forwarding else Block) }

  /** A ring of two nodes whose second link is up or down. */
  function Two(level: int, master: Node, transit: Node, up: bool, frames: multiset<Frame>, pending: set<Notice>): Net {
    Net(level, [true, true], [master, transit], [true, up], frames, pending)
  }

  function BothEnds(up: bool): set<Notice> { {Notice(1, Cw, up), Notice(0, Ccw, up)} }

  const LINK_DOWN_FRAME := Frame(0, Cw, LINK_DOWN_PACKET, 1)
  const COMMON_FRAME := Frame(1, Ccw, COMMON_FLUSH_PACKET, 0)

  function FlushTo(to: nat, side: Side): Frame { Frame(to, side, COMPLETE_FLUSH_PACKET, 0) }

  /** The link fails and is reported, comes back, and the HELLO of the master is round before the
      transit node handles the link-up event. */
  function Stage(level: int, k: nat): Net
    requires k <= 18
  {
    var failed := FailedMaster(level);
    match k
    case 0 => Two(level, WHOLE, UP, true, multiset{}, {})
    case 1 => Two(level, WHOLE, UP, false, multiset{}, BothEnds(false))
    case 2 => Two(level, WHOLE, DOWN, false, multiset{LINK_DOWN_FRAME}, {Notice(0, Ccw, false)})
    case 3 => Two(level, WHOLE, DOWN, false, multiset{LINK_DOWN_FRAME}, {})
    case 4 => Two(level, failed, DOWN, false, multiset{COMMON_FRAME}, {})
    case 5 => Two(level, failed, DOWN, false, multiset{}, {})
    case 6 => Two(level, failed, DOWN, true, multiset{}, BothEnds(true))
    case 7 => Two(level, failed, DOWN, true, multiset{HelloTo(1)}, BothEnds(true))
    case 8 => Two(level, failed, DOWN, true, multiset{HelloTo(0)}, BothEnds(true))
    case 9 => Two(level, WHOLE, DOWN, true, multiset{FlushTo(1, Ccw), FlushTo(1, Cw)}, BothEnds(true))
    case 10 => Two(level, WHOLE, DOWN, true, multiset{FlushTo(1, Cw), FlushTo(0, Ccw)}, BothEnds(true))
    case 11 => Two(level, WHOLE, DOWN, true, multiset{FlushTo(0, Ccw), FlushTo(0, Cw)}, BothEnds(true))
    case 12 => Two(level, WHOLE, DOWN, true, multiset{FlushTo(0, Cw)}, BothEnds(true))
    case 13 => Two(level, WHOLE, DOWN, true, multiset{}, BothEnds(true))
    case 14 => Two(level, WHOLE, DOWN, true, multiset{}, {Notice(1, Cw, true)})
    case 15 => Two(level, WHOLE, LEFT, true, multiset{}, {})
    case 16 => Two(level, WHOLE, LEFT, false, multiset{}, BothEnds(false))
    case 17 => Two(level, WHOLE, LEFT, false, multiset{}, {Notice(0, Ccw, false)})
    case _ => Two(level, WHOLE, LEFT, false, multiset{}, {})
  }

  const OVERTAKING: seq<Action> := [
    Fail(1), Handle(Notice(1, Cw, false)), Handle(Notice(0, Ccw, false)),
    Deliver(LINK_DOWN_FRAME), Deliver(COMMON_FRAME),
    Restore(1), Hello, Deliver(HelloTo(1)), Deliver(HelloTo(0)),
    Deliver(FlushTo(1, Ccw)), Deliver(FlushTo(1, Cw)), Deliver(FlushTo(0, Ccw)), Deliver(FlushTo(0, Cw)),
    Handle(Notice(0, Ccw, true)), Handle(Notice(1, Cw, true))]

  predicate Fits(m: Node, t: Node) {
    && m.role.Master? && m.port0.netif == 1 && m.port1.netif == 2
    && t.role.Transmit? && t.port0.netif == 3 && t.port1.netif == 4
  }

  function NetifAt(i: nat, side: Side): int {
    if i == 0 then if side.Cw? then 1 else 2 else if side.Cw? then 3 else 4
  }

  /** What a packet sent by an interface of the two nodes becomes. */
  function Sent(up: bool, i: nat, netif: int, ptype: int, origin: nat): multiset<Frame> {
    if i == 0 then
      if netif == 1 then multiset{Frame(1, Ccw, ptype, origin)}
      else if up then multiset{Frame(1, Cw, ptype, origin)} else multiset{}
    else
      if netif != 3 then multiset{Frame(0, Cw, ptype, origin)}
      else if up then multiset{Frame(0, Ccw, ptype, origin)} else multiset{}
  }

  lemma SentIsPut(s: Net, i: nat, netif: int, ptype: int, origin: nat)
    requires |s.nodes| == 2 && i < 2 && Fits(s.nodes[0], s.nodes[1]) && |s.links| == 2
    requires s.links[0] && s.cwPrimary == [true, true]
    ensures Static(s) && Put(s, i, netif, ptype, origin) == Sent(s.links[1], i, netif, ptype, origin)
  {
  }

  function SentAll(up: bool, i: nat, emits: seq<Emit>): multiset<Frame> {
    if emits == [] then multiset{} else Sent(up, i, emits[0].netif, emits[0].ptype, i) + SentAll(up, i, emits[1..])
  }

  lemma {:induction false} SentAllIsPut(s: Net, i: nat, emits: seq<Emit>)
    requires |s.nodes| == 2 && i < 2 && Fits(s.nodes[0], s.nodes[1]) && |s.links| == 2
    requires s.links[0] && s.cwPrimary == [true, true]
    ensures Static(s) && PutAll(s, i, emits) == SentAll(s.links[1], i, emits)
    decreases |emits|
  {
    hide Put, Sent;
    SentIsPut(s, i, 0, 0, 0);
    if emits != [] {
      SentIsPut(s, i, emits[0].netif, emits[0].ptype, i);
      SentAllIsPut(s, i, emits[1..]);
    }
  }

  /** The delivery of a packet on the ring of two. */
  lemma Delivered(level: int, m: Node, t: Node, up: bool, fs: multiset<Frame>, pending: set<Notice>, f: Frame)
    requires Fits(m, t) && f.to < 2
    ensures var s, n := Two(level, m, t, up, fs, pending), if f.to == 0 then m else t;
            var o := HandleNode(n, level, f.origin == f.to, f.ptype);
            var passed := if o.passes then Sent(up, f.to, n.Opposite(NetifAt(f.to, f.side)), f.ptype, f.origin)
                          else multiset{};
            && Static(s)
            && DeliverFrame(s, f) ==
               Two(level, if f.to == 0 then o.node else m, if f.to == 1 then o.node else t, up,
                   fs - multiset{f} + passed + SentAll(up, f.to, o.emits), pending)
  {
    hide HandleNode, Put, PutAll, Sent, SentAll;
    var s, n := Two(level, m, t, up, fs, pending), if f.to == 0 then m else t;
    var o := HandleNode(n, level, f.origin == f.to, f.ptype);
    SentIsPut(s, f.to, n.Opposite(NetifAt(f.to, f.side)), f.ptype, f.origin);
    SentAllIsPut(s, f.to, o.emits);
    assert s.nodes[f.to := o.node] == [if f.to == 0 then o.node else m, if f.to == 1 then o.node else t];
  }

  /** The handling of a link event on the ring of two. */
  lemma Handled(level: int, m: Node, t: Node, up: bool, fs: multiset<Frame>, pending: set<Notice>, p: Notice)
    requires Fits(m, t) && p.node < 2
    ensures var s, n := Two(level, m, t, up, fs, pending), if p.node == 0 then m else t;
            var re := NoticeReaction(n, NetifAt(p.node, p.side), p.up);
            && Static(s)
            && HandleNotice(s, p) ==
               Two(level, if p.node == 0 then re.node else m, if p.node == 1 then re.node else t, up,
                   fs + SentAll(up, p.node, re.emits), pending - {p})
  {
    hide NoticeReaction, Put, PutAll, Sent, SentAll;
    var s, n := Two(level, m, t, up, fs, pending), if p.node == 0 then m else t;
    var re := NoticeReaction(n, NetifAt(p.node, p.side), p.up);
    SentAllIsPut(s, p.node, re.emits);
    assert s.nodes[p.node := re.node] == [if p.node == 0 then re.node else m, if p.node == 1 then re.node else t];
  }

  lemma NoneSent(up: bool, i: nat)
    ensures SentAll(up, i, []) == multiset{}
  {
  }

  lemma TwoSent(up: bool, i: nat, e0: Emit, e1: Emit)
    ensures SentAll(up, i, [e0]) == Sent(up, i, e0.netif, e0.ptype, i)
    ensures SentAll(up, i, [e0, e1]) == Sent(up, i, e0.netif, e0.ptype, i) + Sent(up, i, e1.netif, e1.ptype, i)
  {
    assert [e0][1..] == [] && [e0, e1][1..] == [e1] && [e1][1..] == [];
  }

  lemma Stage0(level: int)
    ensures Follows(Stage(level, 0), OVERTAKING[0], Stage(level, 1))
  {
  }

  lemma Stage1(level: int)
    ensures Follows(Stage(level, 1), OVERTAKING[1], Stage(level, 2))
  {
    hide DeliverFrame, HandleNotice, SentAll, Put, PutAll;
    Handled(level, WHOLE, UP, false, multiset{}, BothEnds(false), Notice(1, Cw, false));
    TwoSent(false, 1, Emit(LINK_DOWN_PACKET, 4), Emit(LINK_DOWN_PACKET, 4));
  }

  lemma Stage2(level: int)
    ensures Follows(Stage(level, 2), OVERTAKING[2], Stage(level, 3))
  {
    hide DeliverFrame, HandleNotice, SentAll, Put, PutAll;
    Handled(level, WHOLE, DOWN, false, multiset{LINK_DOWN_FRAME}, {Notice(0, Ccw, false)}, Notice(0, Ccw, false));
    NoneSent(false, 0);
  }

  lemma Stage3(level: int)
    ensures Follows(Stage(level, 3), OVERTAKING[3], Stage(level, 4))
  {
    hide DeliverFrame, HandleNotice, SentAll, Put, PutAll;
    Delivered(level, WHOLE, DOWN, false, multiset{LINK_DOWN_FRAME}, {}, LINK_DOWN_FRAME);
    TwoSent(false, 0, Emit(COMMON_FLUSH_PACKET, 1), Emit(COMMON_FLUSH_PACKET, 2));
  }

  lemma Stage4(level: int)
    ensures Follows(Stage(level, 4), OVERTAKING[4], Stage(level, 5))
  {
    hide DeliverFrame, HandleNotice, SentAll, Put, PutAll;
    Delivered(level, FailedMaster(level), DOWN, false, multiset{COMMON_FRAME}, {}, COMMON_FRAME);
    NoneSent(false, 1);
  }

  lemma Stage5(level: int)
    ensures Follows(Stage(level, 5), OVERTAKING[5], Stage(level, 6))
  {
  }

  lemma Stage6(level: int)
    ensures Follows(Stage(level, 6), OVERTAKING[6], Stage(level, 7))
  {
  }

  lemma Stage7(level: int)
    ensures Follows(Stage(level, 7), OVERTAKING[7], Stage(level, 8))
  {
    hide DeliverFrame, HandleNotice, SentAll, Put, PutAll;
    Delivered(level, FailedMaster(level), DOWN, true, multiset{HelloTo(1)}, BothEnds(true), HelloTo(1));
    NoneSent(true, 1);
  }

  lemma Stage8(level: int)
    ensures Follows(Stage(level, 8), OVERTAKING[8], Stage(level, 9))
  {
    hide DeliverFrame, HandleNotice, SentAll, Put, PutAll;
    Delivered(level, FailedMaster(level), DOWN, true, multiset{HelloTo(0)}, BothEnds(true), HelloTo(0));
    TwoSent(true, 0, Emit(COMPLETE_FLUSH_PACKET, 1), Emit(COMPLETE_FLUSH_PACKET, 2));
  }

  lemma Stage9(level: int)
    ensures Follows(Stage(level, 9), OVERTAKING[9], Stage(level, 10))
  {
    hide DeliverFrame, HandleNotice, SentAll, Put, PutAll;
    Delivered(level, WHOLE, DOWN, true, multiset{FlushTo(1, Ccw), FlushTo(1, Cw)}, BothEnds(true), FlushTo(1, Ccw));
    NoneSent(true, 1);
  }

  lemma Stage10(level: int)
    ensures Follows(Stage(level, 10), OVERTAKING[10], Stage(level, 11))
  {
    hide DeliverFrame, HandleNotice, SentAll, Put, PutAll;
    Delivered(level, WHOLE, DOWN, true, multiset{FlushTo(1, Cw), FlushTo(0, Ccw)}, BothEnds(true), FlushTo(1, Cw));
    NoneSent(true, 1);
  }

  lemma Stage11(level: int)
    ensures Follows(Stage(level, 11), OVERTAKING[11], Stage(level, 12))
  {
    hide DeliverFrame, HandleNotice, SentAll, Put, PutAll;
    Delivered(level, WHOLE, DOWN, true, multiset{FlushTo(0, Ccw), FlushTo(0, Cw)}, BothEnds(true), FlushTo(0, Ccw));
    NoneSent(true, 0);
  }

  lemma Stage12(level: int)
    ensures Follows(Stage(level, 12), OVERTAKING[12], Stage(level, 13))
  {
    hide DeliverFrame, HandleNotice, SentAll, Put, PutAll;
    Delivered(level, WHOLE, DOWN, true, multiset{FlushTo(0, Cw)}, BothEnds(true), FlushTo(0, Cw));
    NoneSent(true, 0);
  }

  lemma Stage13(level: int)
    ensures Follows(Stage(level, 13), OVERTAKING[13], Stage(level, 14))
  {
    hide DeliverFrame, HandleNotice, SentAll, Put, PutAll;
    Handled(level, WHOLE, DOWN, true, multiset{}, BothEnds(true), Notice(0, Ccw, true));
    NoneSent(true, 0);
  }

  lemma Stage14(level: int)
    ensures Follows(Stage(level, 14), OVERTAKING[14], Stage(level, 15))
  {
    hide DeliverFrame, HandleNotice, SentAll, Put, PutAll;
    Handled(level, WHOLE, DOWN, true, multiset{}, {Notice(1, Cw, true)}, Notice(1, Cw, true));
    NoneSent(true, 1);
  }

  const MISSING: seq<Action> := OVERTAKING + [Fail(1), Handle(Notice(1, Cw, false)), Handle(Notice(0, Ccw, false))]

  lemma Stage15(level: int)
    ensures Follows(Stage(level, 15), MISSING[15], Stage(level, 16))
  {
  }

  lemma Stage16(level: int)
    ensures Follows(Stage(level, 16), MISSING[16], Stage(level, 17))
  {
    hide DeliverFrame, HandleNotice, SentAll, Put, PutAll;
    Handled(level, WHOLE, LEFT, false, multiset{}, BothEnds(false), Notice(1, Cw, false));
    NoneSent(false, 1);
  }

  lemma Stage17(level: int)
    ensures Follows(Stage(level, 17), MISSING[17], Stage(level, 18))
  {
    hide DeliverFrame, HandleNotice, SentAll, Put, PutAll;
    Handled(level, WHOLE, LEFT, false, multiset{}, {Notice(0, Ccw, false)}, Notice(0, Ccw, false));
    NoneSent(false, 0);
  }

  function Stages(level: int, n: nat): seq<Net>
    requires n <= 18
  {
    seq(n + 1, k requires 0 <= k <= n => Stage(level, k))
  }

  lemma StageFollows(level: int, k: nat)
    requires k < 18
    ensures Follows(Stage(level, k), MISSING[k], Stage(level, k + 1))
  {
    hide Follows, Stage;
    match k
    case 0 => Stage0(level);
    case 1 => Stage1(level);
    case 2 => Stage2(level);
    case 3 => Stage3(level);
    case 4 => Stage4(level);
    case 5 => Stage5(level);
    case 6 => Stage6(level);
    case 7 => Stage7(level);
    case 8 => Stage8(level);
    case 9 => Stage9(level);
    case 10 => Stage10(level);
    case 11 => Stage11(level);
    case 12 => Stage12(level);
    case 13 => Stage13(level);
    case 14 => Stage14(level);
    case 15 => Stage15(level);
    case 16 => Stage16(level);
    case _ => Stage17(level);
  }

  lemma StagesRun(level: int, n: nat)
    requires n <= 18
    ensures IsRun(Stages(level, n), MISSING[..n])
  {
    forall k | 0 <= k < n ensures Follows(Stages(level, n)[k], MISSING[..n][k], Stages(level, n)[k + 1]) {
      hide Follows, Stage;
      StageFollows(level, k);
    }
    hide Follows;
    assert Initial(Stage(level, 0));
  }

  /** The overtaken node: a run, on a ring of any level, that ends with nothing under way, all links
      up and a COMPLETE master, on a ring that has not settled. */
  lemma LeftBehind(level: int)
    ensures IsRun(Stages(level, 15), OVERTAKING)
    ensures var s := Stages(level, 15)[15];
            Quiet(s) && AllUp(s) && s.nodes[0].status == NODE_COMPLETE && s.nodes[1].status == PRE_FORWARDING &&
            !Settled(s)
  {
    hide IsRun, Follows;
    StagesRun(level, 15);
    assert MISSING[..15] == OVERTAKING;
    assert !Stage(level, 15).nodes[1].BothForwarding();
  }

  /** The missed failure: the run goes on with the link that the waiting node blocks. It breaks again,
      nobody reports it, and the master stays COMPLETE with nothing under way and a link down. */
  lemma MissedFailure(level: int)
    ensures IsRun(Stages(level, 18), MISSING)
    ensures var s := Stages(level, 18)[18];
            Quiet(s) && !AllUp(s) && s.nodes[0].status == NODE_COMPLETE
  {
    hide IsRun, Follows;
    StagesRun(level, 18);
    assert MISSING[..18] == MISSING;
    assert !Stage(level, 18).links[1];
  }
}
