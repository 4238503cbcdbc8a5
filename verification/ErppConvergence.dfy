/** The ring comes back: what every run keeps, and what a run keeps in which no HELLO ends a failure
    before its link events are handled. */
module ErppConvergence {
  import opened ErppNode
  import opened ErppRing

  predicate Release(f: Frame) {
    f.ptype == COMPLETE_FLUSH_PACKET
  }

  /** A transit node in LINK_DOWN has a link that is down or an event that says it came back. */
  ghost predicate DownExplained(s: Net, i: nat)
    requires Static(s) && i < |s.nodes|
  {
    s.nodes[i].status == LINK_DOWN ==>
      exists side :: !s.links[LinkAt(|s.nodes|, i, side)] || Notice(i, side, true) in s.pending
  }

  /** Every transit node that does not forward has a COMPLETE_FLUSH coming. */
  ghost predicate Recovering(s: Net)
    requires Static(s)
  {
    && AllUp(s) && s.pending == {}
    && forall i :: 1 <= i < |s.nodes| && !s.nodes[i].BothForwarding() ==> ReleaseComing(s, i)
  }

  ghost predicate ReleaseComing(s: Net, i: nat) {
    exists to :: 1 <= to <= i && Frame(to, Ccw, COMPLETE_FLUSH_PACKET, 0) in s.frames
  }

  /** A LINK_DOWN_PACKET that has only links other than `j` between it and the master. */
  predicate OnWay(f: Frame, j: nat) {
    f.ptype == LINK_DOWN_PACKET && (f.to == 0 || if f.side.Ccw? then j < f.to else f.to <= j)
  }

  /** A transit node that answers the loss of `netif` with a LINK_DOWN_PACKET. */
  predicate Reporter(n: Node, netif: int) {
    || n.BothForwarding()
    || (n.port0.status.Block? && n.port1.status.Forwarding? && netif == n.port1.netif)
  }

  ghost predicate ReporterAt(s: Net, i: nat, side: Side)
    requires Static(s)
  {
    1 <= i < |s.nodes| && Reporter(s.nodes[i], PortAt(s, i, side).netif)
  }

  /** The end `i` of the broken link is a transit node that has yet to report it. */
  ghost predicate WillReport(s: Net, i: nat, side: Side)
    requires Static(s)
  {
    Notice(i, side, false) in s.pending && ReporterAt(s, i, side)
  }

  /** An end of link `j` that is a transit node would report its failure. */
  ghost predicate Reported(s: Net, j: nat)
    requires Static(s) && j < |s.links|
  {
    ReporterAt(s, j, Cw) || ReporterAt(s, Neighbour(|s.nodes|, j, Cw), Ccw)
  }

  ghost predicate Warned(s: Net, j: nat)
    requires Static(s) && j < |s.links|
  {
    || (exists f :: f in s.frames && OnWay(f, j))
    || WillReport(s, j, Cw)
    || WillReport(s, Neighbour(|s.nodes|, j, Cw), Ccw)
  }

  /** Link `j` alone is down and the master is about to learn it. */
  ghost predicate Failing(s: Net, j: nat)
    requires Static(s)
  {
    && j < |s.links| && !s.links[j]
    && (forall k :: 0 <= k < |s.links| && k != j ==> s.links[k])
    && Warned(s, j)
  }

  ghost predicate CompleteOk(s: Net)
    requires Static(s)
  {
    s.nodes[0].status == NODE_COMPLETE ==> Recovering(s) || exists j :: Failing(s, j)
  }

  /** What the nodes, the events and the packets look like in every run. */
  ghost predicate Loose(s: Net) {
    && Inv(s)
    && (forall i :: 1 <= i < |s.nodes| ==> TransitOk(s.nodes[i]) && DownExplained(s, i))
    && (forall p, q :: p in s.pending && q in s.pending ==> p.up == q.up)
    && (forall p :: p in s.pending && p.up && p.node != 0 ==>
          PortAt(s, p.node, p.side).status.Block? || s.nodes[p.node].BothForwarding())
    && (s.nodes[0].port0.status.Block? ==> !s.links[0] || Notice(0, Cw, true) in s.pending)
    && (forall f :: f in s.frames && Release(f) ==> f.origin == 0)
  }

  /** What they look like as long as no HELLO ends a failure before its link events are handled. */
  ghost predicate Shape(s: Net) {
    && Loose(s)
    && (forall p :: p in s.pending && p.up && p.node != 0 ==> PortAt(s, p.node, p.side).status.Block?)
    && (forall f :: f in s.frames && Release(f) ==> s.pending == {})
  }

  ghost predicate Conv(s: Net) {
    Shape(s) && CompleteOk(s)
  }

  /** A HELLO that ends a failure comes back only once every link event has been handled. */
  predicate Calm(s: Net, a: Action) {
    EndsFailure(s, a) ==> s.pending == {}
  }

  predicate EndsFailure(s: Net, a: Action) {
    && a.Deliver? && a.frame.to == 0 && a.frame.ptype == HELLO_PACKET && a.frame.origin == 0
    && s.nodes != [] && s.nodes[0].status != NODE_COMPLETE
  }

  // -------------------------------------------------------------- link changes

  lemma ChangeShape(s: Net, j: nat, up: bool)
    requires Loose(s) && Quiet(s) && j < |s.links| && s.links[j] != up
    ensures Shape(Change(s, j, up))
  {
    hide FrameOk, Looped;
    var t := Change(s, j, up);
    ChangeInv(s, j, up);
    forall i | 1 <= i < |t.nodes| ensures DownExplained(t, i) {
      assert DownExplained(s, i);
      if s.nodes[i].status == LINK_DOWN {
        var side :| !s.links[LinkAt(|s.nodes|, i, side)];
        assert !t.links[LinkAt(|t.nodes|, i, side)] || Notice(i, side, true) in t.pending;
      }
    }
  }

  lemma ChangeComplete(s: Net, j: nat, up: bool)
    requires Conv(s) && Quiet(s) && j < |s.links| && s.links[j] != up
    ensures Static(Change(s, j, up)) && CompleteOk(Change(s, j, up))
  {
    var t := Change(s, j, up);
    if s.nodes[0].status == NODE_COMPLETE {
      assert Recovering(s);
      forall i | 1 <= i < |s.nodes| ensures s.nodes[i].BothForwarding() {
        assert !ReleaseComing(s, i);
      }
      assert s.nodes[if j == 0 then 1 else j].BothForwarding();
      FailureReported(s, j);
    }
  }

  /** One reporting end suffices for the report of a link that fails. */
  lemma FailureReported(s: Net, j: nat)
    requires Static(s) && AllUp(s) && j < |s.links| && Reported(s, j)
    ensures Static(Change(s, j, false)) && Failing(Change(s, j, false), j)
  {
    var t := Change(s, j, false);
    assert WillReport(t, j, Cw) || WillReport(t, Neighbour(|t.nodes|, j, Cw), Ccw);
  }

  // --------------------------------------------------------------- link events

  lemma NoticeStatus(n: Node, netif: int, up: bool)
    requires n.Owns(netif) && n.port0.netif != n.port1.netif && TransitOk(n)
    ensures var n' := NoticeReaction(n, netif, up).node;
            && (n.role.Transmit? ==> TransitOk(n'))
            && (n.role.Master? && n'.port0.status.Block? ==>
                  if netif == n.port0.netif then !up else n.port0.status.Block?)
            && (n.role.Transmit? && up && n.BothForwarding() ==> 
                  n'.status == PRE_FORWARDING && n'.port0.status.Block? && n'.port1.status.Block?)
            && (n.role.Transmit? && up && n'.status != PRE_FORWARDING ==>
                  (if netif == n.port0.netif then n.port0 else n.port1).status.Forwarding?)
  {
  }

  lemma HandleLoose(s: Net, p: Notice)
    requires Loose(s) && p in s.pending
    ensures Loose(HandleNotice(s, p))
  {
    hide NoticeReaction, PutAll, Looped, FrameOk;
    var t := HandleNotice(s, p);
    var n, netif := s.nodes[p.node], PortAt(s, p.node, p.side).netif;
    HandleInv(s, p);
    NoticeFacts(n, netif, p.up);
    NoticeStatus(n, netif, p.up);
    forall i | 1 <= i < |t.nodes| ensures DownExplained(t, i) {
      HandleExplained(s, p, i);
    }
    forall f | f in t.frames && Release(f) ensures f in s.frames {
      if f !in s.frames {
        var e := PutAllIn(s, p.node, NoticeReaction(n, netif, p.up).emits, f);
      }
    }
  }

  lemma HandleShape(s: Net, p: Notice)
    requires Shape(s) && p in s.pending
    ensures Shape(HandleNotice(s, p))
  {
    hide NoticeReaction, PutAll, Looped, FrameOk;
    var t := HandleNotice(s, p);
    var n, netif := s.nodes[p.node], PortAt(s, p.node, p.side).netif;
    HandleLoose(s, p);
    NoticeFacts(n, netif, p.up);
    forall f | f in t.frames && Release(f) ensures f in s.frames {
      if f !in s.frames {
        var e := PutAllIn(s, p.node, NoticeReaction(n, netif, p.up).emits, f);
      }
    }
  }

  lemma HandleExplained(s: Net, p: Notice, i: nat)
    requires Loose(s) && p in s.pending && 1 <= i < |s.nodes| && Static(HandleNotice(s, p))
    ensures DownExplained(HandleNotice(s, p), i)
  {
    hide NoticeReaction, PutAll, Looped, FrameOk;
    var t := HandleNotice(s, p);
    assert DownExplained(s, i);
    if i != p.node {
      if s.nodes[i].status == LINK_DOWN {
        var side :| !s.links[LinkAt(|s.nodes|, i, side)] || Notice(i, side, true) in s.pending;
        assert !t.links[LinkAt(|s.nodes|, i, side)] || Notice(i, side, true) in t.pending;
      }
    } else if p.up {
      NoticeStatus(s.nodes[i], PortAt(s, i, p.side).netif, true);
      assert t.nodes[i].status == PRE_FORWARDING;
    } else {
      assert !t.links[LinkAt(|s.nodes|, i, p.side)];
    }
  }

  /** A reporter sends its report by the other port. */
  lemma Reports(n: Node, netif: int)
    requires n.Owns(netif) && n.port0.netif != n.port1.netif && n.role.Transmit? && Reporter(n, netif)
    ensures NoticeReaction(n, netif, false).emits == [Emit(LINK_DOWN_PACKET, n.Opposite(netif))]
  {
  }

  lemma HandleComplete(s: Net, p: Notice)
    requires Conv(s) && p in s.pending && Static(HandleNotice(s, p))
    ensures CompleteOk(HandleNotice(s, p))
  {
    hide NoticeReaction, PutAll, Looped, FrameOk;
    var t := HandleNotice(s, p);
    NoticeFacts(s.nodes[p.node], PortAt(s, p.node, p.side).netif, p.up);
    if t.nodes[0].status == NODE_COMPLETE {
      var j :| Failing(s, j);
      HandleWarned(s, p, j);
      assert Failing(t, j);
    }
  }

  lemma HandleWarned(s: Net, p: Notice, j: nat)
    requires Loose(s) && p in s.pending && Failing(s, j) && Static(HandleNotice(s, p))
    ensures Warned(HandleNotice(s, p), j)
  {
    hide NoticeReaction, PutAll, Looped, FrameOk;
    var t, m := HandleNotice(s, p), |s.nodes|;
    if f :| f in s.frames && OnWay(f, j) {
      assert f in t.frames;
    } else {
      var i, side := if WillReport(s, j, Cw) then j else Neighbour(m, j, Cw), if WillReport(s, j, Cw) then Cw else Ccw;
      assert WillReport(s, i, side);
      if p == Notice(i, side, false) {
        var netif := PortAt(s, i, side).netif;
        Reports(s.nodes[i], netif);
        var f := Frame(Neighbour(m, i, side.Opposite()), side, LINK_DOWN_PACKET, i);
        assert f in Put(s, i, s.nodes[i].Opposite(netif), LINK_DOWN_PACKET, i);
        PutOne(s, i, Emit(LINK_DOWN_PACKET, s.nodes[i].Opposite(netif)));
        assert f in t.frames && OnWay(f, j);
      } else {
        assert p.node != i;
        assert WillReport(t, i, side);
      }
    }
  }

  lemma PutOne(s: Net, i: nat, e: Emit)
    requires Static(s) && i < |s.nodes|
    ensures PutAll(s, i, [e]) == Put(s, i, e.netif, e.ptype, i)
  {
    assert PutAll(s, i, [e][1..]) == multiset{};
  }

  // ------------------------------------------------------------------- packets

  lemma PacketStatus(n: Node, level: int, own: bool, ptype: int)
    requires TransitOk(n) && !n.role.Edge? && (n.role.Transmit? && own ==> ptype != HELLO_PACKET)
    ensures var n' := HandleNode(n, level, own, ptype).node;
            && TransitOk(n')
            && (n.role.Transmit? ==> n' == n || n'.BothForwarding())
            && (n.role.Transmit? && n'.status == LINK_DOWN ==> n.status == LINK_DOWN)
            && (n.role.Transmit? && ptype != COMPLETE_FLUSH_PACKET ==> n' == n)
            && (n.role.Transmit? && n.BothForwarding() ==> n'.BothForwarding())
            && (n.role.Transmit? && ptype == COMPLETE_FLUSH_PACKET && !own && n.status != LINK_DOWN ==>
                  n'.BothForwarding())
            && (n.role.Master? && n'.port0.status.Block? ==> n.port0.status.Block?)
  {
  }

  /** A new COMPLETE_FLUSH is one passed on, or is what a failed master answers to its own HELLO. */
  lemma NewRelease(s: Net, f: Frame, g: Frame)
    requires Loose(s) && f in s.frames && g in DeliverFrame(s, f).frames && g !in s.frames && Release(g)
    ensures g.origin == 0
    ensures Release(f) || (f.to == 0 && f.ptype == HELLO_PACKET && f.origin == 0 && s.nodes[0].status != NODE_COMPLETE)
  {
    hide HandleNode, Put, PutAll, Looped;
    assert FrameOk(s, f);
    var o := HandleNode(s.nodes[f.to], s.level, f.origin == f.to, f.ptype);
    PacketFacts(s.nodes[f.to], s.level, f.origin == f.to, f.ptype);
    if g in PutAll(s, f.to, o.emits) {
      var e := PutAllIn(s, f.to, o.emits, g);
      assert f.origin == 0 && f.ptype == HELLO_PACKET;
      if s.nodes[0].status == NODE_COMPLETE { CompleteIsSilent(s.nodes[0], s.level, f.ptype); }
    } else {
      PassedFrame(s, f, g);
    }
  }

  lemma CompleteIsSilent(n: Node, level: int, ptype: int)
    requires n.status == NODE_COMPLETE && ptype == HELLO_PACKET
    ensures HandleNode(n, level, true, ptype).emits == []
  {
  }

  lemma DeliverLoose(s: Net, f: Frame)
    requires Loose(s) && f in s.frames
    ensures Loose(DeliverFrame(s, f))
  {
    hide HandleNode, Put, PutAll, Looped;
    assert FrameOk(s, f);
    var t := DeliverFrame(s, f);
    DeliverInv(s, f);
    PacketStatus(s.nodes[f.to], s.level, f.origin == f.to, f.ptype);
    forall i | 1 <= i < |t.nodes| ensures TransitOk(t.nodes[i]) && DownExplained(t, i) {
      assert DownExplained(s, i);
      if t.nodes[i].status == LINK_DOWN {
        var side :| !s.links[LinkAt(|s.nodes|, i, side)] || Notice(i, side, true) in s.pending;
        assert !t.links[LinkAt(|s.nodes|, i, side)] || Notice(i, side, true) in t.pending;
      }
    }
    PacketFacts(s.nodes[f.to], s.level, f.origin == f.to, f.ptype);
    forall g | g in t.frames && Release(g) ensures g.origin == 0 {
      if g !in s.frames {
        NewRelease(s, f, g);
      }
    }
  }

  lemma DeliverShape(s: Net, f: Frame)
    requires Shape(s) && f in s.frames && Calm(s, Deliver(f))
    ensures Shape(DeliverFrame(s, f))
  {
    hide HandleNode, Put, PutAll, Looped, DownExplained;
    assert FrameOk(s, f);
    DeliverLoose(s, f);
    var t := DeliverFrame(s, f);
    forall g | g in t.frames && Release(g) ensures t.pending == {} {
      if g !in s.frames {
        NewRelease(s, f, g);
      }
    }
    if s.pending != {} {
      assert !Release(f);
      PacketStatus(s.nodes[f.to], s.level, f.origin == f.to, f.ptype);
    }
  }

  lemma MasterCompletes(n: Node, level: int, own: bool, ptype: int)
    requires n.role.Master? && MasterOk(n)
    ensures var o := HandleNode(n, level, own, ptype);
            && (o.node.status == NODE_COMPLETE && n.status != NODE_COMPLETE ==>
                  && ptype == HELLO_PACKET && own && !o.passes
                  && o.emits == [Emit(COMPLETE_FLUSH_PACKET, n.port0.netif),
                                 Emit(COMPLETE_FLUSH_PACKET, n.port1.netif)])
            && (ptype == LINK_DOWN_PACKET ==> o.node.status == NODE_FAIL)
            && (ptype == HELLO_PACKET && own ==> o.node.status == NODE_COMPLETE)
  {
  }

  lemma CompleteKept(n: Node, level: int, own: bool, ptype: int)
    requires n.role.Master? && n.status == NODE_COMPLETE && ptype != LINK_DOWN_PACKET
    ensures HandleNode(n, level, own, ptype).node.status == NODE_COMPLETE
  {
  }

  /** Node `f.to`, a transit node, passes `f` on over a link that is up. */
  lemma Passes(s: Net, f: Frame)
    requires Loose(s) && f in s.frames && 1 <= f.to < |s.nodes|
    requires f.ptype == LINK_DOWN_PACKET || (f.origin != f.to && (Release(f) || f.ptype == HELLO_PACKET))
    requires s.links[LinkAt(|s.nodes|, f.to, f.side.Opposite())]
    ensures Frame(Neighbour(|s.nodes|, f.to, f.side.Opposite()), f.side, f.ptype, f.origin) in DeliverFrame(s, f).frames
  {
    hide PutAll, FrameOk, Looped;
    var g := Frame(Neighbour(|s.nodes|, f.to, f.side.Opposite()), f.side, f.ptype, f.origin);
    assert g in Put(s, f.to, s.nodes[f.to].Opposite(PortAt(s, f.to, f.side).netif), f.ptype, f.origin);
  }

  lemma CompletionStarts(s: Net, f: Frame)
    requires Loose(s) && f in s.frames && Static(DeliverFrame(s, f)) && Calm(s, Deliver(f))
    requires s.nodes[0].status != NODE_COMPLETE && DeliverFrame(s, f).nodes[0].status == NODE_COMPLETE
    ensures Recovering(DeliverFrame(s, f))
  {
    hide HandleNode, Put, PutAll, Looped;
    assert FrameOk(s, f);
    MasterCompletes(s.nodes[0], s.level, f.origin == 0, f.ptype);
    var t, n := DeliverFrame(s, f), s.nodes[0];
    assert f.to == 0 && s.pending == {};
    FirstRelease(s, n.port0.netif, n.port1.netif);
    assert Frame(1, Ccw, COMPLETE_FLUSH_PACKET, 0) in t.frames;
  }

  lemma FirstRelease(s: Net, netif0: int, netif1: int)
    requires Static(s) && s.links[0] && netif0 == s.nodes[0].port0.netif
    ensures Frame(1, Ccw, COMPLETE_FLUSH_PACKET, 0) in
            PutAll(s, 0, [Emit(COMPLETE_FLUSH_PACKET, netif0), Emit(COMPLETE_FLUSH_PACKET, netif1)])
  {
    assert Frame(1, Ccw, COMPLETE_FLUSH_PACKET, 0) in Put(s, 0, netif0, COMPLETE_FLUSH_PACKET, 0);
  }

  lemma RecoveringKept(s: Net, f: Frame)
    requires Loose(s) && Recovering(s) && f in s.frames && Static(DeliverFrame(s, f))
    ensures Recovering(DeliverFrame(s, f))
  {
    hide HandleNode, Put, PutAll, Looped;
    assert FrameOk(s, f);
    var t := DeliverFrame(s, f);
    PacketStatus(s.nodes[f.to], s.level, f.origin == f.to, f.ptype);
    forall i | 1 <= i < |t.nodes| && !t.nodes[i].BothForwarding() ensures ReleaseComing(t, i) {
      assert !s.nodes[i].BothForwarding() && DownExplained(s, i);
      var to :| 1 <= to <= i && Frame(to, Ccw, COMPLETE_FLUSH_PACKET, 0) in s.frames;
      if f == Frame(to, Ccw, COMPLETE_FLUSH_PACKET, 0) {
        assert to != i;
        Passes(s, f);
        assert Frame(to + 1, Ccw, COMPLETE_FLUSH_PACKET, 0) in t.frames;
      } else {
        assert Frame(to, Ccw, COMPLETE_FLUSH_PACKET, 0) in t.frames;
      }
    }
  }

  lemma WarningKept(s: Net, f: Frame, j: nat, g: Frame)
    requires Loose(s) && Failing(s, j) && f in s.frames && Static(DeliverFrame(s, f))
    requires DeliverFrame(s, f).nodes[0].status == NODE_COMPLETE && g in s.frames && OnWay(g, j)
    ensures Warned(DeliverFrame(s, f), j)
  {
    hide HandleNode, Put, PutAll, Looped, WillReport;
    assert FrameOk(s, f);
    var t, m := DeliverFrame(s, f), |s.nodes|;
    if g == f {
      MasterCompletes(s.nodes[0], s.level, f.origin == 0, f.ptype);
      Passes(s, f);
      var h := Frame(Neighbour(m, f.to, f.side.Opposite()), f.side, f.ptype, f.origin);
      assert h in t.frames && OnWay(h, j);
    } else {
      assert g in t.frames && OnWay(g, j);
    }
  }

  lemma ReportKept(s: Net, f: Frame, i: nat, side: Side)
    requires Loose(s) && !AllUp(s) && f in s.frames && Static(DeliverFrame(s, f)) && WillReport(s, i, side)
    ensures WillReport(DeliverFrame(s, f), i, side)
  {
    hide HandleNode, Put, PutAll, Looped;
    assert FrameOk(s, f);
    PacketStatus(s.nodes[f.to], s.level, f.origin == f.to, f.ptype);
  }

  lemma FailingKept(s: Net, f: Frame, j: nat)
    requires Loose(s) && Failing(s, j) && f in s.frames && Static(DeliverFrame(s, f))
    requires DeliverFrame(s, f).nodes[0].status == NODE_COMPLETE
    ensures Failing(DeliverFrame(s, f), j)
  {
    hide DeliverFrame, WillReport, OnWay, Looped;
    assert FrameOk(s, f);
    if g :| g in s.frames && OnWay(g, j) {
      WarningKept(s, f, j, g);
    } else if WillReport(s, j, Cw) {
      ReportKept(s, f, j, Cw);
    } else {
      ReportKept(s, f, Neighbour(|s.nodes|, j, Cw), Ccw);
    }
    LinksKept(s, f);
  }

  lemma LinksKept(s: Net, f: Frame)
    requires Static(s) && f.to < |s.nodes|
    ensures var t := DeliverFrame(s, f);
            t.links == s.links && |t.nodes| == |s.nodes| && t.pending == s.pending
  {
  }

  lemma DeliverComplete(s: Net, f: Frame)
    requires Conv(s) && f in s.frames && Static(DeliverFrame(s, f)) && Calm(s, Deliver(f))
    ensures CompleteOk(DeliverFrame(s, f))
  {
    hide DeliverFrame, Failing, Recovering, Looped;
    assert FrameOk(s, f);
    var t := DeliverFrame(s, f);
    if t.nodes[0].status == NODE_COMPLETE {
      if s.nodes[0].status != NODE_COMPLETE {
        CompletionStarts(s, f);
      } else if Recovering(s) {
        RecoveringKept(s, f);
      } else {
        var j :| Failing(s, j);
        FailingKept(s, f, j);
      }
    }
  }

  // ---------------------------------------------------------------------- runs

  lemma HelloLoose(s: Net)
    requires Loose(s) && InBounds(s)
    ensures Loose(Do(s, Hello))
  {
    hide Looped, FrameOk;
    var t := Do(s, Hello);
    TimerInv(s, Hello);
    forall i | 1 <= i < |t.nodes| ensures DownExplained(t, i) {
      assert DownExplained(s, i);
    }
  }

  lemma HelloConv(s: Net)
    requires Conv(s) && InBounds(s)
    ensures Conv(Do(s, Hello))
  {
    hide Looped, FrameOk, DownExplained, WillReport, OnWay;
    var t := Do(s, Hello);
    HelloLoose(s);
    if s.nodes[0].status == NODE_COMPLETE {
      if Recovering(s) {
        forall i | 1 <= i < |t.nodes| && !t.nodes[i].BothForwarding() ensures ReleaseComing(t, i) {
          var to :| 1 <= to <= i && Frame(to, Ccw, COMPLETE_FLUSH_PACKET, 0) in s.frames;
          assert Frame(to, Ccw, COMPLETE_FLUSH_PACKET, 0) in t.frames;
        }
      } else {
        var j :| Failing(s, j);
        HelloWarned(s, j);
        assert Failing(t, j);
      }
    }
  }

  lemma HelloWarned(s: Net, j: nat)
    requires Static(s) && InBounds(s) && j < |s.links| && Warned(s, j)
    ensures Static(Do(s, Hello)) && Warned(Do(s, Hello), j)
  {
    hide OnWay;
    if f :| f in s.frames && OnWay(f, j) {
      assert f in Do(s, Hello).frames;
    }
  }

  lemma ExpireLoose(s: Net)
    requires Loose(s) && InBounds(s) && Enabled(s, Expire)
    ensures Loose(Do(s, Expire)) && Do(s, Expire).nodes[0].status == NODE_FAIL
  {
    hide Looped, FrameOk;
    var t := Do(s, Expire);
    TimerInv(s, Expire);
    forall i | 1 <= i < |t.nodes| ensures DownExplained(t, i) {
      assert DownExplained(s, i);
      assert t.nodes[i] == s.nodes[i];
    }
  }

  lemma ExpireConv(s: Net)
    requires Conv(s) && InBounds(s) && Enabled(s, Expire)
    ensures Conv(Do(s, Expire))
  {
    hide Looped, FrameOk, Inv, DownExplained;
    ExpireLoose(s);
  }

  lemma StepLoose(s: Net, a: Action)
    requires Loose(s) && InBounds(s) && Enabled(s, a)
    ensures Loose(Do(s, a)) && InBounds(Do(s, a))
  {
    hide Change, HandleNotice, DeliverFrame, Put, FrameOk, Looped, DownExplained;
    StepInv(s, a);
    match a
    case Fail(j) => ChangeShape(s, j, false);
    case Restore(j) => ChangeShape(s, j, true);
    case Handle(p) => HandleLoose(s, p);
    case Deliver(f) => DeliverLoose(s, f);
    case Hello => HelloLoose(s);
    case Expire => ExpireLoose(s);
  }

  lemma StepConv(s: Net, a: Action)
    requires Conv(s) && InBounds(s) && Enabled(s, a) && Calm(s, a)
    ensures Conv(Do(s, a)) && InBounds(Do(s, a))
  {
    hide Change, HandleNotice, DeliverFrame, Put, CompleteOk, FrameOk, Looped, DownExplained;
    StepInv(s, a);
    match a
    case Fail(j) => ChangeShape(s, j, false); ChangeComplete(s, j, false);
    case Restore(j) => ChangeShape(s, j, true); ChangeComplete(s, j, true);
    case Handle(p) => HandleShape(s, p); HandleComplete(s, p);
    case Deliver(f) => DeliverShape(s, f); DeliverComplete(s, f);
    case Hello => HelloConv(s);
    case Expire => ExpireConv(s);
  }

  lemma InitialConv(s: Net)
    requires Initial(s)
    ensures Conv(s)
  {
    InitialInv(s);
  }

  lemma {:induction false} RunLoose(states: seq<Net>, actions: seq<Action>, k: nat)
    requires IsRun(states, actions) && k < |states|
    ensures Loose(states[k]) && |states[k].nodes| == |states[0].nodes|
  {
    hide Conv, Do, Enabled, Loose;
    if k == 0 {
      InitialConv(states[0]);
      ConvIsLoose(states[0]);
    } else {
      RunLoose(states, actions, k - 1);
      assert Follows(states[k - 1], actions[k - 1], states[k]);
      StepLoose(states[k - 1], actions[k - 1]);
      SameSize(states[k - 1], actions[k - 1]);
    }
  }

  lemma MasterKnown(s: Net)
    requires Loose(s)
    ensures s.nodes != [] && (s.nodes[0].status == NODE_COMPLETE || s.nodes[0].status == NODE_FAIL)
  {
  }

  lemma ConvIsLoose(s: Net)
    requires Conv(s)
    ensures Loose(s)
  {
  }

  lemma SameSize(s: Net, a: Action)
    requires Static(s) && InBounds(s) && Enabled(s, a)
    ensures |Do(s, a).nodes| == |s.nodes|
  {
  }

  ghost predicate IsCalmRun(states: seq<Net>, actions: seq<Action>) {
    IsRun(states, actions) && forall k :: 0 <= k < |actions| ==> Calm(states[k], actions[k])
  }

  lemma {:induction false} RunConv(states: seq<Net>, actions: seq<Action>, k: nat)
    requires IsCalmRun(states, actions) && k < |states|
    ensures Conv(states[k])
  {
    hide Conv, Do, Enabled, Calm;
    if k == 0 {
      InitialConv(states[0]);
    } else {
      RunConv(states, actions, k - 1);
      assert Follows(states[k - 1], actions[k - 1], states[k]);
      StepConv(states[k - 1], actions[k - 1]);
    }
  }

  /** Everything forwards except the secondary port of the master. */
  predicate Settled(s: Net) {
    && Static(s) && AllUp(s)
    && s.nodes[0].status == NODE_COMPLETE && s.nodes[0].port0.status.Forwarding? && s.nodes[0].port1.status.Block?
    && forall i :: 1 <= i < |s.nodes| ==> s.nodes[i].status == LINK_UP && s.nodes[i].BothForwarding()
  }

  lemma CompleteIsSettled(s: Net)
    requires Conv(s) && Quiet(s) && s.nodes[0].status == NODE_COMPLETE
    ensures Settled(s)
  {
    assert Recovering(s);
    forall i | 1 <= i < |s.nodes| ensures s.nodes[i].BothForwarding() {
      assert !ReleaseComing(s, i);
    }
  }

  /** In a run in which no HELLO ends a failure ahead of its link events, a master that is COMPLETE
      while nothing is under way stands on a ring that is whole. */
  lemma CalmMeansSettled(states: seq<Net>, actions: seq<Action>, k: nat)
    requires IsCalmRun(states, actions) && k < |states|
    requires Quiet(states[k]) && states[k].nodes != [] && states[k].nodes[0].status == NODE_COMPLETE
    ensures Settled(states[k])
  {
    hide Conv, Settled;
    RunConv(states, actions, k);
    CompleteIsSettled(states[k]);
  }

  /** Why a HELLO should not overtake a link event: a COMPLETE_FLUSH opens a transit node that has lost a link
      only if the node has handled the link-up event first. In the other order the node keeps
      waiting, and a COMPLETE master sends no second flush. */
  lemma FlushOvertakesLinkUp(n: Node, netif: int)
    requires n.role.Transmit? && TransitOk(n) && n.port0.netif != n.port1.netif && n.Owns(netif)
    requires n.status == LINK_DOWN && (if netif == n.port0.netif then n.port0 else n.port1).status.Block?
    ensures Released(LinkUpNode(n, netif)).BothForwarding()
    ensures LinkUpNode(Released(n), netif).status == PRE_FORWARDING && !LinkUpNode(Released(n), netif).BothForwarding()
  {
  }
}
