/** After a repair: from which states of a failed master on a ring that is whole again, driven by its
    timers, a cycle can be closed. */
module ErppRepair {
  import opened ErppNode
  import opened ErppRing
  import opened ErppConvergence
  import opened ErppRound
  import opened ErppTimed
  import P = ErppProtocol
  import T = ErppTimers

  /** Some transit node does not forward on both ports. */
  predicate SomeWait(s: Net) {
    exists k :: 1 <= k < |s.nodes| && !s.nodes[k].BothForwarding()
  }

  /** All links are up, the master has failed, and only flushes that nobody passes on are under way. */
  ghost predicate Repaired(p: Plant, i: nat) {
    && Coupled(p, i) && Loose(p.net) && AllUp(p.net) && p.net.pending == {} && p.net.nodes[0].status == NODE_FAIL
    && (p.net.frames == multiset{} || p.net.frames == multiset{COMMON_TO_FIRST})
  }

  const COMMON_TO_FIRST := Frame(1, Ccw, COMMON_FLUSH_PACKET, 0)

  /** The fail counter will be high enough at the next HELLO; and it does not run out until then, unless
      a waiting node keeps the ring open. */
  predicate Harmless(p: Plant)
    requires T.TimersOk(p.domain)
  {
    !T.TooLow(p.domain) && (SomeWait(p.net) || p.domain.helloCount < p.domain.failCount)
  }

  // ------------------------------------------------------------- a second before the HELLO

  function HelloSent(d: P.Domain): multiset<Frame> {
    if d.helloCount == 0 then multiset{HelloTo(1)} else multiset{}
  }

  function CommonSent(d: P.Domain): multiset<Frame> {
    if d.failCount == 0 then multiset{COMMON_TO_FIRST} else multiset{}
  }

  function NextMaster(p: Plant): Node
    requires p.net.nodes != []
  {
    if p.domain.failCount == 0 then Expired(p.net.nodes[0]) else p.net.nodes[0]
  }

  lemma SendTwo(s: Net, a: P.Packet, b: P.Packet)
    requires Static(s) && s.links[0] && a.netif == s.nodes[0].port0.netif && b.netif == s.nodes[0].port0.netif
    ensures SendAll(s, [a, b]) == multiset{Frame(1, Ccw, a.ptype, 0)} + multiset{Frame(1, Ccw, b.ptype, 0)}
  {
    SendOne(s, a);
    SendOne(s, b);
    assert [a, b][1..] == [b] && [a][1..] == [];
  }

  /** What the timer of the master builds in one second. */
  lemma TickedTx(mac: P.Mac, p: Plant, i: nat)
    requires Coupled(p, i)
    ensures var tx, d := P.TickRing(mac, P.Work(p.domain, []), i).tx, p.domain;
            && |tx| == (if d.helloCount == 0 then 1 else 0) + (if d.failCount == 0 then 1 else 0)
            && (forall k :: 0 <= k < |tx| ==> tx[k].netif == p.net.nodes[0].port0.netif)
            && (d.helloCount == 0 ==> tx[0].ptype == HELLO_PACKET)
            && (d.failCount == 0 ==> tx[|tx| - 1].ptype == COMMON_FLUSH_PACKET)
  {
    hide P.AssembleAll;
  }

  lemma TickedCounters(mac: P.Mac, p: Plant, i: nat)
    requires Coupled(p, i)
    ensures var d := P.TickRing(mac, P.Work(p.domain, []), i).d;
            && d.rings[i].node == NextMaster(p)
            && d.helloTimer == p.domain.helloTimer && d.failTimer == p.domain.failTimer
            && d.helloCount == T.CountedDown(p.domain.helloCount, p.domain.helloTimer)
            && d.failCount == T.CountedDown(p.domain.failCount, p.domain.failTimer)
  {
    hide P.Assemble, P.AssembleAll;
  }

  lemma TickedSends(mac: P.Mac, p: Plant, i: nat)
    requires Coupled(p, i) && p.net.links[0]
    ensures SendAll(p.net, P.TickRing(mac, P.Work(p.domain, []), i).tx) == HelloSent(p.domain) + CommonSent(p.domain)
  {
    TickedTx(mac, p, i);
    hide P.TickRing, SendAll, Put;
    var tx := P.TickRing(mac, P.Work(p.domain, []), i).tx;
    if |tx| == 2 {
      assert tx == [tx[0], tx[1]];
      SendTwo(p.net, tx[0], tx[1]);
    } else if |tx| == 1 {
      assert tx == [tx[0]];
      SendOne(p.net, tx[0]);
    } else {
      assert tx == [];
      SendNone(p.net);
    }
  }

  lemma SendNone(s: Net)
    requires Static(s)
    ensures SendAll(s, []) == multiset{}
  {
  }

  /** One second of a quiet plant, in full. */
  lemma TickedIs(mac: P.Mac, p: Plant, i: nat)
    requires Coupled(p, i) && AllUp(p.net) && Quiet(p.net)
    ensures var q := Ticked(mac, p, i);
            && Coupled(q, i)
            && q.net == p.net.(nodes := p.net.nodes[0 := NextMaster(p)],
                               frames := HelloSent(p.domain) + CommonSent(p.domain))
            && q.domain.helloTimer == p.domain.helloTimer && q.domain.failTimer == p.domain.failTimer
            && q.domain.helloCount == T.CountedDown(p.domain.helloCount, p.domain.helloTimer)
            && q.domain.failCount == T.CountedDown(p.domain.failCount, p.domain.failTimer)
  {
    hide P.TickRings, P.TickRing, SendAll, HelloSent, CommonSent, Coupled, NextMaster;
    CoupledStatic(p, i);
    TickedSole(mac, p, i);
    TickedSends(mac, p, i);
    TickedCounters(mac, p, i);
    assert Moves(mac, i, p, Second, Ticked(mac, p, i));
    StaysCoupled(mac, i, p, Second, Ticked(mac, p, i));
  }

  lemma CoupledStatic(p: Plant, i: nat)
    requires Coupled(p, i)
    ensures Static(p.net) && T.SoleMaster(p.domain, i)
  {
  }

  /** The ring keeps what it kept, also when the fail timer runs out, as long as a node waits then. */
  lemma TickedLoose(s: Net, n: Node, fs: multiset<Frame>)
    requires Loose(s) && AllUp(s) && s.pending == {} && s.nodes[0].status == NODE_FAIL
    requires n == s.nodes[0] || (n == Expired(s.nodes[0]) && SomeWait(s))
    requires forall f :: f in fs ==> f == HelloTo(1) || f == HelloTo(0) || f == COMMON_TO_FIRST
    ensures Loose(s.(nodes := s.nodes[0 := n], frames := fs))
  {
    var t := s.(nodes := s.nodes[0 := n], frames := fs);
    assert Static(t) && AllUp(t);
    forall i | 1 <= i < |t.nodes| ensures TransitOk(t.nodes[i]) && DownExplained(t, i) {
      assert TransitOk(s.nodes[i]) && DownExplained(s, i);
    }
    if n != s.nodes[0] {
      var k :| 1 <= k < |s.nodes| && !s.nodes[k].BothForwarding();
      assert !t.nodes[k].BothForwarding();
    } else {
      assert !Looped(s);
      var k :| 0 <= k < |s.nodes| && !s.nodes[k].BothForwarding();
      assert !t.nodes[k].BothForwarding();
    }
  }

  lemma WaitersKept(s: Net, n: Node, fs: multiset<Frame>)
    requires s.nodes != []
    ensures SomeWait(s.(nodes := s.nodes[0 := n], frames := fs)) <==> SomeWait(s)
  {
    var t := s.(nodes := s.nodes[0 := n], frames := fs);
    if k :| 1 <= k < |s.nodes| && !s.nodes[k].BothForwarding() { assert !t.nodes[k].BothForwarding(); }
    if k :| 1 <= k < |t.nodes| && !t.nodes[k].BothForwarding() { assert !s.nodes[k].BothForwarding(); }
  }

  /** The flush that a run-out timer sends ends at the first transit node. */
  lemma CommonEnds(mac: P.Mac, p: Plant, i: nat)
    requires Coupled(p, i) && COMMON_TO_FIRST in p.net.frames
    ensures Arrived(mac, p, i, COMMON_TO_FIRST) ==
            p.(net := p.net.(frames := p.net.frames - multiset{COMMON_TO_FIRST}))
  {
    var s := p.net;
    assert s.nodes[1 := s.nodes[1]] == s.nodes;
    PutNone(s, 1);
  }

  // -------------------------------------------------------------------- never a cycle

  /** The HELLO is on its way round, or its flushes are, and the fail timer reaches further than the
      next one. */
  ghost predicate Ending(p: Plant, i: nat) {
    Coupled(p, i) && OnRound(p.net) && T.OutlastsHello(p.domain)
  }

  lemma ArrivedCounters(mac: P.Mac, p: Plant, i: nat, f: Frame)
    requires Coupled(p, i) && f.to < |p.net.nodes| && f.ptype != EDGE_HELLO_PACKET
    ensures var d := Arrived(mac, p, i, f).domain;
            && d.helloTimer == p.domain.helloTimer && d.failTimer == p.domain.failTimer
            && d.helloCount == p.domain.helloCount
            && (d.failCount == p.domain.failCount || d.failCount == d.failTimer)
            && (f.ptype != HELLO_PACKET || p.net.nodes[0].status == NODE_FAIL ==> d.failCount == p.domain.failCount)
  {
    hide P.AssembleAll, DeliverFrame;
  }

  lemma RoundArrives(mac: P.Mac, p: Plant, i: nat, f: Frame)
    requires Coupled(p, i) && OnRound(p.net) && f in p.net.frames && f.to < |p.net.nodes|
    requires f.ptype != EDGE_HELLO_PACKET
    ensures Coupled(Arrived(mac, p, i, f), i) && OnRound(Arrived(mac, p, i, f).net)
  {
    hide DeliverFrame, OnRound, Coupled;
    CoupledStatic(p, i);
    RoundBounded(p.net);
    ArrivedCoupled(mac, p, i, f);
    assert Follows(p.net, Deliver(f), DeliverFrame(p.net, f));
    RoundDeliver(p.net, Deliver(f), DeliverFrame(p.net, f));
  }

  lemma RoundBounded(s: Net)
    requires OnRound(s)
    ensures InBounds(s)
  {
    assert forall f :: f in s.frames ==> FrameOk(s, f);
  }

  lemma RoundOver(s: Net)
    requires OnRound(s) && Quiet(s)
    ensures Settled(s)
  {
    hide Conv, HelloOut;
    NoHelloOut(s);
    CompleteIsSettled(s);
  }

  lemma EndingOver(p: Plant, i: nat)
    requires Ending(p, i) && Quiet(p.net)
    ensures Safe(p, i)
  {
    hide OnRound, Coupled, Settled;
    RoundOver(p.net);
  }

  lemma EndingMoves(mac: P.Mac, i: nat, p: Plant, m: Move, q: Plant)
    requires Ending(p, i) && !Quiet(p.net) && Moves(mac, i, p, m, q)
    ensures Ending(q, i)
  {
    hide OnRound, Coupled, Arrived;
    CoupledTimers(p, i);
    RoundArrives(mac, p, i, m.frame);
    ArrivedCounters(mac, p, i, m.frame);
  }

  lemma CoupledTimers(p: Plant, i: nat)
    requires Coupled(p, i)
    ensures T.TimersOk(p.domain)
  {
  }

  /** The HELLO of a failed master leaves: the ring is on its way back. */
  lemma RoundBegins(s: Net, n: Node, fs: multiset<Frame>, to: nat)
    requires Loose(s) && AllUp(s) && s.pending == {} && s.nodes[0].status == NODE_FAIL
    requires n == s.nodes[0] || (n == Expired(s.nodes[0]) && SomeWait(s))
    requires forall f :: f in fs ==> f == HelloTo(1) || f == HelloTo(0) || f == COMMON_TO_FIRST
    requires HelloTo(to) in fs
    ensures OnRound(s.(nodes := s.nodes[0 := n], frames := fs))
  {
    hide Loose, SomeWait;
    MasterKnown(s);
    TickedLoose(s, n, fs);
    LooseFailed(s.(nodes := s.nodes[0 := n], frames := fs));
  }

  lemma LooseFailed(s: Net)
    requires Loose(s) && s.pending == {} && s.nodes[0].status == NODE_FAIL
    ensures Conv(s)
  {
    hide Inv, DownExplained;
  }

  lemma RepairedTicks(mac: P.Mac, i: nat, p: Plant)
    requires Repaired(p, i) && Harmless(p) && Quiet(p.net)
    ensures var q := Ticked(mac, p, i);
            Coupled(q, i) && if p.domain.helloCount == 0 then Ending(q, i) else Repaired(q, i) && Harmless(q)
  {
    hide Loose, Ticked, SomeWait, Coupled, OnRound;
    var q := Ticked(mac, p, i);
    CoupledTimers(p, i);
    TickedIs(mac, p, i);
    CoupledTimers(q, i);
    T.TooLowNext(p.domain, q.domain);
    MasterKnown(p.net);
    hide T.TooLow;
    var n, fs := NextMaster(p), HelloSent(p.domain) + CommonSent(p.domain);
    if p.domain.helloCount == 0 {
      RoundBegins(p.net, n, fs, 1);
    } else {
      TickedLoose(p.net, n, fs);
      WaitersKept(p.net, n, fs);
    }
  }

  lemma RepairedHears(mac: P.Mac, i: nat, p: Plant)
    requires Repaired(p, i) && Harmless(p) && p.net.frames == multiset{COMMON_TO_FIRST}
    ensures var q := Arrived(mac, p, i, COMMON_TO_FIRST); Repaired(q, i) && Harmless(q)
  {
    hide Loose, Arrived, SomeWait, T.TooLow, Coupled;
    CoupledStatic(p, i);
    CommonEnds(mac, p, i);
    TickedLoose(p.net, p.net.nodes[0], multiset{});
    assert p.net.nodes[0 := p.net.nodes[0]] == p.net.nodes;
    WaitersKept(p.net, p.net.nodes[0], multiset{});
    assert p.net.frames - multiset{COMMON_TO_FIRST} == multiset{};
    CalmCoupled(p, i, multiset{});
  }

  lemma RepairedMoves(mac: P.Mac, i: nat, p: Plant, m: Move, q: Plant)
    requires Repaired(p, i) && Harmless(p) && Moves(mac, i, p, m, q)
    ensures (Repaired(q, i) && Harmless(q)) || Ending(q, i)
  {
    hide Loose, Arrived, Ticked, Harmless, Ending, Coupled;
    if m.Second? {
      RepairedTicks(mac, i, p);
    } else {
      assert m.frame == COMMON_TO_FIRST;
      RepairedHears(mac, i, p);
    }
  }

  lemma LooseNotLooped(s: Net)
    requires Loose(s)
    ensures !Looped(s)
  {
  }

  lemma EndingLoose(p: Plant, i: nat)
    requires Ending(p, i)
    ensures Loose(p.net)
  {
    ConvIsLoose(p.net);
  }

  lemma {:induction false} EndingReaches(mac: P.Mac, i: nat, p: Plant, q: Plant, n: nat)
    requires Ending(p, i) && Reaches(mac, i, p, q, n)
    ensures !Looped(q.net)
    decreases n
  {
    hide Ending, Moves, Looped, Safe;
    if Quiet(p.net) {
      EndingOver(p, i);
      SafeReaches(mac, i, p, q, n);
    } else if n == 0 {
      EndingLoose(p, i);
      LooseNotLooped(p.net);
    } else {
      var m, r :| Moves(mac, i, p, m, r) && Reaches(mac, i, r, q, n - 1);
      EndingMoves(mac, i, p, m, r);
      EndingReaches(mac, i, r, q, n - 1);
    }
  }

  lemma {:induction false} HarmlessReaches(mac: P.Mac, i: nat, p: Plant, q: Plant, n: nat)
    requires Repaired(p, i) && Harmless(p) && Reaches(mac, i, p, q, n)
    ensures !Looped(q.net)
    decreases n
  {
    hide Ending, Moves, Looped, Harmless, Loose;
    if n == 0 {
      LooseNotLooped(p.net);
    } else {
      var m, r :| Moves(mac, i, p, m, r) && Reaches(mac, i, r, q, n - 1);
      RepairedMoves(mac, i, p, m, r);
      if Ending(r, i) {
        EndingReaches(mac, i, r, q, n - 1);
      } else {
        HarmlessReaches(mac, i, r, q, n - 1);
      }
    }
  }

  // -------------------------------------------------------------------- or surely one

  lemma {:induction false} ReachesThen(mac: P.Mac, i: nat, p: Plant, r: Plant, q: Plant, a: nat, b: nat)
    requires Reaches(mac, i, p, r, a) && Reaches(mac, i, r, q, b)
    ensures Reaches(mac, i, p, q, a + b)
    decreases a
  {
    hide Moves;
    if a > 0 {
      var m, x :| Moves(mac, i, p, m, x) && Reaches(mac, i, x, r, a - 1);
      ReachesThen(mac, i, x, r, q, a - 1, b);
      ReachesNext(mac, i, p, m, x, q, a - 1 + b);
    }
  }

  lemma FlushOnly(s: Net, f: Frame)
    requires Loose(s) && f in s.frames && f.to < |s.nodes| && forall g :: g in s.frames ==> Release(g)
    ensures forall g :: g in DeliverFrame(s, f).frames ==> Release(g)
  {
    hide Put, PutAll, FrameOk, Looped;
    PutNone(s, f.to);
    forall g | g in DeliverFrame(s, f).frames && g !in s.frames ensures Release(g) {
      PassedFrame(s, f, g);
    }
  }

  /** The flushes of a COMPLETE master can all be delivered, and leave the ring settled and the counters
      alone. */
  lemma {:induction false} Drain(mac: P.Mac, p: Plant, i: nat) returns (q: Plant, n: nat)
    requires Coupled(p, i) && OnRound(p.net) && forall g :: g in p.net.frames ==> Release(g)
    ensures Reaches(mac, i, p, q, n) && Coupled(q, i) && Quiet(q.net) && Settled(q.net)
    ensures q.domain.helloTimer == p.domain.helloTimer && q.domain.failTimer == p.domain.failTimer
    ensures q.domain.helloCount == p.domain.helloCount && q.domain.failCount == p.domain.failCount
    decreases Work(|p.net.nodes|, p.net.frames)
  {
    hide OnRound, Coupled, Reaches, Arrived, Work, Settled, Loose, Release;
    RoundFacts(p.net);
    if p.net.frames == multiset{} {
      RoundOver(p.net);
      q, n := p, 0;
      ReachesNow(mac, i, p);
    } else {
      var f :| f in p.net.frames;
      ReleaseIs(f);
      var r := Arrived(mac, p, i, f);
      assert Moves(mac, i, p, Arrive(f), r);
      RoundArrives(mac, p, i, f);
      ArrivedCounters(mac, p, i, f);
      DrainStep(mac, p, i, f);
      q, n := Drain(mac, r, i);
      ReachesNext(mac, i, p, Arrive(f), r, q, n);
      n := n + 1;
    }
  }

  lemma ReleaseIs(f: Frame)
    requires Release(f)
    ensures f.ptype == COMPLETE_FLUSH_PACKET
  {
  }

  lemma RoundFacts(s: Net)
    requires OnRound(s)
    ensures Loose(s) && s.pending == {} && forall f :: f in s.frames ==> f.to < |s.nodes|
  {
    ConvIsLoose(s);
    assert forall f :: f in s.frames ==> FrameOk(s, f);
  }

  lemma DrainStep(mac: P.Mac, p: Plant, i: nat, f: Frame)
    requires Coupled(p, i) && Loose(p.net) && f in p.net.frames && f.to < |p.net.nodes| && f.ptype != EDGE_HELLO_PACKET
    requires forall g :: g in p.net.frames ==> Release(g)
    ensures var r := Arrived(mac, p, i, f);
            && (forall g :: g in r.net.frames ==> Release(g))
            && |r.net.nodes| == |p.net.nodes| && Work(|r.net.nodes|, r.net.frames) < Work(|p.net.nodes|, p.net.frames)
  {
    hide DeliverFrame, Work, HandleNode, Coupled;
    FlushOnly(p.net, f);
    LinksKept(p.net, f);
    DeliveryProgress(p.net, f);
  }

  /** A HELLO that comes home to a failed master: COMPLETE, nothing but flushes, and the counters as they
      were. */
  lemma HomeFlushes(mac: P.Mac, p: Plant, i: nat)
    requires Coupled(p, i) && p.net.frames == multiset{HelloTo(0)} && p.net.nodes[0].status == NODE_FAIL
    ensures forall g :: g in Arrived(mac, p, i, HelloTo(0)).net.frames ==> Release(g)
  {
    hide P.Handle, Put;
    var s, f := p.net, HelloTo(0);
    var o := HandleNode(s.nodes[0], s.level, true, HELLO_PACKET);
    forall g | g in DeliverFrame(s, f).frames ensures Release(g) {
      var e := PutAllIn(s, 0, o.emits, g);
    }
  }

  /** From a plant with its HELLO out, a failed master and a counter too low, a cycle is reached. */
  lemma RoundThenLoop(mac: P.Mac, p: Plant, i: nat) returns (q: Plant, n: nat)
    requires Coupled(p, i) && AllUp(p.net) && p.net.frames == multiset{HelloTo(1)} && p.net.nodes[0].status == NODE_FAIL
    requires OnRound(p.net.(frames := multiset{HelloTo(0)})) && !T.OutlastsHello(p.domain)
    ensures Reaches(mac, i, p, q, n) && Looped(q.net)
  {
    hide OnRound, Reaches, Arrived, Settled, Looped, Release;
    var p0 := p.(net := p.net.(frames := multiset{HelloTo(0)}));
    assert Coupled(p0, i);
    var home := Arrived(mac, p0, i, HelloTo(0));
    assert Moves(mac, i, p0, Arrive(HelloTo(0)), home);
    RoundArrives(mac, p0, i, HelloTo(0));
    ArrivedCounters(mac, p0, i, HelloTo(0));
    HomeFlushes(mac, p0, i);
    var r, a := Drain(mac, home, i);
    var b;
    q, b := LoopReached(mac, r, i);
    ReachesThen(mac, i, home, r, q, a, b);
    ReachesNext(mac, i, p0, Arrive(HelloTo(0)), home, q, a + b);
    n := HelloCarried(mac, p, i, 1, q, a + b + 1);
  }

  /** What is reached without the flush of a run-out timer is reached with it. */
  lemma CommonFirst(mac: P.Mac, i: nat, p: Plant, fs: multiset<Frame>, q: Plant, n: nat) returns (k: nat)
    requires Coupled(p, i) && p.net.frames == fs + multiset{COMMON_TO_FIRST}
    requires Reaches(mac, i, p.(net := p.net.(frames := fs)), q, n)
    ensures Reaches(mac, i, p, q, k)
  {
    hide Arrived, Reaches;
    CommonEnds(mac, p, i);
    var r := Arrived(mac, p, i, COMMON_TO_FIRST);
    assert p.net.frames - multiset{COMMON_TO_FIRST} == fs;
    assert Moves(mac, i, p, Arrive(COMMON_TO_FIRST), r);
    ReachesNext(mac, i, p, Arrive(COMMON_TO_FIRST), r, q, n);
    k := n + 1;
  }

  lemma LastOpens(mac: P.Mac, p: Plant, i: nat)
    requires Repaired(p, i) && Quiet(p.net) && !SomeWait(p.net) && p.domain.failCount == 0
    ensures Looped(Ticked(mac, p, i).net)
  {
    hide Looped, FrameOk, Ticked;
    TickedIs(mac, p, i);
    ExpiryOnIntactRing(p.net);
    LoopedNodes(p.net.(nodes := p.net.nodes[0 := NextMaster(p)]), Ticked(mac, p, i).net);
  }

  lemma LoopedNodes(s: Net, t: Net)
    requires t.nodes == s.nodes && t.links == s.links
    ensures Looped(t) <==> Looped(s)
  {
  }

  lemma {:induction false} HarmReached(mac: P.Mac, p: Plant, i: nat) returns (q: Plant, n: nat)
    requires Repaired(p, i) && Quiet(p.net) && !Harmless(p)
    ensures Reaches(mac, i, p, q, n) && Looped(q.net)
    decreases p.domain.helloCount
  {
    hide Reaches, Looped, Ticked, SomeWait, Loose, T.TooLow, Coupled;
    var r := Ticked(mac, p, i);
    assert Moves(mac, i, p, Second, r);
    if p.domain.failCount == 0 && !SomeWait(p.net) {
      LastOpens(mac, p, i);
      q, n := r, 1;
      ReachesNow(mac, i, r);
      ReachesNext(mac, i, p, Second, r, r, 0);
    } else {
      q, n := HarmNext(mac, p, i);
      ReachesNext(mac, i, p, Second, r, q, n);
      n := n + 1;
    }
  }

  /** After a second that does not close the cycle, the cycle is still ahead. */
  lemma {:induction false} HarmNext(mac: P.Mac, p: Plant, i: nat) returns (q: Plant, n: nat)
    requires Repaired(p, i) && Quiet(p.net) && !Harmless(p) && (p.domain.failCount != 0 || SomeWait(p.net))
    ensures Reaches(mac, i, Ticked(mac, p, i), q, n) && Looped(q.net)
    decreases p.domain.helloCount, 0
  {
    hide Reaches, Looped, Ticked, SomeWait, Loose, T.TooLow, Coupled, OnRound;
    var r := Ticked(mac, p, i);
    CoupledTimers(p, i);
    TickedIs(mac, p, i);
    CoupledTimers(r, i);
    T.TooLowNext(p.domain, r.domain);
    MasterKnown(p.net);
    var master, fs := NextMaster(p), HelloSent(p.domain);
    var calm := r.(net := r.net.(frames := fs));
    CalmCoupled(r, i, fs);
    if p.domain.helloCount == 0 {
      RoundBegins(p.net, master, multiset{HelloTo(0)}, 0);
      q, n := RoundThenLoop(mac, calm, i);
    } else {
      TickedLoose(p.net, master, fs);
      WaitersKept(p.net, master, fs);
      q, n := HarmReached(mac, calm, i);
    }
    if p.domain.failCount == 0 {
      n := CommonFirst(mac, i, r, fs, q, n);
    } else {
      assert calm == r;
    }
  }

  lemma CalmCoupled(p: Plant, i: nat, fs: multiset<Frame>)
    requires Coupled(p, i)
    ensures Coupled(p.(net := p.net.(frames := fs)), i)
  {
  }

  /** A ring that is whole again under a failed master, driven by the timers of the master with every
      HELLO home within its second, is never closed to a cycle if and only if the fail counter is high
      enough at the next HELLO and either a transit node waits or the fail counter is ahead of the hello
      counter. */
  lemma RepairedRingSafe(mac: P.Mac, p: Plant, i: nat)
    requires Repaired(p, i) && Quiet(p.net)
    ensures (forall q, n: nat :: Reaches(mac, i, p, q, n) ==> !Looped(q.net)) <==> Harmless(p)
  {
    hide Repaired, Looped, Reaches, Harmless;
    RepairedTimers(p, i);
    if Harmless(p) {
      forall q, n: nat | Reaches(mac, i, p, q, n) ensures !Looped(q.net) {
        HarmlessReaches(mac, i, p, q, n);
      }
    } else {
      var q, n := HarmReached(mac, p, i);
    }
  }

  lemma RepairedTimers(p: Plant, i: nat)
    requires Repaired(p, i)
    ensures T.TimersOk(p.domain)
  {
  }
}
