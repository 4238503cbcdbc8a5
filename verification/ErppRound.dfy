/** HELLO rounds: they end, and they leave the ring settled. */
module ErppRound {
  import opened ErppNode
  import opened ErppRing
  import opened ErppConvergence

  // ------------------------------------------------------- every round comes to an end

  /** How many nodes lie ahead of a packet at `from` until it reaches `to`. */
  function Distance(m: nat, from: nat, to: nat, side: Side): nat
    requires from < m && to < m
  {
    if side.Ccw? then if from <= to then to - from else m - from + to
    else if to <= from then from - to else from + m - to
  }

  /** A bound on the deliveries that a packet can still cause. */
  function Weight(m: nat, f: Frame): (w: nat)
    ensures w >= 1
  {
    if f.to >= m || f.origin >= m then 1
    else if f.ptype == HELLO_PACKET then 1 + Distance(m, f.to, f.origin, f.side) + 2 * m
    else if f.ptype == COMPLETE_FLUSH_PACKET || f.ptype == FAULT_PACKET then 1 + Distance(m, f.to, f.origin, f.side)
    else if f.ptype == LINK_DOWN_PACKET then 3 + Distance(m, f.to, 0, f.side)
    else 1
  }

  ghost function Work(m: nat, fs: multiset<Frame>): nat
    decreases |fs|
  {
    if fs == multiset{} then 0 else
    var f :| f in fs;
    Weight(m, f) + Work(m, fs - multiset{f})
  }

  lemma {:induction false} WorkWithout(m: nat, fs: multiset<Frame>, g: Frame)
    requires g in fs
    ensures Work(m, fs) == Weight(m, g) + Work(m, fs - multiset{g})
    decreases |fs|
  {
    hide Weight;
    var f :| f in fs && Work(m, fs) == Weight(m, f) + Work(m, fs - multiset{f});
    if f != g {
      WorkWithout(m, fs - multiset{f}, g);
      WorkWithout(m, fs - multiset{g}, f);
      assert fs - multiset{f} - multiset{g} == fs - multiset{g} - multiset{f};
    }
  }

  lemma WorkPlus(m: nat, fs: multiset<Frame>, g: Frame)
    ensures Work(m, fs + multiset{g}) == Weight(m, g) + Work(m, fs)
  {
    WorkWithout(m, fs + multiset{g}, g);
    assert fs + multiset{g} - multiset{g} == fs;
  }

  /** Sending a packet costs at most its weight, and nothing when it is lost. */
  lemma PutCost(s: Net, i: nat, netif: int, ptype: int, origin: nat, fs: multiset<Frame>, w: nat)
    requires Static(s) && i < |s.nodes|
    requires forall f :: f in Put(s, i, netif, ptype, origin) ==> Weight(|s.nodes|, f) <= w
    ensures Work(|s.nodes|, fs + Put(s, i, netif, ptype, origin)) <= Work(|s.nodes|, fs) + w
  {
    var p := Put(s, i, netif, ptype, origin);
    if p == multiset{} {
      assert fs + p == fs;
    } else {
      var f :| p == multiset{f};
      assert f in p;
      WorkPlus(|s.nodes|, fs, f);
    }
  }

  lemma PutPairCost(s: Net, i: nat, e0: Emit, e1: Emit, fs: multiset<Frame>, w: nat)
    requires Static(s) && i < |s.nodes|
    requires forall f :: f in Put(s, i, e0.netif, e0.ptype, i) ==> Weight(|s.nodes|, f) <= w
    requires forall f :: f in Put(s, i, e1.netif, e1.ptype, i) ==> Weight(|s.nodes|, f) <= w
    ensures Work(|s.nodes|, fs + PutAll(s, i, [e0, e1])) <= Work(|s.nodes|, fs) + 2 * w
  {
    var a, b := Put(s, i, e0.netif, e0.ptype, i), Put(s, i, e1.netif, e1.ptype, i);
    PutCost(s, i, e0.netif, e0.ptype, i, fs, w);
    PutCost(s, i, e1.netif, e1.ptype, i, fs + a, w);
    assert [e0, e1][1..] == [e1];
    PutOne(s, i, e1);
    assert fs + PutAll(s, i, [e0, e1]) == fs + a + b;
  }

  lemma HopWeight(m: nat, f: Frame)
    requires f.to < m && f.origin < m
    requires if f.ptype == LINK_DOWN_PACKET then f.to != 0 else f.to != f.origin
    requires f.ptype == HELLO_PACKET || f.ptype == COMPLETE_FLUSH_PACKET || f.ptype == LINK_DOWN_PACKET ||
             f.ptype == FAULT_PACKET
    ensures Weight(m, Frame(Neighbour(m, f.to, f.side.Opposite()), f.side, f.ptype, f.origin)) < Weight(m, f)
  {
  }

  lemma PassCost(s: Net, f: Frame)
    requires Inv(s) && f in s.frames && f.to < |s.nodes|
    requires HandleNode(s.nodes[f.to], s.level, f.origin == f.to, f.ptype).passes
    ensures Work(|s.nodes|, DeliverFrame(s, f).frames) < Work(|s.nodes|, s.frames)
  {
    hide Put, Looped, Weight, PutAll;
    assert FrameOk(s, f);
    var m, n, rest := |s.nodes|, s.nodes[f.to], s.frames - multiset{f};
    var netif := n.Opposite(PortAt(s, f.to, f.side).netif);
    WorkWithout(m, s.frames, f);
    HopWeight(m, f);
    forall g | g in Put(s, f.to, netif, f.ptype, f.origin) ensures Weight(m, g) < Weight(m, f) {
      PassedFrame(s, f, g);
    }
    PutCost(s, f.to, netif, f.ptype, f.origin, rest, Weight(m, f) - 1);
    assert HandleNode(n, s.level, f.origin == f.to, f.ptype).emits == [];
    PutNone(s, f.to);
    assert DeliverFrame(s, f).frames == rest + Put(s, f.to, netif, f.ptype, f.origin);
  }

  lemma PutNone(s: Net, i: nat)
    requires Static(s) && i < |s.nodes|
    ensures PutAll(s, i, []) == multiset{}
  {
  }

  /** What the master sends out weighs less than the packet that made it do so. */
  lemma EmitWeight(s: Net, netif: int, ptype: int, f: Frame)
    requires Static(s) && f in Put(s, 0, netif, ptype, 0)
    requires ptype == COMPLETE_FLUSH_PACKET || ptype == COMMON_FLUSH_PACKET
    ensures Weight(|s.nodes|, f) <= if ptype == COMPLETE_FLUSH_PACKET then |s.nodes| else 1
  {
  }

  lemma StopCost(s: Net, f: Frame)
    requires Inv(s) && f in s.frames && f.to < |s.nodes|
    requires !HandleNode(s.nodes[f.to], s.level, f.origin == f.to, f.ptype).passes
    ensures Work(|s.nodes|, DeliverFrame(s, f).frames) < Work(|s.nodes|, s.frames)
  {
    hide Looped, Put, PutAll;
    assert FrameOk(s, f);
    var m, n, rest := |s.nodes|, s.nodes[f.to], s.frames - multiset{f};
    var o := HandleNode(n, s.level, f.origin == f.to, f.ptype);
    WorkWithout(m, s.frames, f);
    if o.emits == [] {
      PutNone(s, f.to);
      assert DeliverFrame(s, f).frames == rest;
    } else {
      assert f.to == 0;
      var ptype := if f.ptype == HELLO_PACKET then COMPLETE_FLUSH_PACKET else COMMON_FLUSH_PACKET;
      var e0, e1 := Emit(ptype, n.port0.netif), Emit(ptype, n.port1.netif);
      assert o.emits == [e0, e1];
      StopPair(s, f, ptype, rest);
      assert DeliverFrame(s, f).frames == rest + PutAll(s, 0, [e0, e1]);
    }
  }

  lemma StopPair(s: Net, f: Frame, ptype: int, rest: multiset<Frame>)
    requires Static(s) && f.to == 0 && f.origin < |s.nodes|
    requires if f.ptype == HELLO_PACKET then ptype == COMPLETE_FLUSH_PACKET
             else f.ptype == LINK_DOWN_PACKET && ptype == COMMON_FLUSH_PACKET
    ensures var n := s.nodes[0];
            Work(|s.nodes|, rest + PutAll(s, 0, [Emit(ptype, n.port0.netif), Emit(ptype, n.port1.netif)]))
            < Work(|s.nodes|, rest) + Weight(|s.nodes|, f)
  {
    hide Put, PutAll;
    var n := s.nodes[0];
    forall netif, g | g in Put(s, 0, netif, ptype, 0)
      ensures Weight(|s.nodes|, g) <= if ptype == COMPLETE_FLUSH_PACKET then |s.nodes| else 1
    {
      EmitWeight(s, netif, ptype, g);
    }
    PutPairCost(s, 0, Emit(ptype, n.port0.netif), Emit(ptype, n.port1.netif), rest,
                if ptype == COMPLETE_FLUSH_PACKET then |s.nodes| else 1);
  }

  /** Each delivery leaves less to deliver, whatever the packet and whatever the links. */
  lemma DeliveryProgress(s: Net, f: Frame)
    requires Inv(s) && f in s.frames && f.to < |s.nodes|
    ensures Work(|s.nodes|, DeliverFrame(s, f).frames) < Work(|s.nodes|, s.frames)
  {
    if HandleNode(s.nodes[f.to], s.level, f.origin == f.to, f.ptype).passes {
      PassCost(s, f);
    } else {
      StopCost(s, f);
    }
  }

  lemma DeliverStep(s: Net, a: Action, t: Net)
    requires Follows(s, a, t) && a.Deliver? && Inv(s)
    ensures a.frame in s.frames && t == DeliverFrame(s, a.frame) && |t.nodes| == |s.nodes|
    ensures Work(|t.nodes|, t.frames) < Work(|s.nodes|, s.frames)
  {
    hide Inv, Work, HandleNode;
    DeliveryProgress(s, a.frame);
  }

  /** A stretch of deliveries is no longer than the work at its start. */
  lemma {:induction false} DeliveriesEnd(states: seq<Net>, actions: seq<Action>, k: nat, l: nat)
    requires IsRun(states, actions) && k <= l < |states|
    requires forall x :: k <= x < l ==> actions[x].Deliver?
    ensures |states[l].nodes| == |states[k].nodes|
    ensures l - k + Work(|states[l].nodes|, states[l].frames) <= Work(|states[k].nodes|, states[k].frames)
    decreases l - k
  {
    hide Inv, Work, Follows, DeliverFrame;
    if k < l {
      DeliveriesEnd(states, actions, k, l - 1);
      RingSafety(states, actions, l - 1);
      DeliverStep(states[l - 1], actions[l - 1], states[l]);
    }
  }

  // ------------------------------------------------------------- and settles the ring

  /** The HELLO of the master is on its way round. */
  ghost predicate HelloOut(s: Net) {
    exists to :: HelloTo(to) in s.frames
  }

  lemma RoundStep(s: Net, f: Frame)
    requires Loose(s) && AllUp(s) && f in s.frames && Static(DeliverFrame(s, f))
    requires HelloOut(s) || s.nodes[0].status == NODE_COMPLETE
    ensures AllUp(DeliverFrame(s, f)) && DeliverFrame(s, f).pending == s.pending
    ensures HelloOut(DeliverFrame(s, f)) || DeliverFrame(s, f).nodes[0].status == NODE_COMPLETE
  {
    hide HandleNode, Put, PutAll, Looped;
    assert FrameOk(s, f);
    var t := DeliverFrame(s, f);
    MasterCompletes(s.nodes[0], s.level, f.origin == 0, f.ptype);
    if s.nodes[0].status == NODE_COMPLETE {
      CompleteKept(s.nodes[0], s.level, f.origin == 0, f.ptype);
    } else {
      var to :| HelloTo(to) in s.frames;
      if f == HelloTo(to) && to != 0 {
        Passes(s, f);
        assert HelloTo(Neighbour(|s.nodes|, to, Cw)) in t.frames;
      } else if f != HelloTo(to) {
        assert HelloTo(to) in t.frames;
      }
    }
  }

  /** With all links up and nothing under way, the ring is on its way back if its master has failed or
      no node waits. */
  lemma RoundReady(s: Net)
    requires Loose(s) && Quiet(s) && AllUp(s) && Ready(s)
    ensures Conv(s)
  {
    hide FrameOk, Looped, DownExplained;
    if s.nodes[0].status == NODE_COMPLETE {
      assert Recovering(s);
    }
  }

  /** The master has failed, or every transit node forwards. */
  predicate Ready(s: Net) {
    s.nodes != [] && (s.nodes[0].status == NODE_FAIL || forall i :: 1 <= i < |s.nodes| ==> s.nodes[i].BothForwarding())
  }

  ghost predicate OnRound(s: Net) {
    Conv(s) && AllUp(s) && s.pending == {} && (HelloOut(s) || s.nodes[0].status == NODE_COMPLETE)
  }

  lemma {:induction false} RoundRuns(states: seq<Net>, actions: seq<Action>, k: nat, l: nat)
    requires IsRun(states, actions) && k < l < |states|
    requires Quiet(states[k]) && AllUp(states[k]) && Ready(states[k]) && actions[k].Hello?
    requires forall x :: k < x < l ==> actions[x].Deliver?
    ensures OnRound(states[l])
    decreases l - k
  {
    hide OnRound, Follows, Ready, Loose;
    assert Follows(states[l - 1], actions[l - 1], states[l]);
    if l - 1 == k {
      RunLoose(states, actions, k);
      RoundStart(states[k], states[l]);
    } else {
      RoundRuns(states, actions, k, l - 1);
      RoundDeliver(states[l - 1], actions[l - 1], states[l]);
    }
  }

  lemma RoundStart(s: Net, t: Net)
    requires Follows(s, Hello, t) && Loose(s) && Quiet(s) && AllUp(s) && Ready(s)
    ensures OnRound(t)
  {
    hide Loose, Ready, CompleteOk, FrameOk, Looped, Inv;
    RoundReady(s);
    HelloConv(s);
    assert HelloTo(1) in t.frames;
  }

  lemma RoundDeliver(s: Net, a: Action, t: Net)
    requires OnRound(s) && Follows(s, a, t) && a.Deliver?
    ensures OnRound(t)
  {
    hide DeliverFrame, CompleteOk, Looped, FrameOk, HelloOut, Loose, Shape;
    StepConv(s, a);
    ConvIsLoose(s);
    ConvIsStatic(t);
    RoundStep(s, a.frame);
  }

  lemma ConvIsStatic(s: Net)
    requires Conv(s)
    ensures Static(s)
  {
  }

  lemma RoundBound(s: Net)
    requires Static(s) && InBounds(s) && Quiet(s)
    ensures |Do(s, Hello).nodes| == |s.nodes| && Work(|s.nodes|, Do(s, Hello).frames) <= 3 * |s.nodes|
  {
    PutCost(s, 0, s.nodes[0].port0.netif, HELLO_PACKET, 0, multiset{}, 3 * |s.nodes|);
    assert Work(|s.nodes|, multiset{}) == 0;
  }

  // -------------------------------------------------- and cannot do so for a waiting node

  /** Only HELLOs of the master are under way, and the master is COMPLETE. */
  ghost predicate OnlyHellos(s: Net) {
    && Static(s) && s.nodes[0].status == NODE_COMPLETE
    && forall f :: f in s.frames ==> f.ptype == HELLO_PACKET && f.origin == 0
  }

  lemma HelloStep(s: Net, f: Frame)
    requires OnlyHellos(s) && f in s.frames && f.to < |s.nodes|
    ensures OnlyHellos(DeliverFrame(s, f))
    ensures forall i :: 1 <= i < |s.nodes| ==> DeliverFrame(s, f).nodes[i] == s.nodes[i]
    ensures |DeliverFrame(s, f).nodes| == |s.nodes|
  {
    hide Put, PutAll;
    var t := DeliverFrame(s, f);
    PutNone(s, f.to);
    CompleteIsSilent(s.nodes[0], s.level, HELLO_PACKET);
    forall g | g in t.frames ensures g.ptype == HELLO_PACKET && g.origin == 0 {
      if g !in s.frames {
        PassedFrame(s, f, g);
      }
    }
  }

  lemma HelloStart(s: Net, t: Net)
    requires Follows(s, Hello, t) && Quiet(s) && s.nodes[0].status == NODE_COMPLETE
    ensures OnlyHellos(t) && t.nodes == s.nodes
  {
  }

  lemma {:induction false} WaitersStay(states: seq<Net>, actions: seq<Action>, k: nat, l: nat)
    requires IsRun(states, actions) && k < l < |states|
    requires Quiet(states[k]) && actions[k].Hello? && states[k].nodes != [] &&
             states[k].nodes[0].status == NODE_COMPLETE
    requires forall x :: k < x < l ==> actions[x].Deliver?
    ensures OnlyHellos(states[l]) && |states[l].nodes| == |states[k].nodes|
    ensures forall i :: 1 <= i < |states[k].nodes| ==> states[l].nodes[i] == states[k].nodes[i]
    decreases l - k
  {
    hide OnlyHellos, Do, Enabled;
    assert Follows(states[l - 1], actions[l - 1], states[l]);
    if l - 1 == k {
      HelloStart(states[k], states[l]);
    } else {
      WaitersStay(states, actions, k, l - 1);
      HelloDeliver(states[l - 1], actions[l - 1], states[l]);
    }
  }

  lemma HelloDeliver(s: Net, a: Action, t: Net)
    requires OnlyHellos(s) && Follows(s, a, t) && a.Deliver?
    ensures OnlyHellos(t) && |t.nodes| == |s.nodes| && forall i :: 1 <= i < |s.nodes| ==> t.nodes[i] == s.nodes[i]
  {
    hide DeliverFrame, OnlyHellos;
    HelloStep(s, a.frame);
  }

  /** In every run, from every state with all links up and nothing under way, one HELLO round ends
      after at most three deliveries per node, in any order. It leaves the secondary port of the
      master blocked and everything else forwarding if and only if the master had failed or every
      transit node forwarded before. */
  lemma HelloRoundSettles(states: seq<Net>, actions: seq<Action>, k: nat, l: nat)
    requires IsRun(states, actions) && k < l < |states|
    requires Quiet(states[k]) && AllUp(states[k]) && actions[k].Hello?
    requires forall x :: k < x < l ==> actions[x].Deliver?
    ensures l - k - 1 <= 3 * |states[k].nodes| && states[k].nodes != []
    ensures states[l].frames == multiset{} ==>
              (Settled(states[l]) <==>
               states[k].nodes[0].status == NODE_FAIL ||
               forall i :: 1 <= i < |states[k].nodes| ==> states[k].nodes[i].BothForwarding())
  {
    assert Follows(states[k], actions[k], states[k + 1]);
    RoundBound(states[k]);
    DeliveriesEnd(states, actions, k + 1, l);
    RunLoose(states, actions, k);
    if states[l].frames == multiset{} { RoundEnd(states, actions, k, l); }
  }

  lemma RoundEnd(states: seq<Net>, actions: seq<Action>, k: nat, l: nat)
    requires IsRun(states, actions) && k < l < |states|
    requires Quiet(states[k]) && AllUp(states[k]) && actions[k].Hello? && states[l].frames == multiset{}
    requires forall x :: k < x < l ==> actions[x].Deliver?
    ensures Settled(states[l]) <==> Ready(states[k])
  {
    hide Conv, Loose, Follows, Settled, HelloOut;
    RunLoose(states, actions, k);
    MasterKnown(states[k]);
    if Ready(states[k]) {
      RoundRuns(states, actions, k, l);
      NoHelloOut(states[l]);
      CompleteIsSettled(states[l]);
    } else {
      WaitersStay(states, actions, k, l);
      var i :| 1 <= i < |states[k].nodes| && !states[k].nodes[i].BothForwarding();
      NotSettled(states[l], i);
    }
  }

  lemma NoHelloOut(s: Net)
    requires s.frames == multiset{}
    ensures !HelloOut(s)
  {
  }

  lemma NotSettled(s: Net, i: nat)
    requires 1 <= i < |s.nodes| && !s.nodes[i].BothForwarding()
    ensures !Settled(s)
  {
  }
}
