/** Which transit nodes wait, told from the actions of any run, and when a whole ring is settled. */
module ErppWaiting {
  import opened ErppNode
  import opened ErppRing
  import opened ErppConvergence

  // ------------------------------------------------ who waits, told from the actions

  /** Node `i` has handled a link-up event and no COMPLETE_FLUSH has reached it since. */
  predicate Waiting(actions: seq<Action>, i: nat, k: nat)
    requires k <= |actions|
  {
    if k == 0 then false
    else
      match actions[k - 1]
      case Handle(p) => (p.node == i && p.up) || Waiting(actions, i, k - 1)
      case Deliver(f) => !(f.to == i && Release(f)) && Waiting(actions, i, k - 1)
      case _ => Waiting(actions, i, k - 1)
  }

  /** The action after which node `i` waits. */
  predicate MakesWait(a: Action, i: nat) {
    a.Handle? && a.notice.node == i && a.notice.up
  }

  predicate Frees(a: Action, i: nat) {
    a.Deliver? && a.frame.to == i && Release(a.frame)
  }

  lemma NoticeWaits(n: Node, netif: int, up: bool)
    requires n.Owns(netif) && n.port0.netif != n.port1.netif && n.role.Transmit?
    ensures var n' := NoticeReaction(n, netif, up).node;
            && (up ==> !n'.BothForwarding())
            && (!up ==> (n'.status == PRE_FORWARDING ==> n.status == PRE_FORWARDING))
            && (!up ==> (n'.BothForwarding() ==> n.BothForwarding()))
  {
  }

  lemma ReleaseFrees(n: Node, level: int)
    ensures HandleNode(n, level, false, COMPLETE_FLUSH_PACKET).node.status != PRE_FORWARDING
  {
  }

  /** What one action does to the waiting of one transit node. */
  lemma WaitStep(s: Net, a: Action, i: nat)
    requires Loose(s) && InBounds(s) && Enabled(s, a) && 1 <= i < |s.nodes|
    ensures var n, n' := s.nodes[i], Do(s, a).nodes[i];
            if MakesWait(a, i) then !n'.BothForwarding()
            else if Frees(a, i) then n'.status != PRE_FORWARDING
            else (n'.status == PRE_FORWARDING ==> n.status == PRE_FORWARDING) &&
                 (n'.BothForwarding() ==> n.BothForwarding())
  {
    hide HandleNode, Put, PutAll, Looped, NoticeReaction, DownExplained;
    match a
    case Handle(p) =>
      if p.node == i { NoticeWaits(s.nodes[i], PortAt(s, i, p.side).netif, p.up); }
    case Deliver(f) =>
      assert FrameOk(s, f);
      if f.to == i {
        PacketStatus(s.nodes[i], s.level, f.origin == i, f.ptype);
        if Release(f) { ReleaseFrees(s.nodes[i], s.level); }
      }
    case _ =>
  }

  lemma WaitingUnfold(actions: seq<Action>, i: nat, k: nat)
    requires 0 < k <= |actions|
    ensures var a := actions[k - 1];
            Waiting(actions, i, k) <==> MakesWait(a, i) || (!Frees(a, i) && Waiting(actions, i, k - 1))
  {
  }

  /** Whether node `i` waits agrees with its state. */
  predicate Agrees(s: Net, i: nat, waits: bool)
    requires i < |s.nodes|
  {
    (s.nodes[i].status == PRE_FORWARDING ==> waits) && (waits ==> !s.nodes[i].BothForwarding())
  }

  lemma NobodyWaits(states: seq<Net>, actions: seq<Action>, i: nat)
    requires IsRun(states, actions) && 1 <= i < |states[0].nodes|
    ensures Agrees(states[0], i, Waiting(actions, i, 0))
  {
    hide Follows;
  }

  lemma AgreesNext(s: Net, a: Action, t: Net, i: nat, waits: bool)
    requires Loose(s) && Follows(s, a, t) && 1 <= i < |s.nodes| && Agrees(s, i, waits)
    ensures |t.nodes| == |s.nodes| && Agrees(t, i, MakesWait(a, i) || (!Frees(a, i) && waits))
  {
    hide Do, Loose, Enabled;
    SameSize(s, a);
    WaitStep(s, a, i);
  }

  lemma {:induction false} WaitingKept(states: seq<Net>, actions: seq<Action>, i: nat, k: nat)
    requires IsRun(states, actions) && k < |states| && 1 <= i < |states[0].nodes|
    ensures |states[k].nodes| == |states[0].nodes| && Agrees(states[k], i, Waiting(actions, i, k))
  {
    hide IsRun, Follows, Loose, Waiting, Agrees;
    if k == 0 {
      NobodyWaits(states, actions, i);
    } else {
      WaitingKept(states, actions, i, k - 1);
      RunFollows(states, actions, k - 1);
      WaitingUnfold(actions, i, k);
      RunLoose(states, actions, k - 1);
      AgreesNext(states[k - 1], actions[k - 1], states[k], i, Waiting(actions, i, k - 1));
    }
  }

  lemma RunFollows(states: seq<Net>, actions: seq<Action>, k: nat)
    requires IsRun(states, actions) && k + 1 < |states|
    ensures |states| == |actions| + 1 && Follows(states[k], actions[k], states[k + 1])
  {
  }

  lemma WaitsOrForwards(s: Net, i: nat)
    requires Loose(s) && AllUp(s) && s.pending == {} && 1 <= i < |s.nodes|
    ensures s.nodes[i].BothForwarding() <==> s.nodes[i].status != PRE_FORWARDING
    ensures s.nodes[i].BothForwarding() <==> s.nodes[i].status == LINK_UP
  {
    assert TransitOk(s.nodes[i]) && DownExplained(s, i);
  }

  lemma MasterPorts(s: Net)
    requires Loose(s) && AllUp(s) && s.pending == {} && s.nodes[0].status == NODE_COMPLETE
    ensures s.nodes[0].port0.status.Forwarding? && s.nodes[0].port1.status.Block?
  {
  }

  /** In every run, on a ring whose links are up and with nothing under way: a node does not forward
      on both ports if and only if it waits. */
  lemma WaitsExactly(states: seq<Net>, actions: seq<Action>, i: nat, k: nat)
    requires IsRun(states, actions) && k < |states| && Quiet(states[k]) && AllUp(states[k])
    requires 1 <= i < |states[k].nodes|
    ensures Waiting(actions, i, k) <==> !states[k].nodes[i].BothForwarding()
  {
    hide Loose, Waiting;
    RunLoose(states, actions, k);
    WaitingKept(states, actions, i, k);
    WaitsOrForwards(states[k], i);
  }

  /** In every run, a whole ring with nothing under way is settled if and only if its master is
      COMPLETE and every link-up event that a transit node has handled was followed by a
      COMPLETE_FLUSH at that node. */
  lemma SettledExactly(states: seq<Net>, actions: seq<Action>, k: nat)
    requires IsRun(states, actions) && k < |states| && Quiet(states[k]) && AllUp(states[k])
    ensures Static(states[k])
    ensures Settled(states[k]) <==>
            && states[k].nodes[0].status == NODE_COMPLETE
            && forall i :: 1 <= i < |states[k].nodes| ==> !Waiting(actions, i, k)
  {
    hide Waiting, Loose;
    var s := states[k];
    RunLoose(states, actions, k);
    SettledNodes(s);
    if forall i :: 1 <= i < |s.nodes| ==> s.nodes[i].BothForwarding() {
      forall i | 1 <= i < |s.nodes| ensures !Waiting(actions, i, k) {
        WaitsExactly(states, actions, i, k);
      }
    } else {
      var i :| 1 <= i < |s.nodes| && !s.nodes[i].BothForwarding();
      WaitsExactly(states, actions, i, k);
    }
  }

  lemma SettledNodes(s: Net)
    requires Loose(s) && AllUp(s) && s.pending == {}
    ensures Static(s)
    ensures Settled(s) <==>
            s.nodes[0].status == NODE_COMPLETE && forall i :: 1 <= i < |s.nodes| ==> s.nodes[i].BothForwarding()
  {
    if s.nodes[0].status == NODE_COMPLETE { MasterPorts(s); }
    forall i | 1 <= i < |s.nodes| ensures s.nodes[i].BothForwarding() <==> s.nodes[i].status == LINK_UP {
      WaitsOrForwards(s, i);
    }
  }
}
