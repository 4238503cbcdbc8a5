/** What a COMPLETE master knows: exactly which failures of a link reach it, and exactly when COMPLETE
    means that all links are up. */
module ErppReports {
  import opened ErppNode
  import opened ErppRing
  import opened ErppConvergence
  import opened ErppWaiting

  predicate Complete(s: Net) { s.nodes != [] && s.nodes[0].status == NODE_COMPLETE }

  // ------------------------------------------------------- a failure that is reported

  /** A COMPLETE master has all links up, or is about to learn of the one that is down. */
  ghost predicate Known(s: Net) {
    Static(s) && (s.nodes[0].status == NODE_COMPLETE ==> AllUp(s) || exists j :: Failing(s, j))
  }

  lemma QuietKnown(s: Net)
    requires Known(s) && Quiet(s) && s.nodes[0].status == NODE_COMPLETE
    ensures AllUp(s)
  {
  }

  lemma KnownHandle(s: Net, p: Notice)
    requires Loose(s) && Known(s) && p in s.pending
    ensures Known(HandleNotice(s, p))
  {
    hide NoticeReaction, PutAll, Looped, FrameOk, Warned;
    var t := HandleNotice(s, p);
    HandleLoose(s, p);
    NoticeFacts(s.nodes[p.node], PortAt(s, p.node, p.side).netif, p.up);
    if t.nodes[0].status == NODE_COMPLETE && !AllUp(t) {
      var j :| Failing(s, j);
      HandleWarned(s, p, j);
      assert Failing(t, j);
    }
  }

  lemma KnownDeliver(s: Net, f: Frame)
    requires Loose(s) && Known(s) && f in s.frames
    ensures Known(DeliverFrame(s, f))
  {
    hide DeliverFrame, Failing, Looped;
    assert FrameOk(s, f);
    var t := DeliverFrame(s, f);
    DeliverLoose(s, f);
    LinksKept(s, f);
    if t.nodes[0].status == NODE_COMPLETE && !AllUp(t) {
      if s.nodes[0].status != NODE_COMPLETE {
        CompletesWhole(s, f);
        assert false;
      } else {
        var j :| Failing(s, j);
        FailingKept(s, f, j);
      }
    }
  }

  lemma CompletesWhole(s: Net, f: Frame)
    requires Loose(s) && f in s.frames
    requires f.to < |s.nodes| && s.nodes[0].status != NODE_COMPLETE &&
             DeliverFrame(s, f).nodes[0].status == NODE_COMPLETE
    ensures AllUp(s)
  {
    hide HandleNode, Put, PutAll, Looped;
    assert FrameOk(s, f);
    MasterCompletes(s.nodes[0], s.level, f.origin == 0, f.ptype);
  }

  lemma KnownHello(s: Net)
    requires Loose(s) && Known(s) && InBounds(s)
    ensures Known(Do(s, Hello))
  {
    hide Warned, FrameOk, Looped;
    var t := Do(s, Hello);
    if t.nodes[0].status == NODE_COMPLETE && !AllUp(t) {
      var j :| Failing(s, j);
      HelloWarned(s, j);
      assert Failing(t, j);
    }
  }

  /** Link events, packets and HELLOs: what happens between two changes of a link. */
  predicate Between(a: Action) { a.Handle? || a.Deliver? || a.Hello? }

  lemma KnownStep(s: Net, a: Action)
    requires Loose(s) && Known(s) && InBounds(s) && Enabled(s, a) && Between(a)
    ensures Known(Do(s, a))
  {
    hide Change, HandleNotice, DeliverFrame, Put, FrameOk, Looped, DownExplained, Failing;
    match a
    case Handle(p) => KnownHandle(s, p);
    case Deliver(f) => KnownDeliver(s, f);
    case Hello => KnownHello(s);
  }

  // ---------------------------------------------------------- a failure that is not

  /** Link `j` alone is down, the master is COMPLETE, and neither a packet nor an end of the link will
      tell it. */
  ghost predicate Unheard(s: Net, j: nat) {
    && Static(s) && j < |s.links| && !s.links[j] && (forall k :: 0 <= k < |s.links| && k != j ==> s.links[k])
    && s.nodes[0].status == NODE_COMPLETE
    && (forall f :: f in s.frames ==> f.ptype != LINK_DOWN_PACKET)
    && (forall p :: p in s.pending ==> p.node < |s.nodes| && !p.up && !ReporterAt(s, p.node, p.side))
  }

  lemma SilentEnd(n: Node, netif: int, e: Emit)
    requires n.Owns(netif) && n.port0.netif != n.port1.netif && !Reporter(n, netif)
    requires e in NoticeReaction(n, netif, false).emits
    ensures e.ptype != LINK_DOWN_PACKET
  {
  }

  /** An end of the link hears of its failure once. */
  lemma OneNotice(s: Net, j: nat, p: Notice, q: Notice)
    requires Loose(s) && Unheard(s, j) && p in s.pending && q in s.pending && p.node == q.node
    ensures p == q
  {
    assert !s.links[LinkAt(|s.nodes|, p.node, p.side)] && !s.links[LinkAt(|s.nodes|, q.node, q.side)];
  }

  lemma UnheardHandle(s: Net, j: nat, p: Notice)
    requires Loose(s) && Unheard(s, j) && p in s.pending
    ensures Unheard(HandleNotice(s, p), j)
  {
    hide NoticeReaction, PutAll, Looped, FrameOk, Reporter, DownExplained;
    var t := HandleNotice(s, p);
    var n, netif := s.nodes[p.node], PortAt(s, p.node, p.side).netif;
    HandleLoose(s, p);
    NoticeFacts(n, netif, false);
    forall f | f in t.frames ensures f.ptype != LINK_DOWN_PACKET {
      if f !in s.frames {
        var e := PutAllIn(s, p.node, NoticeReaction(n, netif, false).emits, f);
        if p.node != 0 { SilentEnd(n, netif, e); }
      }
    }
    forall q | q in t.pending ensures !ReporterAt(t, q.node, q.side) {
      if q.node == p.node { OneNotice(s, j, p, q); }
    }
  }

  lemma UnheardDeliver(s: Net, j: nat, f: Frame)
    requires Loose(s) && Unheard(s, j) && f in s.frames
    ensures Unheard(DeliverFrame(s, f), j)
  {
    hide HandleNode, Put, PutAll, Looped, Reporter, DownExplained;
    assert FrameOk(s, f) && !Release(f);
    var t, n := DeliverFrame(s, f), s.nodes[f.to];
    DeliverLoose(s, f);
    PacketFacts(n, s.level, f.origin == f.to, f.ptype);
    PacketStatus(n, s.level, f.origin == f.to, f.ptype);
    if f.to == 0 { CompleteKept(n, s.level, f.origin == f.to, f.ptype); }
    forall g | g in t.frames ensures g.ptype != LINK_DOWN_PACKET {
      if g !in s.frames {
        if g in PutAll(s, f.to, HandleNode(n, s.level, f.origin == f.to, f.ptype).emits) {
          var e := PutAllIn(s, f.to, HandleNode(n, s.level, f.origin == f.to, f.ptype).emits, g);
        } else {
          PassedFrame(s, f, g);
        }
      }
    }
  }

  lemma UnheardHello(s: Net, j: nat)
    requires Unheard(s, j) && InBounds(s)
    ensures Unheard(Do(s, Hello), j)
  {
    hide Reporter;
  }

  lemma UnheardStep(s: Net, j: nat, a: Action)
    requires Loose(s) && Unheard(s, j) && InBounds(s) && Enabled(s, a) && Between(a)
    ensures Unheard(Do(s, a), j)
  {
    hide HandleNotice, DeliverFrame, Unheard, Put;
    match a
    case Handle(p) => UnheardHandle(s, j, p);
    case Deliver(f) => UnheardDeliver(s, j, f);
    case Hello => UnheardHello(s, j);
  }

  lemma FailureUnheard(s: Net, j: nat)
    requires Static(s) && Quiet(s) && AllUp(s) && j < |s.links| && Complete(s) && !Reported(s, j)
    ensures Unheard(Change(s, j, false), j)
  {
    hide Reporter;
  }

  // ------------------------------------------------------------------ over whole runs

  lemma {:induction false} HeardOrNot(states: seq<Net>, actions: seq<Action>, k: nat, l: nat, j: nat)
    requires IsRun(states, actions) && k < l < |states| && actions[k] == Fail(j)
    requires AllUp(states[k]) && Complete(states[k]) && forall x :: k < x < l ==> Between(actions[x])
    ensures Static(states[k]) && j < |states[k].links|
    ensures Static(states[l]) && j < |states[l].links| && !states[l].links[j]
    ensures if Reported(states[k], j) then Known(states[l]) else Unheard(states[l], j)
    decreases l - k
  {
    hide IsRun, Do, Loose, Known, Unheard, Reported, Complete, Enabled;
    RunFollows(states, actions, l - 1);
    RunLoose(states, actions, l - 1);
    if l - 1 == k {
      HeardStart(states[k], j, states[l]);
    } else {
      HeardOrNot(states, actions, k, l - 1, j);
      LinksBetween(states[l - 1], actions[l - 1]);
      RunLoose(states, actions, l);
      LooseStatic(states[l]);
      if Reported(states[k], j) {
        KnownStep(states[l - 1], actions[l - 1]);
      } else {
        UnheardStep(states[l - 1], j, actions[l - 1]);
      }
    }
  }

  lemma LooseStatic(s: Net)
    requires Loose(s)
    ensures Static(s)
  {
  }

  lemma LinksBetween(s: Net, a: Action)
    requires Static(s) && InBounds(s) && Enabled(s, a) && Between(a)
    ensures Do(s, a).links == s.links
  {
  }

  lemma HeardStart(s: Net, j: nat, t: Net)
    requires Follows(s, Fail(j), t) && AllUp(s) && Complete(s)
    ensures j < |s.links| && Static(t) && j < |t.links| && !t.links[j]
    ensures if Reported(s, j) then Known(t) else Unheard(t, j)
  {
    hide Failing, Unheard, Reported;
    if Reported(s, j) {
      FailureReported(s, j);
    } else {
      FailureUnheard(s, j);
    }
  }

  /** In every run: a link that fails on a whole ring under a COMPLETE master makes the master fail, by
      the time nothing is under way and without the help of the fail timer, if and only if one of its
      ends is a transit node that forwards on both ports, or on its secondary port alone with that port
      on the link. Otherwise the master stays COMPLETE. */
  lemma ReportedExactly(states: seq<Net>, actions: seq<Action>, k: nat, l: nat, j: nat)
    requires IsRun(states, actions) && k < l < |states| && actions[k] == Fail(j)
    requires AllUp(states[k]) && Complete(states[k]) && forall x :: k < x < l ==> Between(actions[x])
    requires Quiet(states[l])
    ensures Static(states[k]) && j < |states[k].links|
    ensures Static(states[l]) && j < |states[l].links| && !states[l].links[j]
    ensures states[l].nodes[0].status == NODE_FAIL <==> Reported(states[k], j)
    ensures states[l].nodes[0].status == NODE_COMPLETE <==> !Reported(states[k], j)
  {
    hide IsRun, Loose, Reported, Complete, Known;
    HeardOrNot(states, actions, k, l, j);
    RunLoose(states, actions, l);
    MasterKnown(states[l]);
    if Reported(states[k], j) && states[l].nodes[0].status == NODE_COMPLETE {
      QuietKnown(states[l]);
    }
  }

  /** The master has missed the failure of a link at step `x`, and no link has changed since. */
  ghost predicate Missed(states: seq<Net>, actions: seq<Action>, x: nat, l: nat) {
    && x < l < |states| && l <= |actions| && actions[x].Fail? && Complete(states[x])
    && Static(states[x]) && actions[x].link < |states[x].links| && !Reported(states[x], actions[x].link)
    && forall y :: x < y < l ==> Between(actions[y])
  }

  ghost predicate MissedBefore(states: seq<Net>, actions: seq<Action>, l: nat) {
    exists x: nat :: Missed(states, actions, x, l)
  }

  /** No failure that the master has missed is still so when nothing is under way: the fail timer has
      run out in between. */
  ghost predicate NoneMissed(states: seq<Net>, actions: seq<Action>) {
    forall l :: 0 <= l < |states| && MissedBefore(states, actions, l) ==> !Quiet(states[l])
  }

  lemma MissedStays(states: seq<Net>, actions: seq<Action>, l: nat)
    requires MissedBefore(states, actions, l) && l + 1 < |states| && l < |actions| && Between(actions[l])
    ensures MissedBefore(states, actions, l + 1)
  {
    var x: nat :| Missed(states, actions, x, l);
    assert Missed(states, actions, x, l + 1);
  }

  lemma {:induction false} RunKnown(states: seq<Net>, actions: seq<Action>, k: nat)
    requires IsRun(states, actions) && k < |states| && NoneMissed(states, actions)
    ensures Known(states[k]) || MissedBefore(states, actions, k)
  {
    hide IsRun, Known, Do, Loose, MissedBefore, Enabled;
    if k == 0 {
      InitialKnown(states, actions);
    } else {
      RunKnown(states, actions, k - 1);
      RunLoose(states, actions, k - 1);
      RunFollows(states, actions, k - 1);
      var s, a := states[k - 1], actions[k - 1];
      if Between(a) {
        if Known(s) {
          KnownStep(s, a);
        } else {
          MissedStays(states, actions, k - 1);
        }
      } else if a.Expire? {
        KnownExpire(s, states[k]);
      } else {
        ChangeQuiet(s, a, states[k]);
        KnownChange(states, actions, k);
      }
    }
  }

  lemma InitialKnown(states: seq<Net>, actions: seq<Action>)
    requires IsRun(states, actions)
    ensures Known(states[0])
  {
    hide Follows;
  }

  lemma KnownExpire(s: Net, t: Net)
    requires Follows(s, Expire, t) && Loose(s)
    ensures Known(t)
  {
    hide Failing, FrameOk, Looped;
    ExpireLoose(s);
  }

  lemma ChangeQuiet(s: Net, a: Action, t: Net)
    requires Follows(s, a, t) && (a.Fail? || a.Restore?)
    ensures Quiet(s)
  {
  }

  lemma KnownChange(states: seq<Net>, actions: seq<Action>, k: nat)
    requires 0 < k < |states| && k <= |actions| && Follows(states[k - 1], actions[k - 1], states[k])
    requires (actions[k - 1].Fail? || actions[k - 1].Restore?) && Known(states[k - 1])
    ensures Known(states[k]) || MissedBefore(states, actions, k)
  {
    hide Failing, Reported;
    var s, a := states[k - 1], actions[k - 1];
    if s.nodes[0].status == NODE_COMPLETE {
      QuietKnown(s);
      if a.Fail? {
        if Reported(s, a.link) {
          FailureReported(s, a.link);
        } else {
          assert Missed(states, actions, k - 1, k);
        }
      }
    }
  }

  ghost predicate CompleteIsWhole(states: seq<Net>) {
    forall k :: 0 <= k < |states| && Quiet(states[k]) && Complete(states[k]) ==> AllUp(states[k])
  }

  /** In every run: COMPLETE with nothing under way always means that all links are up, if and only if no
      failure without a reporting end is left unnoticed until nothing is under way. */
  lemma WholeExactly(states: seq<Net>, actions: seq<Action>)
    requires IsRun(states, actions)
    ensures CompleteIsWhole(states) <==> NoneMissed(states, actions)
  {
    hide IsRun, Known, MissedBefore;
    if NoneMissed(states, actions) {
      forall k | 0 <= k < |states| && Quiet(states[k]) && Complete(states[k]) ensures AllUp(states[k]) {
        RunKnown(states, actions, k);
        QuietKnown(states[k]);
      }
    } else {
      var l :| 0 <= l < |states| && MissedBefore(states, actions, l) && Quiet(states[l]);
      WholeBroken(states, actions, l);
    }
  }

  lemma WholeBroken(states: seq<Net>, actions: seq<Action>, l: nat)
    requires IsRun(states, actions) && l < |states| && MissedBefore(states, actions, l) && Quiet(states[l])
    ensures !CompleteIsWhole(states)
  {
    hide IsRun, Reported;
    var x: nat :| Missed(states, actions, x, l);
    RunFollows(states, actions, x);
    ChangeQuiet(states[x], actions[x], states[x + 1]);
    if AllUp(states[x]) {
      ReportedExactly(states, actions, x, l, actions[x].link);
      assert Complete(states[l]) && !AllUp(states[l]);
    }
  }

  /** Every link that fails under a COMPLETE master has a reporting end. */
  ghost predicate AllReported(states: seq<Net>, actions: seq<Action>) {
    forall x :: 0 <= x < |states| && x < |actions| && actions[x].Fail? && Complete(states[x]) ==>
      Static(states[x]) && actions[x].link < |states[x].links| && Reported(states[x], actions[x].link)
  }

  lemma RunPrefix(states: seq<Net>, actions: seq<Action>, k: nat)
    requires IsRun(states, actions) && k < |states|
    ensures IsRun(states[..k + 1], actions[..k])
  {
    hide Follows, Initial;
    forall x | 0 <= x < k ensures Follows(states[..k + 1][x], actions[..k][x], states[..k + 1][x + 1]) {
      assert Follows(states[x], actions[x], states[x + 1]);
    }
  }

  /** In every run, for a COMPLETE master with nothing under way: the ring is settled if and only if all
      links are up and no node waits; and all links are up if every link that failed until then under a
      COMPLETE master had a reporting end. */
  lemma CompleteMeansSettled(states: seq<Net>, actions: seq<Action>, k: nat)
    requires IsRun(states, actions) && k < |states| && Quiet(states[k]) && Complete(states[k])
    ensures |states| == |actions| + 1 && (AllReported(states[..k + 1], actions[..k]) ==> AllUp(states[k]))
    ensures Settled(states[k]) <==>
            AllUp(states[k]) && forall i :: 1 <= i < |states[k].nodes| ==> !Waiting(actions, i, k)
  {
    hide Follows, Waiting, Reported, Initial;
    RunPrefix(states, actions, k);
    if AllReported(states[..k + 1], actions[..k]) {
      assert NoneMissed(states[..k + 1], actions[..k]);
      WholeExactly(states[..k + 1], actions[..k]);
      assert states[..k + 1][k] == states[k];
    }
    if AllUp(states[k]) {
      SettledExactly(states, actions, k);
    }
  }
}
