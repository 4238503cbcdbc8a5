/** The ring and the timers of its master together: when a ring that is whole and settled can be
    closed to a cycle by its own fail timer. */
module ErppTimed {
  import opened ErppNode
  import opened ErppRing
  import opened ErppConvergence
  import P = ErppProtocol
  import T = ErppTimers

  /** A ring of any size, and the domain of the switch that is its master. */
  datatype Plant = Plant(net: Net, domain: P.Domain)

  /** Ring `i` of the domain is the master on the ring, and the only ring the timer drives. */
  predicate Coupled(p: Plant, i: nat) {
    && Static(p.net) && T.SoleMaster(p.domain, i) && T.TimersOk(p.domain)
    && p.domain.rings[i].ringId == i + 1 && p.domain.rings[i].level == p.net.level
    && p.domain.rings[i].node == p.net.nodes[0]
  }

  function SendAll(s: Net, tx: seq<P.Packet>): multiset<Frame>
    requires Static(s)
  {
    if tx == [] then multiset{} else Put(s, 0, tx[0].netif, tx[0].ptype, 0) + SendAll(s, tx[1..])
  }

  /** The timer handler of the master's switch. */
  function Ticked(mac: P.Mac, p: Plant, i: nat): Plant
    requires Coupled(p, i)
  {
    var w := P.TickRings(mac, P.Work(p.domain, []), 0);
    Plant(p.net.(nodes := p.net.nodes[0 := w.d.rings[i].node], frames := p.net.frames + SendAll(p.net, w.tx)), w.d)
  }

  function PacketOf(mac: P.Mac, p: Plant, i: nat, f: Frame): P.Packet
    requires Coupled(p, i)
  {
    P.Packet(PortAt(p.net, 0, f.side).netif, f.ptype, p.domain.domainId, i + 1, p.net.level,
             p.domain.helloTimer, p.domain.failTimer, if f.origin == 0 then mac else mac + 1)
  }

  /** A packet reaches its next node; at the master the packet handler of its switch runs. */
  function Arrived(mac: P.Mac, p: Plant, i: nat, f: Frame): Plant
    requires Coupled(p, i) && f.to < |p.net.nodes| && f.ptype != EDGE_HELLO_PACKET
  {
    Plant(DeliverFrame(p.net, f), if f.to == 0 then P.Handle(mac, p.domain, PacketOf(mac, p, i, f)).d else p.domain)
  }

  datatype Move = Second | Arrive(frame: Frame)

  /** A second begins once the packets of the last one have been delivered, in any order. */
  ghost predicate Moves(mac: P.Mac, i: nat, p: Plant, m: Move, q: Plant) {
    && Coupled(p, i)
    && match m
       case Second => Quiet(p.net) && q == Ticked(mac, p, i)
       case Arrive(f) =>
         f in p.net.frames && f.to < |p.net.nodes| && f.ptype != EDGE_HELLO_PACKET && q == Arrived(mac, p, i, f)
  }

  /** Whatever happens, the master on the ring stays the ring of the domain. */
  lemma StaysCoupled(mac: P.Mac, i: nat, p: Plant, m: Move, q: Plant)
    requires Moves(mac, i, p, m, q)
    ensures Coupled(q, i)
  {
    match m
    case Second =>
      hide SendAll, P.AssembleAll, P.TickRings;
      TickedSole(mac, p, i);
      T.TickRingsTimers(mac, P.Work(p.domain, []), 0);
    case Arrive(f) => ArrivedCoupled(mac, p, i, f);
  }

  lemma ArrivedCoupled(mac: P.Mac, p: Plant, i: nat, f: Frame)
    requires Coupled(p, i) && f.to < |p.net.nodes| && f.ptype != EDGE_HELLO_PACKET
    ensures Coupled(Arrived(mac, p, i, f), i)
  {
    hide Put, PutAll, P.AssembleAll;
  }

  ghost predicate Reaches(mac: P.Mac, i: nat, p: Plant, q: Plant, n: nat)
    decreases n
  {
    if n == 0 then q == p else exists m, r :: Moves(mac, i, p, m, r) && Reaches(mac, i, r, q, n - 1)
  }

  // -------------------------------------------------------------------- one second

  lemma TickedSole(mac: P.Mac, p: Plant, i: nat)
    requires Coupled(p, i)
    ensures P.TickRings(mac, P.Work(p.domain, []), 0) == P.TickRing(mac, P.Work(p.domain, []), i)
  {
    T.SoleTick(mac, P.Work(p.domain, []), i, 0);
  }

  /** A second in which the fail timer does not run out: the counters go down, and the HELLO, when it
      is due, is on its way. */
  lemma TickedCounts(mac: P.Mac, p: Plant, i: nat)
    requires Coupled(p, i) && Settled(p.net) && Quiet(p.net) && p.domain.failCount != 0
    ensures var q := Ticked(mac, p, i);
            && Coupled(q, i) && Settled(q.net)
            && q.net == p.net.(frames := if p.domain.helloCount == 0 then multiset{HelloTo(1)} else multiset{})
            && q.domain.helloTimer == p.domain.helloTimer && q.domain.failTimer == p.domain.failTimer
            && q.domain.helloCount == T.CountedDown(p.domain.helloCount, p.domain.helloTimer)
            && q.domain.failCount == p.domain.failCount - 1
  {
    hide P.TickRings, P.AssembleAll, Put;
    TickedSole(mac, p, i);
    var w := P.TickRing(mac, P.Work(p.domain, []), i);
    assert w.d.rings == p.domain.rings;
    assert p.net.nodes[0 := p.net.nodes[0]] == p.net.nodes;
    if p.domain.helloCount == 0 {
      assert w.tx == [w.tx[0]] && w.tx[0].ptype == HELLO_PACKET && w.tx[0].netif == p.net.nodes[0].port0.netif;
      SendOne(p.net, w.tx[0]);
    }
  }

  lemma SendOne(s: Net, packet: P.Packet)
    requires Static(s) && s.links[0] && packet.netif == s.nodes[0].port0.netif
    ensures SendAll(s, [packet]) == multiset{Frame(1, Ccw, packet.ptype, 0)}
  {
    assert [packet][1..] == [];
    assert Put(s, 0, packet.netif, packet.ptype, 0) == multiset{Frame(1, Ccw, packet.ptype, 0)};
  }

  /** A second in which it does: the secondary port opens on a ring that forwards everywhere. */
  lemma TickedLoops(mac: P.Mac, p: Plant, i: nat)
    requires Coupled(p, i) && Settled(p.net) && p.domain.failCount == 0
    ensures Looped(Ticked(mac, p, i).net)
  {
    hide P.TickRings, P.AssembleAll, Put, SendAll;
    TickedSole(mac, p, i);
    var w := P.TickRing(mac, P.Work(p.domain, []), i);
    assert w.d.rings[i].node == Expired(p.net.nodes[0]);
    ExpiryOnIntactRing(p.net);
  }

  // -------------------------------------------------------------- the HELLO's way round

  lemma HelloPasses(mac: P.Mac, p: Plant, i: nat, to: nat)
    requires Coupled(p, i) && AllUp(p.net) && 1 <= to < |p.net.nodes| && p.net.frames == multiset{HelloTo(to)}
    ensures Arrived(mac, p, i, HelloTo(to)) ==
            p.(net := p.net.(frames := multiset{HelloTo(if to + 1 == |p.net.nodes| then 0 else to + 1)}))
  {
    var s := p.net;
    assert s.nodes[to := s.nodes[to]] == s.nodes;
    assert PutAll(s, to, []) == multiset{};
  }

  /** Back at the master it reloads the fail counter and changes nothing else. */
  function Home(p: Plant): Plant {
    Plant(p.net.(frames := multiset{}), p.domain.(failCount := p.domain.failTimer))
  }

  lemma HelloReturns(mac: P.Mac, p: Plant, i: nat)
    requires Coupled(p, i) && Settled(p.net) && p.net.frames == multiset{HelloTo(0)}
    ensures Arrived(mac, p, i, HelloTo(0)) == Home(p) && Coupled(Home(p), i) && Settled(Home(p).net)
  {
    hide P.AssembleAll;
    var s, n := p.net, p.net.nodes[0];
    assert OwnHello(n).node == n;
    assert s.nodes[0 := n] == s.nodes;
    assert PutAll(s, 0, []) == multiset{};
    assert p.domain.rings[i := p.domain.rings[i]] == p.domain.rings;
  }

  // ------------------------------------------------------------------ never a cycle

  /** The ring is settled, with nothing or one HELLO under way, and the fail timer reaches further than
      the next HELLO. */
  ghost predicate Safe(p: Plant, i: nat) {
    && Coupled(p, i) && Settled(p.net) && p.net.pending == {} && p.domain.helloTimer <= p.domain.failTimer
    && if p.net.frames == multiset{} then p.domain.helloCount < p.domain.failCount
       else p.domain.helloCount < p.domain.failTimer
            && exists to :: 0 <= to < |p.net.nodes| && p.net.frames == multiset{HelloTo(to)}
  }

  lemma SafeSecond(mac: P.Mac, i: nat, p: Plant)
    requires Safe(p, i) && Quiet(p.net)
    ensures Safe(Ticked(mac, p, i), i)
  {
    hide Settled, Ticked, Coupled;
    SafeCoupled(p, i);
    TickedCounts(mac, p, i);
    var q := Ticked(mac, p, i);
    if p.domain.helloCount == 0 {
      assert q.net.frames == multiset{HelloTo(1)} && 1 < |q.net.nodes|;
    }
  }

  lemma SafeCoupled(p: Plant, i: nat)
    requires Safe(p, i)
    ensures 1 < |p.net.nodes| && AllUp(p.net) && T.TimersOk(p.domain)
  {
  }

  lemma SafeArrives(mac: P.Mac, i: nat, p: Plant, to: nat)
    requires Safe(p, i) && to < |p.net.nodes| && p.net.frames == multiset{HelloTo(to)}
    ensures Safe(Arrived(mac, p, i, HelloTo(to)), i)
  {
    hide Settled, Arrived, Coupled;
    SafeCoupled(p, i);
    if to == 0 {
      HelloReturns(mac, p, i);
    } else {
      HelloPasses(mac, p, i, to);
      SafePassed(p, i, if to + 1 == |p.net.nodes| then 0 else to + 1);
    }
  }

  lemma SafeMoves(mac: P.Mac, i: nat, p: Plant, m: Move, q: Plant)
    requires Safe(p, i) && Moves(mac, i, p, m, q)
    ensures Safe(q, i)
  {
    hide Settled, Ticked, Arrived, Coupled;
    if m.Second? {
      SafeSecond(mac, i, p);
    } else {
      var to :| 0 <= to < |p.net.nodes| && p.net.frames == multiset{HelloTo(to)};
      assert m.frame == HelloTo(to);
      SafeArrives(mac, i, p, to);
    }
  }

  lemma SafePassed(p: Plant, i: nat, to: nat)
    requires Safe(p, i) && p.net.frames != multiset{} && to < |p.net.nodes|
    ensures Safe(p.(net := p.net.(frames := multiset{HelloTo(to)})), i)
  {
  }

  lemma SafeNotLooped(p: Plant, i: nat)
    requires Safe(p, i)
    ensures !Looped(p.net)
  {
    assert !p.net.nodes[0].BothForwarding();
  }

  lemma {:induction false} SafeReaches(mac: P.Mac, i: nat, p: Plant, q: Plant, n: nat)
    requires Safe(p, i) && Reaches(mac, i, p, q, n)
    ensures !Looped(q.net)
    decreases n
  {
    hide Safe, Moves, Looped;
    if n == 0 {
      SafeNotLooped(p, i);
    } else {
      var m, r :| Moves(mac, i, p, m, r) && Reaches(mac, i, r, q, n - 1);
      SafeMoves(mac, i, p, m, r);
      SafeReaches(mac, i, r, q, n - 1);
    }
  }

  // ------------------------------------------------------------------- or surely one

  /** What is reached once the HELLO stands before the master is reached while it is on its way. */
  lemma {:induction false} HelloCarried(mac: P.Mac, p: Plant, i: nat, to: nat, q: Plant, n: nat) returns (k: nat)
    requires Coupled(p, i) && AllUp(p.net) && to < |p.net.nodes| && p.net.frames == multiset{HelloTo(to)}
    requires Reaches(mac, i, p.(net := p.net.(frames := multiset{HelloTo(0)})), q, n)
    ensures Reaches(mac, i, p, q, k)
    decreases if to == 0 then 0 else |p.net.nodes| - to
  {
    hide Arrived, Reaches;
    if to == 0 {
      assert p.(net := p.net.(frames := multiset{HelloTo(0)})) == p;
      k := n;
    } else {
      var r := Arrived(mac, p, i, HelloTo(to));
      assert Moves(mac, i, p, Arrive(HelloTo(to)), r);
      HelloPasses(mac, p, i, to);
      k := HelloCarried(mac, r, i, if to + 1 == |p.net.nodes| then 0 else to + 1, q, n);
      ReachesNext(mac, i, p, Arrive(HelloTo(to)), r, q, k);
      k := k + 1;
    }
  }

  /** What is reached once the HELLO is home is reached while it is on its way. */
  lemma HelloAround(mac: P.Mac, p: Plant, i: nat, to: nat, q: Plant, n: nat) returns (k: nat)
    requires Coupled(p, i) && Settled(p.net) && to < |p.net.nodes| && p.net.frames == multiset{HelloTo(to)}
    requires Reaches(mac, i, Home(p), q, n)
    ensures Reaches(mac, i, p, q, k)
  {
    hide Arrived, Reaches;
    var r := p.(net := p.net.(frames := multiset{HelloTo(0)}));
    SettledFrames(p.net, multiset{HelloTo(0)});
    HelloReturns(mac, r, i);
    assert Moves(mac, i, r, Arrive(HelloTo(0)), Home(r));
    ReachesNext(mac, i, r, Arrive(HelloTo(0)), Home(r), q, n);
    k := HelloCarried(mac, p, i, to, q, n + 1);
  }

  lemma SettledFrames(s: Net, fs: multiset<Frame>)
    requires Settled(s)
    ensures Settled(s.(frames := fs))
  {
  }

  lemma {:induction false} LoopReached(mac: P.Mac, p: Plant, i: nat) returns (q: Plant, n: nat)
    requires Coupled(p, i) && Settled(p.net) && Quiet(p.net) && !T.OutlastsHello(p.domain)
    ensures Reaches(mac, i, p, q, n) && Looped(q.net)
    decreases if p.domain.failCount <= p.domain.helloCount then 0 else 1, p.domain.failCount
  {
    hide Settled, Ticked, Looped, Reaches;
    var r := Ticked(mac, p, i);
    assert Moves(mac, i, p, Second, r);
    if p.domain.failCount == 0 {
      TickedLoops(mac, p, i);
      q, n := r, 1;
      ReachesNow(mac, i, r);
      ReachesNext(mac, i, p, Second, r, q, 0);
    } else if p.domain.helloCount != 0 {
      TickedCounts(mac, p, i);
      q, n := LoopReached(mac, r, i);
      ReachesNext(mac, i, p, Second, r, q, n);
      n := n + 1;
    } else {
      TickedCounts(mac, p, i);
      HomeCoupled(r, i);
      q, n := LoopReached(mac, Home(r), i);
      n := HelloAround(mac, r, i, 1, q, n);
      ReachesNext(mac, i, p, Second, r, q, n);
      n := n + 1;
    }
  }

  lemma HomeCoupled(p: Plant, i: nat)
    requires Coupled(p, i) && Settled(p.net)
    ensures Coupled(Home(p), i) && Settled(Home(p).net)
  {
  }

  lemma ReachesNow(mac: P.Mac, i: nat, p: Plant)
    ensures Reaches(mac, i, p, p, 0)
  {
  }

  lemma ReachesNext(mac: P.Mac, i: nat, p: Plant, m: Move, r: Plant, q: Plant, n: nat)
    requires Moves(mac, i, p, m, r) && Reaches(mac, i, r, q, n)
    ensures Reaches(mac, i, p, q, n + 1)
  {
  }

  /** A settled ring, driven by the timers of its master with every HELLO home within its second, is
      never closed to a cycle if and only if the fail counter is ahead of the hello counter and the
      fail timer is no shorter than the hello timer. */
  lemma TimedRingSafe(mac: P.Mac, p: Plant, i: nat)
    requires Coupled(p, i) && Settled(p.net) && Quiet(p.net)
    ensures (forall q, n: nat :: Reaches(mac, i, p, q, n) ==> !Looped(q.net)) <==> T.OutlastsHello(p.domain)
  {
    hide Settled, Looped, Reaches;
    if T.OutlastsHello(p.domain) {
      forall q, n: nat | Reaches(mac, i, p, q, n) ensures !Looped(q.net) {
        SafeReaches(mac, i, p, q, n);
      }
    } else {
      var q, n := LoopReached(mac, p, i);
    }
  }
}
