/** The counters of a domain: bounds, the number of HELLOs, when a silent ring is
    declared failed, and when a ring that is whole is. */
module ErppTimers {
  import opened ErppNode
  import opened ErppProtocol
  import Words

  // -------------------------------------------------------------- the counters

  predicate TimersOk(d: Domain) {
    && 1 <= d.helloTimer && 1 <= d.failTimer
    && 0 <= d.helloCount <= d.helloTimer && 0 <= d.failCount <= d.failTimer
  }

  ghost predicate AllTimersOk(s: State) {
    forall id :: id in s.table ==> TimersOk(s.table[id])
  }

  predicate PositiveTimers(step: Step) {
    step.SetTimers? ==> 1 <= step.hello && 1 <= step.fail
  }

  lemma {:induction false} TickRingsTimers(mac: Mac, w: Work, i: nat)
    requires |w.d.rings| == ERPP_RING_SIZE && TimersOk(w.d)
    ensures TimersOk(TickRings(mac, w, i).d)
    decreases ERPP_RING_SIZE - i
  {
    if i < ERPP_RING_SIZE {
      TickRingsTimers(mac, TickRing(mac, w, i), i + 1);
    }
  }

  lemma TickDomainTimers(s: State, id: int)
    requires Valid(s) && AllTimersOk(s) && id in s.table
    ensures AllTimersOk(TickDomain(s, id))
  {
    hide TickRings, Notices;
    TickRingsTimers(s.mac, Work(s.table[id], s.tx), 0);
  }

  lemma {:induction false} TickDomainsTimers(s: State, from: nat)
    requires Valid(s) && AllTimersOk(s)
    ensures AllTimersOk(TickDomains(s, from))
    decreases ERPP_DOMAIN_SIZE + 1 - from
  {
    hide TickDomain, AllTimersOk;
    if from <= ERPP_DOMAIN_SIZE {
      if from in s.table {
        TickDomainTimers(s, from);
        TickDomainsTimers(TickDomain(s, from), from + 1);
      } else {
        TickDomainsTimers(s, from + 1);
      }
    }
  }

  predicate SameTimers(d: Domain, d': Domain) {
    && d'.helloTimer == d.helloTimer && d'.failTimer == d.failTimer
    && d'.helloCount == d.helloCount && d'.failCount == d.failCount
  }

  lemma {:induction false} LinkRingsTimers(s: State, id: int, i: nat, netif: int, up: bool, id': int)
    requires Valid(s) && id in s.table && id' in s.table
    ensures SameTimers(s.table[id'], LinkRings(s, id, i, netif, up).table[id'])
    decreases ERPP_RING_SIZE - i
  {
    if i + 1 < ERPP_RING_SIZE {
      var t := LinkRing(s, id, i, netif, up);
      assert SameTimers(s.table[id'], t.table[id']);
      LinkRingsTimers(t, id, i + 1, netif, up, id');
    }
  }

  lemma {:induction false} LinkDomainsTimers(s: State, from: nat, netif: int, up: bool, id: int)
    requires Valid(s) && id in s.table
    ensures SameTimers(s.table[id], LinkDomains(s, from, netif, up).table[id])
    decreases ERPP_DOMAIN_SIZE + 1 - from
  {
    hide LinkRings;
    if from <= ERPP_DOMAIN_SIZE {
      if from in s.table {
        LinkRingsTimers(s, from, 0, netif, up, id);
        LinkDomainsTimers(LinkRings(s, from, 0, netif, up), from + 1, netif, up, id);
      } else {
        LinkDomainsTimers(s, from + 1, netif, up, id);
      }
    }
  }

  lemma LinkTimers(s: State, netif: int, up: bool)
    requires Valid(s) && AllTimersOk(s)
    ensures AllTimersOk(LinkDomains(s, 1, netif, up))
  {
    hide LinkDomains;
    forall id | id in s.table ensures TimersOk(LinkDomains(s, 1, netif, up).table[id]) {
      LinkDomainsTimers(s, 1, netif, up, id);
    }
  }

  lemma RxTimers(s: State, p: Packet)
    requires Valid(s) && InRange(p) && AllTimersOk(s)
    ensures AllTimersOk(Rx(s, p))
  {
    hide Notices, AssembleAll;
  }

  lemma StepTimers(s: State, step: Step)
    requires Valid(s) && StepOk(step) && AllTimersOk(s) && PositiveTimers(step)
    ensures AllTimersOk(Apply(s, step))
  {
    hide Notices, TickDomains, LinkDomains, Rx;
    match step
    case Tick => TickDomainsTimers(s, 1);
    case LinkUp(netif) => LinkTimers(s, netif, true);
    case LinkDown(netif) => LinkTimers(s, netif, false);
    case Receive(p) => RxTimers(s, p);
    case _ =>
  }

  /** In every run that configures only positive timers, no counter underflows or passes its timer. */
  lemma {:induction false} CountersBounded(s: State, steps: seq<Step>, k: nat)
    requires Initial(s) && StepsOk(steps) && k <= |steps|
    requires forall j :: 0 <= j < |steps| ==> PositiveTimers(steps[j])
    ensures AllTimersOk(After(s, steps, k))
  {
    hide Apply;
    if k > 0 {
      CountersBounded(s, steps, k - 1);
      StepTimers(After(s, steps, k - 1), steps[k - 1]);
    }
  }

  // --------------------------------------------------------- counting the HELLOs

  /** No ring of the domain but its enabled masters is driven by the timer. */
  predicate OnlyMasters(d: Domain) {
    forall i :: 0 <= i < |d.rings| && d.rings[i].isEnable != 0 ==>
      !d.rings[i].node.role.Edge? && !d.rings[i].node.role.AssistantEdge?
  }

  predicate IsTimedMaster(r: Ring) {
    r.isEnable != 0 && r.node.role.Master?
  }

  function Masters(rings: seq<Ring>, i: nat): nat
    decreases |rings| - i
  {
    if i >= |rings| then 0 else (if IsTimedMaster(rings[i]) then 1 else 0) + Masters(rings, i + 1)
  }

  function Hellos(tx: seq<Packet>): nat {
    if tx == [] then 0 else Hellos(tx[..|tx| - 1]) + if tx[|tx| - 1].ptype == HELLO_PACKET then 1 else 0
  }

  /** `t` seconds of one domain. */
  function Seconds(mac: Mac, w: Work, t: nat): (w': Work)
    requires |w.d.rings| == ERPP_RING_SIZE
    ensures |w'.d.rings| == ERPP_RING_SIZE
  {
    if t == 0 then w else TickRings(mac, Seconds(mac, w, t - 1), 0)
  }

  /** How often a counter that starts at `c` and is reloaded with `h` is found at zero in `k` looks. */
  function Rings(c: int, h: int, k: int): int
    requires 1 <= h
  {
    if k <= c then 0 else 1 + (k - c - 1) / h
  }

  /** The counter after `k` looks. */
  function Left(c: int, h: int, k: int): int
    requires 1 <= h
  {
    if k <= c then c - k else h - 1 - (k - c - 1) % h
  }

  lemma DivModStep(x: int, h: int)
    requires 0 <= x && 1 <= h
    ensures if x % h == h - 1 then (x + 1) / h == x / h + 1 && (x + 1) % h == 0
            else (x + 1) / h == x / h && (x + 1) % h == x % h + 1
  {
    var q, r := x / h, x % h;
    assert x == q * h + r;
    if r == h - 1 {
      assert x + 1 == (q + 1) * h;
      Words.QuotientIs(x + 1, h, q + 1, 0);
    } else {
      Words.QuotientIs(x + 1, h, q, r + 1);
    }
  }

  lemma LookStep(c: int, h: int, k: int)
    requires 1 <= h && 0 <= c && 0 <= k
    ensures if Left(c, h, k) == 0 then Left(c, h, k + 1) == h - 1 && Rings(c, h, k + 1) == Rings(c, h, k) + 1
            else Left(c, h, k + 1) == Left(c, h, k) - 1 && Rings(c, h, k + 1) == Rings(c, h, k)
  {
    if k > c {
      DivModStep(k - c - 1, h);
    } else if k == c {
      Words.QuotientIs(0, h, 0, 0);
    }
  }

  lemma HellosPlus(tx: seq<Packet>, p: Packet)
    ensures Hellos(tx + [p]) == Hellos(tx) + if p.ptype == HELLO_PACKET then 1 else 0
  {
    assert (tx + [p])[..|tx|] == tx;
  }

  /** One look at the counter by one ring. */
  lemma TickRingLook(mac: Mac, w: Work, i: nat)
    requires i < |w.d.rings| && OnlyMasters(w.d)
    ensures var w' := TickRing(mac, w, i);
            && w'.d.helloTimer == w.d.helloTimer
            && (!IsTimedMaster(w.d.rings[i]) ==> w'.d.helloCount == w.d.helloCount && Hellos(w'.tx) == Hellos(w.tx))
            && (IsTimedMaster(w.d.rings[i]) ==>
                  if w.d.helloCount == 0
                  then w'.d.helloCount == w.d.helloTimer - 1 && Hellos(w'.tx) == Hellos(w.tx) + 1
                  else w'.d.helloCount == w.d.helloCount - 1 && Hellos(w'.tx) == Hellos(w.tx))
            && OnlyMasters(w'.d)
            && (forall j :: 0 <= j < |w.d.rings| ==> IsTimedMaster(w'.d.rings[j]) == IsTimedMaster(w.d.rings[j]))
  {
    if IsTimedMaster(w.d.rings[i]) {
      var v := MasterHello(mac, w, i);
      if w.d.helloCount == 0 {
        HellosPlus(w.tx, v.tx[|w.tx|]);
      }
      var u := MasterFail(mac, v, i);
      if v.d.failCount == 0 {
        HellosPlus(v.tx, u.tx[|v.tx|]);
      }
    }
  }

  lemma {:induction false} SameMasters(a: seq<Ring>, b: seq<Ring>, i: nat)
    requires |a| == |b| && forall j :: 0 <= j < |a| ==> IsTimedMaster(a[j]) == IsTimedMaster(b[j])
    ensures Masters(a, i) == Masters(b, i)
    decreases |a| - i
  {
    if i < |a| { SameMasters(a, b, i + 1); }
  }

  /** The looks of the rings from `i` on, after `k` looks of a count that started at `c` and `n`. */
  lemma {:induction false} TickRingsLooks(mac: Mac, w: Work, i: nat, c: int, n: int, k: int)
    requires |w.d.rings| == ERPP_RING_SIZE && OnlyMasters(w.d) && 1 <= w.d.helloTimer && 0 <= c && 0 <= k
    requires w.d.helloCount == Left(c, w.d.helloTimer, k) && Hellos(w.tx) == n + Rings(c, w.d.helloTimer, k)
    ensures var w', k' := TickRings(mac, w, i), k + Masters(w.d.rings, i);
            && w'.d.helloTimer == w.d.helloTimer && OnlyMasters(w'.d)
            && w'.d.helloCount == Left(c, w.d.helloTimer, k') && Hellos(w'.tx) == n + Rings(c, w.d.helloTimer, k')
            && Masters(w'.d.rings, 0) == Masters(w.d.rings, 0)
    decreases ERPP_RING_SIZE - i
  {
    hide TickRing, Left, Rings, Hellos;
    if i < ERPP_RING_SIZE {
      TickRingLook(mac, w, i);
      LookStep(c, w.d.helloTimer, k);
      var v := TickRing(mac, w, i);
      SameMasters(v.d.rings, w.d.rings, i + 1);
      SameMasters(v.d.rings, w.d.rings, 0);
      TickRingsLooks(mac, v, i + 1, c, n, if IsTimedMaster(w.d.rings[i]) then k + 1 else k);
    }
  }

  /** With `m` enabled masters, `t` seconds from counter `c` send no HELLO while `m * t <= c`, and
      `1 + (m * t - c - 1) / helloTimer` after that. */
  lemma {:induction false} HellosSent(mac: Mac, w: Work, t: nat)
    requires |w.d.rings| == ERPP_RING_SIZE && OnlyMasters(w.d) && TimersOk(w.d)
    ensures var m, c, h, w' := Masters(w.d.rings, 0), w.d.helloCount, w.d.helloTimer, Seconds(mac, w, t);
            && Hellos(w'.tx) - Hellos(w.tx) == (if m * t <= c then 0 else 1 + (m * t - c - 1) / h)
            && w'.d.helloCount == Left(c, h, m * t)
            && w'.d.helloTimer == h && OnlyMasters(w'.d) && Masters(w'.d.rings, 0) == m
  {
    hide TickRings, Left, Masters, Hellos, OnlyMasters;
    if t == 0 {
      LeftNow(w.d.helloCount, w.d.helloTimer);
    } else {
      HellosSent(mac, w, t - 1);
      var m, c := Masters(w.d.rings, 0), w.d.helloCount;
      assert m * t == m * (t - 1) + m;
      assert 0 <= m * (t - 1);
      TickRingsLooks(mac, Seconds(mac, w, t - 1), 0, c, Hellos(w.tx), m * (t - 1));
    }
  }

  // ------------------------------------------------------- when a ring is declared failed

  /** The ring at index `i` is the only one that the timer drives. */
  predicate SoleMaster(d: Domain, i: nat) {
    && |d.rings| == ERPP_RING_SIZE && i < ERPP_RING_SIZE && IsTimedMaster(d.rings[i])
    && forall j :: 0 <= j < |d.rings| && j != i && d.rings[j].isEnable != 0 ==>
         !d.rings[j].node.role.Master? && !d.rings[j].node.role.Edge? && !d.rings[j].node.role.AssistantEdge?
  }

  lemma {:induction false} SoleTick(mac: Mac, w: Work, i: nat, from: nat)
    requires SoleMaster(w.d, i)
    ensures TickRings(mac, w, from) == if from <= i then TickRing(mac, w, i) else w
    decreases ERPP_RING_SIZE - from
  {
    if from < ERPP_RING_SIZE {
      var v := TickRing(mac, w, from);
      if from == i {
        assert SoleMaster(v.d, i);
      }
      SoleTick(mac, v, i, from + 1);
    }
  }

  /** A sole master that hears nothing keeps its state for `failCount` seconds, and is declared
      failed in the next one. */
  lemma {:induction false} SilentRingFails(mac: Mac, w: Work, i: nat, t: nat)
    requires SoleMaster(w.d, i) && TimersOk(w.d) && t <= w.d.failCount + 1
    ensures var d' := Seconds(mac, w, t).d;
            && SoleMaster(d', i) && d'.failTimer == w.d.failTimer
            && (t <= w.d.failCount ==> d'.rings[i] == w.d.rings[i] && d'.failCount == w.d.failCount - t)
            && (t == w.d.failCount + 1 ==>
                  d'.rings[i].node == Expired(w.d.rings[i].node) && d'.failCount == w.d.failTimer - 1)
  {
    hide TickRings;
    if t > 0 {
      SilentRingFails(mac, w, i, t - 1);
      var v := Seconds(mac, w, t - 1);
      SoleTick(mac, v, i, 0);
    }
  }

  /** One second of a master on a ring that is whole: a HELLO that it sends is back at its
      secondary port before the next second. */
  function IntactSecond(mac: Mac, d: Domain, i: nat): Domain
    requires SoleMaster(d, i) && d.rings[i].ringId == i + 1
  {
    var w := TickRings(mac, Work(d, []), 0);
    if d.helloCount != 0 then w.d
    else
      var hello := Packet(w.d.rings[i].node.port1.netif, HELLO_PACKET, d.domainId, i + 1, d.rings[i].level,
                          d.helloTimer, d.failTimer, mac);
      Handle(mac, w.d, hello).d
  }

  /** A counter that has run out is loaded again before it counts on. */
  function CountedDown(count: int, timer: int): int { (if count == 0 then timer else count) - 1 }

  lemma IntactSecondKeeps(mac: Mac, d: Domain, i: nat)
    requires SoleMaster(d, i) && d.rings[i].ringId == i + 1 && TimersOk(d)
    ensures var d' := IntactSecond(mac, d, i);
            && SoleMaster(d', i) && d'.rings[i].ringId == i + 1 && TimersOk(d')
            && d'.helloTimer == d.helloTimer && d'.failTimer == d.failTimer
            && d'.helloCount == CountedDown(d.helloCount, d.helloTimer)
            && (d.failCount != 0 && d.rings[i].node.status != NODE_FAIL ==>
                  && d'.rings[i].node.status == d.rings[i].node.status
                  && d'.failCount == if d.helloCount == 0 then d.failTimer else d.failCount - 1)
            && (d.failCount == 0 && d.helloCount != 0 ==> d'.rings[i].node == Expired(d.rings[i].node))
            && (d.rings[i].node.status == NODE_FAIL ==>
                  && d'.rings[i].node.status == (if d.helloCount == 0 then NODE_COMPLETE else NODE_FAIL)
                  && d'.failCount == CountedDown(d.failCount, d.failTimer))
  {
    hide AssembleAll, Assemble;
    SoleTick(mac, Work(d, []), i, 0);
  }

  function IntactSeconds(mac: Mac, d: Domain, i: nat, t: nat): (d': Domain)
    requires SoleMaster(d, i) && d.rings[i].ringId == i + 1 && TimersOk(d)
    ensures SoleMaster(d', i) && d'.rings[i].ringId == i + 1 && TimersOk(d')
    decreases t
  {
    IntactSecondKeeps(mac, d, i);
    if t == 0 then d else IntactSeconds(mac, IntactSecond(mac, d, i), i, t - 1)
  }

  /** The fail timer of a COMPLETE master runs out in the next second. */
  predicate Lapses(d: Domain, i: nat)
    requires i < |d.rings|
  {
    d.failCount == 0 && d.rings[i].node.status == NODE_COMPLETE
  }

  /** Two HELLOs never lie further apart than the fail timer reaches. */
  predicate OutlastsHello(d: Domain) {
    d.helloCount < d.failCount && d.helloTimer <= d.failTimer
  }

  lemma {:induction false} NeverExpires(mac: Mac, d: Domain, i: nat, t: nat)
    requires SoleMaster(d, i) && d.rings[i].ringId == i + 1 && TimersOk(d)
    requires d.rings[i].node.status == NODE_COMPLETE && OutlastsHello(d)
    ensures IntactSeconds(mac, d, i, t).failCount != 0
    ensures IntactSeconds(mac, d, i, t).rings[i].node.status == NODE_COMPLETE
    decreases t
  {
    hide IntactSecond;
    if t > 0 {
      IntactSecondKeeps(mac, d, i);
      NeverExpires(mac, IntactSecond(mac, d, i), i, t - 1);
    }
  }

  lemma {:induction false} ExpiresAt(mac: Mac, d: Domain, i: nat) returns (t: nat)
    requires SoleMaster(d, i) && d.rings[i].ringId == i + 1 && TimersOk(d)
    requires d.rings[i].node.status == NODE_COMPLETE && !OutlastsHello(d)
    ensures Lapses(IntactSeconds(mac, d, i, t), i)
    decreases if d.failCount <= d.helloCount then 0 else 1, d.failCount
  {
    hide IntactSecond;
    if d.failCount == 0 {
      t := 0;
    } else {
      IntactSecondKeeps(mac, d, i);
      t := ExpiresAt(mac, IntactSecond(mac, d, i), i);
      t := t + 1;
    }
  }

  lemma LeftShift(c: int, h: int, k: int)
    requires 1 <= h && 0 <= c && 1 <= k
    ensures Left(CountedDown(c, h), h, k - 1) == Left(c, h, k)
  {
    if c == 0 && k > h {
      ModShift(k - 1, h);
    } else if c == 0 {
      Words.QuotientIs(k - 1, h, 0, k - 1);
    }
  }

  lemma ModShift(x: int, h: int)
    requires 1 <= h <= x
    ensures (x - h) % h == x % h
  {
    Words.QuotientIs(x - h, h, x / h - 1, x % h);
  }

  /** Declared failed again, once COMPLETE, while the ring is whole. */
  ghost predicate Relapses(mac: Mac, d: Domain, i: nat)
    requires SoleMaster(d, i) && d.rings[i].ringId == i + 1 && TimersOk(d)
  {
    exists t: nat :: Lapses(IntactSeconds(mac, d, i, t), i)
  }

  lemma RelapsesNext(mac: Mac, d: Domain, i: nat)
    requires SoleMaster(d, i) && d.rings[i].ringId == i + 1 && TimersOk(d) && !Lapses(d, i)
    ensures var d' := IntactSecond(mac, d, i);
            SoleMaster(d', i) && d'.rings[i].ringId == i + 1 && TimersOk(d') &&
            (Relapses(mac, d, i) <==> Relapses(mac, d', i))
  {
    hide IntactSecond;
    var d' := IntactSecond(mac, d, i);
    IntactSecondKeeps(mac, d, i);
    if t: nat :| Lapses(IntactSeconds(mac, d, i, t), i) {
      assert IntactSeconds(mac, d, i, t) == IntactSeconds(mac, d', i, t - 1);
    }
    if t: nat :| Lapses(IntactSeconds(mac, d', i, t), i) {
      assert IntactSeconds(mac, d, i, t + 1) == IntactSeconds(mac, d', i, t);
    }
  }

  lemma CompleteRelapses(mac: Mac, d: Domain, i: nat)
    requires SoleMaster(d, i) && d.rings[i].ringId == i + 1 && TimersOk(d) && d.rings[i].node.status == NODE_COMPLETE
    ensures Relapses(mac, d, i) <==> !OutlastsHello(d)
  {
    hide IntactSeconds;
    if OutlastsHello(d) {
      forall t: nat ensures !Lapses(IntactSeconds(mac, d, i, t), i) {
        NeverExpires(mac, d, i, t);
      }
    } else {
      var t := ExpiresAt(mac, d, i);
    }
  }

  /** The counter that a failed master's fail timer shows when its next HELLO goes out, and whether it
      is too low: the HELLO that ends the failure does not reload it, unless it has just run out. */
  predicate TooLow(d: Domain)
    requires TimersOk(d)
  {
    var c := Left(d.failCount, d.failTimer, d.helloCount);
    if c == 0 then d.failTimer <= d.helloTimer else c <= d.helloTimer || d.failTimer < d.helloTimer
  }

  /** A ring that is whole again, seen from any state of its failed master: it is declared failed once
      more if and only if the fail counter will be too low when the next HELLO goes out. */
  lemma {:induction false} RestoredRingExpires(mac: Mac, d: Domain, i: nat)
    requires SoleMaster(d, i) && d.rings[i].ringId == i + 1 && TimersOk(d) && d.rings[i].node.status == NODE_FAIL
    ensures Relapses(mac, d, i) <==> TooLow(d)
    decreases d.helloCount
  {
    hide IntactSecond, IntactSeconds, Relapses, TooLow;
    var d' := IntactSecond(mac, d, i);
    IntactSecondKeeps(mac, d, i);
    RelapsesNext(mac, d, i);
    TooLowNext(d, d');
    if d.helloCount == 0 {
      CompleteRelapses(mac, d', i);
    } else {
      RestoredRingExpires(mac, d', i);
    }
  }

  /** A second that only counts: it carries the condition on, and at the HELLO decides it. */
  lemma TooLowNext(d: Domain, d': Domain)
    requires TimersOk(d) && TimersOk(d') && d'.helloTimer == d.helloTimer && d'.failTimer == d.failTimer
    requires d'.helloCount == CountedDown(d.helloCount, d.helloTimer)
    requires d'.failCount == CountedDown(d.failCount, d.failTimer)
    ensures TooLow(d) <==> if d.helloCount == 0 then !OutlastsHello(d') else TooLow(d')
  {
    hide Left;
    if d.helloCount == 0 {
      LeftNow(d.failCount, d.failTimer);
    } else {
      LeftShift(d.failCount, d.failTimer, d.helloCount);
    }
  }

  lemma LeftNow(c: int, h: int)
    requires 0 <= c && 1 <= h
    ensures Left(c, h, 0) == c
  {
  }
}
