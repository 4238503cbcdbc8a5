/** Key expansion. Each half of a DES key is a register of 28 bits that turns from
    round to round; the tables `pc1` and `pc2` select its bits. */
module DesKey {
  import opened Des
  import opened DesBlocks

  /** The selection tables. `pc1` yields seven bits each time, in bits 7 to 1. */
  datatype Tables = Tables(pc1: seq<bv8>, pc2: seq<bv32>)

  predicate TablesOk(t: Tables) {
    && |t.pc1| == 256 && |t.pc2| == 1024
    && forall i :: 0 <= i < 256 ==> t.pc1[i] & 1 == 0
  }

  /** The table `rs`: seven bits turned by one place. */
  function Rs(x: bv8): (y: bv8)
    ensures y & 1 == 0
  {
    ((x >> 1) & 0x7e) | ((x & 2) << 6)
  }

  /** A register, as four interleaved groups of seven bits. */
  datatype Quad = Quad(a: bv8, b: bv8, c: bv8, d: bv8)

  predicate Even(q: Quad) {
    q.a & 1 == 0 && q.b & 1 == 0 && q.c & 1 == 0 && q.d & 1 == 0
  }

  function Turn(q: Quad): Quad {
    Quad(Rs(q.d), q.a, q.b, q.c)
  }

  function Turns(q: Quad, n: nat): (t: Quad)
    ensures Even(q) ==> Even(t)
  {
    if n == 0 then q else Turn(Turns(q, n - 1))
  }

  // ------------------------------------------------------ what turning means

  /** Bit `p` of the register is bit `7 - p / 4` of group `p % 4`. */
  function Register(q: Quad): bv28 {
    var m: bv28 := 1;
    var a, b, c, d := q.a as bv28, q.b as bv28, q.c as bv28, q.d as bv28;
    ((a >> 7) & m) | (((b >> 7) & m) << 1) | (((c >> 7) & m) << 2) | (((d >> 7) & m) << 3)
    | (((a >> 6) & m) << 4) | (((b >> 6) & m) << 5) | (((c >> 6) & m) << 6) | (((d >> 6) & m) << 7)
    | (((a >> 5) & m) << 8) | (((b >> 5) & m) << 9) | (((c >> 5) & m) << 10) | (((d >> 5) & m) << 11)
    | (((a >> 4) & m) << 12) | (((b >> 4) & m) << 13) | (((c >> 4) & m) << 14) | (((d >> 4) & m) << 15)
    | (((a >> 3) & m) << 16) | (((b >> 3) & m) << 17) | (((c >> 3) & m) << 18) | (((d >> 3) & m) << 19)
    | (((a >> 2) & m) << 20) | (((b >> 2) & m) << 21) | (((c >> 2) & m) << 22) | (((d >> 2) & m) << 23)
    | (((a >> 1) & m) << 24) | (((b >> 1) & m) << 25) | (((c >> 1) & m) << 26) | (((d >> 1) & m) << 27)
  }

  function RotateRegister(x: bv28): bv28 { (x << 1) | (x >> 27) }

  /** Turning the four groups rotates the register by one bit. */
  lemma TurnRotates(q: Quad)
    ensures Register(Turn(q)) == RotateRegister(Register(q))
  {
  }

  lemma SevenTurns(x: bv8)
    requires x & 1 == 0
    ensures Rs(Rs(Rs(Rs(Rs(Rs(Rs(x))))))) == x
  {
  }

  lemma TurnsNone(q: Quad)
    ensures Turns(q, 0) == q
  {
  }

  lemma TurnOnce(q: Quad, n: nat)
    ensures Turns(q, n + 1) == Turn(Turns(q, n))
  {
  }

  lemma TurnTwice(q: Quad, n: nat)
    ensures Turns(q, n + 2) == Turn(Turn(Turns(q, n)))
  {
  }

  function RsAll(q: Quad): Quad { Quad(Rs(q.a), Rs(q.b), Rs(q.c), Rs(q.d)) }

  lemma FourTurns(q: Quad, n: nat)
    ensures Turns(q, n + 4) == RsAll(Turns(q, n))
  {
    hide Rs;
    TurnTwice(q, n);
    TurnTwice(q, n + 2);
  }

  lemma SevenTimes(q: Quad)
    requires Even(q)
    ensures RsAll(RsAll(RsAll(RsAll(RsAll(RsAll(RsAll(q))))))) == q
  {
    SevenTurns(q.a); SevenTurns(q.b); SevenTurns(q.c); SevenTurns(q.d);
    hide Rs;
  }

  /** After 28 turns the register is back. */
  lemma FullCircle(q: Quad)
    requires Even(q)
    ensures Turns(q, 28) == q
  {
    hide RsAll, Turns, Even;
    SevenTimes(q);
    TurnsNone(q);
    FourTurns(q, 0); FourTurns(q, 4); FourTurns(q, 8); FourTurns(q, 12);
    FourTurns(q, 16); FourTurns(q, 20); FourTurns(q, 24);
  }

  // --------------------------------------------------------------- the schedule

  lemma EvenIndex(x: bv8)
    requires x & 1 == 0
    ensures x as nat <= 254
  {
    assert x != 255;
  }

  /** The bits of one half of a subkey; `base` is 0 for the first half and 512 for the second. */
  function HalfKey(pt: seq<bv32>, base: nat, q: Quad): bv32
    requires |pt| == 1024 && base <= 512 && Even(q)
  {
    EvenIndex(q.a); EvenIndex(q.b); EvenIndex(q.c); EvenIndex(q.d);
    pt[base + 2 * (q.d as nat) + 3] | pt[base + 2 * (q.c as nat) + 2]
    | pt[base + 2 * (q.b as nat) + 1] | pt[base + 2 * (q.a as nat)]
  }

  function Turned(pt: seq<bv32>, base: nat, q: Quad, n: nat): bv32
    requires |pt| == 1024 && base <= 512 && Even(q)
  {
    HalfKey(pt, base, Turns(q, n))
  }

  function FrontKeys(pt: seq<bv32>, base: nat, q: Quad): (keys: seq<bv32>)
    requires |pt| == 1024 && base <= 512 && Even(q)
    ensures |keys| == 8
  {
    [Turned(pt, base, q, 0), Turned(pt, base, q, 1), Turned(pt, base, q, 3), Turned(pt, base, q, 5),
     Turned(pt, base, q, 7), Turned(pt, base, q, 9), Turned(pt, base, q, 11), Turned(pt, base, q, 13)]
  }

  function BackKeys(pt: seq<bv32>, base: nat, q: Quad): (keys: seq<bv32>)
    requires |pt| == 1024 && base <= 512 && Even(q)
    ensures |keys| == 8
  {
    [Turned(pt, base, q, 14), Turned(pt, base, q, 16), Turned(pt, base, q, 18), Turned(pt, base, q, 20),
     Turned(pt, base, q, 22), Turned(pt, base, q, 24), Turned(pt, base, q, 26), Turned(pt, base, q, 27)]
  }

  /** The sixteen half subkeys of one register, last round first. From round to round the register
      turns by two places, but by one at the ends and in the middle. */
  function HalfKeys(pt: seq<bv32>, base: nat, q: Quad): (keys: seq<bv32>)
    requires |pt| == 1024 && base <= 512 && Even(q)
    ensures |keys| == 16
  {
    FrontKeys(pt, base, q) + BackKeys(pt, base, q)
  }

  function FirstHalf(t: Tables, k: Octets): (q: Quad)
    requires TablesOk(t)
    ensures Even(q)
  {
    Quad(t.pc1[(((k[7] & 0x0e) << 4) | (k[3] & 0x1e)) as nat], t.pc1[(((k[6] & 0x0e) << 4) | (k[2] & 0x1e)) as nat],
         t.pc1[(((k[5] & 0x0e) << 4) | (k[1] & 0x1e)) as nat], t.pc1[(((k[4] & 0x0e) << 4) | (k[0] & 0x1e)) as nat])
  }

  function SecondHalf(t: Tables, k: Octets): (q: Quad)
    requires TablesOk(t)
    ensures Even(q)
  {
    Quad(t.pc1[((((k[3] & 0xe0) >> 4) | (k[7] & 0xf0)) | 1) as nat],
         t.pc1[((((k[2] & 0xe0) >> 4) | (k[6] & 0xf0)) | 1) as nat],
         t.pc1[((((k[1] & 0xe0) >> 4) | (k[5] & 0xf0)) | 1) as nat],
         t.pc1[((((k[0] & 0xe0) >> 4) | (k[4] & 0xf0)) | 1) as nat])
  }

  /** Regroup the bits of the two half keys for the round function. */
  function Fixup(x: bv32, y: bv32): Pair {
    var c := And(Xor(x, y), 0xffff0000);
    Pair(Xor(x, c), Rol(Xor(y, c), 18))
  }

  /** The subkey at index `i`, last round first. */
  function SubkeyAt(t: Tables, k: Octets, i: nat): Pair
    requires TablesOk(t) && i < 16
  {
    Fixup(HalfKeys(t.pc2, 0, FirstHalf(t, k))[i], HalfKeys(t.pc2, 512, SecondHalf(t, k))[i])
  }

  /** The subkeys in the order of encryption. */
  function Schedule(t: Tables, k: Octets): (keys: seq<Pair>)
    requires TablesOk(t)
    ensures |keys| == 16
  {
    seq(16, i requires 0 <= i < 16 => SubkeyAt(t, k, 15 - i))
  }

  // ------------------------------------------------------------ as the tool runs

  /** The sixteen lines that both expansions run for each half; they differ in where they put the
      results. The lines fall in two parts of eight. */
  method ExpandHalf(pt: seq<bv32>, base: nat, q: Quad) returns (keys: seq<bv32>, end: Quad)
    requires |pt| == 1024 && base <= 512 && Even(q)
    ensures keys == HalfKeys(pt, base, q) && end == Turns(q, 27)
  {
    hide Rs, Turned, Turns, Even;
    var front, mid := ExpandFront(pt, base, q);
    var back, last := ExpandBack(pt, base, q, mid);
    keys := front + back;
    end := last;
  }

  method ExpandFront(pt: seq<bv32>, base: nat, q: Quad) returns (keys: seq<bv32>, mid: Quad)
    requires |pt| == 1024 && base <= 512 && Even(q)
    ensures keys == FrontKeys(pt, base, q) && mid == Turns(q, 14)
  {
    hide Rs, HalfKey, Turns, Even;
    TurnsNone(q);
    var a, b, c, d := q.a, q.b, q.c, q.d;
    var v0, v1, v2, v3, v4, v5, v6, v7;
    v0 := HalfKey(pt, base, Quad(a, b, c, d)); d := Rs(d);
    TurnOnce(q, 0);
    v1 := HalfKey(pt, base, Quad(d, a, b, c)); c := Rs(c); b := Rs(b);
    TurnTwice(q, 1);
    v2 := HalfKey(pt, base, Quad(b, c, d, a)); a := Rs(a); d := Rs(d);
    TurnTwice(q, 3);
    v3 := HalfKey(pt, base, Quad(d, a, b, c)); c := Rs(c); b := Rs(b);
    TurnTwice(q, 5);
    v4 := HalfKey(pt, base, Quad(b, c, d, a)); a := Rs(a); d := Rs(d);
    TurnTwice(q, 7);
    v5 := HalfKey(pt, base, Quad(d, a, b, c)); c := Rs(c); b := Rs(b);
    TurnTwice(q, 9);
    v6 := HalfKey(pt, base, Quad(b, c, d, a)); a := Rs(a); d := Rs(d);
    TurnTwice(q, 11);
    v7 := HalfKey(pt, base, Quad(d, a, b, c)); c := Rs(c);
    TurnOnce(q, 13);
    keys := [v0, v1, v2, v3, v4, v5, v6, v7];
    mid := Quad(c, d, a, b);
  }

  method ExpandBack(pt: seq<bv32>, base: nat, ghost q: Quad, mid: Quad) returns (keys: seq<bv32>, end: Quad)
    requires |pt| == 1024 && base <= 512 && Even(q) && mid == Turns(q, 14)
    ensures keys == BackKeys(pt, base, q) && end == Turns(q, 27)
  {
    hide Rs, HalfKey, Turns, Even;
    var c, d, a, b := mid.a, mid.b, mid.c, mid.d;
    var v8, v9, v10, v11, v12, v13, v14, v15;
    v8 := HalfKey(pt, base, Quad(c, d, a, b)); b := Rs(b); a := Rs(a);
    TurnTwice(q, 14);
    v9 := HalfKey(pt, base, Quad(a, b, c, d)); d := Rs(d); c := Rs(c);
    TurnTwice(q, 16);
    v10 := HalfKey(pt, base, Quad(c, d, a, b)); b := Rs(b); a := Rs(a);
    TurnTwice(q, 18);
    v11 := HalfKey(pt, base, Quad(a, b, c, d)); d := Rs(d); c := Rs(c);
    TurnTwice(q, 20);
    v12 := HalfKey(pt, base, Quad(c, d, a, b)); b := Rs(b); a := Rs(a);
    TurnTwice(q, 22);
    v13 := HalfKey(pt, base, Quad(a, b, c, d)); d := Rs(d); c := Rs(c);
    TurnTwice(q, 24);
    v14 := HalfKey(pt, base, Quad(c, d, a, b)); b := Rs(b);
    TurnOnce(q, 26);
    v15 := HalfKey(pt, base, Quad(b, c, d, a));
    keys := [v8, v9, v10, v11, v12, v13, v14, v15];
    end := Quad(b, c, d, a);
  }

  method PlaceHalf(pe: array<bv32>, off: nat, half: nat, keys: seq<bv32>, down: bool)
    requires off + 32 <= pe.Length && half < 2 && |keys| == 16
    modifies pe
    ensures forall i :: 0 <= i < 16 ==> pe[off + 2 * i + half] == keys[if down then 15 - i else i]
    ensures forall j :: 0 <= j < pe.Length && !(off <= j < off + 32 && (j - off) % 2 == half) ==> pe[j] == old(pe[j])
  {
    var i := 0;
    while i < 16
      invariant 0 <= i <= 16
      invariant forall j :: 0 <= j < i ==> pe[off + 2 * j + half] == keys[if down then 15 - j else j]
      invariant forall j :: 0 <= j < pe.Length && !(off <= j < off + 32 && (j - off) % 2 == half) ==>
                  pe[j] == old(pe[j])
    {
      pe[off + 2 * i + half] := keys[if down then 15 - i else i];
      i := i + 1;
    }
  }

  method FixupAll(pe: array<bv32>, off: nat)
    requires off + 32 <= pe.Length
    modifies pe
    ensures forall i :: 0 <= i < 16 ==>
              Pair(pe[off + 2 * i], pe[off + 2 * i + 1]) == Fixup(old(pe[off + 2 * i]), old(pe[off + 2 * i + 1]))
    ensures forall j :: 0 <= j < pe.Length && !(off <= j < off + 32) ==> pe[j] == old(pe[j])
  {
    hide Fixup, Rol, Xor, And;
    var d := 0;
    while d < 16
      invariant 0 <= d <= 16
      invariant forall i :: 0 <= i < d ==>
                  Pair(pe[off + 2 * i], pe[off + 2 * i + 1]) == Fixup(old(pe[off + 2 * i]), old(pe[off + 2 * i + 1]))
      invariant forall j :: 0 <= j < pe.Length && !(off <= j < off + 2 * d) ==> pe[j] == old(pe[j])
    {
      var a := pe[off + 2 * d];
      var b := pe[off + 2 * d + 1];
      FixupIs(a, b);
      var c := Xor(a, b);
      c := And(c, 0xffff0000);
      a := Xor(a, c);
      b := Xor(b, c);
      b := Rol(b, 18);
      pe[off + 2 * d] := a;
      pe[off + 2 * d + 1] := b;
      d := d + 1;
    }
  }

  lemma FixupIs(x: bv32, y: bv32)
    ensures var c := And(Xor(x, y), 0xffff0000); Fixup(x, y) == Pair(Xor(x, c), Rol(Xor(y, c), 18))
  {
  }

  /** The pairs of two lists of half keys, in order or from the end. */
  function Paired(first: seq<bv32>, second: seq<bv32>, down: bool): (keys: seq<Pair>)
    requires |first| == |second| == 16
    ensures |keys| == 16
  {
    seq(16, i requires 0 <= i < 16 => if down then Fixup(first[15 - i], second[15 - i]) else Fixup(first[i], second[i]))
  }

  method PlaceAll(pe: array<bv32>, off: nat, first: seq<bv32>, second: seq<bv32>, down: bool)
    requires off + 32 <= pe.Length && |first| == |second| == 16
    modifies pe
    ensures Sixteen(pe[..], off, false) == Paired(first, second, down)
    ensures forall j :: 0 <= j < pe.Length && !(off <= j < off + 32) ==> pe[j] == old(pe[j])
  {
    hide Fixup;
    PlaceHalf(pe, off, 0, first, down);
    PlaceHalf(pe, off, 1, second, down);
    label placed:
    assert forall i :: 0 <= i < 16 ==> pe[off + 2 * i] == first[if down then 15 - i else i] by {
      assert forall i :: 0 <= i < 16 ==> pe[off + 2 * i + 0] == first[if down then 15 - i else i];
    }
    FixupAll(pe, off);
    forall i | 0 <= i < 16 ensures Sixteen(pe[..], off, false)[i] == Paired(first, second, down)[i] {
      assert Pair(pe[off + 2 * i], pe[off + 2 * i + 1]) ==
             Fixup(old@placed(pe[off + 2 * i]), old@placed(pe[off + 2 * i + 1]));
    }
  }

  lemma ScheduleIsPaired(t: Tables, k: Octets)
    requires TablesOk(t)
    ensures var first, second := HalfKeys(t.pc2, 0, FirstHalf(t, k)), HalfKeys(t.pc2, 512, SecondHalf(t, k));
            Schedule(t, k) == Paired(first, second, true) && Reversed(Schedule(t, k)) == Paired(first, second, false)
  {
    hide HalfKeys, FirstHalf, SecondHalf, Fixup;
  }

  /** Encryption key expansion; the result is zero for a weak key. */
  method ExpandEncrypt(t: Tables, pe: array<bv32>, off: nat, k: Octets) returns (w: bv8)
    requires TablesOk(t) && off + 32 <= pe.Length
    modifies pe
    ensures Sixteen(pe[..], off, false) == Schedule(t, k)
    ensures forall j :: 0 <= j < pe.Length && !(off <= j < off + 32) ==> pe[j] == old(pe[j])
    ensures w == 0 <==> Weak(t, k)
  {
    hide HalfKeys, FirstHalf, SecondHalf, Turns, Check, Alternating, Sixteen, Schedule, Paired;
    var q1, q2 := FirstHalf(t, k), SecondHalf(t, k);
    var first, end := ExpandHalf(t.pc2, 0, q1);
    var w1 := Check(end.d, end.a, end.b, end.c);
    var w2 := Check(q2.a, q2.b, q2.c, q2.d);
    w := w1 | w2;
    OrZero(w1, w2);
    CheckEnd(q1);
    CheckStart(q2);
    var second, _ := ExpandHalf(t.pc2, 512, q2);
    PlaceAll(pe, off, first, second, true);
    ScheduleIsPaired(t, k);
  }

  /** Decryption key expansion: the same subkeys in reverse order. */
  method ExpandDecrypt(t: Tables, pe: array<bv32>, off: nat, k: Octets)
    requires TablesOk(t) && off + 32 <= pe.Length
    modifies pe
    ensures Sixteen(pe[..], off, false) == Reversed(Schedule(t, k))
    ensures forall j :: 0 <= j < pe.Length && !(off <= j < off + 32) ==> pe[j] == old(pe[j])
  {
    hide HalfKeys, FirstHalf, SecondHalf, Sixteen, Schedule, Paired;
    var first, _ := ExpandHalf(t.pc2, 0, FirstHalf(t, k));
    var second, _ := ExpandHalf(t.pc2, 512, SecondHalf(t, k));
    PlaceAll(pe, off, first, second, false);
    ScheduleIsPaired(t, k);
  }

  // ------------------------------------------------------------------ weak keys

  function Check(a: bv8, b: bv8, c: bv8, d: bv8): bv8 {
    (a ^ c) | (b ^ d) | (Rs(a) ^ c) | (b ^ Rs(d))
  }

  /** A register that one turn shifts by a group and two turns leave as it is. */
  predicate Alternating(q: Quad) {
    q.a == q.c && q.b == q.d && Rs(q.a) == q.a && Rs(q.b) == q.b
  }

  predicate Weak(t: Tables, k: Octets)
    requires TablesOk(t)
  {
    Alternating(FirstHalf(t, k)) && Alternating(SecondHalf(t, k))
  }

  lemma OrZero(x: bv8, y: bv8)
    ensures x | y == 0 <==> x == 0 && y == 0
  {
  }

  lemma FourZero(a: bv8, b: bv8, c: bv8, d: bv8, x: bv8, y: bv8)
    ensures (a ^ c) | (b ^ d) | (x ^ c) | (b ^ y) == 0 <==> a == c && b == d && x == c && b == y
  {
  }

  lemma CheckZero(a: bv8, b: bv8, c: bv8, d: bv8)
    ensures Check(a, b, c, d) == 0 <==> a == c && b == d && Rs(a) == c && b == Rs(d)
  {
    FourZero(a, b, c, d, Rs(a), Rs(d));
  }

  lemma CheckStart(q: Quad)
    ensures Check(q.a, q.b, q.c, q.d) == 0 <==> Alternating(q)
  {
    hide Check, Rs;
    CheckZero(q.a, q.b, q.c, q.d);
  }

  lemma {:induction false} AlternatingTurns(q: Quad, n: nat)
    requires Alternating(q)
    ensures Turns(q, n) == if n % 2 == 0 then q else Turn(q)
  {
    hide Rs;
    if n > 0 { AlternatingTurns(q, n - 1); }
  }

  /** The first half is tested where its schedule ends, 27 turns on; that is one turn from the start. */
  lemma CheckEnd(q: Quad)
    requires Even(q)
    ensures var e := Turns(q, 27); Check(e.d, e.a, e.b, e.c) == 0 <==> Alternating(q)
  {
    hide Check, Rs;
    var e := Turns(q, 27);
    FullCircle(q);
    TurnOnce(q, 27);
    CheckZero(e.d, e.a, e.b, e.c);
    if Alternating(q) { AlternatingTurns(q, 27); }
  }

  /** FIPS 74: a register alternates exactly when it is all zeros, all ones or a pattern of the two. */
  lemma AlternatingRegister(q: Quad)
    requires Even(q)
    ensures Alternating(q) <==> Register(q) in {0, 0xfffffff, 0x5555555, 0xaaaaaaa}
  {
  }

  /** Y, seven X, seven Y, X. */
  predicate Pattern(keys: seq<Pair>, X: Pair, Y: Pair) {
    |keys| == 16 && forall i :: 0 <= i < 16 ==> keys[i] == if i == 15 || 1 <= i <= 7 then X else Y
  }

  /** A weak key has at most two subkeys, in a fixed order. */
  lemma WeakPattern(t: Tables, k: Octets)
    requires TablesOk(t) && Weak(t, k)
    ensures Pattern(Schedule(t, k), Schedule(t, k)[15], Schedule(t, k)[0])
  {
    hide Fixup, HalfKey, FirstHalf, SecondHalf;
    WeakHalf(t.pc2, 0, FirstHalf(t, k));
    WeakHalf(t.pc2, 512, SecondHalf(t, k));
  }

  lemma PatternReversed(keys: seq<Pair>, keys': seq<Pair>, X: Pair, Y: Pair)
    requires Pattern(keys, X, Y) && Pattern(keys', Y, X)
    ensures Reversed(keys) == keys'
  {
  }

  lemma WeakHalf(pt: seq<bv32>, base: nat, q: Quad)
    requires |pt| == 1024 && base <= 512 && Even(q) && Alternating(q)
    ensures var keys := HalfKeys(pt, base, q);
            forall i :: 0 <= i < 16 ==> keys[i] == keys[if i == 0 || 8 <= i <= 14 then 0 else 15]
  {
    hide Rs, HalfKey;
    AlternatingTurns(q, 0); AlternatingTurns(q, 1); AlternatingTurns(q, 3); AlternatingTurns(q, 5);
    AlternatingTurns(q, 7); AlternatingTurns(q, 9); AlternatingTurns(q, 11); AlternatingTurns(q, 13);
    AlternatingTurns(q, 14); AlternatingTurns(q, 16); AlternatingTurns(q, 18); AlternatingTurns(q, 20);
    AlternatingTurns(q, 22); AlternatingTurns(q, 24); AlternatingTurns(q, 26); AlternatingTurns(q, 27);
  }

  /** Two weak keys whose subkeys X and Y are exchanged undo each other. A weak key with one subkey
      is such a pair with itself: encrypting twice gives the block back. */
  lemma WeakKeysUndo(x: Boxes, t: Tables, k: Octets, k': Octets, b: Block)
    requires BoxesOk(x) && TablesOk(t) && Weak(t, k) && Weak(t, k')
    requires Schedule(t, k)[0] == Schedule(t, k')[15] && Schedule(t, k)[15] == Schedule(t, k')[0]
    ensures Crypt(x, Schedule(t, k'), Crypt(x, Schedule(t, k), b)) == b
  {
    hide Crypt, Weak, Pattern, Schedule;
    WeakPattern(t, k);
    WeakPattern(t, k');
    PatternReversed(Schedule(t, k), Schedule(t, k'), Schedule(t, k)[15], Schedule(t, k)[0]);
    CryptUndone(x, Schedule(t, k), b);
  }

  lemma WeakSelfInverse(x: Boxes, t: Tables, k: Octets, b: Block)
    requires BoxesOk(x) && TablesOk(t) && Weak(t, k) && Schedule(t, k)[0] == Schedule(t, k)[15]
    ensures Crypt(x, Schedule(t, k), Crypt(x, Schedule(t, k), b)) == b
  {
    hide Crypt, Weak, Schedule;
    WeakKeysUndo(x, t, k, k, b);
  }
}
