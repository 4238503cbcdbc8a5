/** FIPS 46-3, the Data Encryption Standard, and that the tool's word operations compute what it says.
    Bits are numbered from 1 and from the left, as there. */
module DesStandard {
  import opened Des
  import opened DesKey

  // ------------------------------------------------------ the standard's tables

  /** A block or a key as 64 bits. */
  function Whole(b: Octets): bv64 {
    ((b[0] as bv64) << 56) | ((b[1] as bv64) << 48) | ((b[2] as bv64) << 40) | ((b[3] as bv64) << 32)
    | ((b[4] as bv64) << 24) | ((b[5] as bv64) << 16) | ((b[6] as bv64) << 8) | (b[7] as bv64)
  }

  function Bit(x: bv64, n: bv7): bv32
    requires 1 <= n <= 64
  {
    ((x >> (64 - n)) & 1) as bv32
  }

  /** A row of the initial permutation: every eighth bit, downwards from `n`. */
  function Row(x: bv64, n: bv7): bv32
    requires 57 <= n <= 64
  {
    (Bit(x, n) << 7) | (Bit(x, n - 8) << 6) | (Bit(x, n - 16) << 5) | (Bit(x, n - 24) << 4)
    | (Bit(x, n - 32) << 3) | (Bit(x, n - 40) << 2) | (Bit(x, n - 48) << 1) | Bit(x, n - 56)
  }

  /** The two halves after the initial permutation. The tool keeps each half turned by one place. */
  function Initial(b: Octets): Block {
    var x := Whole(b);
    Block(Rol((Row(x, 58) << 24) | (Row(x, 60) << 16) | (Row(x, 62) << 8) | Row(x, 64), 1),
          Rol((Row(x, 57) << 24) | (Row(x, 59) << 16) | (Row(x, 61) << 8) | Row(x, 63), 1))
  }

  /** A row of permuted choice 1. A register holds its bit 1 lowest. */
  function Seven(x: bv64, a: bv7, b: bv7, c: bv7, d: bv7, e: bv7, f: bv7, g: bv7): bv28
    requires 1 <= a <= 64 && 1 <= b <= 64 && 1 <= c <= 64 && 1 <= d <= 64
    requires 1 <= e <= 64 && 1 <= f <= 64 && 1 <= g <= 64
  {
    (Bit(x, a) | (Bit(x, b) << 1) | (Bit(x, c) << 2) | (Bit(x, d) << 3) | (Bit(x, e) << 4) | (Bit(x, f) << 5)
     | (Bit(x, g) << 6)) as bv28
  }

  function RegisterC(x: bv64): bv28 {
    Seven(x, 57, 49, 41, 33, 25, 17, 9) | (Seven(x, 1, 58, 50, 42, 34, 26, 18) << 7)
    | (Seven(x, 10, 2, 59, 51, 43, 35, 27) << 14) | (Seven(x, 19, 11, 3, 60, 52, 44, 36) << 21)
  }

  function RegisterD(x: bv64): bv28 {
    Seven(x, 63, 55, 47, 39, 31, 23, 15) | (Seven(x, 7, 62, 54, 46, 38, 30, 22) << 7)
    | (Seven(x, 14, 6, 61, 53, 45, 37, 29) << 14) | (Seven(x, 21, 13, 5, 28, 20, 12, 4) << 21)
  }

  /** How far the registers are shifted in all for the subkey of round `n`. */
  function Shifts(n: nat): nat {
    if n == 0 then 0 else Shifts(n - 1) + if n == 1 || n == 2 || n == 9 || n == 16 then 1 else 2
  }

  /** `s` left shifts: bit 2 becomes bit 1, and bit 1 becomes bit 28. */
  function Shifted(x: bv28, s: nat): bv28 {
    if s == 0 then x else var y := Shifted(x, s - 1); (y >> 1) | (y << 27)
  }

  /** A row of permuted choice 2. */
  function RowOf(x: bv56, a: bv6, b: bv6, c: bv6, d: bv6, e: bv6, f: bv6): bv32
    requires 1 <= a <= 56 && 1 <= b <= 56 && 1 <= c <= 56 && 1 <= d <= 56 && 1 <= e <= 56 && 1 <= f <= 56
  {
    var m: bv56 := 1;
    ((((x >> (a - 1)) & m) << 5) | (((x >> (b - 1)) & m) << 4) | (((x >> (c - 1)) & m) << 3)
     | (((x >> (d - 1)) & m) << 2) | (((x >> (e - 1)) & m) << 1) | ((x >> (f - 1)) & m)) as bv32
  }

  /** The six bits of the subkey that go to box `j`. */
  function KeyGroup(c: bv28, d: bv28, j: bv6): bv32 {
    var x := (c as bv56) | ((d as bv56) << 28);
    if j == 1 then RowOf(x, 14, 17, 11, 24, 1, 5) else if j == 2 then RowOf(x, 3, 28, 15, 6, 21, 10)
    else if j == 3 then RowOf(x, 23, 19, 12, 4, 26, 8) else if j == 4 then RowOf(x, 16, 7, 27, 20, 13, 2)
    else if j == 5 then RowOf(x, 41, 52, 31, 37, 47, 55) else if j == 6 then RowOf(x, 30, 40, 51, 45, 33, 48)
    else if j == 7 then RowOf(x, 44, 49, 39, 56, 34, 53) else RowOf(x, 46, 42, 50, 36, 29, 32)
  }

  /** Six bits of a half in a row, from bit `s` of the word up and around: with `s` = 4 * (8 - j) they are row `j`
      of the expansion E. */
  function Window(x: bv32, s: bv6): bv32 {
    ((x >> (s & 31)) & 1) | (((x >> ((s + 1) & 31)) & 1) << 1) | (((x >> ((s + 2) & 31)) & 1) << 2)
    | (((x >> ((s + 3) & 31)) & 1) << 3) | (((x >> ((s + 4) & 31)) & 1) << 4) | (((x >> ((s + 5) & 31)) & 1) << 5)
  }

  function BoxOf(t: Boxes, j: bv6): (box: seq<bv32>)
    requires BoxesOk(t)
    ensures |box| == 64
  {
    if j == 1 then t.s1 else if j == 2 then t.s2 else if j == 3 then t.s3 else if j == 4 then t.s4
    else if j == 5 then t.s5 else if j == 6 then t.s6 else if j == 7 then t.s7 else t.s8
  }

  function Sum(x1: bv32, x2: bv32, x3: bv32, x4: bv32, x5: bv32, x6: bv32, x7: bv32, x8: bv32): bv32 {
    Xor(Xor(Xor(x1, x2), Xor(x3, x4)), Xor(Xor(x5, x6), Xor(x7, x8)))
  }

  function Index(x: bv32): (i: nat)
    ensures i < 64
  {
    (x & 0x3f) as nat
  }

  /** What box `j` gives: an even box takes the first word of the key pair, an odd one the second. */
  function Lookup(t: Boxes, r: bv32, k: Pair, j: bv6): bv32
    requires BoxesOk(t) && 1 <= j <= 8
  {
    BoxOf(t, j)[Index(Window(Xor(r, if j % 2 == 0 then k.k0 else k.k1), 4 * (8 - j)))]
  }

  lemma EvenWindows(x: bv32)
    ensures (x >> 0) & 0x3f == Window(x, 0) & 0x3f && (x >> 8) & 0x3f == Window(x, 8) & 0x3f
    ensures (x >> 16) & 0x3f == Window(x, 16) & 0x3f && (x >> 24) & 0x3f == Window(x, 24) & 0x3f
  {
  }

  lemma OddWindows(x: bv32)
    ensures var y := Ror(x, 4);
            && (y >> 0) & 0x3f == Window(x, 4) & 0x3f && (y >> 8) & 0x3f == Window(x, 12) & 0x3f
            && (y >> 16) & 0x3f == Window(x, 20) & 0x3f && (y >> 24) & 0x3f == Window(x, 28) & 0x3f
  {
  }

  lemma SumFour(a: bv32, b: bv32, c: bv32, d: bv32)
    ensures Xor(Xor(a, b), Xor(c, d)) == Xor(Xor(d, b), Xor(c, a))
  {
    hide Xor;
    XorLaws(Xor(a, b), Xor(c, d), 0);
    XorLaws(c, d, 0);
    XorLaws(d, c, Xor(a, b));
    XorLaws(c, a, b);
    XorLaws(Xor(c, a), b, 0);
    XorLaws(d, b, Xor(c, a));
  }

  lemma EvenLookups(t: Boxes, r: bv32, k: Pair)
    requires BoxesOk(t)
    ensures var b := Xor(k.k0, r);
            && Lookup(t, r, k, 8) == t.s8[Six(b, 0)] && Lookup(t, r, k, 6) == t.s6[Six(b, 8)]
            && Lookup(t, r, k, 4) == t.s4[Six(b, 16)] && Lookup(t, r, k, 2) == t.s2[Six(b, 24)]
  {
    hide Window, Xor;
    XorLaws(k.k0, r, 0);
    EvenWindows(Xor(r, k.k0));
  }

  lemma OddLookups(t: Boxes, r: bv32, k: Pair)
    requires BoxesOk(t)
    ensures var a := Ror(Xor(k.k1, r), 4);
            && Lookup(t, r, k, 7) == t.s7[Six(a, 0)] && Lookup(t, r, k, 5) == t.s5[Six(a, 8)]
            && Lookup(t, r, k, 3) == t.s3[Six(a, 16)] && Lookup(t, r, k, 1) == t.s1[Six(a, 24)]
  {
    hide Window, Xor, Ror;
    XorLaws(k.k1, r, 0);
    OddWindows(Xor(r, k.k1));
  }

  /** The round function is that of the standard: the sum of the eight boxes, each at its own six bits. */
  lemma ScrambleIsStandard(t: Boxes, r: bv32, k: Pair)
    requires BoxesOk(t)
    ensures Scramble(t, r, k) == Sum(Lookup(t, r, k, 1), Lookup(t, r, k, 2), Lookup(t, r, k, 3), Lookup(t, r, k, 4),
                                     Lookup(t, r, k, 5), Lookup(t, r, k, 6), Lookup(t, r, k, 7), Lookup(t, r, k, 8))
  {
    hide Lookup, Six, Ror, Xor;
    EvenLookups(t, r, k);
    OddLookups(t, r, k);
    SumFour(Lookup(t, r, k, 1), Lookup(t, r, k, 2), Lookup(t, r, k, 3), Lookup(t, r, k, 4));
    SumFour(Lookup(t, r, k, 5), Lookup(t, r, k, 6), Lookup(t, r, k, 7), Lookup(t, r, k, 8));
    XorLaws(Xor(Xor(Lookup(t, r, k, 1), Lookup(t, r, k, 2)), Xor(Lookup(t, r, k, 3), Lookup(t, r, k, 4))),
            Xor(Xor(Lookup(t, r, k, 5), Lookup(t, r, k, 6)), Xor(Lookup(t, r, k, 7), Lookup(t, r, k, 8))), 0);
  }

  /** The cipher function f of the standard, for registers C and D as they stand in a round. */
  function CipherFunction(t: Boxes, r: bv32, c: bv28, d: bv28): bv32
    requires BoxesOk(t)
  {
    Sum(Substitute(t, r, c, d, 1), Substitute(t, r, c, d, 2), Substitute(t, r, c, d, 3), Substitute(t, r, c, d, 4),
        Substitute(t, r, c, d, 5), Substitute(t, r, c, d, 6), Substitute(t, r, c, d, 7), Substitute(t, r, c, d, 8))
  }

  function Substitute(t: Boxes, r: bv32, c: bv28, d: bv28, j: bv6): bv32
    requires BoxesOk(t) && 1 <= j <= 8
  {
    BoxOf(t, j)[Index(Xor(Window(r, 4 * (8 - j)), KeyGroup(c, d, j)))]
  }

  /** `n` rounds of the standard under the key `x`. */
  function StandardRounds(t: Boxes, x: bv64, b: Block, n: nat): Block
    requires BoxesOk(t)
  {
    if n == 0 then b else
      var p := StandardRounds(t, x, b, n - 1);
      var c, d := Shifted(RegisterC(x), Shifts(n)), Shifted(RegisterD(x), Shifts(n));
      Block(p.r, Xor(p.l, CipherFunction(t, p.r, c, d)))
  }

  // -------------------------------------------------- the tables of the source

  /** Bit `from` of a byte, from 0 and from the right, put to bit `at` of a word. */
  function To(v: bv8, from: bv6, at: bv6): bv32
    requires from < 8 && at < 32
  {
    (((v as bv32) >> from) & 1) << at
  }

  /** The entries of `pc1`. */
  function Pc1(v: bv8): (y: bv8)
    ensures y & 1 == 0
  {
    var w := if v & 1 == 0
             then To(v, 7, 3) | To(v, 6, 5) | To(v, 5, 7) | To(v, 4, 1) | To(v, 3, 2) | To(v, 2, 4) | To(v, 1, 6)
             else To(v, 7, 7) | To(v, 6, 5) | To(v, 5, 3) | To(v, 4, 1) | To(v, 3, 6) | To(v, 2, 4) | To(v, 1, 2);
    w as bv8
  }

  /** The entries of `pc2`: a part for each half of the key, each with four columns. */
  function Pc2(half: nat, column: nat, v: bv8): bv32
    requires half < 2 && column < 4
  {
    if half == 0 && column == 0 then
      To(v, 7, 1) | To(v, 6, 9) | To(v, 5, 28) | To(v, 4, 31) | To(v, 3, 10) | To(v, 2, 22) | To(v, 1, 18)
    else if half == 0 && column == 1 then
      To(v, 7, 13) | To(v, 6, 19) | To(v, 4, 4) | To(v, 3, 5) | To(v, 2, 3)
    else if half == 0 && column == 2 then
      To(v, 7, 29) | To(v, 5, 21) | To(v, 3, 27) | To(v, 2, 11) | To(v, 1, 26)
    else if half == 0 && column == 3 then
      To(v, 7, 0) | To(v, 6, 2) | To(v, 5, 12) | To(v, 4, 23) | To(v, 3, 8) | To(v, 2, 30) | To(v, 1, 20)
    else if half == 1 && column == 0 then
      To(v, 7, 11) | To(v, 6, 10) | To(v, 4, 17) | To(v, 3, 14) | To(v, 2, 25)
    else if half == 1 && column == 1 then
      To(v, 7, 16) | To(v, 6, 26) | To(v, 5, 24) | To(v, 4, 15) | To(v, 1, 3)
    else if half == 1 && column == 2 then
      To(v, 7, 29) | To(v, 6, 20) | To(v, 5, 13) | To(v, 4, 27) | To(v, 3, 6) | To(v, 2, 7) | To(v, 1, 19)
    else
      To(v, 7, 4) | To(v, 6, 2) | To(v, 5, 5) | To(v, 4, 21) | To(v, 3, 18) | To(v, 2, 12) | To(v, 1, 28)
  }

  const TABLES: Tables := Tables(
    seq(256, i requires 0 <= i < 256 => Pc1(i as bv8)),
    seq(1024, i requires 0 <= i < 1024 => Pc2(i / 512, i % 4, ((i % 512) / 4 * 2) as bv8)))

  lemma TablesFit()
    ensures TablesOk(TABLES)
  {
    hide Pc1, Pc2;
  }

  lemma Pc1Entry(v: bv8)
    ensures TABLES.pc1[v as nat] == Pc1(v)
  {
    hide Pc1, Pc2;
  }

  lemma EvenNumber(v: bv8)
    requires v & 1 == 0
    ensures (v as nat) % 2 == 0
  {
  }

  lemma EntryNumber(half: nat, column: nat, n: nat)
    requires half < 2 && column < 4 && n < 256 && n % 2 == 0
    ensures var i := 512 * half + 2 * n + column; i < 1024 && i / 512 == half && i % 4 == column && i % 512 / 4 * 2 == n
  {
    var m := n / 2;
    assert 2 * n + column == 4 * m + column;
  }

  /** The entry of a column of one part of a table like `pc2`. */
  function Entry(pt: seq<bv32>, half: nat, column: nat, v: bv8): bv32
    requires |pt| == 1024 && half < 2 && column < 4 && v & 1 == 0
  {
    EvenIndex(v);
    pt[512 * half + 2 * (v as nat) + column]
  }

  lemma Pc2Entry(half: nat, column: nat, v: bv8)
    requires half < 2 && column < 4 && v & 1 == 0
    ensures Entry(TABLES.pc2, half, column, v) == Pc2(half, column, v)
  {
    hide Pc1, Pc2;
    EvenNumber(v);
    var n := v as nat;
    EntryNumber(half, column, n);
    assert n as bv8 == v;
    var i := 512 * half + 2 * n + column;
    assert TABLES.pc2[i] == Pc2(half, column, n as bv8);
  }

  // ------------------------------------------------------- permuted choice 2

  /** The half key of a register, word by word. */
  function Chosen(half: nat, q: Quad): bv32
    requires half < 2
  {
    Pc2(half, 3, q.d) | Pc2(half, 2, q.c) | Pc2(half, 1, q.b) | Pc2(half, 0, q.a)
  }

  lemma HalfKeyOf(pt: seq<bv32>, half: nat, q: Quad)
    requires |pt| == 1024 && half < 2 && Even(q)
    ensures HalfKey(pt, 512 * half, q) ==
            Entry(pt, half, 3, q.d) | Entry(pt, half, 2, q.c) | Entry(pt, half, 1, q.b) | Entry(pt, half, 0, q.a)
  {
  }

  lemma HalfKeyChosen(half: nat, q: Quad)
    requires half < 2 && Even(q)
    ensures HalfKey(TABLES.pc2, 512 * half, q) == Chosen(half, q)
  {
    hide Entry, HalfKey, Pc2;
    Pc2Entry(half, 3, q.d); Pc2Entry(half, 2, q.c); Pc2Entry(half, 1, q.b); Pc2Entry(half, 0, q.a);
    HalfKeyOf(TABLES.pc2, half, q);
  }

  lemma EvenFixup(x: bv32, y: bv32)
    ensures var p := Fixup(x, y);
            && Window(p.k0, 24) == (y >> 24) & 0x3f
            && Window(p.k0, 16) == (y >> 16) & 0x3f
            && Window(p.k0, 8) == (x >> 8) & 0x3f
            && Window(p.k0, 0) == x & 0x3f
  {
  }

  lemma OddFixup(x: bv32, y: bv32)
    ensures var p := Fixup(x, y);
            && Window(p.k1, 28) == (y >> 10) & 0x3f
            && Window(p.k1, 20) == (y >> 2) & 0x3f
            && Window(p.k1, 12) == (x >> 26) & 0x3f
            && Window(p.k1, 4) == (x >> 18) & 0x3f
  {
  }

  lemma Group1(c: Quad, d: Quad)
    ensures (Chosen(1, c) >> 10) & 0x3f == KeyGroup(Register(c), Register(d), 1)
  {
  }

  lemma Group2(c: Quad, d: Quad)
    ensures (Chosen(1, c) >> 24) & 0x3f == KeyGroup(Register(c), Register(d), 2)
  {
  }

  lemma Group3(c: Quad, d: Quad)
    ensures (Chosen(1, c) >> 2) & 0x3f == KeyGroup(Register(c), Register(d), 3)
  {
  }

  lemma Group4(c: Quad, d: Quad)
    ensures (Chosen(1, c) >> 16) & 0x3f == KeyGroup(Register(c), Register(d), 4)
  {
  }

  lemma Group5(c: Quad, d: Quad)
    ensures (Chosen(0, d) >> 26) & 0x3f == KeyGroup(Register(c), Register(d), 5)
  {
  }

  lemma Group6(c: Quad, d: Quad)
    ensures (Chosen(0, d) >> 8) & 0x3f == KeyGroup(Register(c), Register(d), 6)
  {
  }

  lemma Group7(c: Quad, d: Quad)
    ensures (Chosen(0, d) >> 18) & 0x3f == KeyGroup(Register(c), Register(d), 7)
  {
  }

  lemma Group8(c: Quad, d: Quad)
    ensures Chosen(0, d) & 0x3f == KeyGroup(Register(c), Register(d), 8)
  {
  }

  /** The bits of a key pair that box `j` takes are those of permuted choice 2. */
  lemma KeyWindow(c: Quad, d: Quad, j: bv6)
    requires 1 <= j <= 8
    ensures var p := Fixup(Chosen(0, d), Chosen(1, c));
            Window(if j % 2 == 0 then p.k0 else p.k1, 4 * (8 - j)) == KeyGroup(Register(c), Register(d), j)
  {
    hide Chosen, Fixup, KeyGroup, Register, Window;
    EvenFixup(Chosen(0, d), Chosen(1, c));
    OddFixup(Chosen(0, d), Chosen(1, c));
    Group1(c, d); Group2(c, d); Group3(c, d); Group4(c, d);
    Group5(c, d); Group6(c, d); Group7(c, d); Group8(c, d);
  }

  // --------------------------------------------- permuted choice 1 and the shifts

  function IndexC(k: bv8, m: bv8): bv8 { (((k & 0xe0) >> 4) | (m & 0xf0)) | 1 }

  function IndexD(k: bv8, m: bv8): bv8 { ((m & 0x0e) << 4) | (k & 0x1e) }

  lemma Choice1C(k: Octets)
    ensures RegisterC(Whole(k)) ==
            Register(Quad(Pc1(IndexC(k[3], k[7])), Pc1(IndexC(k[2], k[6])),
                          Pc1(IndexC(k[1], k[5])), Pc1(IndexC(k[0], k[4]))))
  {
  }

  lemma Choice1D(k: Octets)
    ensures RegisterD(Whole(k)) ==
            Register(Quad(Pc1(IndexD(k[3], k[7])), Pc1(IndexD(k[2], k[6])),
                          Pc1(IndexD(k[1], k[5])), Pc1(IndexD(k[0], k[4]))))
  {
  }

  /** The registers that the tool starts from are C and D. */
  lemma Choice1IsStandard(k: Octets)
    ensures TablesOk(TABLES)
    ensures Register(SecondHalf(TABLES, k)) == RegisterC(Whole(k))
    ensures Register(FirstHalf(TABLES, k)) == RegisterD(Whole(k))
  {
    hide Register, RegisterC, RegisterD, Whole, Pc1;
    TablesFit();
    Choice1C(k);
    Choice1D(k);
    Pc1Entry(IndexC(k[3], k[7])); Pc1Entry(IndexC(k[2], k[6]));
    Pc1Entry(IndexC(k[1], k[5])); Pc1Entry(IndexC(k[0], k[4]));
    Pc1Entry(IndexD(k[3], k[7])); Pc1Entry(IndexD(k[2], k[6]));
    Pc1Entry(IndexD(k[1], k[5])); Pc1Entry(IndexD(k[0], k[4]));
  }

  lemma ShiftUndoesTurn(x: bv28)
    ensures var y := RotateRegister(x); (y >> 1) | (y << 27) == x
  {
  }

  /** Turning a register 28 - s times is shifting it s times. */
  lemma {:induction false} TurnsAreShifts(q: Quad, s: nat)
    requires Even(q) && s <= 28
    ensures Register(Turns(q, 28 - s)) == Shifted(Register(q), s)
  {
    hide Register, Turns, Even;
    if s == 0 {
      FullCircle(q);
    } else {
      TurnsAreShifts(q, s - 1);
      TurnOnce(q, 28 - s);
      TurnRotates(Turns(q, 28 - s));
      ShiftUndoesTurn(Register(Turns(q, 28 - s)));
    }
  }

  lemma ShiftTable()
    ensures Shifts(1) == 1 && Shifts(2) == 2 && Shifts(3) == 4 && Shifts(4) == 6 && Shifts(5) == 8 && Shifts(6) == 10
    ensures Shifts(7) == 12 && Shifts(8) == 14 && Shifts(9) == 15 && Shifts(10) == 17 && Shifts(11) == 19
    ensures Shifts(12) == 21 && Shifts(13) == 23 && Shifts(14) == 25 && Shifts(15) == 27 && Shifts(16) == 28
  {
    assert Shifts(4) == 6;
    assert Shifts(8) == 14;
    assert Shifts(12) == 21;
  }

  lemma HalfKeysShifted(pt: seq<bv32>, base: nat, q: Quad, n: nat)
    requires |pt| == 1024 && base <= 512 && Even(q) && 1 <= n <= 16
    ensures Shifts(n) <= 28 && HalfKeys(pt, base, q)[16 - n] == Turned(pt, base, q, 28 - Shifts(n))
  {
    hide Turned, Even, Shifts;
    ShiftTable();
  }

  /** Subkey `n` of the tool, as box `j` takes it, is subkey `n` of the standard. */
  lemma SubkeyIsStandard(k: Octets, n: nat, j: bv6)
    requires 1 <= n <= 16 && 1 <= j <= 8
    ensures TablesOk(TABLES)
    ensures var p, x := Schedule(TABLES, k)[n - 1], Whole(k);
            Window(if j % 2 == 0 then p.k0 else p.k1, 4 * (8 - j))
            == KeyGroup(Shifted(RegisterC(x), Shifts(n)), Shifted(RegisterD(x), Shifts(n)), j)
  {
    hide HalfKeys, Fixup, Chosen, KeyGroup, Window, Shifted, Shifts, Register, RegisterC, RegisterD, Turns, Even;
    hide FirstHalf, SecondHalf, Whole, HalfKey;
    Choice1IsStandard(k);
    var c, d := SecondHalf(TABLES, k), FirstHalf(TABLES, k);
    HalfKeysShifted(TABLES.pc2, 0, d, n);
    HalfKeysShifted(TABLES.pc2, 512, c, n);
    TurnsAreShifts(c, Shifts(n));
    TurnsAreShifts(d, Shifts(n));
    var c', d' := Turns(c, 28 - Shifts(n)), Turns(d, 28 - Shifts(n));
    HalfKeyChosen(0, d');
    HalfKeyChosen(1, c');
    KeyWindow(c', d', j);
  }

  lemma WindowSum1(x: bv32, y: bv32)
    ensures Window(Xor(x, y), 28) == Xor(Window(x, 28), Window(y, 28))
  {
  }

  lemma WindowSum2(x: bv32, y: bv32)
    ensures Window(Xor(x, y), 24) == Xor(Window(x, 24), Window(y, 24))
  {
  }

  lemma WindowSum3(x: bv32, y: bv32)
    ensures Window(Xor(x, y), 20) == Xor(Window(x, 20), Window(y, 20))
  {
  }

  lemma WindowSum4(x: bv32, y: bv32)
    ensures Window(Xor(x, y), 16) == Xor(Window(x, 16), Window(y, 16))
  {
  }

  lemma WindowSum5(x: bv32, y: bv32)
    ensures Window(Xor(x, y), 12) == Xor(Window(x, 12), Window(y, 12))
  {
  }

  lemma WindowSum6(x: bv32, y: bv32)
    ensures Window(Xor(x, y), 8) == Xor(Window(x, 8), Window(y, 8))
  {
  }

  lemma WindowSum7(x: bv32, y: bv32)
    ensures Window(Xor(x, y), 4) == Xor(Window(x, 4), Window(y, 4))
  {
  }

  lemma WindowSum8(x: bv32, y: bv32)
    ensures Window(Xor(x, y), 0) == Xor(Window(x, 0), Window(y, 0))
  {
  }

  lemma LookupIsStandard(t: Boxes, r: bv32, k: Octets, n: nat, j: bv6)
    requires BoxesOk(t) && 1 <= n <= 16 && 1 <= j <= 8
    ensures TablesOk(TABLES)
    ensures var x := Whole(k);
            Lookup(t, r, Schedule(TABLES, k)[n - 1], j)
            == Substitute(t, r, Shifted(RegisterC(x), Shifts(n)), Shifted(RegisterD(x), Shifts(n)), j)
  {
    hide KeyGroup, Window, Shifted, Shifts, RegisterC, RegisterD, Whole, Schedule, Xor, BoxOf, Index;
    SubkeyIsStandard(k, n, j);
    var p := Schedule(TABLES, k)[n - 1];
    WindowSum1(r, p.k1); WindowSum2(r, p.k0); WindowSum3(r, p.k1); WindowSum4(r, p.k0);
    WindowSum5(r, p.k1); WindowSum6(r, p.k0); WindowSum7(r, p.k1); WindowSum8(r, p.k0);
  }

  /** A round under subkey `n` adds the cipher function of the standard. */
  lemma RoundIsStandard(t: Boxes, r: bv32, k: Octets, n: nat)
    requires BoxesOk(t) && 1 <= n <= 16
    ensures TablesOk(TABLES)
    ensures var x := Whole(k);
            Scramble(t, r, Schedule(TABLES, k)[n - 1])
            == CipherFunction(t, r, Shifted(RegisterC(x), Shifts(n)), Shifted(RegisterD(x), Shifts(n)))
  {
    hide Lookup, Substitute, Shifted, Shifts, RegisterC, RegisterD, Whole, Schedule, Sum, Scramble;
    LookupIsStandard(t, r, k, n, 1); LookupIsStandard(t, r, k, n, 2); LookupIsStandard(t, r, k, n, 3);
    LookupIsStandard(t, r, k, n, 4); LookupIsStandard(t, r, k, n, 5); LookupIsStandard(t, r, k, n, 6);
    LookupIsStandard(t, r, k, n, 7); LookupIsStandard(t, r, k, n, 8);
    ScrambleIsStandard(t, r, Schedule(TABLES, k)[n - 1]);
  }

  lemma {:induction false} RoundsAreStandard(t: Boxes, k: Octets, b: Block, n: nat)
    requires BoxesOk(t) && n <= 16
    ensures TablesOk(TABLES)
    ensures Rounds(t, Schedule(TABLES, k)[..n], b) == StandardRounds(t, Whole(k), b, n)
  {
    hide Scramble, CipherFunction, Shifted, Shifts, RegisterC, RegisterD, Whole, Schedule, Xor;
    TablesFit();
    var keys := Schedule(TABLES, k);
    if n > 0 {
      RoundsAreStandard(t, k, b, n - 1);
      var p := Rounds(t, keys[..n - 1], b);
      assert keys[..n] == keys[..n - 1] + [keys[n - 1]];
      RoundsAppend(t, keys[..n - 1], [keys[n - 1]], b);
      assert Rounds(t, [keys[n - 1]], p) == Round(t, p, keys[n - 1]);
      RoundIsStandard(t, p.r, k, n);
    }
  }

  /** The initial permutation. */
  lemma InitialIsStandard(b: Octets)
    ensures IP(Load(b)) == Initial(b)
  {
  }

  /** The tool's cipher is that of the standard, for any boxes: permute the block, run the sixteen rounds under the
      sixteen subkeys, exchange the halves, and the result is what the initial permutation makes of the output. */
  lemma EncryptionIsStandard(t: Boxes, k: Octets, b: Octets)
    requires BoxesOk(t)
    ensures TablesOk(TABLES)
    ensures Initial(Store(Crypt(t, Schedule(TABLES, k), Load(b)))) == Swap(StandardRounds(t, Whole(k), Initial(b), 16))
  {
    hide Initial, IP, FP, Load, Store, Rounds, StandardRounds, Schedule, Whole;
    RoundsAreStandard(t, k, Initial(b), 16);
    assert Schedule(TABLES, k)[..16] == Schedule(TABLES, k);
    InitialIsStandard(b);
    var out := Crypt(t, Schedule(TABLES, k), Load(b));
    InitialIsStandard(Store(out));
    LoadStore(out);
    InitialUndoesFinal(Swap(Rounds(t, Schedule(TABLES, k), IP(Load(b)))));
  }
}
