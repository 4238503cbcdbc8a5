/** DES on 64-bit blocks: the initial and final permutations, the rounds, and the
    block operations over an expanded key. Nothing here depends on what the
    substitution boxes contain. */
module Des {

  // ------------------------------------------------------------- words and bytes

  function Xor(x: bv32, y: bv32): bv32 { x ^ y }

  function And(x: bv32, y: bv32): bv32 { x & y }

  lemma XorIs(x: bv32, y: bv32)
    ensures Xor(x, y) == x ^ y
  {
  }

  lemma AndIs(x: bv32, y: bv32)
    ensures And(x, y) == x & y
  {
  }

  lemma XorLaws(x: bv32, y: bv32, z: bv32)
    ensures Xor(Xor(x, y), z) == Xor(x, Xor(y, z)) && Xor(x, y) == Xor(y, x) && Xor(Xor(x, y), y) == x
  {
  }

  function Rol(x: bv32, k: bv6): bv32
    requires 0 < k < 32
  {
    (x << k) | (x >> (32 - k))
  }

  function Ror(x: bv32, k: bv6): bv32
    requires 0 < k < 32
  {
    (x >> k) | (x << (32 - k))
  }

  lemma Rotate1(x: bv32)
    ensures Ror(Rol(x, 1), 1) == x && Rol(Ror(x, 1), 1) == x
  {
  }

  lemma Rotate4(x: bv32)
    ensures Ror(Rol(x, 4), 4) == x && Rol(Ror(x, 4), 4) == x
  {
  }

  lemma Rotate6(x: bv32)
    ensures Ror(Rol(x, 6), 6) == x && Rol(Ror(x, 6), 6) == x
  {
  }

  lemma Rotate7(x: bv32)
    ensures Ror(Rol(x, 7), 7) == x && Rol(Ror(x, 7), 7) == x
  {
  }

  lemma Rotate12(x: bv32)
    ensures Ror(Rol(x, 12), 12) == x && Rol(Ror(x, 12), 12) == x
  {
  }

  lemma Rotate14(x: bv32)
    ensures Ror(Rol(x, 14), 14) == x && Rol(Ror(x, 14), 14) == x
  {
  }

  /** The rotations that the permutations use come in pairs that cancel. */
  lemma RotateBack(x: bv32, k: bv6)
    requires k == 1 || k == 4 || k == 6 || k == 7 || k == 12 || k == 14
    ensures Ror(Rol(x, k), k) == x && Rol(Ror(x, k), k) == x
  {
    hide Rol, Ror;
    Rotate1(x); Rotate4(x); Rotate6(x); Rotate7(x); Rotate12(x); Rotate14(x);
  }

  /** A little-endian word. */
  function Word(b0: bv8, b1: bv8, b2: bv8, b3: bv8): bv32 {
    (b0 as bv32) | ((b1 as bv32) << 8) | ((b2 as bv32) << 16) | ((b3 as bv32) << 24)
  }

  function Bytes(w: bv32): (b: seq<bv8>)
    ensures |b| == 4
  {
    [(w & 0xff) as bv8, ((w >> 8) & 0xff) as bv8, ((w >> 16) & 0xff) as bv8, ((w >> 24) & 0xff) as bv8]
  }

  datatype Block = Block(l: bv32, r: bv32)

  function Swap(b: Block): Block { Block(b.r, b.l) }

  type Octets = b: seq<bv8> | |b| == 8 witness [0, 0, 0, 0, 0, 0, 0, 0]

  function Load(b: Octets): Block {
    Block(Word(b[0], b[1], b[2], b[3]), Word(b[4], b[5], b[6], b[7]))
  }

  function Store(b: Block): Octets {
    Bytes(b.l) + Bytes(b.r)
  }

  lemma WordBytes(b0: bv8, b1: bv8, b2: bv8, b3: bv8)
    ensures Bytes(Word(b0, b1, b2, b3)) == [b0, b1, b2, b3]
  {
  }

  lemma BytesWord(w: bv32)
    ensures var b := Bytes(w); Word(b[0], b[1], b[2], b[3]) == w
  {
  }

  lemma LoadStore(b: Block)
    ensures Load(Store(b)) == b
  {
    BytesWord(b.l);
    BytesWord(b.r);
  }

  lemma StoreLoad(b: Octets)
    ensures Store(Load(b)) == b
  {
    WordBytes(b[0], b[1], b[2], b[3]);
    WordBytes(b[4], b[5], b[6], b[7]);
  }

  // ------------------------------------------------------------- permutations

  function Taking(x: bv32, y: bv32, mask: bv32): bv32 {
    x ^ ((x ^ y) & mask)
  }

  lemma TakingIs(x: bv32, y: bv32, mask: bv32)
    ensures Taking(x, y, mask) == Xor(x, And(Xor(x, y), mask))
  {
    hide Xor, And;
    XorIs(x, y);
    AndIs(Xor(x, y), mask);
    XorIs(x, And(Xor(x, y), mask));
  }

  lemma TakingBack(x: bv32, y: bv32, mask: bv32)
    ensures Taking(Taking(x, y, mask), Taking(y, x, mask), mask) == x
  {
  }

  /** Exchange the bits of the two halves that the mask selects. */
  function Exchange(b: Block, mask: bv32): Block {
    Block(Taking(b.l, b.r, mask), Taking(b.r, b.l, mask))
  }

  lemma ExchangeTwice(b: Block, mask: bv32)
    ensures Exchange(Exchange(b, mask), mask) == b
  {
    hide Taking;
    TakingBack(b.l, b.r, mask);
    TakingBack(b.r, b.l, mask);
  }

  function RolR(b: Block, k: bv6): Block
    requires 0 < k < 32
  {
    b.(r := Rol(b.r, k))
  }

  function RorR(b: Block, k: bv6): Block
    requires 0 < k < 32
  {
    b.(r := Ror(b.r, k))
  }

  function IP(b: Block): Block {
    var b1 := Exchange(RolR(b, 4), 0xf0f0f0f0);
    var b2 := Exchange(RolR(b1, 12), 0xffff0000);
    var b3 := Exchange(RorR(b2, 14), 0xcccccccc);
    var b4 := Exchange(RolR(b3, 6), 0xff00ff00);
    var b5 := Exchange(RorR(b4, 7), 0xaaaaaaaa);
    b5.(l := Rol(b5.l, 1))
  }

  function FP(b: Block): Block {
    var b1 := Exchange(b.(l := Ror(b.l, 1)), 0xaaaaaaaa);
    var b2 := Exchange(RolR(b1, 7), 0xff00ff00);
    var b3 := Exchange(RorR(b2, 6), 0xcccccccc);
    var b4 := Exchange(RolR(b3, 14), 0xffff0000);
    var b5 := Exchange(RorR(b4, 12), 0xf0f0f0f0);
    RorR(b5, 4)
  }

  lemma FinalUndoesInitial(b: Block)
    ensures FP(IP(b)) == b
  {
    hide Rol, Ror, Exchange;
    var b1 := Exchange(RolR(b, 4), 0xf0f0f0f0);
    var b2 := Exchange(RolR(b1, 12), 0xffff0000);
    var b3 := Exchange(RorR(b2, 14), 0xcccccccc);
    var b4 := Exchange(RolR(b3, 6), 0xff00ff00);
    var b5 := Exchange(RorR(b4, 7), 0xaaaaaaaa);
    RotateBack(b5.l, 1);
    ExchangeTwice(RorR(b4, 7), 0xaaaaaaaa); RotateBack(b4.r, 7);
    ExchangeTwice(RolR(b3, 6), 0xff00ff00); RotateBack(b3.r, 6);
    ExchangeTwice(RorR(b2, 14), 0xcccccccc); RotateBack(b2.r, 14);
    ExchangeTwice(RolR(b1, 12), 0xffff0000); RotateBack(b1.r, 12);
    ExchangeTwice(RolR(b, 4), 0xf0f0f0f0); RotateBack(b.r, 4);
  }

  lemma InitialUndoesFinal(b: Block)
    ensures IP(FP(b)) == b
  {
    hide Rol, Ror, Exchange;
    var b0 := b.(l := Ror(b.l, 1));
    var b1 := Exchange(b0, 0xaaaaaaaa);
    var b2 := Exchange(RolR(b1, 7), 0xff00ff00);
    var b3 := Exchange(RorR(b2, 6), 0xcccccccc);
    var b4 := Exchange(RolR(b3, 14), 0xffff0000);
    var b5 := Exchange(RorR(b4, 12), 0xf0f0f0f0);
    RotateBack(b5.r, 4);
    ExchangeTwice(RorR(b4, 12), 0xf0f0f0f0); RotateBack(b4.r, 12);
    ExchangeTwice(RolR(b3, 14), 0xffff0000); RotateBack(b3.r, 14);
    ExchangeTwice(RorR(b2, 6), 0xcccccccc); RotateBack(b2.r, 6);
    ExchangeTwice(RolR(b1, 7), 0xff00ff00); RotateBack(b1.r, 7);
    ExchangeTwice(b0, 0xaaaaaaaa); RotateBack(b.l, 1);
  }

  // -------------------------------------------------------------------- rounds

  datatype Boxes = Boxes(s1: seq<bv32>, s2: seq<bv32>, s3: seq<bv32>, s4: seq<bv32>,
                         s5: seq<bv32>, s6: seq<bv32>, s7: seq<bv32>, s8: seq<bv32>)

  predicate BoxesOk(t: Boxes) {
    |t.s1| == |t.s2| == |t.s3| == |t.s4| == |t.s5| == |t.s6| == |t.s7| == |t.s8| == 64
  }

  /** The two words of the expanded key that one round uses. */
  datatype Pair = Pair(k0: bv32, k1: bv32)

  /** A six-bit index that stands in the byte of `x` that begins at bit `shift`. */
  function Six(x: bv32, shift: bv6): (i: nat)
    requires shift == 0 || shift == 8 || shift == 16 || shift == 24
    ensures i < 64
  {
    ((x >> shift) & 0x3f) as nat
  }

  /** The round function: eight box lookups, from one half against the two key words. */
  function Scramble(t: Boxes, r: bv32, k: Pair): bv32
    requires BoxesOk(t)
  {
    var b, a := Xor(k.k0, r), Ror(Xor(k.k1, r), 4);
    var x := Xor(Xor(t.s8[Six(b, 0)], t.s6[Six(b, 8)]), Xor(t.s7[Six(a, 0)], t.s5[Six(a, 8)]));
    var y := Xor(Xor(t.s4[Six(b, 16)], t.s2[Six(b, 24)]), Xor(t.s3[Six(a, 16)], t.s1[Six(a, 24)]));
    Xor(x, y)
  }

  function Round(t: Boxes, b: Block, k: Pair): Block
    requires BoxesOk(t)
  {
    Block(b.r, Xor(b.l, Scramble(t, b.r, k)))
  }

  function Rounds(t: Boxes, keys: seq<Pair>, b: Block): Block
    requires BoxesOk(t)
  {
    if keys == [] then b else Rounds(t, keys[1..], Round(t, b, keys[0]))
  }

  function Reversed(keys: seq<Pair>): (r: seq<Pair>)
    ensures |r| == |keys|
  {
    seq(|keys|, i requires 0 <= i < |keys| => keys[|keys| - 1 - i])
  }

  lemma {:induction false} RoundsAppend(t: Boxes, a: seq<Pair>, c: seq<Pair>, b: Block)
    requires BoxesOk(t)
    ensures Rounds(t, a + c, b) == Rounds(t, c, Rounds(t, a, b))
  {
    if a == [] {
      assert a + c == c;
    } else {
      assert (a + c)[1..] == a[1..] + c;
      RoundsAppend(t, a[1..], c, Round(t, b, a[0]));
    }
  }

  /** Rounds with the keys in reverse order, halves exchanged before and after, undo the rounds. */
  lemma {:induction false} RoundsUndone(t: Boxes, keys: seq<Pair>, b: Block)
    requires BoxesOk(t)
    ensures Swap(Rounds(t, Reversed(keys), Swap(Rounds(t, keys, b)))) == b
  {
    hide Scramble, Xor;
    if keys != [] {
      var k, rest := keys[0], keys[1..];
      var b1 := Round(t, b, k);
      RoundsUndone(t, rest, b1);
      assert Reversed(keys) == Reversed(rest) + [k];
      var c := Swap(Rounds(t, keys, b));
      RoundsAppend(t, Reversed(rest), [k], c);
      assert Rounds(t, Reversed(rest), c) == Swap(b1);
      XorLaws(b.l, Scramble(t, b.r, k), 0);
      assert Rounds(t, [k], Swap(b1)) == Round(t, Swap(b1), k);
    } else {
      assert Reversed(keys) == [];
    }
  }

  // ---------------------------------------------------------------- block cipher

  /** DES with the given key pairs in the given order. */
  function Crypt(t: Boxes, keys: seq<Pair>, b: Block): Block
    requires BoxesOk(t)
  {
    FP(Swap(Rounds(t, keys, IP(b))))
  }

  lemma ReversedTwice(keys: seq<Pair>)
    ensures Reversed(Reversed(keys)) == keys
  {
  }

  /** DES with the keys in reverse order is the inverse of DES. */
  lemma CryptUndone(t: Boxes, keys: seq<Pair>, b: Block)
    requires BoxesOk(t)
    ensures Crypt(t, Reversed(keys), Crypt(t, keys, b)) == b
    ensures Crypt(t, keys, Crypt(t, Reversed(keys), b)) == b
  {
    hide IP, FP;
    CryptThere(t, keys, b);
    ReversedTwice(keys);
    CryptThere(t, Reversed(keys), b);
  }

  lemma CryptThere(t: Boxes, keys: seq<Pair>, b: Block)
    requires BoxesOk(t)
    ensures Crypt(t, Reversed(keys), Crypt(t, keys, b)) == b
  {
    hide IP, FP, Rounds;
    InitialUndoesFinal(Swap(Rounds(t, keys, IP(b))));
    RoundsUndone(t, keys, IP(b));
    FinalUndoesInitial(b);
  }

  /** The fused triple cipher: one initial and one final permutation around 48 rounds. */
  function Triple(t: Boxes, k1: seq<Pair>, k2: seq<Pair>, k3: seq<Pair>, b: Block): Block
    requires BoxesOk(t)
  {
    FP(Swap(Rounds(t, k3, Swap(Rounds(t, k2, Swap(Rounds(t, k1, IP(b))))))))
  }

  /** The inner permutations cancel: the fused cipher is three passes of DES. */
  lemma TripleIsThreePasses(t: Boxes, k1: seq<Pair>, k2: seq<Pair>, k3: seq<Pair>, b: Block)
    requires BoxesOk(t)
    ensures Triple(t, k1, k2, k3, b) == Crypt(t, k3, Crypt(t, k2, Crypt(t, k1, b)))
  {
    hide IP, FP, Rounds;
    InitialUndoesFinal(Swap(Rounds(t, k1, IP(b))));
    InitialUndoesFinal(Swap(Rounds(t, k2, Swap(Rounds(t, k1, IP(b))))));
  }

  /** Triple DES decryption is the fused cipher with all 48 keys in reverse order; the two are
      mutual inverses on every block, for every expanded key. */
  lemma TripleUndone(t: Boxes, k1: seq<Pair>, k2: seq<Pair>, k3: seq<Pair>, b: Block)
    requires BoxesOk(t)
    ensures Triple(t, Reversed(k3), Reversed(k2), Reversed(k1), Triple(t, k1, k2, k3, b)) == b
    ensures Triple(t, k1, k2, k3, Triple(t, Reversed(k3), Reversed(k2), Reversed(k1), b)) == b
  {
    hide Crypt;
    var c, d := Triple(t, k1, k2, k3, b), Triple(t, Reversed(k3), Reversed(k2), Reversed(k1), b);
    TripleIsThreePasses(t, k1, k2, k3, b);
    TripleIsThreePasses(t, Reversed(k3), Reversed(k2), Reversed(k1), c);
    CryptUndone(t, k1, b);
    CryptUndone(t, k2, Crypt(t, k1, b));
    CryptUndone(t, k3, Crypt(t, k2, Crypt(t, k1, b)));
    TripleIsThreePasses(t, Reversed(k3), Reversed(k2), Reversed(k1), b);
    TripleIsThreePasses(t, k1, k2, k3, d);
    CryptUndone(t, k3, b);
    CryptUndone(t, k2, Crypt(t, Reversed(k3), b));
    CryptUndone(t, k1, Crypt(t, Reversed(k2), Crypt(t, Reversed(k3), b)));
  }

  /** With the middle schedule the reverse of a neighbour's, two passes cancel. */
  lemma TripleCollapses(t: Boxes, k1: seq<Pair>, k3: seq<Pair>, b: Block)
    requires BoxesOk(t)
    ensures Triple(t, k1, Reversed(k1), k3, b) == Crypt(t, k3, b)
    ensures Triple(t, k1, Reversed(k3), k3, b) == Crypt(t, k1, b)
  {
    hide Crypt, Triple;
    TripleIsThreePasses(t, k1, Reversed(k1), k3, b);
    CryptUndone(t, k1, b);
    TripleIsThreePasses(t, k1, Reversed(k3), k3, b);
    CryptUndone(t, k3, Crypt(t, k1, b));
  }
}
