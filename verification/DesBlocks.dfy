/** The block operations as the tool runs them: macros that rewrite the halves in
    place, a key pointer that moves up or down the expanded key, loops of eight
    double rounds. */
module DesBlocks {
  import opened Des

  const DES_EXPKEY_WORDS: nat := 32
  const DES3_EDE_EXPKEY_WORDS: nat := 96

  /** Where a key pointer that starts at `k` stands after `i` rounds; it moves by two words a round. */
  function PointerAt(k: int, down: bool, i: int): int {
    if down then k - 2 * i else k + 2 * i
  }

  predicate PointerOk(K: seq<bv32>, k: int, down: bool) {
    if down then 30 <= k <= |K| - 2 else 0 <= k <= |K| - 32
  }

  /** The sixteen pairs that a key pointer meets from `k` on. */
  function Sixteen(K: seq<bv32>, k: int, down: bool): (keys: seq<Pair>)
    requires PointerOk(K, k, down)
    ensures |keys| == 16
  {
    seq(16, i requires 0 <= i < 16 => Pair(K[PointerAt(k, down, i)], K[PointerAt(k, down, i) + 1]))
  }

  /** Walking down meets the pairs of walking up in reverse. */
  lemma DownIsReversed(K: seq<bv32>, k: int)
    requires 0 <= k && k + 32 <= |K|
    ensures Sixteen(K, k + 30, true) == Reversed(Sixteen(K, k, false))
  {
  }

  method Permute(l0: bv32, r0: bv32) returns (l: bv32, r: bv32)
    ensures Block(l, r) == IP(Block(l0, r0))
  {
    hide Rol, Ror;
    l, r := l0, r0;
    r := Rol(r, 4);
    l, r := MaskStep(l, r, 0xf0f0f0f0);
    r := Rol(r, 12);
    l, r := MaskStep(l, r, 0xffff0000);
    r := Ror(r, 14);
    l, r := MaskStep(l, r, 0xcccccccc);
    r := Rol(r, 6);
    l, r := MaskStep(l, r, 0xff00ff00);
    r := Ror(r, 7);
    l, r := MaskStep(l, r, 0xaaaaaaaa);
    l := Rol(l, 1);
  }

  method PermuteBack(l0: bv32, r0: bv32) returns (l: bv32, r: bv32)
    ensures Block(l, r) == FP(Block(l0, r0))
  {
    hide Rol, Ror;
    l, r := l0, r0;
    l := Ror(l, 1);
    l, r := MaskStep(l, r, 0xaaaaaaaa);
    r := Rol(r, 7);
    l, r := MaskStep(l, r, 0xff00ff00);
    r := Ror(r, 6);
    l, r := MaskStep(l, r, 0xcccccccc);
    r := Rol(r, 14);
    l, r := MaskStep(l, r, 0xffff0000);
    r := Ror(r, 12);
    l, r := MaskStep(l, r, 0xf0f0f0f0);
    r := Ror(r, 4);
  }

  method MaskStep(l0: bv32, r0: bv32, mask: bv32) returns (l: bv32, r: bv32)
    ensures Block(l, r) == Exchange(Block(l0, r0), mask)
  {
    hide Xor, And, Taking;
    l, r := l0, r0;
    var t := l;
    l := Xor(l, r);
    l := And(l, mask);
    r := Xor(r, l);
    l := Xor(l, t);
    XorLaws(l0, r0, mask);
    XorLaws(And(Xor(l0, r0), mask), l0, mask);
    TakingIs(l0, r0, mask);
    TakingIs(r0, l0, mask);
  }

  /** The indices that the macro masks out of a word are the six-bit groups. */
  lemma MaskedBits(x: bv32)
    ensures var y := x & 0x3f3f3f3f;
            && 0xff & y == (x >> 0) & 0x3f && 0xff & (y >> 8) == (x >> 8) & 0x3f
            && 0xff & (y >> 16) == (x >> 16) & 0x3f && 0xff & ((y >> 16) >> 8) == (x >> 24) & 0x3f
  {
  }

  /** The four indices that the macro takes from one word. */
  method Indices(x: bv32) returns (i0: nat, i1: nat, i2: nat, i3: nat)
    ensures i0 == Six(x, 0) && i1 == Six(x, 8) && i2 == Six(x, 16) && i3 == Six(x, 24)
  {
    MaskedBits(x);
    var y := x & 0x3f3f3f3f;
    i0 := (0xff & y) as nat;
    i1 := (0xff & (y >> 8)) as nat;
    y := y >> 16;
    i2 := (0xff & y) as nat;
    i3 := (0xff & (y >> 8)) as nat;
  }

  method RoundMacro(t: Boxes, l0: bv32, r: bv32, K: seq<bv32>, k: nat) returns (l: bv32)
    requires BoxesOk(t) && k + 1 < |K|
    ensures l == Xor(l0, Scramble(t, r, Pair(K[k], K[k + 1])))
  {
    hide Six, Ror, Xor;
    l := l0;
    var b, a := K[k], K[k + 1];
    b := Xor(b, r);
    a := Xor(a, r);
    a := Ror(a, 4);
    var b0, b1, b2, b3 := Indices(b);
    var a0, a1, a2, a3 := Indices(a);
    l := Xor(l, t.s8[b0]);
    l := Xor(l, t.s6[b1]);
    l := Xor(l, t.s7[a0]);
    l := Xor(l, t.s5[a1]);
    l := Xor(l, t.s4[b2]);
    l := Xor(l, t.s2[b3]);
    l := Xor(l, t.s3[a2]);
    l := Xor(l, t.s1[a3]);
    XorEight(l0, t.s8[b0], t.s6[b1], t.s7[a0], t.s5[a1], t.s4[b2], t.s2[b3], t.s3[a2], t.s1[a3]);
  }

  lemma XorFour(l: bv32, a: bv32, b: bv32, c: bv32, d: bv32)
    ensures Xor(Xor(Xor(Xor(l, a), b), c), d) == Xor(l, Xor(Xor(a, b), Xor(c, d)))
  {
    hide Xor;
    XorLaws(l, a, b);
    XorLaws(Xor(l, Xor(a, b)), c, d);
    XorLaws(l, Xor(a, b), Xor(c, d));
  }

  lemma XorEight(l: bv32, a: bv32, b: bv32, c: bv32, d: bv32, e: bv32, f: bv32, g: bv32, h: bv32)
    ensures Xor(Xor(Xor(Xor(Xor(Xor(Xor(Xor(l, a), b), c), d), e), f), g), h)
            == Xor(l, Xor(Xor(Xor(a, b), Xor(c, d)), Xor(Xor(e, f), Xor(g, h))))
  {
    hide Xor;
    XorFour(l, a, b, c, d);
    XorFour(Xor(l, Xor(Xor(a, b), Xor(c, d))), e, f, g, h);
    XorLaws(l, Xor(Xor(a, b), Xor(c, d)), Xor(Xor(e, f), Xor(g, h)));
  }

  method DoubleRound(t: Boxes, K: seq<bv32>, k0: int, down: bool, l0: bv32, r0: bv32) returns (k: int, l: bv32, r: bv32)
    requires BoxesOk(t) && 0 <= k0 <= |K| - 2 && 0 <= PointerAt(k0, down, 1) <= |K| - 2
    ensures var k1 := PointerAt(k0, down, 1);
            && k == PointerAt(k0, down, 2)
            && Block(l, r) == Round(t, Round(t, Block(l0, r0), Pair(K[k0], K[k0 + 1])), Pair(K[k1], K[k1 + 1]))
  {
    hide Scramble, Xor;
    k := k0;
    l := RoundMacro(t, l0, r0, K, k);
    k := PointerAt(k, down, 1);
    r := RoundMacro(t, r0, l, K, k);
    k := PointerAt(k, down, 1);
  }

  lemma TwoRounds(t: Boxes, keys: seq<Pair>, i: nat, b: Block)
    requires BoxesOk(t) && i + 2 <= |keys|
    ensures Rounds(t, keys[i..], b) == Rounds(t, keys[i + 2..], Round(t, Round(t, b, keys[i]), keys[i + 1]))
  {
    hide Round;
    assert keys[i..][1..] == keys[i + 1..];
    assert keys[i + 1..][1..] == keys[i + 2..];
  }

  /** The pointer and the halves after `i` double rounds. */
  ghost predicate Halfway(t: Boxes, keys: seq<Pair>, i: nat, b: Block, b0: Block)
    requires BoxesOk(t)
  {
    2 * i <= |keys| && Rounds(t, keys[2 * i..], b) == Rounds(t, keys, b0)
  }

  lemma HalfwayNext(t: Boxes, K: seq<bv32>, k0: int, down: bool, i: nat, b: Block, b0: Block)
    requires BoxesOk(t) && PointerOk(K, k0, down) && i < 8 && Halfway(t, Sixteen(K, k0, down), i, b, b0)
    ensures var k, k1 := PointerAt(k0, down, 2 * i), PointerAt(k0, down, 2 * i + 1);
            && 0 <= k <= |K| - 2 && 0 <= k1 <= |K| - 2
            && Halfway(t, Sixteen(K, k0, down), i + 1,
                       Round(t, Round(t, b, Pair(K[k], K[k + 1])), Pair(K[k1], K[k1 + 1])), b0)
  {
    hide Round, Rounds, Sixteen;
    TwoRounds(t, Sixteen(K, k0, down), 2 * i, b);
    PairAt(K, k0, down, 2 * i);
    PairAt(K, k0, down, 2 * i + 1);
  }

  lemma HalfwayEnds(t: Boxes, keys: seq<Pair>, b: Block, b0: Block)
    requires BoxesOk(t) && |keys| == 16
    ensures Halfway(t, keys, 0, b0, b0) && (Halfway(t, keys, 8, b, b0) ==> b == Rounds(t, keys, b0))
  {
    hide Round;
    assert keys[0..] == keys && keys[16..] == [];
  }

  /** Eight double rounds. */
  method DoubleRounds(t: Boxes, K: seq<bv32>, k0: int, down: bool, l0: bv32, r0: bv32)
    returns (k: int, l: bv32, r: bv32)
    requires BoxesOk(t) && PointerOk(K, k0, down)
    ensures k == PointerAt(k0, down, 16) && Block(l, r) == Rounds(t, Sixteen(K, k0, down), Block(l0, r0))
  {
    hide Round, Rounds, Sixteen, Halfway, PointerOk;
    k, l, r := k0, l0, r0;
    HalfwayEnds(t, Sixteen(K, k0, down), Block(l, r), Block(l0, r0));
    var i := 0;
    while i < 8
      invariant 0 <= i <= 8 && k == PointerAt(k0, down, 2 * i)
      invariant Halfway(t, Sixteen(K, k0, down), i, Block(l, r), Block(l0, r0))
    {
      HalfwayNext(t, K, k0, down, i, Block(l, r), Block(l0, r0));
      k, l, r := DoubleRound(t, K, k, down, l, r);
      i := i + 1;
    }
    HalfwayEnds(t, Sixteen(K, k0, down), Block(l, r), Block(l0, r0));
  }

  lemma PairAt(K: seq<bv32>, k: int, down: bool, i: nat)
    requires PointerOk(K, k, down) && i < 16
    ensures var j := PointerAt(k, down, i);
            0 <= j <= |K| - 2 && Sixteen(K, k, down)[i] == Pair(K[j], K[j + 1])
  {
  }

  // ------------------------------------------------------------------------ DES

  method Encrypt(t: Boxes, K: seq<bv32>, src: Octets) returns (dst: Octets)
    requires BoxesOk(t) && |K| == DES_EXPKEY_WORDS
    ensures dst == Store(Crypt(t, Sixteen(K, 0, false), Load(src)))
  {
    hide IP, FP, Rounds;
    var k, l, r := 0, Word(src[0], src[1], src[2], src[3]), Word(src[4], src[5], src[6], src[7]);
    l, r := Permute(l, r);
    k, l, r := DoubleRounds(t, K, k, false, l, r);
    r, l := PermuteBack(r, l);
    dst := Bytes(r) + Bytes(l);
  }

  method Decrypt(t: Boxes, K: seq<bv32>, src: Octets) returns (dst: Octets)
    requires BoxesOk(t) && |K| == DES_EXPKEY_WORDS
    ensures dst == Store(Crypt(t, Reversed(Sixteen(K, 0, false)), Load(src)))
  {
    hide IP, FP, Rounds;
    var k, l, r := DES_EXPKEY_WORDS - 2, Word(src[0], src[1], src[2], src[3]), Word(src[4], src[5], src[6], src[7]);
    l, r := Permute(l, r);
    k, l, r := DoubleRounds(t, K, k, true, l, r);
    DownIsReversed(K, 0);
    r, l := PermuteBack(r, l);
    dst := Bytes(r) + Bytes(l);
  }

  // ----------------------------------------------------------------- triple DES

  /** What triple DES does to a block under an expanded key of 96 words. */
  function TripleEncrypt(t: Boxes, K: seq<bv32>, b: Octets): Octets
    requires BoxesOk(t) && |K| == DES3_EDE_EXPKEY_WORDS
  {
    Store(Triple(t, Sixteen(K, 0, false), Sixteen(K, 32, false), Sixteen(K, 64, false), Load(b)))
  }

  function TripleDecrypt(t: Boxes, K: seq<bv32>, b: Octets): Octets
    requires BoxesOk(t) && |K| == DES3_EDE_EXPKEY_WORDS
  {
    Store(Triple(t, Reversed(Sixteen(K, 64, false)), Reversed(Sixteen(K, 32, false)),
                 Reversed(Sixteen(K, 0, false)), Load(b)))
  }

  method Encrypt3(t: Boxes, K: seq<bv32>, src: Octets) returns (dst: Octets)
    requires BoxesOk(t) && |K| == DES3_EDE_EXPKEY_WORDS
    ensures dst == TripleEncrypt(t, K, src)
  {
    hide IP, FP, Rounds;
    var k, l, r := 0, Word(src[0], src[1], src[2], src[3]), Word(src[4], src[5], src[6], src[7]);
    l, r := Permute(l, r);
    k, l, r := DoubleRounds(t, K, k, false, l, r);
    k, r, l := DoubleRounds(t, K, k, false, r, l);
    k, l, r := DoubleRounds(t, K, k, false, l, r);
    r, l := PermuteBack(r, l);
    dst := Bytes(r) + Bytes(l);
  }

  method Decrypt3(t: Boxes, K: seq<bv32>, src: Octets) returns (dst: Octets)
    requires BoxesOk(t) && |K| == DES3_EDE_EXPKEY_WORDS
    ensures dst == TripleDecrypt(t, K, src)
  {
    hide IP, FP, Rounds;
    var k, l, r := DES3_EDE_EXPKEY_WORDS - 2,
                   Word(src[0], src[1], src[2], src[3]), Word(src[4], src[5], src[6], src[7]);
    l, r := Permute(l, r);
    k, l, r := DoubleRounds(t, K, k, true, l, r);
    k, r, l := DoubleRounds(t, K, k, true, r, l);
    k, l, r := DoubleRounds(t, K, k, true, l, r);
    DownIsReversed(K, 0);
    DownIsReversed(K, 32);
    DownIsReversed(K, 64);
    r, l := PermuteBack(r, l);
    dst := Bytes(r) + Bytes(l);
  }

  /** Encryption and decryption of eight bytes undo each other for every expanded key. */
  lemma TripleRoundTrip(t: Boxes, K: seq<bv32>, b: Octets)
    requires BoxesOk(t) && |K| == DES3_EDE_EXPKEY_WORDS
    ensures TripleDecrypt(t, K, TripleEncrypt(t, K, b)) == b
    ensures TripleEncrypt(t, K, TripleDecrypt(t, K, b)) == b
  {
    hide Triple, Reversed, Sixteen, Load, Store;
    var k1, k2, k3 := Sixteen(K, 0, false), Sixteen(K, 32, false), Sixteen(K, 64, false);
    TripleUndone(t, k1, k2, k3, Load(b));
    LoadStore(Triple(t, k1, k2, k3, Load(b)));
    LoadStore(Triple(t, Reversed(k3), Reversed(k2), Reversed(k1), Load(b)));
    StoreLoad(b);
  }
}
