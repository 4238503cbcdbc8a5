/** The Jenkins hash: the mixing step, the hash of bytes and the hash of words. */
module Jhash {
  import opened Words

  const JHASH_GOLDEN_RATIO: Word := 0x9e3779b9

  /** The three words a hash works on. */
  datatype Trio = Trio(a: Word, b: Word, c: Word)

  // ------------------------------------------------------------------ the mixing step

  /** The first word less the two others, crossed with a shifted one. */
  function Blend(x: Word, y: Word, z: Word, s: Word): Word { Xor(Sub(Sub(x, y), z), s) }

  function Unblend(x: Word, y: Word, z: Word, s: Word): Word { Add(Add(Xor(x, s), z), y) }

  lemma SubAdd(x: Word, y: Word)
    ensures Add(Sub(x, y), y) == x && Sub(Add(x, y), y) == x
  {
  }

  lemma BlendUndone(x: Word, y: Word, z: Word, s: Word)
    ensures Unblend(Blend(x, y, z, s), y, z, s) == x
    ensures Blend(Unblend(x, y, z, s), y, z, s) == x
  {
    hide XorBits, Add, Sub, Pow2;
    Pow32();
    XorTwice(Sub(Sub(x, y), z), s, 32);
    SubAdd(Sub(x, y), z);
    SubAdd(x, y);
    XorTwice(x, s, 32);
    var v := Xor(x, s);
    SubAdd(v, z);
    SubAdd(Add(v, z), y);
  }

  datatype Shifts = First | Second | Third {
    function OfC(c: Word): Word {
      match this case First => ShiftRight(c, 13) case Second => ShiftRight(c, 12) case Third => ShiftRight(c, 3)
    }
    function OfA(a: Word): Word {
      match this case First => ShiftLeft(a, 8) case Second => ShiftLeft(a, 16) case Third => ShiftLeft(a, 10)
    }
    function OfB(b: Word): Word {
      match this case First => ShiftRight(b, 13) case Second => ShiftRight(b, 5) case Third => ShiftRight(b, 15)
    }
  }

  function Row(t: Trio, s: Shifts): Trio {
    var a := Blend(t.a, t.b, t.c, s.OfC(t.c));
    var b := Blend(t.b, t.c, a, s.OfA(a));
    var c := Blend(t.c, a, b, s.OfB(b));
    Trio(a, b, c)
  }

  function Unrow(t: Trio, s: Shifts): Trio {
    var c := Unblend(t.c, t.a, t.b, s.OfB(t.b));
    var b := Unblend(t.b, c, t.a, s.OfA(t.a));
    var a := Unblend(t.a, b, c, s.OfC(c));
    Trio(a, b, c)
  }

  lemma RowUndone(t: Trio, s: Shifts)
    ensures Unrow(Row(t, s), s) == t
    ensures Row(Unrow(t, s), s) == t
  {
    hide Blend, Unblend, Shifts.OfA, Shifts.OfB, Shifts.OfC;
    var m := Row(t, s);
    BlendUndone(t.c, m.a, m.b, s.OfB(m.b));
    BlendUndone(t.b, t.c, m.a, s.OfA(m.a));
    BlendUndone(t.a, t.b, t.c, s.OfC(t.c));
    var u := Unrow(t, s);
    BlendUndone(t.c, t.a, t.b, s.OfB(t.b));
    BlendUndone(t.b, u.c, t.a, s.OfA(t.a));
    BlendUndone(t.a, u.b, u.c, s.OfC(u.c));
  }

  lemma {:induction false} RightIsDivision(x: Word, n: nat)
    ensures ShiftRight(x, n) == Over(x, Pow2(n))
    decreases n
  {
    if n > 0 {
      RightIsDivision(x / 2, n - 1);
      HalfThenRest(x, Pow2(n - 1));
    }
  }

  lemma HalfThenRest(x: nat, p: nat)
    requires p > 0
    ensures x / 2 / p == x / (2 * p)
  {
    var q, r := x / 2 / p, x / 2 % p;
    assert x / 2 == q * p + r;
    assert x == q * (2 * p) + (2 * r + x % 2);
    QuotientIs(x, 2 * p, q, 2 * r + x % 2);
  }

  lemma {:induction false} LeftIsProduct(x: Word, n: nat)
    ensures ShiftLeft(x, n) == Times(x, Pow2(n))
    decreases n
  {
    if n > 0 {
      LeftIsProduct(Add(x, x), n - 1);
      DoubleThenRest(x, Pow2(n - 1));
    }
  }

  lemma DoubleThenRest(x: Word, p: nat)
    ensures Add(x, x) * p % WRAP == x * (2 * p) % WRAP
  {
    if 2 * x >= WRAP {
      assert (2 * x - WRAP) * p == x * (2 * p) - p * WRAP;
      WrapAway(x * (2 * p), p);
    } else {
      assert (2 * x) * p == x * (2 * p);
    }
  }

  lemma WrapAway(x: int, p: nat)
    ensures (x - p * WRAP) % WRAP == x % WRAP
  {
    var q, r := x / WRAP, x % WRAP;
    QuotientIs(x - p * WRAP, WRAP, q - p, r);
  }

  lemma Powers()
    ensures Pow2(3) == 8 && Pow2(5) == 0x20 && Pow2(8) == 0x100 && Pow2(10) == 0x400
    ensures Pow2(12) == 0x1000 && Pow2(13) == 0x2000 && Pow2(15) == 0x8000 && Pow2(16) == 0x1_0000
  {
    assert Pow2(5) == 0x20;
    assert Pow2(10) == 0x400;
    assert Pow2(13) == 0x2000;
  }

  function Rest(x: Word, y: Word, z: Word): nat { (x - y - z) % WRAP }

  function Times(x: nat, p: nat): nat { x * p % WRAP }

  function Over(x: nat, p: nat): nat
    requires p > 0
  {
    x / p
  }

  lemma SubIs(x: Word, y: Word, z: Word)
    ensures Sub(Sub(x, y), z) == Rest(x, y, z)
  {
  }

  /** Bit for bit, `r` is `x` crossed with `y`. */
  ghost predicate Crossed(r: nat, x: nat, y: nat) {
    forall k :: 0 <= k < 32 ==> (BitAt(r, k) <==> BitAt(x, k) != BitAt(y, k))
  }

  lemma BlendIs(x: Word, y: Word, z: Word, s: Word)
    ensures Crossed(Blend(x, y, z, s), Rest(x, y, z), s)
  {
    hide XorBits, BitAt, Sub, Rest;
    SubIs(x, y, z);
    forall k | 0 <= k < 32 ensures BitAt(Blend(x, y, z, s), k) <==> BitAt(Rest(x, y, z), k) != BitAt(s, k) {
      XorBitAt(Sub(Sub(x, y), z), s, 32, k);
    }
  }

  /** Each word in turn becomes itself less the two others, crossed with one of them divided or multiplied. */
  ghost predicate RowStep(t: Trio, r: Trio, ofC: nat, ofA: nat, ofB: nat)
    requires ofC > 0 && ofB > 0
  {
    && Crossed(r.a, Rest(t.a, t.b, t.c), Over(t.c, ofC))
    && Crossed(r.b, Rest(t.b, t.c, r.a), Times(r.a, ofA))
    && Crossed(r.c, Rest(t.c, r.a, r.b), Over(r.b, ofB))
  }

  lemma RowIs(t: Trio, s: Shifts)
    ensures match s
            case First => RowStep(t, Row(t, s), 0x2000, 0x100, 0x2000)
            case Second => RowStep(t, Row(t, s), 0x1000, 0x1_0000, 0x20)
            case Third => RowStep(t, Row(t, s), 8, 0x400, 0x8000)
  {
    hide Blend, ShiftRight, ShiftLeft, Pow2, Crossed, Rest, Over, Times;
    Powers();
    var r := Row(t, s);
    BlendIs(t.a, t.b, t.c, s.OfC(t.c));
    BlendIs(t.b, t.c, r.a, s.OfA(r.a));
    BlendIs(t.c, r.a, r.b, s.OfB(r.b));
    match s {
      case First => RightIsDivision(t.c, 13); LeftIsProduct(r.a, 8); RightIsDivision(r.b, 13);
      case Second => RightIsDivision(t.c, 12); LeftIsProduct(r.a, 16); RightIsDivision(r.b, 5);
      case Third => RightIsDivision(t.c, 3); LeftIsProduct(r.a, 10); RightIsDivision(r.b, 15);
    }
  }

  function Mix(t: Trio): Trio { Row(Row(Row(t, First), Second), Third) }

  function Unmix(t: Trio): Trio { Unrow(Unrow(Unrow(t, Third), Second), First) }

  /** The mixing step in arithmetic: three rows, whose powers of two have the exponents 13, 8, 13, then 12, 16, 5,
      then 3, 10, 15. */
  lemma MixIs(t: Trio)
    ensures exists u, v ::
              && RowStep(t, u, 0x2000, 0x100, 0x2000)
              && RowStep(u, v, 0x1000, 0x1_0000, 0x20)
              && RowStep(v, Mix(t), 8, 0x400, 0x8000)
  {
    hide Row, RowStep;
    var u := Row(t, First);
    var v := Row(u, Second);
    RowIs(t, First);
    RowIs(u, Second);
    RowIs(v, Third);
  }

  /** Mixing is a permutation of the 96-bit states: nothing is lost and every state is reached. */
  lemma MixIsPermutation(t: Trio)
    ensures Unmix(Mix(t)) == t
    ensures Mix(Unmix(t)) == t
  {
    hide Row, Unrow;
    RowUndone(t, First);
    RowUndone(Row(t, First), Second);
    RowUndone(Row(Row(t, First), Second), Third);
    RowUndone(t, Third);
    RowUndone(Unrow(t, Third), Second);
    RowUndone(Unrow(Unrow(t, Third), Second), First);
  }

  method MixRow1(a0: Word, b0: Word, c0: Word) returns (a: Word, b: Word, c: Word)
    ensures Trio(a, b, c) == Row(Trio(a0, b0, c0), First)
  {
    a, b, c := a0, b0, c0;
    a := Sub(a, b); a := Sub(a, c); a := Xor(a, ShiftRight(c, 13));
    b := Sub(b, c); b := Sub(b, a); b := Xor(b, ShiftLeft(a, 8));
    c := Sub(c, a); c := Sub(c, b); c := Xor(c, ShiftRight(b, 13));
  }

  method MixRow2(a0: Word, b0: Word, c0: Word) returns (a: Word, b: Word, c: Word)
    ensures Trio(a, b, c) == Row(Trio(a0, b0, c0), Second)
  {
    a, b, c := a0, b0, c0;
    a := Sub(a, b); a := Sub(a, c); a := Xor(a, ShiftRight(c, 12));
    b := Sub(b, c); b := Sub(b, a); b := Xor(b, ShiftLeft(a, 16));
    c := Sub(c, a); c := Sub(c, b); c := Xor(c, ShiftRight(b, 5));
  }

  method MixRow3(a0: Word, b0: Word, c0: Word) returns (a: Word, b: Word, c: Word)
    ensures Trio(a, b, c) == Row(Trio(a0, b0, c0), Third)
  {
    a, b, c := a0, b0, c0;
    a := Sub(a, b); a := Sub(a, c); a := Xor(a, ShiftRight(c, 3));
    b := Sub(b, c); b := Sub(b, a); b := Xor(b, ShiftLeft(a, 10));
    c := Sub(c, a); c := Sub(c, b); c := Xor(c, ShiftRight(b, 15));
  }

  method JhashMix(a0: Word, b0: Word, c0: Word) returns (a: Word, b: Word, c: Word)
    ensures Trio(a, b, c) == Mix(Trio(a0, b0, c0))
  {
    hide Row;
    a, b, c := MixRow1(a0, b0, c0);
    a, b, c := MixRow2(a, b, c);
    a, b, c := MixRow3(a, b, c);
  }

  // -------------------------------------------------------------------- what is hashed

  /** The little-endian word of four bytes; the upper three are shifted into place. */
  function WordOf(k0: Byte, k1: Byte, k2: Byte, k3: Byte): Word {
    var low: nat := k0;
    low + Byte1(k1) + Byte2(k2) + Byte3(k3)
  }

  function Byte1(k: Byte): Word { var w: nat := k; w * 0x100 }
  function Byte2(k: Byte): Word { var w: nat := k; w * 0x1_0000 }
  function Byte3(k: Byte): Word { var w: nat := k; w * 0x100_0000 }

  /** A byte of a key that ends before twelve bytes, which counts as followed by zeros. */
  function At(key: seq<Byte>, i: nat): Byte { if i < |key| then key[i] else 0 }

  function AbsorbInto(t: Trio, x: Word, y: Word, z: Word): Trio {
    Mix(Trio(Add(t.a, x), Add(t.b, y), Add(t.c, z)))
  }

  /** The word at a place of a key. */
  function WordIn(key: seq<Byte>, i: nat): Word
    requires i + 4 <= |key|
  {
    WordOf(key[i], key[i + 1], key[i + 2], key[i + 3])
  }

  /** What one block does to the state. */
  function Absorbed(key: seq<Byte>, t: Trio): Trio
    requires |key| >= 12
  {
    AbsorbInto(t, WordIn(key, 0), WordIn(key, 4), WordIn(key, 8))
  }

  /** A length as a 32-bit word. */
  function Length32(n: nat): Word { n % WRAP }

  /** The last block, shorter than the others and padded with zeros; its third word leaves the low byte
      to the length. */
  function Tail(rest: seq<Byte>, n: nat, t: Trio): Trio
    requires |rest| < 12
  {
    AbsorbInto(Trio(t.a, t.b, Add(t.c, Length32(n))),
               WordOf(At(rest, 0), At(rest, 1), At(rest, 2), At(rest, 3)),
               WordOf(At(rest, 4), At(rest, 5), At(rest, 6), At(rest, 7)),
               WordOf(0, At(rest, 8), At(rest, 9), At(rest, 10)))
  }

  /** The rest of a key of `n` bytes: whole blocks, then the last. */
  function Finish(rest: seq<Byte>, n: nat, t: Trio): Trio
    decreases |rest|
  {
    if |rest| < 12 then Tail(rest, n, t) else Finish(rest[12..], n, Absorbed(rest, t))
  }

  /** The state that a hash ends in; the hash is its third word. */
  function FinalState(key: seq<Byte>, initval: Word): Trio {
    Finish(key, |key|, Trio(JHASH_GOLDEN_RATIO, JHASH_GOLDEN_RATIO, initval))
  }

  /** Bytes as a number, the lowest first. */
  function Number(b: seq<Byte>): nat {
    if b == [] then 0 else var low: nat := b[0]; low + 0x100 * Number(b[1..])
  }

  /** The bytes of a key from `i` up to `j`, as far as it has them. */
  function Part(key: seq<Byte>, i: nat, j: nat): seq<Byte>
    requires i <= j
  {
    if |key| <= i then [] else if |key| <= j then key[i..] else key[i..j]
  }

  lemma NumberStep(key: seq<Byte>, i: nat, j: nat)
    requires i < j
    ensures var low: nat := At(key, i); Number(Part(key, i, j)) == low + 0x100 * Number(Part(key, i + 1, j))
  {
    var p := Part(key, i, j);
    if p != [] { assert p[1..] == Part(key, i + 1, j); }
  }

  lemma NumberOfFour(key: seq<Byte>, i: nat)
    ensures Number(Part(key, i, i + 4)) == WordOf(At(key, i), At(key, i + 1), At(key, i + 2), At(key, i + 3))
  {
    hide Number, Part, At;
    NumberStep(key, i, i + 4); NumberStep(key, i + 1, i + 4);
    NumberStep(key, i + 2, i + 4); NumberStep(key, i + 3, i + 4);
    NoNumber(key, i + 4);
  }

  lemma NoNumber(key: seq<Byte>, i: nat)
    ensures Number(Part(key, i, i)) == 0
  {
  }

  /** The three words after three numbers are added to them. */
  function Taken(t: Trio, x: nat, y: nat, z: nat): Trio {
    Trio((t.a + x) % WRAP, (t.b + y) % WRAP, (t.c + z) % WRAP)
  }

  lemma AbsorbIs(t: Trio, x: Word, y: Word, z: Word)
    ensures AbsorbInto(t, x, y, z) == Mix(Taken(t, x, y, z))
  {
    hide Mix;
  }

  /** A block of twelve bytes is three little-endian numbers, one for each word. */
  lemma BlockIs(key: seq<Byte>, n: nat, t: Trio)
    requires |key| >= 12
    ensures var x, y, z := Number(Part(key, 0, 4)), Number(Part(key, 4, 8)), Number(Part(key, 8, 12));
            Finish(key, n, t) == Finish(key[12..], n, Mix(Taken(t, x, y, z)))
  {
    hide Mix, Add, Number, WordOf, AbsorbInto, Taken, Part;
    NumberOfFour(key, 0); NumberOfFour(key, 4); NumberOfFour(key, 8);
    AbsorbIs(t, WordIn(key, 0), WordIn(key, 4), WordIn(key, 8));
  }

  lemma LowByteFree(t: Trio, n: nat, x: Word, y: Word, z: nat)
    requires 0x100 * z < WRAP
    ensures Taken(Trio(t.a, t.b, Add(t.c, Length32(n))), x, y, 0x100 * z) == Taken(t, x, y, n + 0x100 * z)
  {
  }

  /** The last bytes are three such numbers too; the third leaves its low byte to the length of the key. */
  lemma TailIs(rest: seq<Byte>, n: nat, t: Trio)
    requires |rest| < 12
    ensures Finish(rest, n, t) ==
            Mix(Taken(t, Number(Part(rest, 0, 4)), Number(Part(rest, 4, 8)), n + 0x100 * Number(Part(rest, 8, 11))))
  {
    hide Mix, Add, Number, WordOf, AbsorbInto, Taken, Part, At;
    NumberOfFour(rest, 0); NumberOfFour(rest, 4);
    NumberOfThree(rest);
    AbsorbIs(Trio(t.a, t.b, Add(t.c, Length32(n))), WordOf(At(rest, 0), At(rest, 1), At(rest, 2), At(rest, 3)),
             WordOf(At(rest, 4), At(rest, 5), At(rest, 6), At(rest, 7)),
             WordOf(0, At(rest, 8), At(rest, 9), At(rest, 10)));
    LowByteFree(t, n, Number(Part(rest, 0, 4)), Number(Part(rest, 4, 8)), Number(Part(rest, 8, 11)));
  }

  /** The hash of a key of less than twelve bytes. */
  lemma ShortKey(key: seq<Byte>, initval: Word)
    requires |key| < 12
    ensures var x, y, z := Number(Part(key, 0, 4)), Number(Part(key, 4, 8)), Number(Part(key, 8, 11));
            FinalState(key, initval) == Mix(Taken(Trio(0x9e3779b9, 0x9e3779b9, initval), x, y, |key| + 0x100 * z))
  {
    hide Mix, Finish, Number, Part, Taken;
    TailIs(key, |key|, Trio(JHASH_GOLDEN_RATIO, JHASH_GOLDEN_RATIO, initval));
  }

  lemma NumberOfThree(rest: seq<Byte>)
    ensures 0x100 * Number(Part(rest, 8, 11)) == WordOf(0, At(rest, 8), At(rest, 9), At(rest, 10))
  {
    hide Number, Part, At;
    NumberStep(rest, 8, 11); NumberStep(rest, 9, 11); NumberStep(rest, 10, 11);
    NoNumber(rest, 11);
  }

  // ------------------------------------------------------------------ the hash of bytes

  lemma AddGroups(x: Word, y: Word, z: Word)
    ensures Add(Add(x, y), z) == Add(x, Add(y, z))
  {
  }

  lemma TopDownSum(k0: Byte, k1: Byte, k2: Byte, k3: Byte)
    ensures Add(Add(Add(Byte3(k3), Byte2(k2)), Byte1(k1)), k0) == WordOf(k0, k1, k2, k3)
  {
  }

  /** Adding four bytes from the top down is adding their word. */
  lemma TopDown(x: Word, k0: Byte, k1: Byte, k2: Byte, k3: Byte)
    ensures Add(Add(Add(Add(x, Byte3(k3)), Byte2(k2)), Byte1(k1)), k0) == Add(x, WordOf(k0, k1, k2, k3))
  {
    hide Add, Byte1, Byte2, Byte3, WordOf;
    var b1, b2, b3 := Byte1(k1), Byte2(k2), Byte3(k3);
    AddGroups(x, b3, b2);
    AddGroups(x, Add(b3, b2), b1);
    AddGroups(x, Add(Add(b3, b2), b1), k0);
    TopDownSum(k0, k1, k2, k3);
  }

  lemma AddNone(x: Word)
    ensures Add(x, Byte1(0)) == x && Add(x, Byte2(0)) == x && Add(x, Byte3(0)) == x && Add(x, 0) == x
  {
  }

  /** The cases 11, 10 and 9 of the `switch`, which has no breaks. */
  method TailThird(key: seq<Byte>, k: nat, len: nat, c0: Word) returns (c: Word)
    requires len < 12 && k + len == |key|
    ensures c == Add(c0, WordOf(0, At(key[k..], 8), At(key[k..], 9), At(key[k..], 10)))
  {
    hide Add, Byte1, Byte2, Byte3, WordOf;
    c := c0;
    AddNone(c);
    if len >= 11 { c := Add(c, Byte3(key[k + 10])); }
    AddNone(c);
    if len >= 10 { c := Add(c, Byte2(key[k + 9])); }
    AddNone(c);
    if len >= 9 { c := Add(c, Byte1(key[k + 8])); }
    AddNone(c);
    TopDown(c0, 0, At(key[k..], 8), At(key[k..], 9), At(key[k..], 10));
  }

  /** The cases of four bytes from `i` on. */
  method TailWord(key: seq<Byte>, k: nat, len: nat, i: nat, x0: Word) returns (x: Word)
    requires len < 12 && k + len == |key|
    ensures x == Add(x0, WordOf(At(key[k..], i), At(key[k..], i + 1), At(key[k..], i + 2), At(key[k..], i + 3)))
  {
    hide Add, Byte1, Byte2, Byte3, WordOf;
    x := x0;
    AddNone(x);
    if len >= i + 4 { x := Add(x, Byte3(key[k + i + 3])); }
    AddNone(x);
    if len >= i + 3 { x := Add(x, Byte2(key[k + i + 2])); }
    AddNone(x);
    if len >= i + 2 { x := Add(x, Byte1(key[k + i + 1])); }
    AddNone(x);
    if len >= i + 1 { x := Add(x, key[k + i]); }
    TopDown(x0, At(key[k..], i), At(key[k..], i + 1), At(key[k..], i + 2), At(key[k..], i + 3));
  }

  lemma NextBlock(key: seq<Byte>, k: nat, t: Trio)
    requires k + 12 <= |key|
    ensures Finish(key[k..], |key|, t) == Finish(key[k + 12..], |key|, Absorbed(key[k..], t))
  {
    hide AbsorbInto, WordOf;
    assert key[k..][12..] == key[k + 12..];
  }

  lemma LastBlock(rest: seq<Byte>, n: nat, t: Trio)
    requires |rest| < 12
    ensures Finish(rest, n, t) == Tail(rest, n, t)
  {
  }

  method HashBytes(key: seq<Byte>, initval: Word) returns (hash: Word)
    requires |key| < WRAP
    ensures hash == FinalState(key, initval).c
  {
    hide Mix, WordOf, Add, Finish, At;
    var len, k := |key|, 0;
    var a, b, c := JHASH_GOLDEN_RATIO, JHASH_GOLDEN_RATIO, initval;
    assert key[0..] == key;
    while len >= 12
      invariant 0 <= k && k + len == |key| && len >= 0
      invariant Finish(key[k..], |key|, Trio(a, b, c)) == FinalState(key, initval)
    {
      NextBlock(key, k, Trio(a, b, c));
      a := Add(a, WordOf(key[k], key[k + 1], key[k + 2], key[k + 3]));
      b := Add(b, WordOf(key[k + 4], key[k + 5], key[k + 6], key[k + 7]));
      c := Add(c, WordOf(key[k + 8], key[k + 9], key[k + 10], key[k + 11]));
      a, b, c := JhashMix(a, b, c);
      k := k + 12;
      len := len - 12;
    }
    LastBlock(key[k..], |key|, Trio(a, b, c));
    c := Add(c, Length32(|key|));
    c := TailThird(key, k, len, c);
    b := TailWord(key, k, len, 4, b);
    a := TailWord(key, k, len, 0, a);
    a, b, c := JhashMix(a, b, c);
    hash := c;
  }

  // ------------------------------------------------------------------ the hash of words

  function WordBytes(w: Word): seq<Byte> {
    [w % 0x100, w / 0x100 % 0x100, w / 0x100 / 0x100 % 0x100, w / 0x100 / 0x100 / 0x100]
  }

  /** The bytes of words as a little-endian machine lays them out. */
  function Bytes(words: seq<Word>): (bytes: seq<Byte>)
    ensures |bytes| == 4 * |words|
  {
    if words == [] then [] else WordBytes(words[0]) + Bytes(words[1..])
  }

  lemma WordOfBytes(w: Word)
    ensures var b := WordBytes(w); WordOf(b[0], b[1], b[2], b[3]) == w
  {
  }

  lemma {:induction false} BytesAt(words: seq<Word>, i: nat)
    requires i < |words|
    ensures WordIn(Bytes(words), 4 * i) == words[i]
  {
    hide WordOf;
    WordOfBytes(words[i]);
    if i > 0 {
      BytesAt(words[1..], i - 1);
    }
  }

  lemma {:induction false} BytesFrom(words: seq<Word>, i: nat)
    requires i <= |words|
    ensures Bytes(words)[4 * i..] == Bytes(words[i..])
  {
    if i > 0 {
      BytesFrom(words[1..], i - 1);
      assert Bytes(words)[4..] == Bytes(words[1..]);
      assert Bytes(words)[4 * i..] == Bytes(words)[4..][4 * (i - 1)..];
      assert words[1..][i - 1..] == words[i..];
    } else {
      assert words[0..] == words;
    }
  }

  lemma ThreeWords(words: seq<Word>, n: nat, t: Trio)
    requires |words| >= 3
    ensures Finish(Bytes(words), n, t) == Finish(Bytes(words[3..]), n, AbsorbInto(t, words[0], words[1], words[2]))
  {
    hide AbsorbInto, WordIn, Finish, Bytes;
    BytesAt(words, 0);
    BytesAt(words, 1);
    BytesAt(words, 2);
    BytesFrom(words, 3);
    FirstBlock(Bytes(words), n, t);
  }

  lemma FirstBlock(key: seq<Byte>, n: nat, t: Trio)
    requires |key| >= 12
    ensures Finish(key, n, t) == Finish(key[12..], n, Absorbed(key, t))
  {
    hide Absorbed;
  }

  function WordOr0(words: seq<Word>, i: nat): Word { if i < |words| then words[i] else 0 }

  lemma ZeroWord()
    ensures WordOf(0, 0, 0, 0) == 0
  {
  }

  lemma WordsTail(words: seq<Word>)
    requires |words| < 3
    ensures var r := Bytes(words);
            && WordOf(At(r, 0), At(r, 1), At(r, 2), At(r, 3)) == WordOr0(words, 0)
            && WordOf(At(r, 4), At(r, 5), At(r, 6), At(r, 7)) == WordOr0(words, 1)
            && WordOf(0, At(r, 8), At(r, 9), At(r, 10)) == 0
  {
    ZeroWord();
    hide WordOf, Bytes;
    if |words| > 0 { BytesAt(words, 0); }
    if |words| > 1 { BytesAt(words, 1); }
  }

  /** The last words of a key, as the hash of its bytes takes them. */
  lemma WordsEnd(rest: seq<Word>, n: nat, t: Trio)
    requires |rest| < 3
    ensures Finish(Bytes(rest), n, t) ==
            Mix(Trio(Add(t.a, WordOr0(rest, 0)), Add(t.b, WordOr0(rest, 1)), Add(t.c, Length32(n))))
  {
    hide Mix, WordOf, Add, Bytes, At, WordOr0, Length32;
    WordsTail(rest);
    AddNone(Add(t.c, Length32(n)));
  }

  /** The hash of words is the hash of their bytes in little-endian order. */
  method HashWords(words: seq<Word>, initval: Word) returns (hash: Word)
    requires |words| < WRAP
    ensures hash == FinalState(Bytes(words), initval).c
  {
    hide Mix, Add, Bytes, Finish;
    var a, b, c := JHASH_GOLDEN_RATIO, JHASH_GOLDEN_RATIO, initval;
    var len, k := |words|, 0;
    assert words[0..] == words;
    while len >= 3
      invariant 0 <= k && k + len == |words| && len >= 0
      invariant Finish(Bytes(words[k..]), 4 * |words|, Trio(a, b, c)) == FinalState(Bytes(words), initval)
    {
      ThreeWords(words[k..], 4 * |words|, Trio(a, b, c));
      a, b, c := Add(a, words[k]), Add(b, words[k + 1]), Add(c, words[k + 2]);
      a, b, c := JhashMix(a, b, c);
      assert words[k..][3..] == words[k + 3..];
      k := k + 3;
      len := len - 3;
    }
    WordsEnd(words[k..], 4 * |words|, Trio(a, b, c));
    AddNone(a);
    AddNone(b);
    c := Add(c, Length32(|words| * 4));
    if len >= 2 { b := Add(b, words[k + 1]); }
    if len >= 1 { a := Add(a, words[k]); }
    a, b, c := JhashMix(a, b, c);
    hash := c;
  }

  // -------------------------------------------------------- what a state tells of its key

  lemma AddInjective(x: Word, y: Word, z: Word)
    ensures Add(x, z) == Add(y, z) ==> x == y
    ensures Add(z, x) == Add(z, y) ==> x == y
  {
  }

  lemma MixInjective(t: Trio, u: Trio)
    ensures Mix(t) == Mix(u) ==> t == u
  {
    hide Mix, Unmix;
    MixIsPermutation(t);
    MixIsPermutation(u);
  }

  /** Absorbing one block into two states, or two blocks into one state, keeps them apart. */
  lemma AbsorbInjective(t: Trio, u: Trio, x: Word, y: Word, z: Word, x': Word, y': Word, z': Word)
    ensures AbsorbInto(t, x, y, z) == AbsorbInto(u, x, y, z) ==> t == u
    ensures AbsorbInto(t, x, y, z) == AbsorbInto(t, x', y', z') ==> x == x' && y == y' && z == z'
  {
    hide Mix, Add;
    MixInjective(Trio(Add(t.a, x), Add(t.b, y), Add(t.c, z)), Trio(Add(u.a, x), Add(u.b, y), Add(u.c, z)));
    MixInjective(Trio(Add(t.a, x), Add(t.b, y), Add(t.c, z)), Trio(Add(t.a, x'), Add(t.b, y'), Add(t.c, z')));
    AddInjective(t.a, u.a, x);
    AddInjective(t.b, u.b, y);
    AddInjective(t.c, u.c, z);
    AddInjective(x, x', t.a);
    AddInjective(y, y', t.b);
    AddInjective(z, z', t.c);
  }

  lemma BytesOfWord(k0: Byte, k1: Byte, k2: Byte, k3: Byte)
    ensures WordBytes(WordOf(k0, k1, k2, k3)) == [k0, k1, k2, k3]
  {
    var w2: nat, w1: nat := k2, k1;
    var high: nat := k3;
    w2 := w2 + high * 0x100;
    w1 := w1 + w2 * 0x100;
    var w := WordOf(k0, k1, k2, k3);
    assert w / 0x100 == w1;
    assert w1 / 0x100 == w2;
  }

  lemma WordInjective(p: seq<Byte>, q: seq<Byte>)
    requires |p| == |q| == 4
    ensures WordOf(p[0], p[1], p[2], p[3]) == WordOf(q[0], q[1], q[2], q[3]) ==> p == q
  {
    hide WordOf, WordBytes;
    BytesOfWord(p[0], p[1], p[2], p[3]);
    BytesOfWord(q[0], q[1], q[2], q[3]);
  }

  lemma TailInjective(p: seq<Byte>, q: seq<Byte>, n: nat, t: Trio, u: Trio)
    requires |p| == |q| < 12
    ensures Tail(p, n, t) == Tail(q, n, t) ==> p == q
    ensures Tail(p, n, t) == Tail(p, n, u) ==> t == u
  {
    hide AbsorbInto, WordOf, Add, Length32;
    var p0, p4, p8 := [At(p, 0), At(p, 1), At(p, 2), At(p, 3)], [At(p, 4), At(p, 5), At(p, 6), At(p, 7)],
                      [0, At(p, 8), At(p, 9), At(p, 10)];
    var q0, q4, q8 := [At(q, 0), At(q, 1), At(q, 2), At(q, 3)], [At(q, 4), At(q, 5), At(q, 6), At(q, 7)],
                      [0, At(q, 8), At(q, 9), At(q, 10)];
    WordInjective(p0, q0);
    WordInjective(p4, q4);
    WordInjective(p8, q8);
    var t', u' := Trio(t.a, t.b, Add(t.c, Length32(n))), Trio(u.a, u.b, Add(u.c, Length32(n)));
    AddInjective(t.c, u.c, Length32(n));
    AbsorbInjective(t', u', WordOf(p0[0], p0[1], p0[2], p0[3]), WordOf(p4[0], p4[1], p4[2], p4[3]),
                    WordOf(p8[0], p8[1], p8[2], p8[3]), WordOf(q0[0], q0[1], q0[2], q0[3]),
                    WordOf(q4[0], q4[1], q4[2], q4[3]), WordOf(q8[0], q8[1], q8[2], q8[3]));
    if Tail(p, n, t) == Tail(q, n, t) {
      assert p0 == q0 && p4 == q4 && p8 == q8;
      forall i | 0 <= i < |p| ensures p[i] == q[i] {
        assert At(p, i) == p[i] && At(q, i) == q[i];
      }
    }
  }

  /** Two keys of one length that differ in one block only. */
  predicate OneBlockApart(p: seq<Byte>, q: seq<Byte>, i: nat) {
    && |p| == |q| && 12 * i <= |p| && p != q
    && p[..12 * i] == q[..12 * i]
    && (12 * i + 12 <= |p| ==> p[12 * i + 12..] == q[12 * i + 12..])
  }

  lemma AbsorbedApart(p: seq<Byte>, q: seq<Byte>, t: Trio, u: Trio)
    requires |p| >= 12 && |q| >= 12
    ensures Absorbed(p, t) == Absorbed(p, u) ==> t == u
    ensures Absorbed(p, t) == Absorbed(q, t) ==> p[..12] == q[..12]
  {
    hide AbsorbInto, WordOf;
    WordInjective(p[0..4], q[0..4]);
    WordInjective(p[4..8], q[4..8]);
    WordInjective(p[8..12], q[8..12]);
    assert p[..12] == p[0..4] + p[4..8] + p[8..12] && q[..12] == q[0..4] + q[4..8] + q[8..12];
    AbsorbInjective(t, u, WordOf(p[0], p[1], p[2], p[3]), WordOf(p[4], p[5], p[6], p[7]),
                    WordOf(p[8], p[9], p[10], p[11]), WordOf(q[0], q[1], q[2], q[3]),
                    WordOf(q[4], q[5], q[6], q[7]), WordOf(q[8], q[9], q[10], q[11]));
  }

  lemma AbsorbedSame(p: seq<Byte>, q: seq<Byte>, t: Trio)
    requires |p| >= 12 && |q| >= 12 && p[..12] == q[..12]
    ensures Absorbed(p, t) == Absorbed(q, t)
  {
    hide AbsorbInto, WordOf;
    forall i | 0 <= i < 12 ensures p[i] == q[i] {
      assert p[..12][i] == q[..12][i];
    }
  }

  /** What follows keeps two states apart. */
  lemma {:induction false} StatesApart(rest: seq<Byte>, n: nat, t: Trio, u: Trio)
    ensures Finish(rest, n, t) == Finish(rest, n, u) ==> t == u
    decreases |rest|
  {
    hide Absorbed, Tail;
    if |rest| < 12 {
      TailInjective(rest, rest, n, t, u);
    } else {
      AbsorbedApart(rest, rest, t, u);
      StatesApart(rest[12..], n, Absorbed(rest, t), Absorbed(rest, u));
    }
  }

  lemma {:induction false} BlocksApart(p: seq<Byte>, q: seq<Byte>, i: nat, n: nat, t: Trio)
    requires OneBlockApart(p, q, i)
    ensures Finish(p, n, t) != Finish(q, n, t)
    decreases i
  {
    hide Absorbed, Tail;
    if |p| < 12 {
      TailInjective(p, q, n, t, t);
    } else {
      assert p == p[..12] + p[12..] && q == q[..12] + q[12..];
      if i == 0 {
        AbsorbedApart(p, q, t, t);
        StatesApart(p[12..], n, Absorbed(p, t), Absorbed(q, t));
      } else {
        assert p[..12] == p[..12 * i][..12] && q[..12] == q[..12 * i][..12];
        AbsorbedSame(p, q, t);
        ApartLater(p, q, i);
        BlocksApart(p[12..], q[12..], i - 1, n, Absorbed(p, t));
      }
    }
  }

  lemma ApartLater(p: seq<Byte>, q: seq<Byte>, i: nat)
    requires OneBlockApart(p, q, i) && i > 0
    ensures OneBlockApart(p[12..], q[12..], i - 1)
  {
    assert p[..12] == p[..12 * i][..12] && q[..12] == q[..12 * i][..12];
    assert p == p[..12] + p[12..] && q == q[..12] + q[12..];
    assert p[12..][..12 * (i - 1)] == p[..12 * i][12..] && q[12..][..12 * (i - 1)] == q[..12 * i][12..];
    if 12 * i + 12 <= |p| {
      assert p[12..][12 * (i - 1) + 12..] == p[12 * i + 12..] && q[12..][12 * (i - 1) + 12..] == q[12 * i + 12..];
    }
  }

  /** Keys of one length that differ in one twelve-byte block, or in the bytes after the last, end in
      different states. */
  lemma KeysKeptApart(p: seq<Byte>, q: seq<Byte>, i: nat, initval: Word)
    requires OneBlockApart(p, q, i)
    ensures FinalState(p, initval) != FinalState(q, initval)
  {
    hide Finish;
    BlocksApart(p, q, i, |p|, Trio(JHASH_GOLDEN_RATIO, JHASH_GOLDEN_RATIO, initval));
  }

  /** For one key, different initial values end in different states. */
  lemma SeedsKeptApart(key: seq<Byte>, v: Word, w: Word)
    requires v != w
    ensures FinalState(key, v) != FinalState(key, w)
  {
    hide Finish;
    StatesApart(key, |key|, Trio(JHASH_GOLDEN_RATIO, JHASH_GOLDEN_RATIO, v),
                Trio(JHASH_GOLDEN_RATIO, JHASH_GOLDEN_RATIO, w));
  }
}
