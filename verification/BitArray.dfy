/** Bits kept in an array of words: a set of numbers. */
module BitArray {
  import opened Words

  const NPD_BITS_PER_LONG := 32

  /** The numbers whose bit is set. */
  ghost function Members(s: seq<Word>): set<nat> {
    set n: nat | n < NPD_BITS_PER_LONG * |s| && BitAt(s[n / NPD_BITS_PER_LONG], n % NPD_BITS_PER_LONG)
  }

  function BitsToLongs(nbits: int): int { (nbits + NPD_BITS_PER_LONG - 1) / NPD_BITS_PER_LONG }

  // ------------------------------------------------------------------------- one bit

  function BitMask(nr: nat): Word {
    PowGrows(nr % NPD_BITS_PER_LONG, 31);
    Pow31();
    Pow2(nr % NPD_BITS_PER_LONG)
  }

  lemma Pow31()
    ensures Pow2(31) < WRAP
  {
    Pow32();
  }

  /** Changing one bit of one word adds or removes one number. */
  lemma OneBit(s: seq<Word>, nr: nat, w: Word, want: bool)
    requires nr / NPD_BITS_PER_LONG < |s|
    requires forall k :: 0 <= k < NPD_BITS_PER_LONG ==>
               (BitAt(w, k) <==> if k == nr % NPD_BITS_PER_LONG then want else BitAt(s[nr / NPD_BITS_PER_LONG], k))
    ensures Members(s[nr / NPD_BITS_PER_LONG := w]) == if want then Members(s) + {nr} else Members(s) - {nr}
  {
    hide BitAt;
    var i := nr / NPD_BITS_PER_LONG;
    var t := s[i := w];
    forall n: nat | n < NPD_BITS_PER_LONG * |s|
      ensures n in Members(t) <==> if n == nr then want else n in Members(s)
    {
      SamePlace(n, nr);
    }
  }

  lemma SamePlace(n: nat, m: nat)
    ensures n == m <==> n / NPD_BITS_PER_LONG == m / NPD_BITS_PER_LONG && n % NPD_BITS_PER_LONG == m % NPD_BITS_PER_LONG
  {
  }

  method TestBit(a: array<Word>, nr: nat) returns (bit: int)
    requires nr / NPD_BITS_PER_LONG < a.Length
    ensures bit == if nr in Members(a[..]) then 1 else 0
  {
    hide BitAt, ShiftRight;
    var w := ShiftRight(a[nr / NPD_BITS_PER_LONG], nr % NPD_BITS_PER_LONG);
    ShiftBitAt(a[nr / NPD_BITS_PER_LONG], nr % NPD_BITS_PER_LONG);
    OneAnd(w);
    bit := And(1, w);
  }

  lemma OneAnd(w: Word)
    ensures And(1, w) == w % 2
  {
    assert AndBits(1, w, 32) == 2 * AndBits(0, w / 2, 31) + w % 2;
    NoneAnd(w / 2, 31);
  }

  lemma {:induction false} NoneAnd(w: nat, n: nat)
    ensures AndBits(0, w, n) == 0
  {
    if n > 0 { NoneAnd(w / 2, n - 1); }
  }

  lemma OrMask(w: Word, nr: nat, k: nat)
    requires k < NPD_BITS_PER_LONG
    ensures BitAt(Or(w, BitMask(nr)), k) <==> k == nr % NPD_BITS_PER_LONG || BitAt(w, k)
  {
    OrBitAt(w, BitMask(nr), 32, k);
    PowBitAt(nr % NPD_BITS_PER_LONG, k);
  }

  lemma AndNotMask(w: Word, nr: nat, k: nat)
    requires k < NPD_BITS_PER_LONG
    ensures BitAt(And(w, Not(BitMask(nr))), k) <==> k != nr % NPD_BITS_PER_LONG && BitAt(w, k)
  {
    AndBitAt(w, Not(BitMask(nr)), 32, k);
    Pow32();
    NotBitAt(BitMask(nr), 32, k);
    PowBitAt(nr % NPD_BITS_PER_LONG, k);
  }

  lemma XorMask(w: Word, nr: nat, k: nat)
    requires k < NPD_BITS_PER_LONG
    ensures BitAt(Xor(w, BitMask(nr)), k) <==> (k == nr % NPD_BITS_PER_LONG) != BitAt(w, k)
  {
    XorBitAt(w, BitMask(nr), 32, k);
    PowBitAt(nr % NPD_BITS_PER_LONG, k);
  }

  method SetBit(a: array<Word>, nr: nat)
    requires nr / NPD_BITS_PER_LONG < a.Length
    modifies a
    ensures Members(a[..]) == old(Members(a[..])) + {nr}
  {
    hide Members, BitAt, BitMask, Or;
    var i := nr / NPD_BITS_PER_LONG;
    var w := Or(a[i], BitMask(nr));
    forall k | 0 <= k < NPD_BITS_PER_LONG
      ensures BitAt(w, k) <==> if k == nr % NPD_BITS_PER_LONG then true else BitAt(a[i], k)
    {
      OrMask(a[i], nr, k);
    }
    OneBit(a[..], nr, w, true);
    a[i] := w;
    assert a[..] == old(a[..])[i := w];
  }

  method ClearBit(a: array<Word>, nr: nat)
    requires nr / NPD_BITS_PER_LONG < a.Length
    modifies a
    ensures Members(a[..]) == old(Members(a[..])) - {nr}
  {
    hide Members, BitAt, BitMask, And, Not;
    var i := nr / NPD_BITS_PER_LONG;
    var w := And(a[i], Not(BitMask(nr)));
    forall k | 0 <= k < NPD_BITS_PER_LONG
      ensures BitAt(w, k) <==> if k == nr % NPD_BITS_PER_LONG then false else BitAt(a[i], k)
    {
      AndNotMask(a[i], nr, k);
    }
    OneBit(a[..], nr, w, false);
    a[i] := w;
    assert a[..] == old(a[..])[i := w];
  }

  function Toggled(s: set<nat>, n: nat): set<nat> { if n in s then s - {n} else s + {n} }

  lemma MemberBit(s: seq<Word>, n: nat)
    requires n / NPD_BITS_PER_LONG < |s|
    ensures n in Members(s) <==> BitAt(s[n / NPD_BITS_PER_LONG], n % NPD_BITS_PER_LONG)
  {
  }

  method ChangeBit(a: array<Word>, nr: nat)
    requires nr / NPD_BITS_PER_LONG < a.Length
    modifies a
    ensures Members(a[..]) == Toggled(old(Members(a[..])), nr)
  {
    hide Members, BitAt, BitMask, Xor;
    var i := nr / NPD_BITS_PER_LONG;
    var w := Xor(a[i], BitMask(nr));
    ghost var want := !BitAt(a[i], nr % NPD_BITS_PER_LONG);
    forall k | 0 <= k < NPD_BITS_PER_LONG
      ensures BitAt(w, k) <==> if k == nr % NPD_BITS_PER_LONG then want else BitAt(a[i], k)
    {
      XorMask(a[i], nr, k);
    }
    OneBit(a[..], nr, w, want);
    MemberBit(a[..], nr);
    a[i] := w;
    assert a[..] == old(a[..])[i := w];
  }

  // ------------------------------------------------------------------- runs of changes

  datatype Change = SetOf(nr: nat) | ClearOf(nr: nat) | ChangeOf(nr: nat)

  function Applied(s: set<nat>, c: Change): set<nat> {
    match c
    case SetOf(n) => s + {n}
    case ClearOf(n) => s - {n}
    case ChangeOf(n) => Toggled(s, n)
  }

  function AppliedAll(s: set<nat>, cs: seq<Change>): set<nat>
    decreases |cs|
  {
    if cs == [] then s else Applied(AppliedAll(s, cs[..|cs| - 1]), cs[|cs| - 1])
  }

  /** After any sequence of changes a test of any bit agrees with the set that the changes build. */
  method ChangesThenTest(a: array<Word>, cs: seq<Change>, nr: nat) returns (bit: int)
    requires nr / NPD_BITS_PER_LONG < a.Length
    requires forall c :: c in cs ==> c.nr / NPD_BITS_PER_LONG < a.Length
    modifies a
    ensures Members(a[..]) == AppliedAll(old(Members(a[..])), cs)
    ensures bit == if nr in AppliedAll(old(Members(a[..])), cs) then 1 else 0
  {
    hide Members;
    ghost var start := Members(a[..]);
    for i := 0 to |cs|
      invariant Members(a[..]) == AppliedAll(start, cs[..i])
    {
      match cs[i] {
        case SetOf(n) => SetBit(a, n);
        case ClearOf(n) => ClearBit(a, n);
        case ChangeOf(n) => ChangeBit(a, n);
      }
      assert cs[..i + 1][..i] == cs[..i];
    }
    assert cs[..|cs|] == cs;
    bit := TestBit(a, nr);
  }

  // ------------------------------------------------------------------------ whole words

  /** How many words `zero` and `copy` touch: at least one. */
  function Longs(nbits: int): nat {
    if nbits <= NPD_BITS_PER_LONG then 1 else BitsToLongs(nbits)
  }

  method Zero(a: array<Word>, nbits: int)
    requires Longs(nbits) <= a.Length
    modifies a
    ensures Members(a[..]) == set n | n in old(Members(a[..])) && n >= NPD_BITS_PER_LONG * Longs(nbits)
  {
    if nbits <= NPD_BITS_PER_LONG {
      a[0] := 0;
    } else {
      var len := BitsToLongs(nbits);
      for i := 0 to len
        invariant forall j :: 0 <= j < i ==> a[j] == 0
        invariant forall j :: i <= j < a.Length ==> a[j] == old(a[j])
      {
        a[i] := 0;
      }
    }
    NoMembers(old(a[..]), a[..], Longs(nbits));
  }

  lemma NoMembers(s: seq<Word>, t: seq<Word>, m: nat)
    requires |s| == |t| && m <= |s|
    requires forall j :: 0 <= j < m ==> t[j] == 0
    requires forall j :: m <= j < |t| ==> t[j] == s[j]
    ensures Members(t) == set n | n in Members(s) && n >= NPD_BITS_PER_LONG * m
  {
    hide BitAt;
    forall n: nat ensures n in Members(t) <==> n in Members(s) && n >= NPD_BITS_PER_LONG * m {
      ZeroBitAt(n % NPD_BITS_PER_LONG);
    }
  }

  method Copy(dst: array<Word>, src: array<Word>, nbits: int)
    requires Longs(nbits) <= dst.Length && Longs(nbits) <= src.Length && dst != src
    modifies dst
    ensures forall n: nat :: n in Members(dst[..]) <==>
              if n < NPD_BITS_PER_LONG * Longs(nbits) then n in Members(src[..]) else n in old(Members(dst[..]))
  {
    if nbits <= NPD_BITS_PER_LONG {
      dst[0] := src[0];
    } else {
      var len := BitsToLongs(nbits);
      for i := 0 to len
        invariant forall j :: 0 <= j < i ==> dst[j] == src[j]
        invariant forall j :: i <= j < dst.Length ==> dst[j] == old(dst[j])
      {
        dst[i] := src[i];
      }
    }
    hide BitAt;
  }

  function LastWordMask(nbits: nat): Word {
    PowGrows(nbits % NPD_BITS_PER_LONG, 31);
    Pow31();
    if nbits % NPD_BITS_PER_LONG != 0 then Pow2(nbits % NPD_BITS_PER_LONG) - 1 else WRAP - 1
  }

  lemma LastWordBitAt(nbits: nat, k: nat)
    requires nbits > 0 && k < NPD_BITS_PER_LONG
    ensures BitAt(LastWordMask(nbits), k) <==> NPD_BITS_PER_LONG * (BitsToLongs(nbits) - 1) + k < nbits
  {
    Pow32();
    MaskBitAt(nbits % NPD_BITS_PER_LONG, k);
    MaskBitAt(32, k);
    hide BitAt, Pow2, BitsToLongs;
    LongsOf(nbits);
  }

  lemma LongsOf(nbits: nat)
    ensures BitsToLongs(nbits) == nbits / NPD_BITS_PER_LONG + if nbits % NPD_BITS_PER_LONG != 0 then 1 else 0
  {
  }

  /** Exactly the numbers below `nbits`; the other bits of the last word are clear. */
  method Fill(a: array<Word>, nbits: nat)
    requires nbits > 0 && BitsToLongs(nbits) <= a.Length
    modifies a
    ensures forall n: nat :: n in Members(a[..]) <==>
              n < nbits || (n >= NPD_BITS_PER_LONG * BitsToLongs(nbits) && n in old(Members(a[..])))
  {
    hide BitAt, LastWordMask;
    var nlongs := BitsToLongs(nbits);
    if nlongs > 1 {
      for i := 0 to nlongs - 1
        invariant forall j :: 0 <= j < i ==> a[j] == WRAP - 1
        invariant forall j :: i <= j < a.Length ==> a[j] == old(a[j])
      {
        a[i] := WRAP - 1;
      }
    }
    a[nlongs - 1] := LastWordMask(nbits);
    forall n: nat
      ensures n in Members(a[..]) <==>
                n < nbits || (n >= NPD_BITS_PER_LONG * nlongs && n in Members(old(a[..])))
    {
      Filled(old(a[..]), a[..], nbits, n);
    }
  }

  lemma Filled(s: seq<Word>, t: seq<Word>, nbits: nat, n: nat)
    requires |s| == |t| && nbits > 0 && BitsToLongs(nbits) <= |s|
    requires forall j :: 0 <= j < BitsToLongs(nbits) - 1 ==> t[j] == WRAP - 1
    requires t[BitsToLongs(nbits) - 1] == LastWordMask(nbits)
    requires forall j :: BitsToLongs(nbits) <= j < |t| ==> t[j] == s[j]
    ensures n in Members(t) <==> n < nbits || (n >= NPD_BITS_PER_LONG * BitsToLongs(nbits) && n in Members(s))
  {
    Pow32();
    hide BitAt, LastWordMask, Pow2;
    LastWordBitAt(nbits, n % NPD_BITS_PER_LONG);
    MaskBitAt(32, n % NPD_BITS_PER_LONG);
  }
}
