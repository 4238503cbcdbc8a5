/** The tool: it sets a triple key and runs a file through the cipher block by block. */
module DesTool {
  import opened Des
  import opened DesBlocks
  import opened DesKey

  const CRYPTO_TFM_REQ_WEAK_KEY: bv32 := 0x00000100
  const CRYPTO_TFM_RES_WEAK_KEY: bv32 := 0x00100000

  // ------------------------------------------------------------- the triple key

  /** The expanded key of three keys: the middle one is expanded for decryption. */
  predicate Holds(t: Tables, K: seq<bv32>, k1: Octets, k2: Octets, k3: Octets)
    requires TablesOk(t)
  {
    && |K| == DES3_EDE_EXPKEY_WORDS
    && Sixteen(K, 0, false) == Schedule(t, k1)
    && Sixteen(K, 32, false) == Reversed(Schedule(t, k2))
    && Sixteen(K, 64, false) == Schedule(t, k3)
  }

  lemma SixteenKept(K: seq<bv32>, K': seq<bv32>, k: int)
    requires |K| == |K'| && 0 <= k && k + 32 <= |K| && K[k..k + 32] == K'[k..k + 32]
    ensures Sixteen(K, k, false) == Sixteen(K', k, false)
  {
    forall i | 0 <= i < 16 ensures K[k + 2 * i] == K'[k + 2 * i] && K[k + 2 * i + 1] == K'[k + 2 * i + 1] {
      assert K[k..k + 32][2 * i] == K'[k..k + 32][2 * i] && K[k..k + 32][2 * i + 1] == K'[k..k + 32][2 * i + 1];
    }
  }

  lemma EqualWords(a: Octets, b: Octets)
    ensures Or(Xor(Load(a).l, Load(b).l), Xor(Load(a).r, Load(b).r)) == 0 <==> a == b
  {
    hide Load, Store;
    XorZero(Load(a).l, Load(b).l, Load(a).r, Load(b).r);
    StoreLoad(a);
    StoreLoad(b);
  }

  function Or(x: bv32, y: bv32): bv32 { x | y }

  lemma XorZero(x: bv32, y: bv32, z: bv32, w: bv32)
    ensures Or(Xor(x, y), Xor(z, w)) == 0 <==> x == y && z == w
  {
    OrZero32(Xor(x, y), Xor(z, w));
    XorZero1(x, y);
    XorZero1(z, w);
    hide Xor, Or;
  }

  lemma OrZero32(x: bv32, y: bv32)
    ensures Or(x, y) == 0 <==> x == 0 && y == 0
  {
  }

  lemma XorZero1(x: bv32, y: bv32)
    ensures Xor(x, y) == 0 <==> x == y
  {
    XorSelf(y);
    XorLaws(x, y, y);
    XorLaws(y, y, y);
    hide Xor;
  }

  lemma XorSelf(y: bv32)
    ensures Xor(y, y) == 0
  {
  }

  class Context {
    const expkey: array<bv32>
    var flags: bv32

    constructor ()
      ensures fresh(expkey) && expkey.Length == DES3_EDE_EXPKEY_WORDS && flags == 0
    {
      expkey := new bv32[DES3_EDE_EXPKEY_WORDS];
      flags := 0;
    }

    /** Equal first keys are always refused; equal last keys only when the caller asks for the check. */
    method SetKey(t: Tables, k1: Octets, k2: Octets, k3: Octets) returns (ok: bool)
      requires TablesOk(t) && expkey.Length == DES3_EDE_EXPKEY_WORDS
      modifies this, expkey
      ensures ok <==> !(k1 == k2 || (k2 == k3 && And(old(flags), CRYPTO_TFM_REQ_WEAK_KEY) != 0))
      ensures ok ==> flags == old(flags) && Holds(t, expkey[..], k1, k2, k3)
      ensures !ok ==> flags == Or(old(flags), CRYPTO_TFM_RES_WEAK_KEY) && expkey[..] == old(expkey[..])
    {
      hide Sixteen, Schedule, Load, Xor, And, Or, Reversed, Weak;
      var w1, w2, w3 := Load(k1), Load(k2), Load(k3);
      EqualWords(k1, k2);
      EqualWords(k2, k3);
      if Or(Xor(w1.l, w2.l), Xor(w1.r, w2.r)) == 0 ||
         (Or(Xor(w2.l, w3.l), Xor(w2.r, w3.r)) == 0 && And(flags, CRYPTO_TFM_REQ_WEAK_KEY) != 0) {
        flags := Or(flags, CRYPTO_TFM_RES_WEAK_KEY);
        return false;
      }
      var _ := ExpandEncrypt(t, expkey, 0, k1);
      label first:
      ExpandDecrypt(t, expkey, 32, k2);
      SixteenKept(old@first(expkey[..]), expkey[..], 0);
      label second:
      var _ := ExpandEncrypt(t, expkey, 64, k3);
      SixteenKept(old@second(expkey[..]), expkey[..], 0);
      SixteenKept(old@second(expkey[..]), expkey[..], 32);
      ok := true;
    }
  }

  /** What the tool's cipher is: DES encryption under k3 of DES decryption under k2 of DES encryption under k1. */
  lemma TripleIsEde(x: Boxes, t: Tables, K: seq<bv32>, k1: Octets, k2: Octets, k3: Octets, b: Octets)
    requires BoxesOk(x) && TablesOk(t) && Holds(t, K, k1, k2, k3)
    ensures TripleEncrypt(x, K, b) ==
            Store(Crypt(x, Schedule(t, k3), Crypt(x, Reversed(Schedule(t, k2)), Crypt(x, Schedule(t, k1), Load(b)))))
  {
    hide Sixteen, Schedule, Triple, Crypt, Reversed;
    TripleIsThreePasses(x, Schedule(t, k1), Reversed(Schedule(t, k2)), Schedule(t, k3), Load(b));
  }

  /** With two neighbouring keys equal, triple DES is DES under the third. */
  lemma TripleOfEqualKeys(x: Boxes, t: Tables, K: seq<bv32>, k1: Octets, k2: Octets, k3: Octets, b: Octets)
    requires BoxesOk(x) && TablesOk(t) && Holds(t, K, k1, k2, k3)
    ensures k1 == k2 ==> TripleEncrypt(x, K, b) == Store(Crypt(x, Schedule(t, k3), Load(b)))
    ensures k2 == k3 ==> TripleEncrypt(x, K, b) == Store(Crypt(x, Schedule(t, k1), Load(b)))
  {
    hide Sixteen, Schedule, Triple, Crypt, Reversed;
    TripleCollapses(x, Schedule(t, k1), Schedule(t, k3), Load(b));
  }

  // ------------------------------------------------------------------- the file

  const ZEROS: Octets := [0, 0, 0, 0, 0, 0, 0, 0]

  function CryptBlock(x: Boxes, K: seq<bv32>, b: Octets, encrypt: bool): Octets
    requires BoxesOk(x) && |K| == DES3_EDE_EXPKEY_WORDS
  {
    if encrypt then TripleEncrypt(x, K, b) else TripleDecrypt(x, K, b)
  }

  /** Every block of a file of whole blocks. */
  function CryptBlocks(x: Boxes, K: seq<bv32>, data: seq<bv8>, encrypt: bool): (out: seq<bv8>)
    requires BoxesOk(x) && |K| == DES3_EDE_EXPKEY_WORDS && |data| % 8 == 0
    ensures |out| == |data|
  {
    if data == [] then [] else CryptBlock(x, K, data[..8], encrypt) + CryptBlocks(x, K, data[8..], encrypt)
  }

  /** The file with zeros up to the end of the block after its last whole block. */
  function Padded(data: seq<bv8>): (out: seq<bv8>)
    ensures |out| == 8 * (|data| / 8 + 1) && out[..|data|] == data
    ensures forall i :: |data| <= i < |out| ==> out[i] == 0
  {
    data + ZEROS[..8 - |data| % 8]
  }

  lemma {:induction false} CryptBlocksAppend(x: Boxes, K: seq<bv32>, a: seq<bv8>, b: seq<bv8>, encrypt: bool)
    requires BoxesOk(x) && |K| == DES3_EDE_EXPKEY_WORDS && |a| % 8 == 0 && |b| % 8 == 0
    ensures CryptBlocks(x, K, a + b, encrypt) == CryptBlocks(x, K, a, encrypt) + CryptBlocks(x, K, b, encrypt)
  {
    hide CryptBlock;
    if a == [] {
      assert a + b == b;
    } else {
      assert (a + b)[..8] == a[..8] && (a + b)[8..] == a[8..] + b;
      CryptBlocksAppend(x, K, a[8..], b, encrypt);
    }
  }

  lemma FirstBlock(x: Boxes, K: seq<bv32>, data: seq<bv8>, encrypt: bool)
    requires BoxesOk(x) && |K| == DES3_EDE_EXPKEY_WORDS && |data| % 8 == 0 && |data| >= 8
    ensures CryptBlocks(x, K, data, encrypt) ==
            CryptBlock(x, K, data[..8], encrypt) + CryptBlocks(x, K, data[8..], encrypt)
  {
    hide CryptBlock;
  }

  /** Each block is crypted by itself, in its place. */
  lemma {:induction false} BlockAt(x: Boxes, K: seq<bv32>, data: seq<bv8>, encrypt: bool, i: nat)
    requires BoxesOk(x) && |K| == DES3_EDE_EXPKEY_WORDS && |data| % 8 == 0 && 8 * i + 8 <= |data|
    ensures CryptBlocks(x, K, data, encrypt)[8 * i..8 * i + 8] == CryptBlock(x, K, data[8 * i..8 * i + 8], encrypt)
  {
    hide CryptBlock, CryptBlocks;
    FirstBlock(x, K, data, encrypt);
    var out: seq<bv8>, rest: seq<bv8> := CryptBlocks(x, K, data, encrypt), CryptBlocks(x, K, data[8..], encrypt);
    if i > 0 {
      BlockAt(x, K, data[8..], encrypt, i - 1);
      assert data[8..][8 * (i - 1)..8 * (i - 1) + 8] == data[8 * i..8 * i + 8];
      assert out[8..] == rest;
      assert out[8..][8 * (i - 1)..8 * (i - 1) + 8] == out[8 * i..8 * i + 8];
    }
  }

  lemma BlockRoundTrip(x: Boxes, K: seq<bv32>, b: Octets)
    requires BoxesOk(x) && |K| == DES3_EDE_EXPKEY_WORDS
    ensures CryptBlock(x, K, CryptBlock(x, K, b, true), false) == b
  {
    hide TripleEncrypt, TripleDecrypt;
    TripleRoundTrip(x, K, b);
  }

  lemma {:induction false} BlocksRoundTrip(x: Boxes, K: seq<bv32>, data: seq<bv8>)
    requires BoxesOk(x) && |K| == DES3_EDE_EXPKEY_WORDS && |data| % 8 == 0
    ensures CryptBlocks(x, K, CryptBlocks(x, K, data, true), false) == data
  {
    hide CryptBlock, CryptBlocks;
    if data == [] {
      NoBlocks(x, K, true);
      NoBlocks(x, K, false);
    } else {
      var head, rest := data[..8], data[8..];
      assert data == head + rest;
      OneBlock(x, K, head, true);
      CryptBlocksAppend(x, K, head, rest, true);
      var head', rest': seq<bv8> := CryptBlock(x, K, head, true), CryptBlocks(x, K, rest, true);
      OneBlock(x, K, head', false);
      CryptBlocksAppend(x, K, head', rest', false);
      BlockRoundTrip(x, K, head);
      BlocksRoundTrip(x, K, rest);
    }
  }

  lemma OneBlock(x: Boxes, K: seq<bv32>, b: Octets, encrypt: bool)
    requires BoxesOk(x) && |K| == DES3_EDE_EXPKEY_WORDS
    ensures CryptBlocks(x, K, b, encrypt) == CryptBlock(x, K, b, encrypt)
  {
    hide CryptBlock;
    assert b[..8] == b && b[8..] == [];
  }

  /** Read, crypt and write eight bytes at a time until a read comes up short. */
  method CryptFile(x: Boxes, K: seq<bv32>, src: seq<bv8>, encrypt: bool) returns (dst: seq<bv8>)
    requires BoxesOk(x) && |K| == DES3_EDE_EXPKEY_WORDS
    ensures dst == CryptBlocks(x, K, Padded(src), encrypt)
  {
    hide CryptBlock, CryptBlocks;
    dst := [];
    var pos, atEnd, fileEnd := 0, false, false;
    NoBlocks(x, K, encrypt);
    assert src[..0] == [];
    while !atEnd
      invariant 0 <= pos <= |src| && pos % 8 == 0 && !fileEnd
      invariant !atEnd && dst == CryptBlocks(x, K, src[..pos], encrypt)
      decreases |src| - pos
    {
      var data := ZEROS;
      var ret := if |src| - pos < 8 then |src| - pos else 8;
      data := src[pos..pos + ret] + data[ret..];
      if ret < 8 {
        atEnd := true;
        fileEnd := true;
      }
      var block := CryptOne(x, K, data, encrypt);
      OneBlock(x, K, data, encrypt);
      CryptBlocksAppend(x, K, src[..pos], data, encrypt);
      dst := dst + block;
      if fileEnd {
        assert src[pos..pos + ret] == src[pos..];
        LastBlock(src, pos);
        return;
      }
      assert src[..pos] + data == src[..pos + 8];
      pos := pos + ret;
    }
  }

  lemma NoBlocks(x: Boxes, K: seq<bv32>, encrypt: bool)
    requires BoxesOk(x) && |K| == DES3_EDE_EXPKEY_WORDS
    ensures CryptBlocks(x, K, [], encrypt) == []
  {
  }

  lemma LastBlock(src: seq<bv8>, pos: nat)
    requires pos <= |src| < pos + 8 && pos % 8 == 0
    ensures src[..pos] + (src[pos..] + ZEROS[|src| - pos..]) == Padded(src)
  {
    assert |src| % 8 == |src| - pos;
    assert ZEROS[|src| - pos..] == ZEROS[..8 - (|src| - pos)];
    assert src == src[..pos] + src[pos..];
  }

  method CryptOne(x: Boxes, K: seq<bv32>, data: Octets, encrypt: bool) returns (out: Octets)
    requires BoxesOk(x) && |K| == DES3_EDE_EXPKEY_WORDS
    ensures out == CryptBlock(x, K, data, encrypt)
  {
    if encrypt { out := Encrypt3(x, K, data); } else { out := Decrypt3(x, K, data); }
  }

  lemma PaddedWhole(data: seq<bv8>)
    requires |data| % 8 == 0
    ensures Padded(data) == data + ZEROS
  {
  }

  /** Decrypting what the tool encrypted gives back the file, then zeros to the end of the block it was
      padded to, then one more block: the decryption of zeros. */
  lemma FileRoundTrip(x: Boxes, K: seq<bv32>, src: seq<bv8>)
    requires BoxesOk(x) && |K| == DES3_EDE_EXPKEY_WORDS
    ensures var there := CryptBlocks(x, K, Padded(src), true);
            CryptBlocks(x, K, Padded(there), false) == Padded(src) + TripleDecrypt(x, K, ZEROS)
  {
    hide CryptBlocks, TripleDecrypt, Padded;
    var there := CryptBlocks(x, K, Padded(src), true);
    PaddedWhole(there);
    CryptBlocksAppend(x, K, there, ZEROS, false);
    BlocksRoundTrip(x, K, Padded(src));
    OneBlock(x, K, ZEROS, false);
  }
}
