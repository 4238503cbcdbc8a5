/** The root file system inside an image: finding it, extracting it and comparing it. */
module FileSplit {
  import opened Des

  const BLOCK_SIZE := 64 * 1024
  const SQUASHFS_MAGIC: bv32 := 0x73717368

  datatype File = Missing | File(data: seq<bv8>)

  // ---------------------------------------------------------------- the magic number

  function Swap32(x: bv32): bv32 {
    ((x & 0xff) << 24) | ((x & 0xff00) << 8) | ((x & 0xff0000) >> 8) | ((x & 0xff000000) >> 24)
  }

  lemma SwapReverses(b0: bv8, b1: bv8, b2: bv8, b3: bv8)
    ensures Swap32(Word(b0, b1, b2, b3)) == Word(b3, b2, b1, b0)
  {
  }

  lemma MagicBytes(b0: bv8, b1: bv8, b2: bv8, b3: bv8)
    ensures Word(b0, b1, b2, b3) == SQUASHFS_MAGIC <==> b0 == 0x68 && b1 == 0x73 && b2 == 0x71 && b3 == 0x73
  {
  }

  /** Four bytes as a number of the host. */
  function HostNumber(bigEndian: bool, b: seq<bv8>): bv32
    requires |b| == 4
  {
    if bigEndian then Word(b[3], b[2], b[1], b[0]) else Word(b[0], b[1], b[2], b[3])
  }

  const MAGIC_BYTES: seq<bv8> := [0x68, 0x73, 0x71, 0x73]
  const MAGIC_BYTES_SWAPPED: seq<bv8> := [0x73, 0x71, 0x73, 0x68]

  /** Read as a number and swapped, the two byte orders are told from all other bytes on either kind of host. */
  lemma EitherOrder(bigEndian: bool, b: seq<bv8>)
    requires |b| == 4
    ensures var n := HostNumber(bigEndian, b);
            (n == SQUASHFS_MAGIC || Swap32(n) == SQUASHFS_MAGIC) <==> (b == MAGIC_BYTES || b == MAGIC_BYTES_SWAPPED)
  {
    hide Swap32, Word;
    SwapReverses(b[0], b[1], b[2], b[3]);
    SwapReverses(b[3], b[2], b[1], b[0]);
    MagicBytes(b[0], b[1], b[2], b[3]);
    MagicBytes(b[3], b[2], b[1], b[0]);
  }

  /** Block `i` of the image is there and starts with the magic number. */
  predicate MagicAt(img: seq<bv8>, i: nat) {
    && BLOCK_SIZE * i + 4 <= |img|
    && var b := img[BLOCK_SIZE * i..BLOCK_SIZE * i + 4];
       b == MAGIC_BYTES || b == MAGIC_BYTES_SWAPPED
  }

  /** The magic number, "hsqs" or "sqsh", stands at a multiple of 65536. */
  lemma MagicIs(img: seq<bv8>, i: nat)
    ensures MagicAt(img, i) <==>
            && 65536 * i + 4 <= |img|
            && var b := img[65536 * i..65536 * i + 4];
               b == [0x68, 0x73, 0x71, 0x73] || b == [0x73, 0x71, 0x73, 0x68]
  {
  }

  /** The first block that does. */
  predicate LeastMagic(img: seq<bv8>, block: nat) {
    MagicAt(img, block) && forall i :: 0 <= i < block ==> !MagicAt(img, i)
  }

  /** Seek to every block in turn; a seek past the end succeeds, the read after it does not. On failure
      the caller's block number stays as it was. */
  method CheckSqImage(image: File, bigEndian: bool, was: nat) returns (ret: int, block: nat)
    ensures ret == 0 || ret == -1
    ensures ret == 0 <==> image.File? && exists i: nat :: MagicAt(image.data, i)
    ensures if ret == 0 then LeastMagic(image.data, block) else block == was
  {
    hide HostNumber, Swap32;
    block := was;
    if image.Missing? { return -1, was; }
    var img := image.data;
    var i := 0;
    while true
      invariant 0 <= i && BLOCK_SIZE * i <= |img| + BLOCK_SIZE
      invariant forall j :: 0 <= j < i ==> !MagicAt(img, j)
      decreases |img| + BLOCK_SIZE - BLOCK_SIZE * i
    {
      if BLOCK_SIZE * i + 4 > |img| { return -1, was; }
      var number := HostNumber(bigEndian, img[BLOCK_SIZE * i..BLOCK_SIZE * i + 4]);
      EitherOrder(bigEndian, img[BLOCK_SIZE * i..BLOCK_SIZE * i + 4]);
      if number == SQUASHFS_MAGIC || Swap32(number) == SQUASHFS_MAGIC {
        assert MagicAt(img, i);
        return 0, i;
      }
      i := i + 1;
    }
  }

  // ------------------------------------------------------------------- the image header

  const HEADER_SIZE := 64
  const IH_MAGIC_BYTES: seq<bv8> := [0x27, 0x05, 0x19, 0x56]

  predicate HasHeader(img: seq<bv8>) { |img| >= HEADER_SIZE && img[..4] == IH_MAGIC_BYTES }

  function ZeroFrom(name: seq<bv8>, i: nat): (n: nat)
    requires i <= |name|
    ensures i <= n <= |name| && (n < |name| ==> name[n] == 0)
    decreases |name| - i
  {
    if i == |name| || name[i] == 0 then i else ZeroFrom(name, i + 1)
  }

  /** The name in the header without its first two bytes. */
  function VersionOf(img: seq<bv8>): seq<bv8>
    requires HasHeader(img)
  {
    var name := img[32..HEADER_SIZE];
    var n := ZeroFrom(name, 0);
    if n < 2 then [] else name[2..n]
  }

  function Value(b: bv8): (n: nat)
    ensures n < 0x100
  {
    b as nat
  }

  /** The time field, in network order. */
  function TimeOf(img: seq<bv8>): nat
    requires HasHeader(img)
  {
    ((Value(img[8]) * 0x100 + Value(img[9])) * 0x100 + Value(img[10])) * 0x100 + Value(img[11])
  }

  predicate Below(x: bv8, y: bv8) { x < y }

  lemma ByteOrder(x: bv8, y: bv8)
    ensures Below(x, y) <==> Value(x) < Value(y)
    ensures x == y <==> Value(x) == Value(y)
  {
  }

  lemma ZeroByte(x: bv8)
    ensures x == 0 <==> Value(x) == 0
  {
  }

  lemma NumberOrder(a: nat, b: nat, c: nat, d: nat, a': nat, b': nat, c': nat, d': nat)
    requires b < 0x100 && c < 0x100 && d < 0x100 && b' < 0x100 && c' < 0x100 && d' < 0x100
    ensures ((a * 0x100 + b) * 0x100 + c) * 0x100 + d < ((a' * 0x100 + b') * 0x100 + c') * 0x100 + d' <==>
            a < a' || (a == a' && (b < b' || (b == b' && (c < c' || (c == c' && d < d')))))
  {
  }

  /** Bytes 8 to 11 of one image come before those of the other: the first that differs is smaller. */
  predicate Earlier(x: seq<bv8>, y: seq<bv8>)
    requires |x| >= 12 && |y| >= 12
  {
    || Below(x[8], y[8])
    || (x[8] == y[8] && Below(x[9], y[9]))
    || (x[8] == y[8] && x[9] == y[9] && Below(x[10], y[10]))
    || (x[8] == y[8] && x[9] == y[9] && x[10] == y[10] && Below(x[11], y[11]))
  }

  /** One image is older than another exactly when its time field comes first. */
  lemma TimeOrder(x: seq<bv8>, y: seq<bv8>)
    requires HasHeader(x) && HasHeader(y)
    ensures TimeOf(x) < TimeOf(y) <==> Earlier(x, y)
    ensures TimeOf(x) == 0 <==> x[8] == 0 && x[9] == 0 && x[10] == 0 && x[11] == 0
  {
    hide Below, Value;
    ByteOrder(x[8], y[8]); ByteOrder(x[9], y[9]); ByteOrder(x[10], y[10]); ByteOrder(x[11], y[11]);
    ZeroByte(x[8]); ZeroByte(x[9]); ZeroByte(x[10]); ZeroByte(x[11]);
    NumberOrder(Value(x[8]), Value(x[9]), Value(x[10]), Value(x[11]),
                Value(y[8]), Value(y[9]), Value(y[10]), Value(y[11]));
  }

  lemma {:induction false} ZeroIsFirst(name: seq<bv8>, i: nat, n: nat)
    requires i <= n <= |name|
    ensures ZeroFrom(name, i) == n <==> (forall j :: i <= j < n ==> name[j] != 0) && (n < |name| ==> name[n] == 0)
    decreases |name| - i
  {
    if i < n && name[i] != 0 { ZeroIsFirst(name, i + 1, n); }
  }

  /** The version is a string: it stands in the name field, behind two bytes, and ends with a zero byte or the field. */
  lemma VersionIs(img: seq<bv8>, v: seq<bv8>)
    requires HasHeader(img)
    ensures VersionOf(img) == v <==>
            if img[32] == 0 || img[33] == 0 then v == []
            else |v| <= 30 && 0 !in v && img[34..34 + |v|] == v && (|v| < 30 ==> img[34 + |v|] == 0)
  {
    var name := img[32..HEADER_SIZE];
    hide HasHeader;
    var n := ZeroFrom(name, 0);
    ZeroIsFirst(name, 0, n);
    assert name[0] == img[32] && name[1] == img[33];
    if |v| <= 30 {
      assert forall j :: 0 <= j < |name| ==> name[j] == img[32 + j];
      ZeroIsFirst(name, 0, 2 + |v|);
      if img[34..34 + |v|] == v {
        assert forall j :: 0 <= j < |v| ==> v[j] == name[2 + j];
        assert forall j :: 2 <= j < 2 + |v| ==> name[j] == v[j - 2];
      }
    }
  }

  /** A file that the search may pick: an image of the version, with a time and a root file system. */
  ghost predicate Candidate(file: File, version: seq<bv8>) {
    && file.File? && HasHeader(file.data) && VersionOf(file.data) == version && TimeOf(file.data) > 0
    && exists i: nat :: MagicAt(file.data, i)
  }

  ghost predicate HasCandidate(files: seq<File>, version: seq<bv8>) {
    exists j :: 0 <= j < |files| && Candidate(files[j], version)
  }

  /** The newest candidate, the first of those that share its time. */
  ghost predicate Newest(files: seq<File>, version: seq<bv8>, k: int) {
    && 0 <= k < |files| && Candidate(files[k], version)
    && forall j :: 0 <= j < |files| && Candidate(files[j], version) ==>
         TimeOf(files[j].data) <= TimeOf(files[k].data) && (j < k ==> TimeOf(files[j].data) < TimeOf(files[k].data))
  }

  lemma NewestUnique(files: seq<File>, version: seq<bv8>, j: int, k: int)
    requires Newest(files, version, j) && Newest(files, version, k)
    ensures j == k
  {
  }

  /** Replacing a file by one that is no candidate leaves the newest, if it is another, the newest. */
  lemma NewestKept(files: seq<File>, version: seq<bv8>, k: int, at: nat, file: File)
    requires Newest(files, version, k) && at < |files| && at != k && !Candidate(file, version)
    ensures Newest(files[at := file], version, k)
  {
  }

  /** The walk over the directory. A directory entry that is `Missing` cannot be opened. */
  method GetImageFileName(files: seq<File>, version: seq<bv8>, bigEndian: bool)
    returns (ret: int, pick: int, block: nat)
    ensures ret == 0 || ret == -1
    ensures ret == 0 <==> HasCandidate(files, version)
    ensures ret == 0 ==> Newest(files, version, pick) && LeastMagic(files[pick].data, block)
  {
    hide MagicAt, VersionOf, TimeOf;
    pick, block := -1, 0;
    var blockNo, newest := 0, 0;
    for i := 0 to |files|
      invariant if pick == -1 then newest == 0 else
                0 <= pick < i && Candidate(files[pick], version) && newest == TimeOf(files[pick].data) &&
                LeastMagic(files[pick].data, block)
      invariant pick == -1 ==> forall j :: 0 <= j < i ==> !Candidate(files[j], version)
      invariant pick != -1 ==> forall j :: 0 <= j < i && Candidate(files[j], version) ==>
                  TimeOf(files[j].data) <= newest && (j < pick ==> TimeOf(files[j].data) < newest)
    {
      if files[i].File? && HasHeader(files[i].data) {
        var found;
        found, blockNo := CheckSqImage(files[i], bigEndian, blockNo);
        if found == 0 && VersionOf(files[i].data) == version && TimeOf(files[i].data) > newest {
          pick, block, newest := i, blockNo, TimeOf(files[i].data);
        }
      }
    }
    ret := if pick == -1 then -1 else 0;
  }

  // --------------------------------------------------- the image from a block to its end

  function Suffix(img: seq<bv8>, block: nat): seq<bv8> {
    if BLOCK_SIZE * block <= |img| then img[BLOCK_SIZE * block..] else []
  }

  function Least(x: int, y: int): int { if x < y then x else y }

  /** What a read of a block gives: fewer bytes only at the end of the file. */
  function Chunk(data: seq<bv8>, pos: nat): (c: seq<bv8>)
    requires pos <= |data|
    ensures |c| == Least(BLOCK_SIZE, |data| - pos)
  {
    data[pos..pos + Least(BLOCK_SIZE, |data| - pos)]
  }

  lemma ChunkMore(data: seq<bv8>, pos: nat)
    requires pos <= |data|
    ensures data[..pos] + Chunk(data, pos) == data[..pos + |Chunk(data, pos)|]
  {
  }

  /** What is extracted starts with the magic number of a file system, so it shows no image header and is
      never a candidate itself. */
  lemma RootNoCandidate(img: seq<bv8>, block: nat, version: seq<bv8>)
    requires LeastMagic(img, block)
    ensures !Candidate(File(Suffix(img, block)), version)
  {
    var root := Suffix(img, block);
    assert root[..4] == img[BLOCK_SIZE * block..BLOCK_SIZE * block + 4];
    assert root[0] != IH_MAGIC_BYTES[0];
    assert |root| >= HEADER_SIZE ==> root[..4][0] == root[0];
  }

  /** The directory with the images. The root file is one of its entries. */
  class Partition {
    var files: seq<File>
    const at: nat

    ghost predicate Valid()
      reads this
    {
      at < |files|
    }

    /** One exactly if the root file is the rest of the image from the block on; a root file that
        differs is deleted. */
    method CheckImageRoot(image: nat, block: nat) returns (ret: int)
      requires Valid() && image < |files|
      modifies this
      ensures ret == -1 <==> old(files[image]).Missing?
      ensures ret == 1 <==> old(files[image]).File? && old(files[at]) == File(Suffix(old(files[image]).data, block))
      ensures ret == -1 || ret == 0 || ret == 1
      ensures files == if ret == 0 then old(files)[at := Missing] else old(files)
    {
      if files[image].Missing? { return -1; }
      if files[at].Missing? {
        assert files == files[at := Missing];
        return 0;
      }
      var rest, mine := Suffix(files[image].data, block), files[at].data;
      var pos := 0;
      var imgLen := BLOCK_SIZE;
      while imgLen == BLOCK_SIZE
        invariant 0 <= pos <= |rest| && pos <= |mine| && rest[..pos] == mine[..pos] && files == old(files)
        invariant 0 <= imgLen <= BLOCK_SIZE && (imgLen < BLOCK_SIZE ==> pos == |rest| == |mine|)
        decreases |rest| - pos, imgLen
      {
        var img, own := Chunk(rest, pos), Chunk(mine, pos);
        imgLen := |img|;
        if |img| != |own| || img != own {
          files := files[at := Missing];
          assert rest[pos..pos + |img|] == img && mine[pos..pos + |own|] == own;
          return 0;
        }
        ChunkMore(rest, pos);
        ChunkMore(mine, pos);
        pos := pos + imgLen;
      }
      assert rest[..pos] == rest && mine[..pos] == mine;
      ret := 1;
    }

    /** Writes exactly the rest of the image from the block on, once the image shows its header. To write
        the root file is to empty it first, so extracting it from itself leaves it empty. */
    method GetSqImage(image: nat, block: nat) returns (ret: int)
      requires Valid() && image < |files|
      modifies this
      ensures ret == 0 <==> old(files[image]).File? && HasHeader(old(files[image]).data)
      ensures ret == 0 || ret == -1
      ensures ret == -1 ==> files == old(files)
      ensures ret == 0 ==>
                files == old(files)[at := File(if image == at then [] else Suffix(old(files[image]).data, block))]
    {
      if files[image].Missing? { return -1; }
      var header := files[image].data;
      if |header| < HEADER_SIZE || header[..4] != IH_MAGIC_BYTES { return -1; }
      files := files[at := File([])];
      var rest := Suffix(files[image].data, block);
      var pos := 0;
      ret := BLOCK_SIZE;
      while ret == BLOCK_SIZE
        invariant 0 <= pos <= |rest| && files == old(files)[at := File(rest[..pos])]
        invariant 0 <= ret <= BLOCK_SIZE && (ret < BLOCK_SIZE ==> pos == |rest|)
        decreases |rest| - pos, ret
      {
        var buff := Chunk(rest, pos);
        ret := |buff|;
        ChunkMore(rest, pos);
        if ret > 0 { files := files[at := File(files[at].data + buff)]; }
        pos := pos + ret;
      }
      assert rest[..pos] == rest;
      ret := 0;
    }

    /** Locate, compare, and extract where the comparison fails: the root file becomes the newest image of
        the version from its first magic block on. A root file that is itself the newest image is lost.
        Without an image nothing changes. */
    method UpdateRoot(version: seq<bv8>, bigEndian: bool) returns (ret: int, ghost pick: int, ghost block: nat)
      requires Valid()
      modifies this
      ensures Valid()
      ensures if HasCandidate(old(files), version)
              then Newest(old(files), version, pick) && LeastMagic(old(files)[pick].data, block)
              else ret == -1 && files == old(files)
      ensures HasCandidate(old(files), version) && pick == at ==> ret == -1 && files == old(files)[at := Missing]
      ensures HasCandidate(old(files), version) && pick != at ==>
                && files == old(files)[at := File(Suffix(old(files)[pick].data, block))]
                && ret == if old(files[at]) == files[at] then 1 else 0
    {
      hide Newest, LeastMagic, Suffix, MagicAt, HasCandidate;
      var found, image, from := GetImageFileName(files, version, bigEndian);
      pick, block := image, from;
      if found != 0 { return -1, pick, block; }
      PickHasHeader(files, version, image);
      if image == at { RootDiffers(files[at].data, from); }
      ret := CheckImageRoot(image, from);
      if ret == 0 {
        ret := GetSqImage(image, from);
        if ret != 0 { return -1, pick, block; }
      } else {
        assert files == files[at := files[at]];
      }
    }

    /** A second update finds nothing to do. */
    method UpdateTwice(version: seq<bv8>, bigEndian: bool)
      returns (first: int, second: int, ghost pick: int, ghost block: nat)
      requires Valid()
      modifies this
      ensures Valid()
      ensures first != -1 ==> second == 1
      ensures first != -1 ==> Newest(old(files), version, pick) && LeastMagic(old(files)[pick].data, block)
      ensures first != -1 ==> pick != at
      ensures first != -1 ==> files == old(files)[at := File(Suffix(old(files)[pick].data, block))]
    {
      hide LeastMagic, Suffix, Newest, HasCandidate, Candidate;
      ghost var k, c;
      first, pick, block := UpdateRoot(version, bigEndian);
      ghost var once := files;
      second, k, c := UpdateRoot(version, bigEndian);
      if first != -1 {
        PickHasHeader(old(files), version, pick);
        RootNoCandidate(old(files)[pick].data, block, version);
        NewestKept(old(files), version, pick, at, once[at]);
        NewestCandidate(once, version, pick);
        NewestUnique(once, version, pick, k);
        LeastUnique(once[pick].data, block, c);
        assert once[at := once[at]] == once;
      }
    }
  }

  lemma PickHasHeader(files: seq<File>, version: seq<bv8>, k: int)
    requires Newest(files, version, k)
    ensures 0 <= k < |files| && files[k].File? && HasHeader(files[k].data)
  {
  }

  lemma NewestCandidate(files: seq<File>, version: seq<bv8>, k: int)
    requires Newest(files, version, k)
    ensures HasCandidate(files, version)
  {
  }

  /** An image is not its own root file system: that starts behind the header. */
  lemma RootDiffers(img: seq<bv8>, block: nat)
    requires HasHeader(img) && LeastMagic(img, block)
    ensures img != Suffix(img, block)
  {
    var root := Suffix(img, block);
    assert root[..4] == img[BLOCK_SIZE * block..BLOCK_SIZE * block + 4];
    assert root[..4][0] == root[0] && img[..4][0] == img[0];
  }

  lemma LeastUnique(img: seq<bv8>, b: nat, c: nat)
    requires LeastMagic(img, b) && LeastMagic(img, c)
    ensures b == c
  {
  }
}
