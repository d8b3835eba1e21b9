/** The on-disk format: super block, bitmap blocks, inode blocks and indirect
    blocks, all read out of one array of raw blocks. */
module Layout {
  import opened Bytes

  const BSIZE := 1024
  const NDIRECT := 12
  const NINDIRECT := 256
  const MAXFILE := 268
  /** Block-pointer slots of an inode: 12 direct, the indirect root, 256 indirect. */
  const NSLOTS := 269
  const IPB := 8
  const DINODE_SIZE := 128
  const BPB := 8192

  const T_DIR := 1
  const T_FILE := 2
  const T_DEVICE := 3

  type Block = b: seq<byte> | |b| == BSIZE witness seq(BSIZE, _ => 0)

  function ZeroBlock(): Block {
    seq(BSIZE, _ => 0)
  }

  datatype SuperBlock = SuperBlock(size: nat, ninodes: nat, inodestart: nat, bmapstart: nat) {
    /** Boot, super and log blocks, then inode blocks, then the bitmap, then data. */
    predicate Valid() {
      && 2 <= inodestart
      && 1 < ninodes <= 0x1_0000
      && inodestart + ninodes / IPB + 1 <= bmapstart
      && DataStart() <= size < 0x8000_0000
    }

    function DataStart(): nat {
      bmapstart + size / BPB + 1
    }

    function BBlock(b: nat): nat {
      b / BPB + bmapstart
    }

    function IBlock(i: nat): nat {
      i / IPB + inodestart
    }
  }

  // --- inodes ------------------------------------------------------------

  type Addrs = a: seq<uint32> | |a| == NDIRECT + 1 witness seq(NDIRECT + 1, _ => 0)

  datatype Dinode = Dinode(typ: short, major: short, minor: short, nlink: short,
                           size: uint32, addrs: Addrs, permissions: short)

  function NoAddrs(): Addrs {
    seq(NDIRECT + 1, _ => 0)
  }

  function GetWords(b: seq<byte>, at: nat, n: nat): (ws: seq<uint32>)
    requires at + 4 * n <= |b|
    ensures |ws| == n && forall j | 0 <= j < n :: ws[j] == GetWord(b, at + 4 * j)
  {
    seq(n, j requires 0 <= j < n => GetWord(b, at + 4 * j))
  }

  function PutWords(b: seq<byte>, at: nat, ws: seq<uint32>): (r: seq<byte>)
    requires at + 4 * |ws| <= |b|
    ensures |r| == |b|
    ensures forall k | 0 <= k < |b| && !(at <= k < at + 4 * |ws|) :: r[k] == b[k]
    decreases |ws|
  {
    if ws == [] then b
    else PutWord(PutWords(b, at, ws[..|ws| - 1]), at + 4 * (|ws| - 1), ws[|ws| - 1])
  }

  lemma {:induction false} PutWordsReadsBack(b: seq<byte>, at: nat, ws: seq<uint32>, j: nat)
    requires at + 4 * |ws| <= |b| && j < |ws|
    ensures GetWord(PutWords(b, at, ws), at + 4 * j) == ws[j]
    decreases |ws|
  {
    if j < |ws| - 1 {
      PutWordsReadsBack(b, at, ws[..|ws| - 1], j);
      assert GetWord(PutWords(b, at, ws), at + 4 * j) == GetWord(PutWords(b, at, ws[..|ws| - 1]), at + 4 * j);
    }
  }

  function GetDinode(b: Block, k: nat): Dinode
    requires k < IPB
  {
    DecodeAt(b, DINODE_SIZE * k)
  }

  function DecodeAt(b: Block, at: nat): Dinode
    requires at + DINODE_SIZE <= BSIZE
  {
    Dinode(GetShort(b, at), GetShort(b, at + 2), GetShort(b, at + 4), GetShort(b, at + 6),
           GetWord(b, at + 8), GetWords(b, at + 12, NDIRECT + 1), GetShort(b, at + 64))
  }

  /** The four shorts at the front of a record. */
  function PutShorts(b: Block, at: nat, n: Dinode): (r: Block)
    requires at + DINODE_SIZE <= BSIZE
    ensures forall i | 0 <= i < BSIZE && !(at <= i < at + 8) :: r[i] == b[i]
    ensures GetShort(r, at) == n.typ && GetShort(r, at + 2) == n.major
    ensures GetShort(r, at + 4) == n.minor && GetShort(r, at + 6) == n.nlink
  {
    PutShort(PutShort(PutShort(PutShort(b, at, n.typ), at + 2, n.major), at + 4, n.minor), at + 6, n.nlink)
  }

  /** A record's addresses, size and permissions; the padding after them is left alone. */
  function EncodeAt(b: Block, at: nat, n: Dinode): (r: Block)
    requires at + DINODE_SIZE <= BSIZE
    ensures forall i | 0 <= i < BSIZE && !(at <= i < at + DINODE_SIZE) :: r[i] == b[i]
  {
    PutShort(PutWords(PutWord(PutShorts(b, at, n), at + 8, n.size), at + 12, n.addrs), at + 64, n.permissions)
  }

  function PutDinode(b: Block, k: nat, n: Dinode): Block
    requires k < IPB
  {
    EncodeAt(b, DINODE_SIZE * k, n)
  }

  lemma ShortsFromBytes(b: Block, c: Block, at: nat)
    requires at + 8 <= BSIZE
    requires forall i | at <= i < at + 8 :: b[i] == c[i]
    ensures GetShort(b, at) == GetShort(c, at) && GetShort(b, at + 2) == GetShort(c, at + 2)
    ensures GetShort(b, at + 4) == GetShort(c, at + 4) && GetShort(b, at + 6) == GetShort(c, at + 6)
  {
  }

  lemma AddrsReadBack(b5: Block, at: nat, n: Dinode)
    requires at + DINODE_SIZE <= BSIZE
    ensures GetWords(PutShort(PutWords(b5, at + 12, n.addrs), at + 64, n.permissions), at + 12, NDIRECT + 1) == n.addrs
  {
    var b6 := PutWords(b5, at + 12, n.addrs);
    var r := PutShort(b6, at + 64, n.permissions);
    forall j | 0 <= j < NDIRECT + 1
      ensures GetWord(r, at + 12 + 4 * j) == n.addrs[j]
    {
      PutWordsReadsBack(b5, at + 12, n.addrs, j);
    }
  }

  lemma EncodeDecode(b: Block, at: nat, n: Dinode)
    requires at + DINODE_SIZE <= BSIZE
    ensures DecodeAt(EncodeAt(b, at, n), at) == n
  {
    var b4 := PutShorts(b, at, n);
    var b5 := PutWord(b4, at + 8, n.size);
    AddrsReadBack(b5, at, n);
    ShortsFromBytes(b4, EncodeAt(b, at, n), at);
    assert GetWord(EncodeAt(b, at, n), at + 8) == GetWord(b5, at + 8);
  }

  /** An inode record is determined by its own bytes. */
  lemma DecodeBytes(b: Block, c: Block, at: nat)
    requires at + DINODE_SIZE <= BSIZE
    requires forall i | at <= i < at + DINODE_SIZE :: b[i] == c[i]
    ensures DecodeAt(b, at) == DecodeAt(c, at)
  {
    assert forall j {:trigger GetWord(b, at + 12 + 4 * j)} | 0 <= j < NDIRECT + 1 ::
        GetWord(b, at + 12 + 4 * j) == GetWord(c, at + 12 + 4 * j);
    assert GetWords(b, at + 12, NDIRECT + 1) == GetWords(c, at + 12, NDIRECT + 1);
  }

  /** Writing an inode record reads back as written and leaves its neighbours alone. */
  lemma DinodeRoundTrip(b: Block, k: nat, n: Dinode)
    requires k < IPB
    ensures GetDinode(PutDinode(b, k, n), k) == n
    ensures forall j: nat | j < IPB && j != k :: GetDinode(PutDinode(b, k, n), j) == GetDinode(b, j)
  {
    EncodeDecode(b, DINODE_SIZE * k, n);
    forall j: nat | j < IPB && j != k
      ensures GetDinode(PutDinode(b, k, n), j) == GetDinode(b, j)
    {
      DecodeBytes(PutDinode(b, k, n), b, DINODE_SIZE * j);
    }
  }

  // --- views of the whole disk ----------------------------------------------

  type Disk = seq<Block>

  ghost predicate Formatted(sb: SuperBlock, d: Disk) {
    sb.Valid() && |d| == sb.size
  }

  /** Is block b marked in use in the free bitmap? */
  predicate Bit(sb: SuperBlock, d: Disk, b: nat)
    requires Formatted(sb, d) && b < sb.size
  {
    TestBit(d[sb.BBlock(b)][b % BPB / 8], b % 8)
  }

  /** Inode number i as stored on disk. */
  function DiskInode(sb: SuperBlock, d: Disk, i: nat): Dinode
    requires Formatted(sb, d) && i < sb.ninodes
  {
    GetDinode(d[sb.IBlock(i)], i % IPB)
  }

  /** Two bytes, low one first, as a C short. */
  predicate ShortAt(b: seq<byte>, at: nat, v: int)
    requires at + 2 <= |b|
  {
    var w := b[at] as int + 0x100 * b[at + 1] as int;
    v == if w < 0x8000 then w else w - 0x1_0000
  }

  predicate WordAt(b: seq<byte>, at: nat, v: int)
    requires at + 4 <= |b|
  {
    v == b[at] as int + 0x100 * b[at + 1] as int + 0x1_0000 * b[at + 2] as int + 0x100_0000 * b[at + 3] as int
  }

  /** struct dinode, field by field: its block, its place there, and where each field lies. */
  lemma DinodeBytes(sb: SuperBlock, d: Disk, i: nat)
    requires Formatted(sb, d) && i < sb.ninodes
    ensures var b, at, n := d[sb.inodestart + i / 8], i % 8 * 128, DiskInode(sb, d, i);
            && ShortAt(b, at, n.typ) && ShortAt(b, at + 2, n.major) && ShortAt(b, at + 4, n.minor) && ShortAt(b, at + 6, n.nlink)
            && WordAt(b, at + 8, n.size) && (forall k: nat | k < 13 :: WordAt(b, at + 12 + 4 * k, n.addrs[k]))
            && ShortAt(b, at + 64, n.permissions)
  {
  }

  /** The free bitmap: bit b % 8 of byte b / 8, from bmapstart on. */
  lemma BitmapByte(sb: SuperBlock, d: Disk, b: nat)
    requires Formatted(sb, d) && b < sb.size
    ensures Pow2(b % 8) > 0
    ensures Bit(sb, d, b) <==> d[sb.bmapstart + b / 8192][b % 8192 / 8] / Pow2(b % 8) % 2 == 1
  {
    TestBitWeight(d[sb.BBlock(b)][b % BPB / 8], b % 8);
  }

  predicate IsInodeBlock(sb: SuperBlock, b: nat) {
    sb.inodestart <= b < sb.bmapstart
  }

  predicate IsBitmapBlock(sb: SuperBlock, b: nat) {
    sb.bmapstart <= b < sb.DataStart()
  }

  ghost predicate SameInodeBlocks(sb: SuperBlock, d: Disk, e: Disk)
    requires Formatted(sb, d) && Formatted(sb, e)
  {
    forall b: nat | IsInodeBlock(sb, b) :: d[b] == e[b]
  }

  /** Two images agree everywhere but in the bitmap and in the blocks of S. */
  ghost predicate SameExcept(sb: SuperBlock, d: Disk, e: Disk, S: set<nat>)
    requires Formatted(sb, d) && Formatted(sb, e)
  {
    forall b: nat | b < sb.size && !IsBitmapBlock(sb, b) && b !in S :: d[b] == e[b]
  }

  // --- flipping one bit of the bitmap -----------------------------------------

  function FlipOn(sb: SuperBlock, d: Disk, b: nat): (e: Disk)
    requires Formatted(sb, d) && b < sb.size
    ensures |e| == |d|
  {
    var blk := d[sb.BBlock(b)];
    ByteBitsFit(blk[b % BPB / 8], b % 8);
    d[sb.BBlock(b) := blk[b % BPB / 8 := SetBit(blk[b % BPB / 8], b % 8)]]
  }

  function FlipOff(sb: SuperBlock, d: Disk, b: nat): (e: Disk)
    requires Formatted(sb, d) && b < sb.size
    ensures |e| == |d|
  {
    var blk := d[sb.BBlock(b)];
    ByteBitsFit(blk[b % BPB / 8], b % 8);
    d[sb.BBlock(b) := blk[b % BPB / 8 := ClearBit(blk[b % BPB / 8], b % 8)]]
  }

  /** A block number is its bitmap block, byte and bit. */
  lemma BitPosition(x: nat, b: nat)
    requires x / BPB == b / BPB && x % BPB / 8 == b % BPB / 8 && x % 8 == b % 8
    ensures x == b
  {
    assert x % BPB % 8 == x % 8 && b % BPB % 8 == b % 8;
  }

  lemma FlipOnExact(sb: SuperBlock, d: Disk, b: nat, x: nat)
    requires Formatted(sb, d) && b < sb.size && x < sb.size
    ensures Bit(sb, FlipOn(sb, d, b), x) <==> x == b || Bit(sb, d, x)
  {
    if x / BPB == b / BPB && x % BPB / 8 == b % BPB / 8 {
      ByteBitsFit(d[sb.BBlock(b)][b % BPB / 8], b % 8);
      SetBitExact(d[sb.BBlock(b)][b % BPB / 8], b % 8, x % 8);
      if x % 8 == b % 8 {
        BitPosition(x, b);
      }
    }
  }

  lemma FlipOffExact(sb: SuperBlock, d: Disk, b: nat, x: nat)
    requires Formatted(sb, d) && b < sb.size && x < sb.size
    ensures Bit(sb, FlipOff(sb, d, b), x) <==> x != b && Bit(sb, d, x)
  {
    if x / BPB == b / BPB && x % BPB / 8 == b % BPB / 8 {
      ByteBitsFit(d[sb.BBlock(b)][b % BPB / 8], b % 8);
      ClearBitExact(d[sb.BBlock(b)][b % BPB / 8], b % 8, x % 8);
      if x % 8 == b % 8 {
        BitPosition(x, b);
      }
    }
  }

  /** The image e is d with block b newly taken and zeroed. */
  ghost predicate Allocated(sb: SuperBlock, d: Disk, e: Disk, b: nat) {
    && Formatted(sb, d) && Formatted(sb, e)
    && sb.DataStart() <= b < sb.size && !Bit(sb, d, b)
    && (forall x: nat | x < sb.size :: Bit(sb, e, x) <==> x == b || Bit(sb, d, x))
    && e[b] == ZeroBlock()
    && SameExcept(sb, d, e, {b})
  }

  /** The image e is d with block b given back. */
  ghost predicate Freed(sb: SuperBlock, d: Disk, e: Disk, b: nat) {
    && Formatted(sb, d) && Formatted(sb, e)
    && b < sb.size && Bit(sb, d, b)
    && (forall x: nat | x < sb.size :: Bit(sb, e, x) <==> x != b && Bit(sb, d, x))
    && SameExcept(sb, d, e, {})
  }

  /** Freeing what was just allocated restores the bitmap, byte for byte. */
  lemma FreeUndoesAllocate(sb: SuperBlock, d: Disk, b: nat)
    requires Formatted(sb, d) && b < sb.size && !Bit(sb, d, b)
    ensures FlipOff(sb, FlipOn(sb, d, b), b) == d
  {
    var blk := d[sb.BBlock(b)];
    ByteBitsFit(blk[b % BPB / 8], b % 8);
    ClearUndoesSet(blk[b % BPB / 8], b % 8);
    var on := FlipOn(sb, d, b)[sb.BBlock(b)];
    assert on[b % BPB / 8 := blk[b % BPB / 8]] == blk;
  }
}
