/** A small formatted disk, byte for byte: boot, super and 30 log blocks, one block of inodes, the bitmap, and
    the root directory in the first data block. */
module Image {
  import opened Bytes
  import opened Layout
  import opened BlockMap
  import opened FileData
  import opened DirFormat
  import opened FileSystem
  import opened LinkLaw
  import opened InodeRefs
  import opened SysFile

  const SB := SuperBlock(2000, 4, 32, 33)

  const ROOTBLOCK: uint32 := 34

  /** An inode record of zeros. */
  function Blank(): Dinode {
    Dinode(0, 0, 0, 0, 0, NoAddrs(), 0)
  }

  function RootInode(): Dinode {
    Dinode(T_DIR, 0, 0, 1, BSIZE, NoAddrs()[0 := ROOTBLOCK], 0)
  }

  /** The root directory: "." and ".." and free records to the end of the block. */
  function RootBlock(): (b: Block)
    ensures DirShape(b) && DirMap(b) == map[DOT := ROOT, DOTDOT := ROOT]
  {
    RootRecords();
    PutEntry(PutEntry(ZeroBlock(), 0, ROOT, Pad(DOT)), 1, ROOT, Pad(DOTDOT))
  }

  lemma RootRecords()
    ensures DirOk(ZeroBlock())
    ensures var c1 := PutEntry(ZeroBlock(), 0, ROOT, Pad(DOT));
            |c1| == BSIZE
            && var c2 := PutEntry(c1, 1, ROOT, Pad(DOTDOT));
            |c2| == BSIZE && DirShape(c2) && DirMap(c2) == map[DOT := ROOT, DOTDOT := ROOT]
  {
    hide PutEntry, DirOk, DirMap, Pad, NameAt, Inum;
    var c := ZeroBlock();
    NoRecords();
    DotKeys();
    PadKey(DOT);
    PadKey(DOTDOT);
    PutEntryReads(c, 0, ROOT, Pad(DOT));
    InsertEntry(c, 0, ROOT, Pad(DOT));
    var c1 := PutEntry(c, 0, ROOT, Pad(DOT));
    assert !Live(c, 1) && Inum(c1, 1) == Inum(c, 1);
    PutEntryReads(c1, 1, ROOT, Pad(DOTDOT));
    InsertEntry(c1, 1, ROOT, Pad(DOTDOT));
  }

  lemma NoRecords()
    ensures DirOk(ZeroBlock()) && DirMap(ZeroBlock()) == map[]
    ensures forall e: nat :: !Live(ZeroBlock(), e)
  {
    hide NameAt;
    assert forall e: nat :: !Live(ZeroBlock(), e);
    SameMap(ZeroBlock(), map[]);
  }

  /** The first 35 blocks are in use. */
  function Bitmap(): Block {
    seq(BSIZE, k => if k < 4 then 255 else if k == 4 then 7 else 0)
  }

  function BlockAt(b: nat): Block {
    if b == 32 then PutDinode(ZeroBlock(), 1, RootInode())
    else if b == 33 then Bitmap()
    else if b == 34 then RootBlock()
    else ZeroBlock()
  }

  function Blocks(): (d: Disk)
    ensures Formatted(SB, d)
    ensures forall b: nat | b < 2000 :: d[b] == BlockAt(b)
  {
    seq(2000, b requires b >= 0 => BlockAt(b))
  }

  function Nodes(): seq<Dinode> {
    [Blank(), RootInode(), Blank(), Blank()]
  }

  lemma ZeroReads(at: nat)
    requires at + 4 <= BSIZE
    ensures GetShort(ZeroBlock(), at) == 0 && GetWord(ZeroBlock(), at) == 0
  {
  }

  lemma BlankRecord(k: nat)
    requires k < IPB
    ensures GetDinode(ZeroBlock(), k) == Blank()
  {
    hide GetShort, GetWord, ZeroBlock;
    var at := DINODE_SIZE * k;
    ZeroReads(at);
    ZeroReads(at + 2);
    ZeroReads(at + 4);
    ZeroReads(at + 6);
    ZeroReads(at + 8);
    ZeroReads(at + 64);
    var ws := GetWords(ZeroBlock(), at + 12, NDIRECT + 1);
    forall j: nat | j <= NDIRECT
      ensures ws[j] == 0
    {
      ZeroReads(at + 12 + 4 * j);
    }
    assert ws == NoAddrs();
  }

  lemma StoredNodes(i: nat)
    requires i < 4
    ensures DiskInode(SB, Blocks(), i) == Nodes()[i]
  {
    hide RootBlock, Bitmap, GetDinode, PutDinode, ZeroBlock, RootInode, Blank;
    assert SB.IBlock(i) == 32 && Blocks()[32] == BlockAt(32);
    DinodeRoundTrip(ZeroBlock(), 1, RootInode());
    BlankRecord(i);
  }

  lemma AllStored()
    ensures |Nodes()| == 4 && forall i: nat | i < 4 :: DiskInode(SB, Blocks(), i) == Nodes()[i]
  {
    hide Blocks, DiskInode;
    forall i: nat | i < 4
      ensures DiskInode(SB, Blocks(), i) == Nodes()[i]
    {
      StoredNodes(i);
    }
  }

  /** 2^n - 1 has the first n bits. */
  lemma {:induction false} Ones(n: nat, k: nat)
    ensures Pow2(n) > 0 && (TestBit(Pow2(n) - 1, k) <==> k < n)
    decreases n, k
  {
    if n > 0 {
      Ones(n - 1, if k > 0 then k - 1 else 0);
      assert (Pow2(n) - 1) / 2 == Pow2(n - 1) - 1;
    } else if k > 0 {
      Ones(0, k - 1);
    }
  }

  lemma BitmapBits(b: nat)
    requires b < SB.size
    ensures Bit(SB, Blocks(), b) <==> b < 35
  {
    hide RootBlock, PutDinode;
    assert SB.BBlock(b) == 33 && Blocks()[33] == BlockAt(33);
    assert Pow2(3) == 8 && Pow2(8) == 32 * Pow2(3);
    Ones(8, b % 8);
    Ones(3, b % 8);
    Ones(0, b % 8);
  }

  lemma RootSlots(i: nat, s: nat)
    requires i < 4 && s < NSLOTS
    ensures Slot(Blocks(), Nodes()[i], s) == if i == 1 && s == 0 then ROOTBLOCK else 0
  {
    hide RootBlock, Bitmap;
  }

  lemma Consistent()
    ensures Inv(SB, Blocks(), Nodes(), map[34 := (1, 0)])
  {
    hide Bit, Slot, Blocks;
    forall i: nat, s: nat | i < 4 && s < NSLOTS
      ensures Slot(Blocks(), Nodes()[i], s) == if i == 1 && s == 0 then ROOTBLOCK else 0
    {
      RootSlots(i, s);
    }
    forall b: nat | b < SB.size
      ensures Bit(SB, Blocks(), b) <==> b < 35
    {
      BitmapBits(b);
    }
  }

  lemma RootContent()
    ensures Content(Blocks(), RootInode()) == RootBlock()
  {
    hide RootBlock, Bitmap, PutDinode;
    assert Blocks()[34] == BlockAt(34);
    forall k: nat | k < BSIZE
      ensures ByteAt(Blocks(), RootInode(), k) == RootBlock()[k]
    {
      assert k / BSIZE == 0 && k % BSIZE == k;
    }
  }

  /** The root directory and two free inodes. */
  function Empty(): Tree {
    [FreeNode(), Node(T_DIR, 1, map[DOT := ROOT, DOTDOT := ROOT]), FreeNode(), FreeNode()]
  }

  function NoPending(): seq<nat> {
    [0, 0, 0, 0]
  }

  lemma EmptyIs()
    ensures DirsOk(Blocks(), Nodes(), 0) && View(Blocks(), Nodes()) == Empty()
  {
    hide RootBlock, Blocks, Content, DirMap;
    RootContent();
    assert DirShape(RootBlock());
  }

  lemma EmptyLawful()
    ensures Lawful(Empty(), NoPending())
  {
    var t := Empty();
    assert Refs(t, 1) == {(1, DOTDOT)} by {
      assert Refers(t, 1, DOTDOT, 1);
    }
    assert Shaped(t, map[]);
  }

  /** A file system mounted from the disk, with the first process at its root. */
  method Mount() returns (fs: Fs, it: RefTable)
    ensures fresh(fs) && fresh(it) && Good(fs, NoPending()) && TreeOf(fs) == Empty()
    ensures fs.sb == SB && fs.blocks == Blocks() && it.refs == multiset{ROOT}
  {
    hide Inv, Blocks, Nodes, Lawful, DiskInode, View, DirsOk, Empty;
    Consistent();
    EmptyIs();
    EmptyLawful();
    AllStored();
    fs := new Fs(SB, Blocks(), Nodes(), map[34 := (1, 0)]);
    it := new RefTable(multiset{ROOT});
  }
}
