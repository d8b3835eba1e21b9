/** What a write does to a file's bytes: the value-level steps behind writei,
    iupdate and itrunc. */
module FileData {
  import opened Bytes
  import opened Layout
  import opened BlockMap

  function Max(a: nat, b: nat): nat {
    if a > b then a else b
  }

  function Min(a: nat, b: nat): nat {
    if a < b then a else b
  }

  /** The byte string c with src laid over it from offset off. */
  function Splice(c: seq<byte>, off: nat, src: seq<byte>): (r: seq<byte>)
    requires off <= |c|
    ensures |r| == Max(|c|, off + |src|)
    ensures forall k | 0 <= k < |r| :: r[k] == if off <= k < off + |src| then src[k - off] else c[k]
  {
    c[..off] + src + if off + |src| < |c| then c[off + |src|..] else []
  }

  /** Replacing the bytes of a data block moves no pointer and touches no other block of any file. */
  lemma WriteData(sb: SuperBlock, d: Disk, nodes: seq<Dinode>, owner: Owner, i: nat, bn: nat, blk: Block)
    requires Inv(sb, d, nodes, owner) && i < |nodes| && bn < MAXFILE && DataBlock(d, nodes[i], bn) != 0
    ensures var a := DataBlock(d, nodes[i], bn);
            && sb.DataStart() <= a < |d|
            && Inv(sb, d[a := blk], nodes, owner)
            && SameInodeBlocks(sb, d, d[a := blk])
            && (forall j: nat, s: nat | j < |nodes| && s < NSLOTS :: Slot(d[a := blk], nodes[j], s) == Slot(d, nodes[j], s))
            && (forall j: nat, x: nat | j < |nodes| && x < MAXFILE && (j != i || x != bn) ::
                  DataBlock(d, nodes[j], x) == 0 || DataBlock(d, nodes[j], x) != a)
  {
    var a := DataBlock(d, nodes[i], bn);
    OwnedRootBelow(sb, d, nodes, owner, i, DataSlot(bn));
    var e := d[a := blk];
    SlotsSame(sb, d, e, nodes, owner, {a});
    forall x: nat | x < sb.size
      ensures Bit(sb, e, x) <==> Bit(sb, d, x)
    {
      assert e[sb.BBlock(x)] == d[sb.BBlock(x)];
    }
    forall j: nat, x: nat | j < |nodes| && x < MAXFILE && (j != i || x != bn) && DataBlock(d, nodes[j], x) != 0
      ensures DataBlock(d, nodes[j], x) != a
    {
      OwnedRootBelow(sb, d, nodes, owner, j, DataSlot(x));
    }
    InvKept(sb, d, e, nodes, owner);
  }

  /** Same slots, same bits: same invariant. */
  lemma InvKept(sb: SuperBlock, d: Disk, e: Disk, nodes: seq<Dinode>, owner: Owner)
    requires Inv(sb, d, nodes, owner) && Formatted(sb, e)
    requires forall j: nat, s: nat | j < |nodes| && s < NSLOTS :: Slot(e, nodes[j], s) == Slot(d, nodes[j], s)
    requires forall x: nat | x < sb.size :: Bit(sb, e, x) <==> Bit(sb, d, x)
    ensures Inv(sb, e, nodes, owner)
  {
    forall j: nat | j < |nodes|
      ensures NodeOk(e, nodes[j])
    {
      assert NodeOk(d, nodes[j]);
      forall bn: nat | bn < MAXFILE && bn * BSIZE < nodes[j].size
        ensures DataBlock(e, nodes[j], bn) != 0
      {
        assert DataBlock(d, nodes[j], bn) != 0;
      }
    }
  }

  /** writei's loop after tot bytes: everything it has changed so far. */
  ghost predicate Wrote(sb: SuperBlock, d: Disk, nodes: seq<Dinode>, e: Disk, nodes': seq<Dinode>, i: nat,
                        off: nat, src: seq<byte>)
  {
    && Formatted(sb, d) && Formatted(sb, e) && SameInodeBlocks(sb, d, e)
    && i < |nodes| == |nodes'| && nodes' == nodes[i := nodes'[i]]
    && nodes'[i] == nodes[i].(addrs := nodes'[i].addrs)
    && (forall j: nat | j < |nodes| && j != i :: KeepsBlocks(d, nodes[j], e, nodes[j]))
    && Overlaid(d, nodes[i], e, nodes'[i], off, src)
  }

  /** File m in image e is file n of image d with src laid over it. */
  ghost predicate Overlaid(d: Disk, n: Dinode, e: Disk, m: Dinode, off: nat, src: seq<byte>) {
    && off <= n.size && NoHoles(e, m, Max(n.size, off + |src|))
    && (forall k: nat | k < Max(n.size, off + |src|) ::
          ByteAt(e, m, k) == if off <= k < off + |src| then src[k - off] else ByteAt(d, n, k))
  }

  lemma WroteNothing(sb: SuperBlock, d: Disk, nodes: seq<Dinode>, owner: Owner, i: nat, off: nat)
    requires Inv(sb, d, nodes, owner) && i < |nodes| && off <= nodes[i].size
    ensures Wrote(sb, d, nodes, d, nodes, i, off, [])
  {
    AllKeepBlocks(sb, d, d, nodes, nodes, owner);
    assert NodeOk(d, nodes[i]);
  }

  /** Growing the file under a write in progress loses nothing. */
  lemma WroteGrew(sb: SuperBlock, d: Disk, nodes: seq<Dinode>, e: Disk, nodes': seq<Dinode>,
                  f: Disk, nodes'': seq<Dinode>, i: nat, off: nat, src: seq<byte>)
    requires Wrote(sb, d, nodes, e, nodes', i, off, src) && Grew(sb, e, nodes', f, nodes'', i)
    ensures Wrote(sb, d, nodes, f, nodes'', i, off, src)
  {
    forall j: nat | j < |nodes| && j != i
      ensures KeepsBlocks(d, nodes[j], f, nodes[j])
    {
      assert KeepsBlocks(e, nodes'[j], f, nodes''[j]);
      KeepsTrans(d, nodes[j], e, nodes[j], f, nodes[j]);
    }
    var sz := Max(nodes[i].size, off + |src|);
    forall bn: nat | bn < MAXFILE && bn * BSIZE < sz
      ensures DataBlock(f, nodes''[i], bn) != 0
    {
      assert DataBlock(e, nodes'[i], bn) != 0;
    }
    forall k: nat | k < sz
      ensures ByteAt(f, nodes''[i], k) == ByteAt(e, nodes'[i], k)
    {
      KeepsBytes(e, nodes'[i], f, nodes''[i], k);
    }
  }

  lemma KeepsTrans(d: Disk, n: Dinode, e: Disk, m: Dinode, f: Disk, l: Dinode)
    requires KeepsBlocks(d, n, e, m) && KeepsBlocks(e, m, f, l)
    ensures KeepsBlocks(d, n, f, l)
  {
    forall bn: nat | bn < MAXFILE && DataBlock(d, n, bn) != 0
      ensures DataBlock(f, l, bn) == DataBlock(d, n, bn) < |d| && f[DataBlock(d, n, bn)] == d[DataBlock(d, n, bn)]
    {
      assert DataBlock(e, m, bn) == DataBlock(d, n, bn);
    }
  }

  /** One chunk copied into the block that holds offset off + |src|. */
  lemma WroteChunk(sb: SuperBlock, d: Disk, nodes: seq<Dinode>, e: Disk, nodes': seq<Dinode>, owner: Owner,
                   i: nat, off: nat, src: seq<byte>, chunk: seq<byte>, blk: Block)
    requires Wrote(sb, d, nodes, e, nodes', i, off, src) && Inv(sb, e, nodes', owner)
    requires off + |src| + |chunk| <= MAXFILE * BSIZE
    requires var at := (off + |src|) % BSIZE; 0 < |chunk| <= BSIZE - at
    requires var a := DataBlock(e, nodes'[i], (off + |src|) / BSIZE);
             var at := (off + |src|) % BSIZE;
             a != 0 && a < |e| && blk == e[a][..at] + chunk + e[a][at + |chunk|..]
    ensures var a := DataBlock(e, nodes'[i], (off + |src|) / BSIZE);
            && Inv(sb, e[a := blk], nodes', owner)
            && Wrote(sb, d, nodes, e[a := blk], nodes', i, off, src + chunk)
  {
    hide Inv, Overlaid;
    var f := e[DataBlock(e, nodes'[i], (off + |src|) / BSIZE) := blk];
    WriteData(sb, e, nodes', owner, i, (off + |src|) / BSIZE, blk);
    InvFormatted(sb, e, nodes', owner);
    forall j: nat | j < |nodes| && j != i
      ensures KeepsBlocks(d, nodes[j], f, nodes[j])
    {
      ChunkElsewhere(sb, e, nodes', owner, i, j, (off + |src|) / BSIZE, blk);
      KeepsTrans(d, nodes[j], e, nodes[j], f, nodes[j]);
    }
    ChunkOverlaid(sb, d, nodes[i], e, nodes', owner, i, off, src, chunk, blk);
  }

  lemma ChunkOverlaid(sb: SuperBlock, d: Disk, n: Dinode, e: Disk, nodes: seq<Dinode>, owner: Owner,
                      i: nat, off: nat, src: seq<byte>, chunk: seq<byte>, blk: Block)
    requires i < |nodes| && Overlaid(d, n, e, nodes[i], off, src) && Inv(sb, e, nodes, owner)
    requires off + |src| + |chunk| <= MAXFILE * BSIZE
    requires var at := (off + |src|) % BSIZE; 0 < |chunk| <= BSIZE - at
    requires var a := DataBlock(e, nodes[i], (off + |src|) / BSIZE);
             var at := (off + |src|) % BSIZE;
             a != 0 && a < |e| && blk == e[a][..at] + chunk + e[a][at + |chunk|..]
    ensures Overlaid(d, n, e[DataBlock(e, nodes[i], (off + |src|) / BSIZE) := blk], nodes[i], off, src + chunk)
  {
    hide Inv;
    var cur := off + |src|;
    var m := nodes[i];
    var f := e[DataBlock(e, m, cur / BSIZE) := blk];
    WriteData(sb, e, nodes, owner, i, cur / BSIZE, blk);
    ChunkNoHoles(e, f, m, Max(n.size, cur), cur, |chunk|);
    forall k: nat | k < Max(n.size, cur + |chunk|)
      ensures ByteAt(f, m, k) == if off <= k < cur + |chunk| then (src + chunk)[k - off] else ByteAt(d, n, k)
    {
      if k / BSIZE != cur / BSIZE {
        assert cur + |chunk| <= (cur / BSIZE + 1) * BSIZE;
        assert k < Max(n.size, cur);
        assert DataBlock(e, m, k / BSIZE) != 0;
      }
      ChunkByte(e, m, cur, chunk, blk, k);
    }
  }

  lemma ChunkElsewhere(sb: SuperBlock, e: Disk, nodes: seq<Dinode>, owner: Owner, i: nat, j: nat, bn: nat, blk: Block)
    requires Inv(sb, e, nodes, owner) && i < |nodes| && j < |nodes| && i != j && bn < MAXFILE
    requires DataBlock(e, nodes[i], bn) != 0 && DataBlock(e, nodes[i], bn) < |e|
    ensures KeepsBlocks(e, nodes[j], e[DataBlock(e, nodes[i], bn) := blk], nodes[j])
  {
    WriteData(sb, e, nodes, owner, i, bn, blk);
    forall x: nat | x < MAXFILE && DataBlock(e, nodes[j], x) != 0
      ensures DataBlock(e, nodes[j], x) < |e|
    {
      OwnedRootBelow(sb, e, nodes, owner, j, DataSlot(x));
    }
  }

  lemma ChunkNoHoles(e: Disk, f: Disk, n: Dinode, sz: nat, cur: nat, m: nat)
    requires NoHoles(e, n, sz) && cur <= sz && cur + m <= MAXFILE * BSIZE && 0 < m <= BSIZE - cur % BSIZE
    requires DataBlock(e, n, cur / BSIZE) != 0
    requires forall s: nat | s < NSLOTS :: Slot(f, n, s) == Slot(e, n, s)
    ensures NoHoles(f, n, Max(sz, cur + m))
  {
    forall bn: nat | bn < MAXFILE && bn * BSIZE < Max(sz, cur + m)
      ensures DataBlock(f, n, bn) != 0
    {
      assert DataBlock(f, n, bn) == DataBlock(e, n, bn);
      if bn * BSIZE >= sz {
        assert cur + m <= (cur / BSIZE + 1) * BSIZE;
        assert bn == cur / BSIZE;
      }
    }
  }

  lemma ChunkByte(e: Disk, n: Dinode, cur: nat, chunk: seq<byte>, blk: Block, k: nat)
    requires cur + |chunk| <= MAXFILE * BSIZE && k < MAXFILE * BSIZE && 0 < |chunk| <= BSIZE - cur % BSIZE
    requires var a := DataBlock(e, n, cur / BSIZE); 
             a < |e| && blk == e[a][..cur % BSIZE] + chunk + e[a][cur % BSIZE + |chunk|..]
    requires forall s: nat | s < NSLOTS :: Slot(e[DataBlock(e, n, cur / BSIZE) := blk], n, s) == Slot(e, n, s)
    requires k / BSIZE != cur / BSIZE ==> DataBlock(e, n, k / BSIZE) != DataBlock(e, n, cur / BSIZE)
    ensures ByteAt(e[DataBlock(e, n, cur / BSIZE) := blk], n, k)
            == if cur <= k < cur + |chunk| then chunk[k - cur] else ByteAt(e, n, k)
  {
    if k / BSIZE == cur / BSIZE {
      assert k - cur == k % BSIZE - cur % BSIZE;
    }
  }

  // --- storing an inode ---------------------------------------------------------

  function Stored(sb: SuperBlock, d: Disk, i: nat, n: Dinode): (e: Disk)
    requires Formatted(sb, d) && i < sb.ninodes
    ensures |e| == |d|
  {
    d[sb.IBlock(i) := PutDinode(d[sb.IBlock(i)], i % IPB, n)]
  }

  lemma StoredReads(sb: SuperBlock, d: Disk, i: nat, n: Dinode)
    requires Formatted(sb, d) && i < sb.ninodes
    ensures DiskInode(sb, Stored(sb, d, i, n), i) == n
    ensures forall j: nat | j < sb.ninodes && j != i :: DiskInode(sb, Stored(sb, d, i, n), j) == DiskInode(sb, d, j)
  {
    DinodeRoundTrip(d[sb.IBlock(i)], i % IPB, n);
    forall j: nat | j < sb.ninodes && j != i
      ensures DiskInode(sb, Stored(sb, d, i, n), j) == DiskInode(sb, d, j)
    {
      if sb.IBlock(j) == sb.IBlock(i) {
        assert j % IPB != i % IPB;
      }
    }
  }

  lemma StoredKeeps(sb: SuperBlock, d: Disk, nodes: seq<Dinode>, owner: Owner, i: nat, n: Dinode)
    requires Inv(sb, d, nodes, owner) && i < |nodes|
    ensures Inv(sb, Stored(sb, d, i, n), nodes, owner)
    ensures forall j: nat | j < |nodes| :: KeepsBlocks(d, nodes[j], Stored(sb, d, i, n), nodes[j])
  {
    InodeBlockKeeps(sb, d, nodes, owner, i, PutDinode(d[sb.IBlock(i)], i % IPB, n));
  }

  // --- truncation -------------------------------------------------------------

  /** The slots itrunc has freed so far: addresses below lo, the first hi indirect entries. */
  predicate Gone(s: nat, lo: nat, hi: nat) {
    s < lo || 13 <= s < 13 + hi
  }

  /** Image e is d with the blocks in the freed slots of inode i given back. */
  ghost predicate Truncating(sb: SuperBlock, d: Disk, owner: Owner, e: Disk, i: nat, lo: nat, hi: nat) {
    && Formatted(sb, d) && Formatted(sb, e) && SameExcept(sb, d, e, {})
    && forall x: nat | x < sb.size :: Bit(sb, e, x) <==>
         x < sb.DataStart() || (x in owner && !(owner[x].0 == i && Gone(owner[x].1, lo, hi)))
  }

  lemma TruncateBegin(sb: SuperBlock, d: Disk, nodes: seq<Dinode>, owner: Owner, i: nat)
    requires Inv(sb, d, nodes, owner)
    ensures Truncating(sb, d, owner, d, i, 0, 0)
  {
  }

  /** A slot still to be freed: its block is marked in use, so bfree cannot panic on it. */
  lemma StillMarked(sb: SuperBlock, d: Disk, nodes: seq<Dinode>, owner: Owner, e: Disk, i: nat, lo: nat, hi: nat, s: nat)
    requires Inv(sb, d, nodes, owner) && Truncating(sb, d, owner, e, i, lo, hi)
    requires i < |nodes| && s < NSLOTS && !Gone(s, lo, hi) && Slot(d, nodes[i], s) != 0
    ensures var b := Slot(d, nodes[i], s); b < sb.size && Bit(sb, e, b) && owner[b] == (i, s)
  {
    OwnedRootBelow(sb, d, nodes, owner, i, s);
  }

  lemma TruncateStep(sb: SuperBlock, d: Disk, nodes: seq<Dinode>, owner: Owner, e: Disk, f: Disk, i: nat,
                     lo: nat, hi: nat, lo': nat, hi': nat, s: nat)
    requires Inv(sb, d, nodes, owner) && Truncating(sb, d, owner, e, i, lo, hi)
    requires i < |nodes| && s < NSLOTS && !Gone(s, lo, hi)
    requires forall t: nat | t < NSLOTS :: Gone(t, lo', hi') <==> t == s || Gone(t, lo, hi)
    requires if Slot(d, nodes[i], s) == 0 then f == e else Freed(sb, e, f, Slot(d, nodes[i], s))
    ensures Truncating(sb, d, owner, f, i, lo', hi')
  {
    if Slot(d, nodes[i], s) != 0 {
      StillMarked(sb, d, nodes, owner, e, i, lo, hi, s);
    }
    forall x: nat | x < sb.size
      ensures Bit(sb, f, x) <==>
        x < sb.DataStart() || (x in owner && !(owner[x].0 == i && Gone(owner[x].1, lo', hi')))
    {
      if x in owner {
        assert Slot(d, nodes[owner[x].0], owner[x].1) == x;
      }
    }
  }

  /** With no indirect root there is nothing left behind it. */
  lemma NoRoot(sb: SuperBlock, d: Disk, nodes: seq<Dinode>, owner: Owner, e: Disk, i: nat)
    requires Inv(sb, d, nodes, owner) && Truncating(sb, d, owner, e, i, 12, 0)
    requires i < |nodes| && nodes[i].addrs[NDIRECT] == 0
    ensures Truncating(sb, d, owner, e, i, 13, 256)
  {
    forall x: nat | x in owner && owner[x].0 == i
      ensures owner[x].1 < NDIRECT
    {
      assert Slot(d, nodes[i], owner[x].1) == x;
    }
  }

  function Emptied(n: Dinode): Dinode {
    n.(addrs := NoAddrs(), size := 0)
  }

  function Disown(owner: Owner, i: nat): Owner {
    map x | x in owner && owner[x].0 != i :: owner[x]
  }

  lemma TruncateDone(sb: SuperBlock, d: Disk, nodes: seq<Dinode>, owner: Owner, e: Disk, i: nat)
    requires Inv(sb, d, nodes, owner) && Truncating(sb, d, owner, e, i, 13, 256) && i < |nodes|
    ensures var nodes' := nodes[i := Emptied(nodes[i])];
            && Inv(sb, e, nodes', Disown(owner, i))
            && forall j: nat | j < |nodes| && j != i :: KeepsBlocks(d, nodes[j], e, nodes'[j])
  {
    var nodes' := nodes[i := Emptied(nodes[i])];
    SlotsSame(sb, d, e, nodes, owner, {});
    forall j: nat | j < |nodes|
      ensures NodeOk(e, nodes'[j])
      ensures j != i ==> KeepsBlocks(d, nodes[j], e, nodes'[j])
    {
      assert NodeOk(d, nodes[j]);
      forall bn: nat | bn < MAXFILE
        ensures DataBlock(e, nodes[j], bn) == DataBlock(d, nodes[j], bn)
        ensures DataBlock(d, nodes[j], bn) < |d| && e[DataBlock(d, nodes[j], bn)] == d[DataBlock(d, nodes[j], bn)]
      {
        if DataBlock(d, nodes[j], bn) != 0 {
          OwnedRootBelow(sb, d, nodes, owner, j, DataSlot(bn));
        }
      }
    }
  }

  /** The blocks inode n points at. */
  function BlocksOf(d: Disk, n: Dinode): set<nat> {
    set s: nat | s < NSLOTS && Slot(d, n, s) != 0 :: Slot(d, n, s)
  }

  /** itrunc gives back exactly the inode's own blocks. */
  lemma TruncateExact(sb: SuperBlock, d: Disk, nodes: seq<Dinode>, owner: Owner, e: Disk, i: nat, x: nat)
    requires Inv(sb, d, nodes, owner) && Truncating(sb, d, owner, e, i, 13, 256) && i < |nodes| && x < sb.size
    ensures Bit(sb, e, x) <==> Bit(sb, d, x) && x !in BlocksOf(d, nodes[i])
  {
    if x in owner {
      assert Slot(d, nodes[owner[x].0], owner[x].1) == x;
    }
  }

  // --- a new inode ---------------------------------------------------------------

  const DEFAULT_PERMISSIONS: short := 0x1C0 // 0700

  function FreshInode(typ: short): Dinode {
    Dinode(typ, 0, 0, 0, 0, NoAddrs(), DEFAULT_PERMISSIONS)
  }

  /** ialloc's record: all 128 bytes cleared, then the type and the permissions. */
  function InitRecord(b: Block, k: nat, typ: short): Block
    requires k < IPB
  {
    var at := DINODE_SIZE * k;
    PutShort(PutShort(b[..at] + seq(DINODE_SIZE, _ => 0) + b[at + DINODE_SIZE..], at, typ), at + 64, DEFAULT_PERMISSIONS)
  }

  lemma InitRecordReads(b: Block, k: nat, typ: short)
    requires k < IPB
    ensures GetDinode(InitRecord(b, k, typ), k) == FreshInode(typ)
    ensures forall j: nat | j < IPB && j != k :: GetDinode(InitRecord(b, k, typ), j) == GetDinode(b, j)
  {
    var at := DINODE_SIZE * k;
    var r := InitRecord(b, k, typ);
    assert forall x | at + 2 <= x < at + 64 :: r[x] == 0;
    assert GetWords(r, at + 12, NDIRECT + 1) == NoAddrs() by {
      forall j | 0 <= j < NDIRECT + 1
        ensures GetWord(r, at + 12 + 4 * j) == 0
      {
      }
    }
    forall j: nat | j < IPB && j != k
      ensures GetDinode(r, j) == GetDinode(b, j)
    {
      DecodeBytes(r, b, DINODE_SIZE * j);
    }
  }

  function Initialised(sb: SuperBlock, d: Disk, i: nat, typ: short): (e: Disk)
    requires Formatted(sb, d) && i < sb.ninodes
    ensures |e| == |d|
  {
    d[sb.IBlock(i) := InitRecord(d[sb.IBlock(i)], i % IPB, typ)]
  }

  lemma InitialisedReads(sb: SuperBlock, d: Disk, i: nat, typ: short)
    requires Formatted(sb, d) && i < sb.ninodes
    ensures DiskInode(sb, Initialised(sb, d, i, typ), i) == FreshInode(typ)
    ensures forall j: nat | j < sb.ninodes && j != i :: DiskInode(sb, Initialised(sb, d, i, typ), j) == DiskInode(sb, d, j)
  {
    InitRecordReads(d[sb.IBlock(i)], i % IPB, typ);
    forall j: nat | j < sb.ninodes && j != i
      ensures DiskInode(sb, Initialised(sb, d, i, typ), j) == DiskInode(sb, d, j)
    {
      if sb.IBlock(j) == sb.IBlock(i) {
        assert j % IPB != i % IPB;
      }
    }
  }

  /** Any rewrite of one inode block leaves ownership and every file alone. */
  lemma InodeBlockKeeps(sb: SuperBlock, d: Disk, nodes: seq<Dinode>, owner: Owner, i: nat, blk: Block)
    requires Inv(sb, d, nodes, owner) && i < |nodes|
    ensures Inv(sb, d[sb.IBlock(i) := blk], nodes, owner)
    ensures forall j: nat | j < |nodes| :: KeepsBlocks(d, nodes[j], d[sb.IBlock(i) := blk], nodes[j])
  {
    hide Inv, Bit, KeepsBlocks, Slot;
    OwnersAbove(sb, d, nodes, owner);
    var e := d[sb.IBlock(i) := blk];
    assert OwnedSame(d, e, owner, {});
    SlotsSame(sb, d, e, nodes, owner, {});
    forall x: nat | x < sb.size
      ensures Bit(sb, e, x) <==> Bit(sb, d, x)
    {
      BitElsewhere(sb, d, sb.IBlock(i), blk, x);
    }
    InvKept(sb, d, e, nodes, owner);
    AllKeepBlocks(sb, d, e, nodes, nodes, owner);
  }

  lemma BitElsewhere(sb: SuperBlock, d: Disk, at: nat, blk: Block, x: nat)
    requires Formatted(sb, d) && at < sb.bmapstart && x < sb.size
    ensures Bit(sb, d[at := blk], x) <==> Bit(sb, d, x)
  {
  }

  /** A free inode owns nothing, so it may be reborn with a new type and no blocks. */
  lemma ReplaceEmpty(sb: SuperBlock, d: Disk, nodes: seq<Dinode>, owner: Owner, i: nat, n: Dinode)
    requires Inv(sb, d, nodes, owner) && i < |nodes|
    requires nodes[i].addrs == NoAddrs() && n.addrs == NoAddrs() && nodes[i].size == 0 && n.size == 0
    ensures Inv(sb, d, nodes[i := n], owner)
  {
    var nodes' := nodes[i := n];
    forall b | b in owner
      ensures Slot(d, nodes'[owner[b].0], owner[b].1) == b
    {
      assert Slot(d, nodes[owner[b].0], owner[b].1) == b;
    }
    forall j: nat | j < |nodes'|
      ensures NodeOk(d, nodes'[j])
    {
      assert NodeOk(d, nodes[j]);
    }
  }

  /** Changing only the recorded attributes of an inode keeps everything it owns. */
  lemma Retag(sb: SuperBlock, d: Disk, nodes: seq<Dinode>, owner: Owner, i: nat, n: Dinode)
    requires Inv(sb, d, nodes, owner) && i < |nodes|
    requires n.addrs == nodes[i].addrs && n.size == nodes[i].size && n.typ == nodes[i].typ
    ensures Inv(sb, d, nodes[i := n], owner)
  {
    var nodes' := nodes[i := n];
    forall j: nat, s: nat | j < |nodes| && s < NSLOTS
      ensures Slot(d, nodes'[j], s) == Slot(d, nodes[j], s)
    {
    }
    forall j: nat | j < |nodes'|
      ensures NodeOk(d, nodes'[j])
    {
      RetagNode(d, nodes[j], nodes'[j]);
    }
  }

  lemma RetagNode(d: Disk, n: Dinode, m: Dinode)
    requires NodeOk(d, n) && m.addrs == n.addrs && m.size == n.size && m.typ == n.typ
    ensures NodeOk(d, m)
  {
    forall bn: nat | bn < MAXFILE && bn * BSIZE < m.size
      ensures DataBlock(d, m, bn) != 0
    {
      assert DataBlock(d, n, bn) != 0;
    }
  }

  /** Raising the size over bytes that are present: writei's last step before iupdate. */
  lemma Resize(sb: SuperBlock, d: Disk, nodes: seq<Dinode>, owner: Owner, i: nat, sz: uint32)
    requires Inv(sb, d, nodes, owner) && i < |nodes| && nodes[i].typ != 0 && NoHoles(d, nodes[i], sz)
    ensures Inv(sb, d, nodes[i := nodes[i].(size := sz)], owner)
  {
    var m := nodes[i].(size := sz);
    var nodes' := nodes[i := m];
    forall j: nat, s: nat | j < |nodes| && s < NSLOTS
      ensures Slot(d, nodes'[j], s) == Slot(d, nodes[j], s)
    {
    }
    forall bn: nat | bn < MAXFILE && bn * BSIZE < m.size
      ensures DataBlock(d, m, bn) != 0
    {
      assert DataBlock(d, nodes[i], bn) != 0;
    }
    forall j: nat | j < |nodes'|
      ensures NodeOk(d, nodes'[j])
    {
      assert NodeOk(d, nodes[j]);
    }
  }

  /** A finished overlay is a splice of the old content. */
  lemma OverlaidContent(d: Disk, n: Dinode, e: Disk, m: Dinode, off: nat, src: seq<byte>)
    requires n.size <= MAXFILE * BSIZE && Overlaid(d, n, e, m, off, src) && m.size == Max(n.size, off + |src|)
    ensures Content(e, m) == Splice(Content(d, n), off, src)
  {
  }
}
