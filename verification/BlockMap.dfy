/** Which blocks an inode owns, what bytes its file holds, and the ownership
    invariant that ties both to the free bitmap. */
module BlockMap {
  import opened Bytes
  import opened Layout

  /** Block number in pointer slot s of inode n: direct, indirect root, indirect entry. */
  function Slot(d: Disk, n: Dinode, s: nat): nat
    requires s < NSLOTS
  {
    if s <= NDIRECT then n.addrs[s]
    else if n.addrs[NDIRECT] == 0 || n.addrs[NDIRECT] >= |d| then 0
    else GetWord(d[n.addrs[NDIRECT]], 4 * (s - 13))
  }

  /** The slot that holds data block bn of a file. */
  function DataSlot(bn: nat): (s: nat)
    requires bn < MAXFILE
    ensures s < NSLOTS && s != NDIRECT
  {
    if bn < NDIRECT then bn else bn + 1
  }

  function DataBlock(d: Disk, n: Dinode, bn: nat): nat
    requires bn < MAXFILE
  {
    Slot(d, n, DataSlot(bn))
  }

  function ByteAt(d: Disk, n: Dinode, k: nat): byte
    requires k < MAXFILE * BSIZE
  {
    var a := DataBlock(d, n, k / BSIZE);
    if a < |d| then d[a][k % BSIZE] else 0
  }

  /** The file of inode n as the byte string it stands for. */
  function Content(d: Disk, n: Dinode): (c: seq<byte>)
    requires n.size <= MAXFILE * BSIZE
    ensures |c| == n.size
  {
    seq(n.size, k requires 0 <= k < n.size => ByteAt(d, n, k))
  }

  /** Byte k of a file: in the block that the inode names for its first 12 blocks, and the indirect block, four
      bytes a number and low byte first, for the rest. */
  lemma ContentByte(d: Disk, n: Dinode, k: nat)
    requires k < n.size <= MAXFILE * BSIZE
    requires k / 1024 >= 12 ==> 0 < n.addrs[12] < |d|
    ensures var bn := k / 1024;
            var a := if bn < 12 then n.addrs[bn] else
                       (var b, at := d[n.addrs[12]], 4 * (bn - 12);
                        b[at] as int + 0x100 * b[at + 1] as int + 0x1_0000 * b[at + 2] as int + 0x100_0000 * b[at + 3] as int);
            a < |d| ==> Content(d, n)[k] == d[a][k % 1024]
  {
  }

  /** Every data block below size sz is present. */
  ghost predicate NoHoles(d: Disk, n: Dinode, sz: nat) {
    && sz <= MAXFILE * BSIZE
    && forall bn: nat | bn < MAXFILE && bn * BSIZE < sz :: DataBlock(d, n, bn) != 0
  }

  ghost predicate NodeOk(d: Disk, n: Dinode) {
    && NoHoles(d, n, n.size)
    && (n.typ == 0 ==> n.addrs == NoAddrs() && n.size == 0)
  }

  type Owner = map<nat, (nat, nat)>

  /** owner maps each block in use by a file to the one (inode, slot) that points at it. */
  ghost predicate Owned(sb: SuperBlock, d: Disk, nodes: seq<Dinode>, owner: Owner) {
    && (forall i: nat, s: nat | i < |nodes| && s < NSLOTS && Slot(d, nodes[i], s) != 0 ::
          Slot(d, nodes[i], s) in owner && owner[Slot(d, nodes[i], s)] == (i, s))
    && (forall b | b in owner ::
          && sb.DataStart() <= b < sb.size
          && owner[b].0 < |nodes| && owner[b].1 < NSLOTS
          && Slot(d, nodes[owner[b].0], owner[b].1) == b)
  }

  /** The set bits are exactly the metadata blocks and the owned blocks. */
  ghost predicate BitsMatch(sb: SuperBlock, d: Disk, owner: Owner)
    requires Formatted(sb, d)
  {
    forall b: nat | b < sb.size :: Bit(sb, d, b) <==> b < sb.DataStart() || b in owner
  }

  ghost predicate Inv(sb: SuperBlock, d: Disk, nodes: seq<Dinode>, owner: Owner) {
    && Formatted(sb, d) && |nodes| == sb.ninodes
    && Owned(sb, d, nodes, owner)
    && BitsMatch(sb, d, owner)
    && forall i: nat | i < |nodes| :: NodeOk(d, nodes[i])
  }

  lemma InvFormatted(sb: SuperBlock, d: Disk, nodes: seq<Dinode>, owner: Owner)
    requires Inv(sb, d, nodes, owner)
    ensures Formatted(sb, d) && |nodes| == sb.ninodes
    ensures forall b: nat | b < sb.DataStart() :: Bit(sb, d, b)
  {
  }

  lemma OwnersAbove(sb: SuperBlock, d: Disk, nodes: seq<Dinode>, owner: Owner)
    requires Inv(sb, d, nodes, owner)
    ensures Formatted(sb, d) && |nodes| == sb.ninodes && forall b | b in owner :: sb.DataStart() <= b < sb.size
  {
  }

  // --- framing -------------------------------------------------------------

  lemma SlotFrame(d: Disk, e: Disk, n: Dinode)
    requires |d| == |e|
    requires n.addrs[NDIRECT] == 0 || n.addrs[NDIRECT] >= |d| || d[n.addrs[NDIRECT]] == e[n.addrs[NDIRECT]]
    ensures forall s: nat | s < NSLOTS :: Slot(d, n, s) == Slot(e, n, s)
  {
  }

  /** Owned blocks other than those in S are untouched. */
  ghost predicate OwnedSame(d: Disk, e: Disk, owner: Owner, S: set<nat>) {
    |d| == |e| && forall b | b in owner && b < |d| && b !in S :: d[b] == e[b]
  }

  lemma OwnedRootBelow(sb: SuperBlock, d: Disk, nodes: seq<Dinode>, owner: Owner, i: nat, s: nat)
    requires Inv(sb, d, nodes, owner) && i < |nodes| && s < NSLOTS && Slot(d, nodes[i], s) != 0
    ensures sb.DataStart() <= Slot(d, nodes[i], s) < |d| && Slot(d, nodes[i], s) in owner
    ensures owner[Slot(d, nodes[i], s)] == (i, s)
    ensures s > NDIRECT ==> nodes[i].addrs[NDIRECT] != 0
  {
  }

  /** If no owned block changes, every pointer slot of every inode stays what it was. */
  lemma SlotsSame(sb: SuperBlock, d: Disk, e: Disk, nodes: seq<Dinode>, owner: Owner, S: set<nat>)
    requires Inv(sb, d, nodes, owner) && OwnedSame(d, e, owner, S)
    requires forall b | b in S && b in owner :: owner[b].1 != NDIRECT
    ensures forall i: nat, s: nat | i < |nodes| && s < NSLOTS :: Slot(d, nodes[i], s) == Slot(e, nodes[i], s)
  {
    forall i: nat, s: nat | i < |nodes| && s < NSLOTS
      ensures Slot(d, nodes[i], s) == Slot(e, nodes[i], s)
    {
      if nodes[i].addrs[NDIRECT] != 0 {
        OwnedRootBelow(sb, d, nodes, owner, i, NDIRECT);
      }
      SlotFrame(d, e, nodes[i]);
    }
  }

  // --- one new block ----------------------------------------------------------

  /** A fresh block attached to an empty slot keeps the ownership invariant. */
  lemma AddSlot(sb: SuperBlock, d: Disk, f: Disk, nodes: seq<Dinode>, nodes': seq<Dinode>, owner: Owner,
                i: nat, s: nat, b: nat)
    requires Inv(sb, d, nodes, owner) && Formatted(sb, f)
    requires i < |nodes| && s < NSLOTS && Slot(d, nodes[i], s) == 0 && nodes[i].typ != 0
    requires sb.DataStart() <= b < sb.size && b !in owner
    requires |nodes'| == |nodes| && nodes' == nodes[i := nodes'[i]]
    requires nodes'[i].typ == nodes[i].typ && nodes'[i].size == nodes[i].size
    requires forall j: nat, t: nat | j < |nodes| && t < NSLOTS ::
               Slot(f, nodes'[j], t) == if j == i && t == s then b else Slot(d, nodes[j], t)
    requires forall x: nat | x < sb.size :: Bit(sb, f, x) <==> x == b || Bit(sb, d, x)
    ensures Inv(sb, f, nodes', owner[b := (i, s)])
  {
    forall j: nat | j < |nodes|
      ensures NodeOk(f, nodes'[j])
    {
      assert NodeOk(d, nodes[j]);
      forall bn: nat | bn < MAXFILE && bn * BSIZE < nodes'[j].size
        ensures DataBlock(f, nodes'[j], bn) != 0
      {
        assert DataBlock(d, nodes[j], bn) != 0;
      }
    }
  }

  /** Data blocks of inode n in image d are in the same place, with the same bytes,
      for inode m in image f. */
  ghost predicate KeepsBlocks(d: Disk, n: Dinode, f: Disk, m: Dinode) {
    && |d| == |f|
    && forall bn: nat | bn < MAXFILE && DataBlock(d, n, bn) != 0 ::
         && DataBlock(f, m, bn) == DataBlock(d, n, bn) < |d|
         && f[DataBlock(d, n, bn)] == d[DataBlock(d, n, bn)]
  }

  lemma KeepsBytes(d: Disk, n: Dinode, f: Disk, m: Dinode, k: nat)
    requires KeepsBlocks(d, n, f, m) && k < MAXFILE * BSIZE && DataBlock(d, n, k / BSIZE) != 0
    ensures ByteAt(f, m, k) == ByteAt(d, n, k) && DataBlock(f, m, k / BSIZE) == DataBlock(d, n, k / BSIZE)
  {
  }

  lemma KeepsContent(d: Disk, n: Dinode, f: Disk, m: Dinode)
    requires KeepsBlocks(d, n, f, m) && NoHoles(d, n, n.size) && m.size == n.size
    ensures Content(f, m) == Content(d, n)
  {
    forall k: nat | k < n.size
      ensures ByteAt(f, m, k) == ByteAt(d, n, k)
    {
      KeepsBytes(d, n, f, m, k);
    }
  }

  /** If slots survive and no data block of any file changes, every file keeps its blocks. */
  lemma AllKeepBlocks(sb: SuperBlock, d: Disk, f: Disk, nodes: seq<Dinode>, nodes': seq<Dinode>, owner: Owner)
    requires Inv(sb, d, nodes, owner) && |f| == |d| && |nodes'| == |nodes|
    requires forall j: nat, t: nat | j < |nodes| && t < NSLOTS && Slot(d, nodes[j], t) != 0 ::
               Slot(f, nodes'[j], t) == Slot(d, nodes[j], t)
    requires forall b | b in owner && owner[b].1 != NDIRECT :: d[b] == f[b]
    ensures forall j: nat | j < |nodes| :: KeepsBlocks(d, nodes[j], f, nodes'[j])
  {
    forall j: nat, bn: nat | j < |nodes| && bn < MAXFILE && DataBlock(d, nodes[j], bn) != 0
      ensures DataBlock(f, nodes'[j], bn) == DataBlock(d, nodes[j], bn) < |d|
      ensures f[DataBlock(d, nodes[j], bn)] == d[DataBlock(d, nodes[j], bn)]
    {
      OwnedRootBelow(sb, d, nodes, owner, j, DataSlot(bn));
    }
  }

  function WithAddr(n: Dinode, s: nat, b: uint32): Dinode
    requires s <= NDIRECT
  {
    n.(addrs := n.addrs[s := b])
  }

  lemma FreshBlock(sb: SuperBlock, d: Disk, e: Disk, nodes: seq<Dinode>, owner: Owner, b: nat)
    requires Inv(sb, d, nodes, owner) && Allocated(sb, d, e, b)
    ensures |nodes| == sb.ninodes && b !in owner && OwnedSame(d, e, owner, {})
    ensures forall x | x in owner :: x < |d|
    ensures forall i: nat, s: nat | i < |nodes| && s < NSLOTS :: Slot(d, nodes[i], s) == Slot(e, nodes[i], s)
  {
    assert OwnedSame(d, e, owner, {});
    SlotsSame(sb, d, e, nodes, owner, {});
  }

  /** bmap's first two allocations: a direct block, or the (zeroed) indirect root. */
  lemma AttachAddr(sb: SuperBlock, d: Disk, e: Disk, nodes: seq<Dinode>, owner: Owner, i: nat, s: nat, b: uint32)
    requires Inv(sb, d, nodes, owner) && Allocated(sb, d, e, b)
    requires i < |nodes| && s <= NDIRECT && nodes[i].addrs[s] == 0 && nodes[i].typ != 0
    ensures var nodes' := nodes[i := WithAddr(nodes[i], s, b)];
            && Inv(sb, e, nodes', owner[b := (i, s)])
            && forall j: nat | j < |nodes| :: KeepsBlocks(d, nodes[j], e, nodes'[j])
  {
    hide Inv;
    var nodes' := nodes[i := WithAddr(nodes[i], s, b)];
    FreshBlock(sb, d, e, nodes, owner, b);
    forall t: nat | t < NSLOTS
      ensures Slot(e, nodes'[i], t) == if t == s then b else Slot(d, nodes[i], t)
    {
      if s == NDIRECT && t > NDIRECT {
        assert GetWord(ZeroBlock(), 4 * (t - 13)) == 0;
      }
    }
    AddSlot(sb, d, e, nodes, nodes', owner, i, s, b);
    AllKeepBlocks(sb, d, e, nodes, nodes', owner);
  }

  /** bmap's third allocation: an entry written into the indirect root. */
  lemma AttachEntry(sb: SuperBlock, d: Disk, e: Disk, nodes: seq<Dinode>, owner: Owner, i: nat, s: nat, b: uint32)
    requires Inv(sb, d, nodes, owner) && Allocated(sb, d, e, b)
    requires i < |nodes| && NDIRECT < s < NSLOTS && nodes[i].typ != 0
    requires nodes[i].addrs[NDIRECT] != 0 && Slot(d, nodes[i], s) == 0
    ensures var root := nodes[i].addrs[NDIRECT];
            && sb.DataStart() <= root < |e| && root != b
            && var f := e[root := PutWord(e[root], 4 * (s - 13), b)];
            && Inv(sb, f, nodes, owner[b := (i, s)])
            && Slot(f, nodes[i], s) == b
            && forall j: nat | j < |nodes| :: KeepsBlocks(d, nodes[j], f, nodes[j])
  {
    hide Inv;
    var root := nodes[i].addrs[NDIRECT];
    FreshBlock(sb, d, e, nodes, owner, b);
    OwnedRootBelow(sb, d, nodes, owner, i, NDIRECT);
    var f := e[root := PutWord(e[root], 4 * (s - 13), b)];
    forall j: nat, t: nat | j < |nodes| && t < NSLOTS
      ensures Slot(f, nodes[j], t) == if j == i && t == s then b else Slot(d, nodes[j], t)
    {
      EntrySlot(sb, d, e, nodes, owner, i, s, b, j, t);
    }
    AddSlot(sb, d, f, nodes, nodes, owner, i, s, b) by {
      assert nodes == nodes[i := nodes[i]];
      forall x: nat | x < sb.size
        ensures Bit(sb, f, x) <==> x == b || Bit(sb, d, x)
      {
        assert f[sb.BBlock(x)] == e[sb.BBlock(x)];
        assert Bit(sb, e, x) <==> x == b || Bit(sb, d, x);
      }
    }
    AllKeepBlocks(sb, d, f, nodes, nodes, owner);
  }

  lemma EntrySlot(sb: SuperBlock, d: Disk, e: Disk, nodes: seq<Dinode>, owner: Owner, i: nat, s: nat, b: uint32,
                  j: nat, t: nat)
    requires Inv(sb, d, nodes, owner) && |e| == |d| && j < |nodes| && t < NSLOTS
    requires i < |nodes| && NDIRECT < s < NSLOTS && 0 < nodes[i].addrs[NDIRECT] < |d|
    requires forall i: nat, s: nat | i < |nodes| && s < NSLOTS :: Slot(d, nodes[i], s) == Slot(e, nodes[i], s)
    ensures var root := nodes[i].addrs[NDIRECT];
            Slot(e[root := PutWord(e[root], 4 * (s - 13), b)], nodes[j], t)
            == if j == i && t == s then b else Slot(d, nodes[j], t)
  {
    hide Inv;
    var root := nodes[i].addrs[NDIRECT];
    var f := e[root := PutWord(e[root], 4 * (s - 13), b)];
    assert Slot(d, nodes[j], t) == Slot(e, nodes[j], t);
    if j == i {
      if t > NDIRECT && t != s {
        assert GetWord(f[root], 4 * (t - 13)) == GetWord(e[root], 4 * (t - 13));
      }
    } else if nodes[j].addrs[NDIRECT] != 0 {
      OwnedRootBelow(sb, d, nodes, owner, i, NDIRECT);
      OwnedRootBelow(sb, d, nodes, owner, j, NDIRECT);
      assert nodes[j].addrs[NDIRECT] != root;
    }
  }

  /** From (d, nodes) to (e, nodes'): inode i may have gained blocks, and that is all
      any file or the stored inode table can tell. */
  ghost predicate Grew(sb: SuperBlock, d: Disk, nodes: seq<Dinode>, e: Disk, nodes': seq<Dinode>, i: nat) {
    && Formatted(sb, d) && Formatted(sb, e) && SameInodeBlocks(sb, d, e)
    && i < |nodes| == |nodes'| && nodes' == nodes[i := nodes'[i]]
    && nodes'[i] == nodes[i].(addrs := nodes'[i].addrs)
    && forall j: nat | j < |nodes| :: KeepsBlocks(d, nodes[j], e, nodes'[j])
  }

  lemma GrewTrans(sb: SuperBlock, d: Disk, nodes: seq<Dinode>, e: Disk, nodes': seq<Dinode>,
                  f: Disk, nodes'': seq<Dinode>, i: nat)
    requires Grew(sb, d, nodes, e, nodes', i) && Grew(sb, e, nodes', f, nodes'', i)
    ensures Grew(sb, d, nodes, f, nodes'', i)
  {
    forall j: nat, bn: nat | j < |nodes| && bn < MAXFILE && DataBlock(d, nodes[j], bn) != 0
      ensures DataBlock(f, nodes''[j], bn) == DataBlock(d, nodes[j], bn) < |d|
      ensures f[DataBlock(d, nodes[j], bn)] == d[DataBlock(d, nodes[j], bn)]
    {
      assert DataBlock(e, nodes'[j], bn) == DataBlock(d, nodes[j], bn);
    }
  }

  lemma GrewRefl(sb: SuperBlock, d: Disk, nodes: seq<Dinode>, owner: Owner, i: nat)
    requires Inv(sb, d, nodes, owner) && i < |nodes|
    ensures Grew(sb, d, nodes, d, nodes, i)
  {
    AllKeepBlocks(sb, d, d, nodes, nodes, owner);
  }
}
