/** A disk with room for all that its inodes can hold is never full, and a directory below its last record
    never refuses a name on it. */
module Capacity {
  import opened Layout
  import opened BlockMap
  import opened DirFormat
  import opened FileSystem
  import opened Space
  import opened LinkLaw
  import opened SysFile

  const MAXNAMES := MAXFILE * BSIZE / DIRENT

  /** Blocks that are data whatever the inodes hold. */
  function Spare(sb: SuperBlock): int {
    sb.size - sb.DataStart() - NSLOTS * sb.ninodes
  }

  function Range(lo: nat, hi: nat): (r: set<nat>)
    requires lo <= hi
    ensures forall b: nat :: b in r <==> lo <= b < hi
    ensures |r| == hi - lo
    decreases hi - lo
  {
    if lo == hi then {} else Range(lo, hi - 1) + {hi - 1}
  }

  function OwnedBy(owner: Owner, i: nat): set<nat> {
    set b | b in owner && owner[b].0 == i
  }

  function OwnedBelow(owner: Owner, n: nat): set<nat> {
    set b | b in owner && owner[b].0 < n
  }

  /** An inode owns at most one block for each of its slots. */
  lemma SlotsBound(sb: SuperBlock, d: Disk, nodes: seq<Dinode>, owner: Owner, i: nat)
    requires Inv(sb, d, nodes, owner)
    ensures |OwnedBy(owner, i)| <= NSLOTS
  {
    InjectionSize(OwnedBy(owner, i), Range(0, NSLOTS), b => if b in owner then owner[b].1 else 0);
  }

  lemma {:induction false} OwnedBound(sb: SuperBlock, d: Disk, nodes: seq<Dinode>, owner: Owner, n: nat)
    requires Inv(sb, d, nodes, owner)
    ensures |OwnedBelow(owner, n)| <= NSLOTS * n
    decreases n
  {
    hide Inv;
    if n > 0 {
      OwnedBound(sb, d, nodes, owner, n - 1);
      SlotsBound(sb, d, nodes, owner, n - 1);
      assert OwnedBelow(owner, n) == OwnedBelow(owner, n - 1) + OwnedBy(owner, n - 1);
    } else {
      assert OwnedBelow(owner, n) == {};
    }
  }

  lemma FreeAtLeast(sb: SuperBlock, d: Disk, nodes: seq<Dinode>, owner: Owner)
    requires Inv(sb, d, nodes, owner)
    ensures FreeCount(sb, d) >= Spare(sb)
  {
    hide Inv, Bit;
    OwnersMarked(sb, d, nodes, owner);
    OwnedBound(sb, d, nodes, owner, |nodes|);
    assert Range(sb.DataStart(), sb.size) == FreeBlocks(sb, d) + OwnedBelow(owner, |nodes|);
  }

  lemma SmallFits(d: Disk, n: Dinode, free: int)
    requires n.size <= MAXFILE * BSIZE && DirOk(Content(d, n)) && |DirMap(Content(d, n))| < MAXNAMES && 2 <= free
    ensures EntryFits(d, n, free)
  {
    hide Content, DirMap, Lacking;
    var c := Content(d, n);
    FreeWithin(c, FreeFrom(c, 0));
    SubsetSize(KeysUpTo(c, FreeFrom(c, 0)), DirMap(c).Keys);
    assert |DirMap(c).Keys| == |DirMap(c)|;
    LackingTwo(d, n);
  }

  lemma LackingTwo(d: Disk, n: Dinode)
    requires n.size <= MAXFILE * BSIZE
    ensures EntryCost(d, n) <= 2
  {
    hide Content;
  }

  /** On such a disk a directory takes names up to 17152 of them, whatever has happened before. */
  lemma AlwaysFits(fs: Fs, d: nat, kept: nat)
    requires Steady(fs, 0) && 0 < d < |fs.nodes| && fs.nodes[d].typ == T_DIR
    requires |TreeOf(fs)[d].dir| < MAXNAMES && kept + 2 <= Spare(fs.sb)
    ensures Fits(fs, d, kept)
  {
    hide Inv, Content, DirMap, EntryFits, FreeCount, DirOk, DirsOk, View, DirShape, NodeView;
    FreeAtLeast(fs.sb, fs.blocks, fs.nodes, fs.owner);
    DirView(fs.blocks, fs.nodes, d);
    ShapeOk(Content(fs.blocks, fs.nodes[d]));
    SmallFits(fs.blocks, fs.nodes[d], FreeCount(fs.sb, fs.blocks) - kept);
  }
}
