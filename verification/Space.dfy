/** How many blocks are free, and how many a file needs before a byte of it can be written. */
module Space {
  import opened Layout
  import opened BlockMap
  import opened FileData
  import opened DirFormat

  ghost function FreeBlocks(sb: SuperBlock, d: Disk): set<nat>
    requires Formatted(sb, d)
  {
    set b: nat | b < sb.size && !Bit(sb, d, b)
  }

  ghost function FreeCount(sb: SuperBlock, d: Disk): nat {
    if Formatted(sb, d) then |FreeBlocks(sb, d)| else 0
  }

  /** The blocks bmap has to take for data block bn: itself, and the indirect root before it. */
  function Lacking(d: Disk, n: Dinode, bn: nat): nat
    requires bn < MAXFILE
  {
    if DataBlock(d, n, bn) != 0 then 0 else if bn < NDIRECT || n.addrs[NDIRECT] != 0 then 1 else 2
  }

  lemma NoneFree(sb: SuperBlock, d: Disk)
    requires Formatted(sb, d)
    ensures FreeCount(sb, d) == 0 <==> forall b: nat | b < sb.size :: Bit(sb, d, b)
  {
    if b: nat :| b < sb.size && !Bit(sb, d, b) {
      assert b in FreeBlocks(sb, d);
    } else {
      assert FreeBlocks(sb, d) == {};
    }
  }

  lemma OwnersMarked(sb: SuperBlock, d: Disk, nodes: seq<Dinode>, owner: Owner)
    requires Inv(sb, d, nodes, owner)
    ensures Formatted(sb, d) && |nodes| == sb.ninodes
    ensures forall b | b in owner :: sb.DataStart() <= b < sb.size && owner[b].0 < |nodes|
    ensures forall b: nat | b < sb.size :: Bit(sb, d, b) <==> b < sb.DataStart() || b in owner
  {
  }

  /** Ownership settles which blocks are free. */
  lemma FreeByOwner(sb: SuperBlock, d: Disk, nodes: seq<Dinode>, e: Disk, nodes': seq<Dinode>, owner: Owner)
    requires Inv(sb, d, nodes, owner) && Inv(sb, e, nodes', owner)
    ensures FreeCount(sb, e) == FreeCount(sb, d)
  {
    hide Inv, Bit;
    OwnersMarked(sb, d, nodes, owner);
    OwnersMarked(sb, e, nodes', owner);
    assert FreeBlocks(sb, e) == FreeBlocks(sb, d);
  }

  /** One block more with an owner is one block less that is free. */
  lemma OneTaken(sb: SuperBlock, d: Disk, nodes: seq<Dinode>, owner: Owner, e: Disk, nodes': seq<Dinode>, b: nat, i: nat, s: nat)
    requires Inv(sb, d, nodes, owner) && sb.DataStart() <= b < sb.size && !Bit(sb, d, b)
    requires Inv(sb, e, nodes', owner[b := (i, s)])
    ensures FreeCount(sb, e) == FreeCount(sb, d) - 1
    ensures Disown(owner[b := (i, s)], i) == Disown(owner, i)
  {
    hide Inv, Bit;
    OwnersMarked(sb, d, nodes, owner);
    OwnersMarked(sb, e, nodes', owner[b := (i, s)]);
    assert b !in owner;
    assert b !in FreeBlocks(sb, e) && FreeBlocks(sb, d) == FreeBlocks(sb, e) + {b};
    SameDisown(owner, b, i, s);
  }

  lemma SameDisown(owner: Owner, b: nat, i: nat, s: nat)
    requires b !in owner
    ensures Disown(owner[b := (i, s)], i) == Disown(owner, i)
  {
  }

  /** A change in what inode i owns leaves the other inodes their pointers. */
  lemma OtherSlots(sb: SuperBlock, d: Disk, nodes: seq<Dinode>, owner: Owner, e: Disk, nodes': seq<Dinode>, owner': Owner,
                   i: nat, j: nat, s: nat)
    requires Inv(sb, d, nodes, owner) && Inv(sb, e, nodes', owner') && Disown(owner', i) == Disown(owner, i)
    requires j < |nodes| && j != i && s < NSLOTS
    ensures Slot(e, nodes'[j], s) == Slot(d, nodes[j], s)
  {
    var b, b' := Slot(d, nodes[j], s), Slot(e, nodes'[j], s);
    if b != 0 {
      assert b in Disown(owner, i) && Disown(owner, i)[b] == (j, s);
    }
    if b' != 0 {
      assert b' in Disown(owner', i) && Disown(owner', i)[b'] == (j, s);
    }
  }

  lemma OtherLacking(sb: SuperBlock, d: Disk, nodes: seq<Dinode>, owner: Owner, e: Disk, nodes': seq<Dinode>, owner': Owner,
                     i: nat, j: nat, bn: nat)
    requires Inv(sb, d, nodes, owner) && Inv(sb, e, nodes', owner') && Disown(owner', i) == Disown(owner, i)
    requires j < |nodes| && j != i && bn < MAXFILE
    ensures |nodes'| == |nodes| && Lacking(e, nodes'[j], bn) == Lacking(d, nodes[j], bn)
  {
    hide Inv, Disown;
    InvFormatted(sb, d, nodes, owner);
    InvFormatted(sb, e, nodes', owner');
    OtherSlots(sb, d, nodes, owner, e, nodes', owner', i, j, DataSlot(bn));
    OtherSlots(sb, d, nodes, owner, e, nodes', owner', i, j, NDIRECT);
  }

  // --- room for one more record ------------------------------------------------------------

  /** The blocks that the first free record of a directory still needs. */
  function EntryCost(d: Disk, n: Dinode): nat
    requires n.size <= MAXFILE * BSIZE
  {
    var bn := DIRENT * FreeFrom(Content(d, n), 0) / BSIZE;
    if bn < MAXFILE then Lacking(d, n, bn) else 0
  }

  /** The directory has a free record, or can grow by one, on so many free blocks. */
  predicate EntryFits(d: Disk, n: Dinode, free: int) {
    n.size <= MAXFILE * BSIZE && DIRENT * FreeFrom(Content(d, n), 0) < MAXFILE * BSIZE && EntryCost(d, n) <= free
  }

  /** In terms of where the record goes. */
  lemma FitsAt(d: Disk, n: Dinode, off: nat, free: int)
    requires n.size <= MAXFILE * BSIZE && off == DIRENT * FreeFrom(Content(d, n), 0)
    ensures EntryFits(d, n, free) <==> off < MAXFILE * BSIZE && Lacking(d, n, off / BSIZE) <= free
    ensures off < MAXFILE * BSIZE ==> EntryCost(d, n) == Lacking(d, n, off / BSIZE)
  {
    hide Content, FreeFrom, Lacking;
  }

  /** A change in what inode i owns leaves another directory its room. */
  lemma OtherFits(sb: SuperBlock, d: Disk, nodes: seq<Dinode>, owner: Owner, e: Disk, nodes': seq<Dinode>, owner': Owner,
                  i: nat, j: nat)
    requires Inv(sb, d, nodes, owner) && Inv(sb, e, nodes', owner') && Disown(owner', i) == Disown(owner, i)
    requires j < |nodes| == |nodes'| && j != i && KeepsBlocks(d, nodes[j], e, nodes'[j]) && nodes'[j].size == nodes[j].size
    ensures forall free: int :: EntryFits(e, nodes'[j], free) <==> EntryFits(d, nodes[j], free)
    ensures nodes[j].size <= MAXFILE * BSIZE && EntryCost(e, nodes'[j]) == EntryCost(d, nodes[j])
  {
    hide Disown, KeepsBlocks, Lacking;
    assert NodeOk(d, nodes[j]);
    KeepsContent(d, nodes[j], e, nodes'[j]);
    var bn := DIRENT * FreeFrom(Content(d, nodes[j]), 0) / BSIZE;
    if bn < MAXFILE {
      OtherLacking(sb, d, nodes, owner, e, nodes', owner', i, j, bn);
    }
  }
}
