/** The block and inode layers of the file system, over raw disk blocks. */
module FileSystem {
  import opened Bytes
  import opened Layout
  import opened BlockMap
  import opened FileData
  import opened Space

  /** The in-memory copy of an inode, as its lock holder sees it. */
  class MemInode {
    const inum: nat
    var typ: short
    var major: short
    var minor: short
    var nlink: short
    var size: uint32
    var addrs: Addrs
    var permissions: short

    constructor (inum: nat, n: Dinode)
      ensures this.inum == inum && Copy() == n
    {
      this.inum := inum;
      typ, major, minor, nlink := n.typ, n.major, n.minor, n.nlink;
      size, addrs, permissions := n.size, n.addrs, n.permissions;
    }

    function Copy(): Dinode
      reads this
    {
      Dinode(typ, major, minor, nlink, size, addrs, permissions)
    }
  }

  /** A non-empty stretch of a file that does not reach into the next block. */
  predicate InOneBlock(off: nat, n: nat) {
    0 < n && off % BSIZE + n <= BSIZE && off + n <= MAXFILE * BSIZE
  }

  class Fs {
    const sb: SuperBlock
    var blocks: Disk
    /** The inode table as it stands, in-memory changes of the lock holder included. */
    ghost var nodes: seq<Dinode>
    /** Which (inode, slot) points at each block in use. */
    ghost var owner: Owner

    constructor (sb: SuperBlock, blocks: Disk, ghost nodes: seq<Dinode>, ghost owner: Owner)
      requires Inv(sb, blocks, nodes, owner)
      ensures Valid() && this.sb == sb && this.blocks == blocks && this.nodes == nodes && this.owner == owner
    {
      this.sb, this.blocks, this.nodes, this.owner := sb, blocks, nodes, owner;
    }

    ghost predicate Valid()
      reads this
    {
      Inv(sb, blocks, nodes, owner)
    }

    ghost predicate Holds(ip: MemInode)
      reads this, ip
    {
      ip.inum < |nodes| && nodes[ip.inum] == ip.Copy()
    }

    // --- blocks -----------------------------------------------------------

    /** Take the least free block and zero it; 0 when none is free. */
    method Balloc() returns (r: uint32)
      requires Formatted(sb, blocks)
      requires forall b: nat | b < sb.DataStart() :: Bit(sb, blocks, b)
      modifies this`blocks
      ensures Formatted(sb, blocks)
      ensures r == 0 <==> forall b: nat | b < sb.size :: Bit(sb, old(blocks), b)
      ensures r == 0 ==> blocks == old(blocks)
      ensures r != 0 ==> Allocated(sb, old(blocks), blocks, r)
      ensures r != 0 ==> forall b: nat | b < r :: Bit(sb, old(blocks), b)
      ensures r != 0 ==> blocks == FlipOn(sb, old(blocks), r)[r := ZeroBlock()]
    {
      hide Bit;
      var b := 0;
      while b < sb.size
        invariant b % BPB == 0 && blocks == old(blocks)
        invariant forall x: nat | x < b && x < sb.size :: Bit(sb, blocks, x)
        decreases sb.size - b
      {
        var bi := 0;
        while bi < BPB && b + bi < sb.size
          invariant bi <= BPB && blocks == old(blocks)
          invariant forall x: nat | x < b + bi && x < sb.size :: Bit(sb, blocks, x)
        {
          BitInBlock(sb, blocks, b, bi);
          var data := blocks[sb.BBlock(b)];
          if !TestBit(data[bi / 8], bi % 8) {
            TakenAndZeroed(sb, blocks, b + bi);
            blocks := blocks[sb.BBlock(b) := data[bi / 8 := SetBit(data[bi / 8], bi % 8)]];
            Bzero(b + bi);
            return b + bi;
          }
          bi := bi + 1;
        }
        b := b + BPB;
      }
      r := 0;
    }

    method Bzero(b: nat)
      requires b < |blocks|
      modifies this`blocks
      ensures blocks == old(blocks)[b := ZeroBlock()]
    {
      blocks := blocks[b := ZeroBlock()];
    }

    /** Give block b back. The requires is the absence of the "freeing free block" panic. */
    method Bfree(b: nat)
      requires Formatted(sb, blocks) && b < sb.size && Bit(sb, blocks, b)
      modifies this`blocks
      ensures Freed(sb, old(blocks), blocks, b)
      ensures blocks == FlipOff(sb, old(blocks), b)
    {
      hide Bit, ClearBit, TestBit;
      var data := blocks[sb.BBlock(b)];
      var bi := b % BPB;
      BitIndex(b - bi, bi);
      ByteBitsFit(data[bi / 8], bi % 8);
      blocks := blocks[sb.BBlock(b) := data[bi / 8 := ClearBit(data[bi / 8], bi % 8)]];
      assert blocks == FlipOff(sb, old(blocks), b);
      forall x: nat | x < sb.size
        ensures Bit(sb, blocks, x) <==> x != b && Bit(sb, old(blocks), x)
      {
        FlipOffExact(sb, old(blocks), b, x);
      }
    }

    /** Allocate a block for the empty address s of the inode. */
    method AddrBlock(ip: MemInode, s: nat) returns (r: uint32)
      requires Valid() && Holds(ip) && ip.typ != 0 && s <= NDIRECT && ip.addrs[s] == 0
      modifies this, ip`addrs
      ensures Valid() && Holds(ip) && Grew(sb, old(blocks), old(nodes), blocks, nodes, ip.inum)
      ensures ip.addrs == old(ip.addrs)[s := r]
      ensures r != 0 ==> r < |blocks| && blocks[r] == ZeroBlock()
      ensures r == 0 <==> old(FreeCount(sb, blocks)) == 0
      ensures Disown(owner, ip.inum) == old(Disown(owner, ip.inum))
      ensures FreeCount(sb, blocks) == old(FreeCount(sb, blocks)) - if r != 0 then 1 else 0
    {
      hide Inv, Bit, KeepsBlocks, FreeCount, Disown;
      InvFormatted(sb, blocks, nodes, owner);
      NoneFree(sb, blocks);
      r := Balloc();
      if r != 0 {
        AttachAddr(sb, old(blocks), blocks, nodes, owner, ip.inum, s, r);
        ip.addrs := ip.addrs[s := r];
        nodes := nodes[ip.inum := ip.Copy()];
        OneTaken(sb, old(blocks), old(nodes), owner, blocks, nodes, r, ip.inum, s);
        owner := owner[r := (ip.inum, s)];
      } else {
        GrewRefl(sb, blocks, nodes, owner, ip.inum);
      }
    }

    /** Allocate a block for the empty entry `at` of the indirect root. */
    method NewEntry(ip: MemInode, at: nat) returns (r: uint32)
      requires Valid() && Holds(ip) && ip.typ != 0 && ip.addrs[NDIRECT] != 0 && at < NINDIRECT
      requires Slot(blocks, ip.Copy(), at + 13) == 0
      modifies this`blocks, this`owner
      ensures Valid() && Holds(ip) && Grew(sb, old(blocks), old(nodes), blocks, nodes, ip.inum)
      ensures r == Slot(blocks, ip.Copy(), at + 13)
      ensures r != 0 ==> r < |blocks| && blocks[r] == ZeroBlock()
      ensures r == 0 <==> old(FreeCount(sb, blocks)) == 0
      ensures Disown(owner, ip.inum) == old(Disown(owner, ip.inum))
      ensures FreeCount(sb, blocks) == old(FreeCount(sb, blocks)) - if r != 0 then 1 else 0
    {
      hide Inv, Bit, KeepsBlocks, FreeCount, Disown, Allocated, Grew;
      InvFormatted(sb, blocks, nodes, owner);
      NoneFree(sb, blocks);
      var root := ip.addrs[NDIRECT];
      r := Balloc();
      if r != 0 {
        EntryTaken(sb, old(blocks), blocks, nodes, owner, ip.inum, at + 13, r);
        blocks := blocks[root := PutWord(blocks[root], 4 * at, r)];
        owner := owner[r := (ip.inum, at + 13)];
      } else {
        GrewRefl(sb, blocks, nodes, owner, ip.inum);
      }
    }

    /** Entry `at` of the indirect root, allocating a block for it when it is empty. */
    method EntryBlock(ip: MemInode, at: nat) returns (r: uint32)
      requires Valid() && Holds(ip) && ip.typ != 0 && ip.addrs[NDIRECT] != 0 && at < NINDIRECT
      modifies this
      ensures Valid() && Holds(ip) && Grew(sb, old(blocks), old(nodes), blocks, nodes, ip.inum)
      ensures nodes == old(nodes) && r == Slot(blocks, ip.Copy(), at + 13)
      ensures old(Slot(blocks, ip.Copy(), at + 13)) != 0 ==> blocks == old(blocks) && owner == old(owner)
      ensures old(Slot(blocks, ip.Copy(), at + 13)) == 0 && r != 0 ==> r < |blocks| && blocks[r] == ZeroBlock()
      ensures r == 0 <==> old(Slot(blocks, ip.Copy(), at + 13)) == 0 && old(FreeCount(sb, blocks)) == 0
      ensures Disown(owner, ip.inum) == old(Disown(owner, ip.inum))
      ensures FreeCount(sb, blocks) == old(FreeCount(sb, blocks)) - if old(Slot(blocks, ip.Copy(), at + 13)) == 0 && r != 0 then 1 else 0
    {
      hide Inv, Bit, KeepsBlocks, FreeCount, Disown, Grew;
      OwnedRootBelow(sb, blocks, nodes, owner, ip.inum, NDIRECT);
      r := GetWord(blocks[ip.addrs[NDIRECT]], 4 * at);
      if r == 0 {
        r := NewEntry(ip, at);
      } else {
        GrewRefl(sb, blocks, nodes, owner, ip.inum);
      }
    }

    /** Block number of data block bn, allocating what is missing; 0 when the disk is full. */
    method Bmap(ip: MemInode, bn: nat) returns (r: uint32)
      requires Valid() && Holds(ip) && ip.typ != 0 && bn < MAXFILE
      modifies this, ip`addrs
      ensures Valid() && Holds(ip) && Grew(sb, old(blocks), old(nodes), blocks, nodes, ip.inum)
      ensures r == DataBlock(blocks, ip.Copy(), bn)
      ensures old(DataBlock(blocks, ip.Copy(), bn)) != 0 ==>
                blocks == old(blocks) && nodes == old(nodes) && owner == old(owner) && ip.addrs == old(ip.addrs)
      ensures old(DataBlock(blocks, ip.Copy(), bn)) == 0 && r != 0 ==> r < |blocks| && blocks[r] == ZeroBlock()
      ensures r == 0 <==> old(FreeCount(sb, blocks)) < old(Lacking(blocks, ip.Copy(), bn))
      ensures r == 0 ==> forall b: nat | b < sb.size :: Bit(sb, blocks, b)
      ensures r != 0 ==> FreeCount(sb, blocks) == old(FreeCount(sb, blocks)) - old(Lacking(blocks, ip.Copy(), bn))
      ensures Disown(owner, ip.inum) == old(Disown(owner, ip.inum))
    {
      hide Inv, Grew, FreeCount, Disown;
      if bn < NDIRECT {
        r := ip.addrs[bn];
        if r == 0 {
          r := AddrBlock(ip, bn);
        } else {
          GrewRefl(sb, blocks, nodes, owner, ip.inum);
        }
        InvFormatted(sb, blocks, nodes, owner);
        NoneFree(sb, blocks);
        return;
      }
      if ip.addrs[NDIRECT] != 0 {
        r := EntryBlock(ip, bn - NDIRECT);
      } else {
        r := AddrBlock(ip, NDIRECT);
        if r != 0 {
          ghost var midBlocks, midNodes := blocks, nodes;
          r := EntryBlock(ip, bn - NDIRECT);
          GrewTrans(sb, old(blocks), old(nodes), midBlocks, midNodes, blocks, nodes, ip.inum);
        }
      }
      InvFormatted(sb, blocks, nodes, owner);
      NoneFree(sb, blocks);
    }

    // --- inodes -----------------------------------------------------------

    /** The stored inode table is up to date. */
    ghost predicate Clean()
      requires Valid()
      reads this
    {
      forall j: nat | j < |nodes| :: DiskInode(sb, blocks, j) == nodes[j]
    }

    /** Copy the in-memory inode to disk. */
    method Iupdate(ip: MemInode)
      requires Valid() && Holds(ip)
      modifies this`blocks
      ensures Valid() && Holds(ip) && blocks == Stored(sb, old(blocks), ip.inum, ip.Copy())
      ensures DiskInode(sb, blocks, ip.inum) == ip.Copy()
      ensures forall j: nat | j < |nodes| && j != ip.inum :: DiskInode(sb, blocks, j) == DiskInode(sb, old(blocks), j)
      ensures forall j: nat | j < |nodes| :: KeepsBlocks(old(blocks), nodes[j], blocks, nodes[j])
      ensures forall x: nat | x < sb.size :: Bit(sb, blocks, x) <==> Bit(sb, old(blocks), x)
    {
      hide Inv, KeepsBlocks, DiskInode, Bit, PutDinode;
      InvFormatted(sb, blocks, nodes, owner);
      StoredKeeps(sb, blocks, nodes, owner, ip.inum, ip.Copy());
      StoredReads(sb, blocks, ip.inum, ip.Copy());
      StoredBits(sb, blocks, ip.inum, ip.Copy());
      blocks := blocks[sb.IBlock(ip.inum) := PutDinode(blocks[sb.IBlock(ip.inum)], ip.inum % IPB, ip.Copy())];
    }

    /** Discard the content: free exactly the inode's own blocks. */
    method Itrunc(ip: MemInode)
      requires Valid() && Holds(ip)
      modifies this, ip`addrs, ip`size
      ensures Valid() && Holds(ip) && ip.Copy() == Emptied(old(ip.Copy()))
      ensures nodes == old(nodes)[ip.inum := ip.Copy()] && owner == Disown(old(owner), ip.inum)
      ensures DiskInode(sb, blocks, ip.inum) == ip.Copy()
      ensures forall j: nat | j < |nodes| && j != ip.inum :: DiskInode(sb, blocks, j) == DiskInode(sb, old(blocks), j)
      ensures forall j: nat | j < |nodes| && j != ip.inum :: KeepsBlocks(old(blocks), nodes[j], blocks, nodes[j])
      ensures forall x: nat | x < sb.size ::
                Bit(sb, blocks, x) <==> Bit(sb, old(blocks), x) && x !in BlocksOf(old(blocks), old(ip.Copy()))
    {
      hide Inv, Truncating, Stored, Bit, DiskInode, KeepsBlocks;
      TruncateBegin(sb, blocks, nodes, owner, ip.inum);
      FreeDirect(ip);
      if ip.addrs[NDIRECT] != 0 {
        FreeIndirect(ip, old(blocks), old(ip.Copy()));
      } else {
        NoRoot(sb, old(blocks), nodes, owner, blocks, ip.inum);
      }
      ip.size := 0;
      TruncateDone(sb, old(blocks), nodes, owner, blocks, ip.inum);
      forall x: nat | x < sb.size
        ensures Bit(sb, blocks, x) <==> Bit(sb, old(blocks), x) && x !in BlocksOf(old(blocks), old(ip.Copy()))
      {
        TruncateExact(sb, old(blocks), nodes, owner, blocks, ip.inum, x);
      }
      SameInodes(sb, old(blocks), blocks, owner, ip.inum, 13, 256);
      ghost var oldNodes := nodes;
      assert ip.Copy() == Emptied(old(ip.Copy()));
      nodes := nodes[ip.inum := ip.Copy()];
      owner := Disown(owner, ip.inum);
      ghost var mid := blocks;
      Iupdate(ip);
      forall j: nat | j < |nodes| && j != ip.inum
        ensures KeepsBlocks(old(blocks), nodes[j], blocks, nodes[j])
      {
        assert KeepsBlocks(old(blocks), oldNodes[j], mid, nodes[j]);
        KeepsTrans(old(blocks), nodes[j], mid, nodes[j], blocks, nodes[j]);
      }
    }

    /** itrunc's first loop: the direct blocks. */
    method FreeDirect(ip: MemInode)
      requires Valid() && Holds(ip)
      modifies this`blocks, ip`addrs
      ensures Truncating(sb, old(blocks), owner, blocks, ip.inum, 12, 0)
      ensures forall k | 0 <= k < NDIRECT :: ip.addrs[k] == 0
      ensures ip.addrs[NDIRECT] == old(ip.addrs[NDIRECT])
    {
      hide Inv;
      TruncateBegin(sb, blocks, nodes, owner, ip.inum);
      var i := 0;
      while i < NDIRECT
        invariant i <= NDIRECT && Truncating(sb, old(blocks), owner, blocks, ip.inum, i, 0)
        invariant forall k | 0 <= k < i :: ip.addrs[k] == 0
        invariant forall k | i <= k <= NDIRECT :: ip.addrs[k] == old(ip.addrs[k])
      {
        ghost var before := blocks;
        if ip.addrs[i] != 0 {
          StillMarked(sb, old(blocks), nodes, owner, blocks, ip.inum, i, 0, i);
          Bfree(ip.addrs[i]);
          ip.addrs := ip.addrs[i := 0];
        }
        TruncateStep(sb, old(blocks), nodes, owner, before, blocks, ip.inum, i, 0, i + 1, 0, i);
        i := i + 1;
      }
    }

    /** itrunc's second half: the indirect entries, then the indirect root. */
    method FreeIndirect(ip: MemInode, ghost d: Disk, ghost n: Dinode)
      requires Inv(sb, d, nodes, owner) && ip.inum < |nodes| && nodes[ip.inum] == n
      requires Truncating(sb, d, owner, blocks, ip.inum, 12, 0)
      requires ip.addrs[NDIRECT] == n.addrs[NDIRECT] != 0
      modifies this`blocks, ip`addrs
      ensures Truncating(sb, d, owner, blocks, ip.inum, 13, 256)
      ensures ip.addrs == old(ip.addrs)[NDIRECT := 0]
    {
      hide Inv;
      var root := ip.addrs[NDIRECT];
      OwnedRootBelow(sb, d, nodes, owner, ip.inum, NDIRECT);
      InvFormatted(sb, d, nodes, owner);
      var a := blocks[root];
      var j := 0;
      while j < NINDIRECT
        invariant j <= NINDIRECT && Truncating(sb, d, owner, blocks, ip.inum, 12, j)
        invariant ip.addrs == old(ip.addrs)
      {
        ghost var before := blocks;
        if GetWord(a, 4 * j) != 0 {
          StillMarked(sb, d, nodes, owner, blocks, ip.inum, 12, j, 13 + j);
          Bfree(GetWord(a, 4 * j));
        }
        TruncateStep(sb, d, nodes, owner, before, blocks, ip.inum, 12, j, 12, j + 1, 13 + j);
        j := j + 1;
      }
      ghost var before := blocks;
      StillMarked(sb, d, nodes, owner, blocks, ip.inum, 12, 256, NDIRECT);
      Bfree(root);
      TruncateStep(sb, d, nodes, owner, before, blocks, ip.inum, 12, 256, 13, 256, NDIRECT);
      ip.addrs := ip.addrs[NDIRECT := 0];
    }

    /** Claim the least free inode number on disk; 0 when there is none. */
    method Ialloc(typ: short) returns (r: nat)
      requires Valid() && Clean() && typ != 0
      modifies this`blocks, this`nodes
      ensures Valid() && Clean()
      ensures |nodes| == old(|nodes|)
      ensures r == 0 <==> forall j: nat | 1 <= j < |nodes| :: old(nodes)[j].typ != 0
      ensures r == 0 ==> blocks == old(blocks) && nodes == old(nodes)
      ensures r != 0 ==> r < |nodes| && old(nodes)[r].typ == 0 && nodes == old(nodes)[r := FreshInode(typ)]
      ensures r != 0 ==> forall j: nat | 1 <= j < r :: nodes[j].typ != 0
      ensures forall j: nat | j < |nodes| :: KeepsBlocks(old(blocks), old(nodes)[j], blocks, old(nodes)[j])
    {
      InvFormatted(sb, blocks, nodes, owner);
      var inum := 1;
      while inum < sb.ninodes
        invariant 1 <= inum <= sb.ninodes
        invariant forall j: nat | 1 <= j < inum :: nodes[j].typ != 0
        invariant blocks == old(blocks) && nodes == old(nodes) && Valid()
      {
        var bp := blocks[sb.IBlock(inum)];
        assert DiskInode(sb, blocks, inum) == nodes[inum];
        if GetDinode(bp, inum % IPB).typ == 0 {
          blocks := blocks[sb.IBlock(inum) := InitRecord(bp, inum % IPB, typ)];
          nodes := nodes[inum := FreshInode(typ)];
          Born(sb, old(blocks), old(nodes), owner, inum, typ);
          return inum;
        }
        inum := inum + 1;
      }
      AllKeepBlocks(sb, blocks, blocks, nodes, nodes, owner);
      r := 0;
    }

    /** Load the in-memory copy of an inode. */
    method Ilock(inum: nat) returns (ip: MemInode)
      requires Valid() && inum < |nodes| && DiskInode(sb, blocks, inum) == nodes[inum]
      ensures fresh(ip) && ip.inum == inum && Holds(ip)
    {
      var bp := blocks[sb.IBlock(inum)];
      ip := new MemInode(inum, GetDinode(bp, inum % IPB));
    }

    /** The freeing half of iput: no links and no other references are left. */
    method FreeInode(ip: MemInode)
      requires Valid() && Holds(ip) && Clean()
      modifies this, ip`addrs, ip`size, ip`typ
      ensures Valid() && Clean()
      ensures nodes == old(nodes)[ip.inum := Emptied(old(ip.Copy())).(typ := 0)]
      ensures forall j: nat | j < |nodes| && j != ip.inum :: KeepsBlocks(old(blocks), nodes[j], blocks, nodes[j])
      ensures forall x: nat | x < sb.size ::
                Bit(sb, blocks, x) <==> Bit(sb, old(blocks), x) && x !in BlocksOf(old(blocks), old(ip.Copy()))
    {
      hide Inv, Bit, KeepsBlocks, DiskInode, BlocksOf;
      Itrunc(ip);
      ghost var mid := blocks;
      ClearType(ip);
      forall j: nat | j < |nodes| && j != ip.inum
        ensures KeepsBlocks(old(blocks), nodes[j], blocks, nodes[j])
      {
        KeepsTrans(old(blocks), nodes[j], mid, nodes[j], blocks, nodes[j]);
      }
    }

    /** ip->type = 0; iupdate(ip), of an inode that holds nothing. */
    method ClearType(ip: MemInode)
      requires Valid() && Holds(ip) && Clean() && ip.addrs == NoAddrs() && ip.size == 0
      modifies this`blocks, this`nodes, ip`typ
      ensures Valid() && Clean() && ip.Copy() == old(ip.Copy()).(typ := 0) && nodes == old(nodes)[ip.inum := ip.Copy()]
      ensures forall j: nat | j < |nodes| :: KeepsBlocks(old(blocks), nodes[j], blocks, nodes[j])
      ensures forall x: nat | x < sb.size :: Bit(sb, blocks, x) <==> Bit(sb, old(blocks), x)
    {
      hide Inv, Bit, KeepsBlocks, DiskInode, Stored;
      InvFormatted(sb, blocks, nodes, owner);
      ip.typ := 0;
      ReplaceEmpty(sb, blocks, nodes, owner, ip.inum, ip.Copy());
      nodes := nodes[ip.inum := ip.Copy()];
      Iupdate(ip);
    }

    /** Set the link count, device numbers and permissions of a locked inode and write it back. */
    method SetMeta(ip: MemInode, major: short, minor: short, nlink: short, permissions: short)
      requires Valid() && Holds(ip) && Clean()
      modifies this`blocks, this`nodes, ip`major, ip`minor, ip`nlink, ip`permissions
      ensures Valid() && Holds(ip) && Clean()
      ensures ip.Copy() == old(ip.Copy()).(major := major, minor := minor, nlink := nlink, permissions := permissions)
      ensures nodes == old(nodes)[ip.inum := ip.Copy()]
      ensures forall j: nat | j < |nodes| && j != ip.inum :: KeepsBlocks(old(blocks), nodes[j], blocks, nodes[j])
      ensures Content(blocks, ip.Copy()) == old(Content(blocks, ip.Copy()))
    {
      hide Inv, KeepsBlocks, DiskInode, Stored, Content;
      InvFormatted(sb, blocks, nodes, owner);
      ip.major := major;
      ip.minor := minor;
      ip.nlink := nlink;
      ip.permissions := permissions;
      Retag(sb, blocks, nodes, owner, ip.inum, ip.Copy());
      RetagContent(sb, blocks, nodes, owner, ip.inum, ip.Copy());
      nodes := nodes[ip.inum := ip.Copy()];
      ghost var mid := blocks;
      Iupdate(ip);
      NodeContent(sb, mid, nodes, owner, ip.inum);
      KeptContent(sb, mid, nodes, owner, ip.inum, blocks);
    }

    // --- content ------------------------------------------------------------

    /** Read n bytes at off; cap bytes are mapped at the destination. */
    method Readi(ip: MemInode, cap: nat, off: uint32, n: uint32) returns (r: int, dst: seq<byte>)
      requires Valid() && Holds(ip) && ip.typ != 0
      modifies this, ip`addrs
      ensures Valid() && Holds(ip)
      ensures blocks == old(blocks) && nodes == old(nodes) && owner == old(owner) && ip.addrs == old(ip.addrs)
      ensures off > ip.size || off + n >= WORD ==> r == 0 && dst == []
      ensures off <= ip.size && off + n < WORD ==>
                var m := Min(n, ip.size - off);
                if m <= cap then r == m && dst == Content(blocks, ip.Copy())[off..off + m] else r == -1
    {
      hide Inv, Grew, DataBlock, Content, Bit;
      NodeContent(sb, blocks, nodes, owner, ip.inum);
      dst := [];
      if off > ip.size || (off + n) % WORD < off {
        return 0, [];
      }
      var m := if off + n > ip.size then ip.size - off else n;
      var tot := 0;
      while tot < m
        invariant tot == |dst| <= m && tot <= cap
        invariant off + m <= ip.size == old(ip.size) && m == Min(n, ip.size - off)
        invariant Valid() && Holds(ip) && ip.typ != 0
        invariant blocks == old(blocks) && nodes == old(nodes) && owner == old(owner) && ip.addrs == old(ip.addrs)
        invariant dst == Content(blocks, ip.Copy())[off..off + tot]
      {
        var cur := off + tot;
        assert DataBlock(blocks, ip.Copy(), cur / BSIZE) != 0 && DataBlock(blocks, ip.Copy(), cur / BSIZE) < |blocks|;
        var addr := Bmap(ip, cur / BSIZE);
        var bp := blocks[addr];
        var len := Min(m - tot, BSIZE - cur % BSIZE);
        if tot + len > cap {
          return -1, dst;
        }
        ChunkRead(blocks, ip.Copy(), cur, len);
        dst := dst + bp[cur % BSIZE..cur % BSIZE + len];
        tot := tot + len;
      }
      r := tot;
    }

    /** Write n bytes at off; src is the mapped part of the source buffer. */
    method Writei(ip: MemInode, src: seq<byte>, off: uint32, n: uint32) returns (r: int)
      requires Valid() && Holds(ip) && ip.typ != 0
      modifies this, ip`addrs, ip`size
      ensures Valid() && Holds(ip) && -1 <= r <= n
      ensures r == -1 <==> off > old(ip.size) || off + n >= WORD || off + n > MAXFILE * BSIZE
      ensures r == -1 ==> blocks == old(blocks) && nodes == old(nodes) && owner == old(owner) && ip.Copy() == old(ip.Copy())
      ensures r >= 0 ==> r <= |src| && off <= old(ip.size) <= MAXFILE * BSIZE && ip.size <= MAXFILE * BSIZE
      ensures r >= 0 ==> Content(blocks, ip.Copy()) == Splice(old(Content(blocks, ip.Copy())), off, src[..r])
      ensures 0 <= r < n ==> r == 0 || (off + r) % BSIZE == 0
      ensures 0 <= r < n ==> (off + r >= old(ip.size) && forall x: nat | x < sb.size :: Bit(sb, blocks, x))
                             || r + Min(n - r, BSIZE - (off + r) % BSIZE) > |src|
      ensures Disown(owner, ip.inum) == old(Disown(owner, ip.inum))
      ensures r >= 0 && InOneBlock(off, n) && n <= |src| ==> (r == n <==> old(FreeCount(sb, blocks)) >= old(Lacking(blocks, ip.Copy(), off / BSIZE)))
      ensures r == n && InOneBlock(off, n) ==>
                FreeCount(sb, blocks) == old(FreeCount(sb, blocks)) - old(Lacking(blocks, ip.Copy(), off / BSIZE))
      ensures nodes == old(nodes)[ip.inum := ip.Copy()]
      ensures ip.Copy() == old(ip.Copy()).(addrs := ip.addrs, size := ip.size)
      ensures r >= 0 ==> DiskInode(sb, blocks, ip.inum) == ip.Copy()
      ensures forall j: nat | j < |nodes| && j != ip.inum :: DiskInode(sb, blocks, j) == DiskInode(sb, old(blocks), j)
      ensures forall j: nat | j < |nodes| && j != ip.inum :: KeepsBlocks(old(blocks), nodes[j], blocks, nodes[j])
    {
      hide Inv, Wrote, KeepsBlocks, Content, Stored, DiskInode, Bit, FreeCount, Disown, Lacking;
      InvFormatted(sb, blocks, nodes, owner);
      NodeContent(sb, blocks, nodes, owner, ip.inum);
      GrewRefl(sb, blocks, nodes, owner, ip.inum);
      if off > ip.size || (off + n) % WORD < off {
        return -1;
      }
      if off + n > MAXFILE * BSIZE {
        return -1;
      }
      r := WriteLoop(ip, src, off, n);
      InvFormatted(sb, blocks, nodes, owner);
      NoneFree(sb, blocks);
      WriteEnd(ip, off, r, src[..r], old(blocks), old(nodes));
      NoneFree(sb, blocks);
    }

    /** writei's end: the size raised if the file has grown, and the inode stored. */
    method WriteEnd(ip: MemInode, off: nat, r: nat, ghost src: seq<byte>, ghost d: Disk, ghost ns: seq<Dinode>)
      requires Valid() && Holds(ip) && ip.typ != 0 && |src| == r && off + r <= MAXFILE * BSIZE
      requires ip.inum < |ns| && ns[ip.inum].size <= MAXFILE * BSIZE && Wrote(sb, d, ns, blocks, nodes, ip.inum, off, src)
      modifies this`blocks, this`nodes, ip`size
      ensures Valid() && Holds(ip) && nodes == ns[ip.inum := ip.Copy()]
      ensures ip.Copy() == ns[ip.inum].(addrs := ip.addrs, size := ip.size) && ip.size <= MAXFILE * BSIZE && off <= ns[ip.inum].size
      ensures Content(blocks, ip.Copy()) == Splice(Content(d, ns[ip.inum]), off, src)
      ensures Formatted(sb, d) && Formatted(sb, blocks) && DiskInode(sb, blocks, ip.inum) == ip.Copy()
      ensures forall j: nat | j < |nodes| && j != ip.inum :: DiskInode(sb, blocks, j) == DiskInode(sb, d, j)
      ensures forall j: nat | j < |nodes| && j != ip.inum :: KeepsBlocks(d, nodes[j], blocks, nodes[j])
      ensures FreeCount(sb, blocks) == old(FreeCount(sb, blocks))
    {
      hide Inv, Overlaid, KeepsBlocks, Content, Stored, DiskInode, Bit, FreeCount;
      InvFormatted(sb, blocks, nodes, owner);
      ghost var m := ip.Copy();
      WroteInodes(sb, d, ns, blocks, nodes, ip.inum, off, src);
      OverlaidSize(d, ns[ip.inum], blocks, nodes[ip.inum], off, src);
      if off + r > ip.size {
        Resize(sb, blocks, nodes, owner, ip.inum, off + r);
        ip.size := off + r;
        nodes := nodes[ip.inum := ip.Copy()];
      }
      ghost var mid := blocks;
      assert ns[ip.inum := m] == old(nodes);
      assert nodes == ns[ip.inum := ip.Copy()];
      Iupdate(ip);
      WriteStored(sb, d, ns, mid, blocks, nodes, ip.inum, off, src);
      FreeByOwner(sb, old(blocks), old(nodes), blocks, nodes, owner);
    }

    /** One round of writei's loop: map a block, copy into it, log it. It stops where it was when the disk is
        full or the source faults. */
    method WriteRound(ip: MemInode, src: seq<byte>, off: uint32, n: uint32, tot: nat, ghost d: Disk, ghost ns: seq<Dinode>)
      returns (next: nat)
      requires Valid() && Holds(ip) && ip.typ != 0 && off + n <= MAXFILE * BSIZE && tot < n && tot <= |src|
      requires Wrote(sb, d, ns, blocks, nodes, ip.inum, off, src[..tot]) && off <= ip.size && (tot == 0 || (off + tot) % BSIZE == 0)
      modifies this, ip`addrs
      ensures Valid() && Holds(ip) && next <= |src| && Wrote(sb, d, ns, blocks, nodes, ip.inum, off, src[..next])
      ensures var len := Min(n - tot, BSIZE - (off + tot) % BSIZE);
              && next == (if tot + len > |src| || old(FreeCount(sb, blocks)) < old(Lacking(blocks, ip.Copy(), (off + tot) / BSIZE)) then tot else tot + len)
              && (next == tot ==> (off + tot >= ip.size && forall x: nat | x < sb.size :: Bit(sb, blocks, x)) || tot + len > |src|)
      ensures next != tot ==> FreeCount(sb, blocks) == old(FreeCount(sb, blocks)) - old(Lacking(blocks, ip.Copy(), (off + tot) / BSIZE))
      ensures Disown(owner, ip.inum) == old(Disown(owner, ip.inum))
    {
      hide Inv, Wrote, Grew, DataBlock, Bit, FreeCount, Disown, Lacking;
      var cur := off + tot;
      var addr := Bmap(ip, cur / BSIZE);
      WroteGrew(sb, d, ns, old(blocks), old(nodes), blocks, nodes, ip.inum, off, src[..tot]);
      if addr == 0 {
        HolePastEnd(sb, d, ns, blocks, nodes, ip.inum, off, src[..tot]);
        return tot;
      }
      WriteData(sb, blocks, nodes, owner, ip.inum, cur / BSIZE, ZeroBlock());
      var len := Min(n - tot, BSIZE - cur % BSIZE);
      if tot + len > |src| {
        return tot;
      }
      var data := blocks[addr];
      var chunk := src[tot..tot + len];
      data := data[..cur % BSIZE] + chunk + data[cur % BSIZE + len..];
      WroteChunk(sb, d, ns, blocks, nodes, owner, ip.inum, off, src[..tot], chunk, data);
      assert src[..tot] + chunk == src[..tot + len];
      ghost var held := blocks;
      blocks := blocks[addr := data];
      FreeByOwner(sb, held, nodes, blocks, nodes, owner);
      next := tot + len;
    }

    /** writei's loop: map, copy and log one block at a time until done, full or faulted. */
    method WriteLoop(ip: MemInode, src: seq<byte>, off: uint32, n: uint32) returns (tot: nat)
      requires Valid() && Holds(ip) && ip.typ != 0 && off <= ip.size && off + n <= MAXFILE * BSIZE
      modifies this, ip`addrs
      ensures Valid() && Holds(ip) && tot <= n && tot <= |src|
      ensures Wrote(sb, old(blocks), old(nodes), blocks, nodes, ip.inum, off, src[..tot])
      ensures tot < n ==> tot == 0 || (off + tot) % BSIZE == 0
      ensures tot < n ==> (off + tot >= ip.size && forall x: nat | x < sb.size :: Bit(sb, blocks, x))
                          || tot + Min(n - tot, BSIZE - (off + tot) % BSIZE) > |src|
      ensures Disown(owner, ip.inum) == old(Disown(owner, ip.inum))
      ensures InOneBlock(off, n) && n <= |src| ==> (tot == n <==> old(FreeCount(sb, blocks)) >= old(Lacking(blocks, ip.Copy(), off / BSIZE)))
      ensures tot == n && InOneBlock(off, n) ==>
                FreeCount(sb, blocks) == old(FreeCount(sb, blocks)) - old(Lacking(blocks, ip.Copy(), off / BSIZE))
    {
      hide Inv, Wrote, Bit, FreeCount, Disown, Lacking;
      WroteNothing(sb, blocks, nodes, owner, ip.inum, off);
      assert src[..0] == [];
      tot := 0;
      while tot < n
        invariant tot <= n && tot <= |src|
        invariant Valid() && Holds(ip) && ip.typ != 0
        invariant Wrote(sb, old(blocks), old(nodes), blocks, nodes, ip.inum, off, src[..tot])
        invariant tot < n ==> tot == 0 || (off + tot) % BSIZE == 0
        invariant Disown(owner, ip.inum) == old(Disown(owner, ip.inum))
        invariant tot == 0 ==> blocks == old(blocks) && ip.Copy() == old(ip.Copy())
        invariant tot == n && InOneBlock(off, n) ==>
                    FreeCount(sb, blocks) == old(FreeCount(sb, blocks)) - old(Lacking(blocks, ip.Copy(), off / BSIZE)) >= 0
      {
        var next := WriteRound(ip, src, off, n, tot, old(blocks), old(nodes));
        if next == tot {
          return;
        }
        tot := next;
      }
    }
  }

  /** Storing an inode does not touch the bitmap. */
  lemma StoredBits(sb: SuperBlock, d: Disk, i: nat, n: Dinode)
    requires Formatted(sb, d) && i < sb.ninodes
    ensures var e := Stored(sb, d, i, n); Formatted(sb, e) && forall x: nat | x < sb.size :: Bit(sb, e, x) <==> Bit(sb, d, x)
  {
    hide PutDinode;
    var e := Stored(sb, d, i, n);
    forall x: nat | x < sb.size
      ensures Bit(sb, e, x) <==> Bit(sb, d, x)
    {
      assert e[sb.BBlock(x)] == d[sb.BBlock(x)];
    }
  }

  /** A block that balloc took, put into an empty entry. */
  lemma EntryTaken(sb: SuperBlock, d: Disk, e: Disk, nodes: seq<Dinode>, owner: Owner, i: nat, s: nat, b: uint32)
    requires Inv(sb, d, nodes, owner) && Allocated(sb, d, e, b)
    requires i < |nodes| && NDIRECT < s < NSLOTS && nodes[i].typ != 0
    requires nodes[i].addrs[NDIRECT] != 0 && Slot(d, nodes[i], s) == 0
    ensures var root := nodes[i].addrs[NDIRECT];
            && root < |e| && b < |e| && root != b && e[b] == ZeroBlock()
            && var f := e[root := PutWord(e[root], 4 * (s - 13), b)];
            && Inv(sb, f, nodes, owner[b := (i, s)]) && Grew(sb, d, nodes, f, nodes, i)
            && Slot(f, nodes[i], s) == b
            && FreeCount(sb, f) == FreeCount(sb, d) - 1
    ensures Disown(owner[b := (i, s)], i) == Disown(owner, i)
  {
    hide Inv, Bit, KeepsBlocks, FreeCount, Disown, Slot;
    AttachEntry(sb, d, e, nodes, owner, i, s, b);
    var root := nodes[i].addrs[NDIRECT];
    var f := e[root := PutWord(e[root], 4 * (s - 13), b)];
    InvFormatted(sb, d, nodes, owner);
    InvFormatted(sb, f, nodes, owner[b := (i, s)]);
    OneTaken(sb, d, nodes, owner, f, nodes, b, i, s);
    assert nodes == nodes[i := nodes[i]];
  }

  /** Truncation leaves the stored inode table to iupdate. */
  lemma SameInodes(sb: SuperBlock, d: Disk, e: Disk, owner: Owner, i: nat, lo: nat, hi: nat)
    requires Truncating(sb, d, owner, e, i, lo, hi)
    ensures Formatted(sb, d) && Formatted(sb, e)
    ensures forall j: nat | j < sb.ninodes :: DiskInode(sb, e, j) == DiskInode(sb, d, j)
  {
    forall j: nat | j < sb.ninodes
      ensures DiskInode(sb, e, j) == DiskInode(sb, d, j)
    {
      assert IsInodeBlock(sb, sb.IBlock(j));
    }
  }

  /** ialloc's write turns a free inode into a fresh one and disturbs nothing else. */
  lemma Born(sb: SuperBlock, d: Disk, nodes: seq<Dinode>, owner: Owner, i: nat, typ: short)
    requires Inv(sb, d, nodes, owner) && i < |nodes| && nodes[i].typ == 0
    ensures var e := Initialised(sb, d, i, typ);
            && Inv(sb, e, nodes[i := FreshInode(typ)], owner)
            && DiskInode(sb, e, i) == FreshInode(typ)
            && (forall j: nat | j < |nodes| && j != i :: DiskInode(sb, e, j) == DiskInode(sb, d, j))
            && forall j: nat | j < |nodes| :: KeepsBlocks(d, nodes[j], e, nodes[j])
  {
    InodeBlockKeeps(sb, d, nodes, owner, i, InitRecord(d[sb.IBlock(i)], i % IPB, typ));
    InitialisedReads(sb, d, i, typ);
    assert NodeOk(d, nodes[i]);
    ReplaceEmpty(sb, Initialised(sb, d, i, typ), nodes, owner, i, FreshInode(typ));
  }

  lemma NodeContent(sb: SuperBlock, d: Disk, nodes: seq<Dinode>, owner: Owner, i: nat)
    requires Inv(sb, d, nodes, owner) && i < |nodes|
    ensures nodes[i].size <= MAXFILE * BSIZE
    ensures forall k: nat | k < nodes[i].size ::
              DataBlock(d, nodes[i], k / BSIZE) != 0 && DataBlock(d, nodes[i], k / BSIZE) < |d|
  {
    assert NodeOk(d, nodes[i]);
    forall k: nat | k < nodes[i].size
      ensures DataBlock(d, nodes[i], k / BSIZE) != 0 && DataBlock(d, nodes[i], k / BSIZE) < |d|
    {
      var bn := k / BSIZE;
      assert bn < MAXFILE && bn * BSIZE < nodes[i].size && DataBlock(d, nodes[i], bn) != 0;
      OwnedRootBelow(sb, d, nodes, owner, i, DataSlot(k / BSIZE));
    }
  }

  lemma RetagContent(sb: SuperBlock, d: Disk, nodes: seq<Dinode>, owner: Owner, i: nat, n: Dinode)
    requires Inv(sb, d, nodes, owner) && i < |nodes|
    requires n.addrs == nodes[i].addrs && n.size == nodes[i].size
    ensures n.size <= MAXFILE * BSIZE && Content(d, n) == Content(d, nodes[i])
  {
    NodeContent(sb, d, nodes, owner, i);
    SameAddrs(d, n, nodes[i]);
  }

  lemma KeptContent(sb: SuperBlock, d: Disk, nodes: seq<Dinode>, owner: Owner, i: nat, e: Disk)
    requires Inv(sb, d, nodes, owner) && i < |nodes| && KeepsBlocks(d, nodes[i], e, nodes[i])
    ensures nodes[i].size <= MAXFILE * BSIZE && Content(e, nodes[i]) == Content(d, nodes[i])
  {
    assert NodeOk(d, nodes[i]);
    KeepsContent(d, nodes[i], e, nodes[i]);
  }

  /** The bytes of one block-bounded chunk, as file content. */
  lemma ChunkRead(d: Disk, n: Dinode, cur: nat, len: nat)
    requires cur + len <= n.size <= MAXFILE * BSIZE && 0 < len <= BSIZE - cur % BSIZE
    requires DataBlock(d, n, cur / BSIZE) < |d|
    ensures d[DataBlock(d, n, cur / BSIZE)][cur % BSIZE..cur % BSIZE + len] == Content(d, n)[cur..cur + len]
  {
    var c := Content(d, n)[cur..cur + len];
    forall x | 0 <= x < len
      ensures c[x] == d[DataBlock(d, n, cur / BSIZE)][cur % BSIZE + x]
    {
      assert (cur + x) / BSIZE == cur / BSIZE && (cur + x) % BSIZE == cur % BSIZE + x;
    }
  }

  /** A write in progress leaves the stored inode table to iupdate. */
  lemma WroteInodes(sb: SuperBlock, d: Disk, nodes: seq<Dinode>, e: Disk, nodes': seq<Dinode>, i: nat,
                    off: nat, src: seq<byte>)
    requires Wrote(sb, d, nodes, e, nodes', i, off, src)
    ensures Formatted(sb, d) && Formatted(sb, e)
    ensures forall j: nat | j < sb.ninodes :: DiskInode(sb, e, j) == DiskInode(sb, d, j)
  {
    forall j: nat | j < sb.ninodes
      ensures DiskInode(sb, e, j) == DiskInode(sb, d, j)
    {
      assert IsInodeBlock(sb, sb.IBlock(j));
    }
  }

  /** Where bmap finds nothing to write to, the file has already ended. */
  lemma HolePastEnd(sb: SuperBlock, d: Disk, nodes: seq<Dinode>, e: Disk, nodes': seq<Dinode>, i: nat,
                    off: nat, src: seq<byte>)
    requires Wrote(sb, d, nodes, e, nodes', i, off, src) && off + |src| < MAXFILE * BSIZE
    requires DataBlock(e, nodes'[i], (off + |src|) / BSIZE) == 0
    ensures off + |src| >= nodes[i].size
  {
    var bn := (off + |src|) / BSIZE;
    assert bn * BSIZE <= off + |src|;
  }

  lemma OverlaidSize(d: Disk, n: Dinode, e: Disk, m: Dinode, off: nat, src: seq<byte>)
    requires Overlaid(d, n, e, m, off, src)
    ensures off <= n.size && NoHoles(e, m, Max(n.size, off + |src|))
  {
  }

  /** The write, its new size and its inode, as seen after iupdate. */
  lemma WriteStored(sb: SuperBlock, d: Disk, nodes: seq<Dinode>, mid: Disk, e: Disk, nodes': seq<Dinode>,
                    i: nat, off: nat, src: seq<byte>)
    requires i < |nodes| == |nodes'| && nodes[i].size <= MAXFILE * BSIZE && nodes' == nodes[i := nodes'[i]]
    requires nodes'[i].size == Max(nodes[i].size, off + |src|)
    requires var m := nodes'[i].(size := nodes[i].size); Wrote(sb, d, nodes, mid, nodes[i := m], i, off, src)
    requires forall j: nat | j < |nodes'| :: KeepsBlocks(mid, nodes'[j], e, nodes'[j])
    ensures nodes'[i].size <= MAXFILE * BSIZE && off <= nodes[i].size
    ensures Content(e, nodes'[i]) == Splice(Content(d, nodes[i]), off, src)
    ensures forall j: nat | j < |nodes| && j != i :: KeepsBlocks(d, nodes[j], e, nodes'[j])
  {
    var m := nodes'[i].(size := nodes[i].size);
    SameAddrs(mid, m, nodes'[i]);
    assert forall bn: nat | bn < MAXFILE :: DataBlock(mid, nodes'[i], bn) == DataBlock(mid, m, bn);
    OverlaidContent(d, nodes[i], mid, nodes'[i], off, src);
    KeepsContent(mid, nodes'[i], e, nodes'[i]);
    forall j: nat | j < |nodes| && j != i
      ensures KeepsBlocks(d, nodes[j], e, nodes'[j])
    {
      KeepsTrans(d, nodes[j], mid, nodes[j], e, nodes'[j]);
    }
  }

  /** The size field has no say in where bytes live. */
  lemma SameAddrs(d: Disk, n: Dinode, m: Dinode)
    requires n.addrs == m.addrs
    ensures forall s: nat | s < NSLOTS :: Slot(d, n, s) == Slot(d, m, s)
    ensures forall k: nat | k < MAXFILE * BSIZE :: ByteAt(d, n, k) == ByteAt(d, m, k)
  {
  }

  lemma BitIndex(b: nat, bi: nat)
    requires b % BPB == 0 && bi < BPB
    ensures (b + bi) / BPB == b / BPB && (b + bi) % BPB == bi && (b + bi) % 8 == bi % 8
  {
    var q := b / BPB;
    assert b == 8192 * q;
    assert (8192 * q + bi) / 8192 == q;
    assert (8 * (1024 * q) + bi) % 8 == bi % 8;
  }

  /** The scan's view of bit bi of the bitmap block that starts at block b. */
  lemma BitInBlock(sb: SuperBlock, d: Disk, b: nat, bi: nat)
    requires Formatted(sb, d) && b % BPB == 0 && bi < BPB && b + bi < sb.size
    ensures sb.BBlock(b) < |d| && sb.BBlock(b + bi) == sb.BBlock(b)
    ensures var x := d[sb.BBlock(b)][bi / 8];
            && (Bit(sb, d, b + bi) <==> TestBit(x, bi % 8))
            && SetBit(x, bi % 8) < 256
            && FlipOn(sb, d, b + bi) == d[sb.BBlock(b) := d[sb.BBlock(b)][bi / 8 := SetBit(x, bi % 8)]]
  {
    hide TestBit, SetBit;
    BitIndex(b, bi);
    ByteBitsFit(d[sb.BBlock(b)][bi / 8], bi % 8);
  }

  lemma TakenAndZeroed(sb: SuperBlock, d: Disk, b: nat)
    requires Formatted(sb, d) && sb.DataStart() <= b < sb.size && !Bit(sb, d, b)
    ensures Allocated(sb, d, FlipOn(sb, d, b)[b := ZeroBlock()], b)
  {
    var e := FlipOn(sb, d, b)[b := ZeroBlock()];
    forall x: nat | x < sb.size
      ensures Bit(sb, e, x) <==> x == b || Bit(sb, d, x)
    {
      FlipOnExact(sb, d, b, x);
      assert sb.BBlock(x) < sb.DataStart();
    }
  }
}
