/** dirlookup, dirlink and the directory part of unlink, on the real byte layout. */
module Directory {
  import opened Bytes
  import opened Layout
  import opened BlockMap
  import opened FileData
  import opened DirFormat
  import opened FileSystem
  import opened Space

  /** ip is a directory whose bytes are whole records with distinct names. */
  ghost predicate IsDir(fs: Fs, ip: MemInode)
    reads fs, ip
  {
    && fs.Valid() && fs.Holds(ip) && ip.typ == T_DIR && ip.size <= MAXFILE * BSIZE
    && DirOk(Content(fs.blocks, ip.Copy()))
  }

  /** Reading has changed nothing. */
  twostate predicate Untouched(fs: Fs, dp: MemInode)
    reads fs, dp
  {
    fs.blocks == old(fs.blocks) && fs.nodes == old(fs.nodes) && fs.owner == old(fs.owner) && dp.addrs == old(dp.addrs)
  }

  function CharAt(s: seq<byte>, i: nat): byte {
    if i < |s| then s[i] else 0
  }

  /** strncmp(s, t, DIRSIZ) == 0: agreement up to the first NUL or 14 bytes. */
  method Namecmp(s: seq<byte>, t: seq<byte>) returns (same: bool)
    ensures same <==> KeyOf(s, DIRSIZ) == KeyOf(t, DIRSIZ)
  {
    var i := 0;
    while i < DIRSIZ
      invariant i <= DIRSIZ && i <= |s| && i <= |t| && s[..i] == t[..i] && 0 !in s[..i]
    {
      KeyStep(s, t, i);
      if CharAt(s, i) != CharAt(t, i) {
        return false;
      }
      if CharAt(s, i) == 0 {
        return true;
      }
      i := i + 1;
    }
    KeyStep(s, t, i);
    same := true;
  }

  lemma KeyStep(s: seq<byte>, t: seq<byte>, i: nat)
    requires i <= DIRSIZ && i <= |s| && i <= |t| && s[..i] == t[..i] && 0 !in s[..i]
    ensures i < DIRSIZ && CharAt(s, i) != CharAt(t, i) ==> KeyOf(s, DIRSIZ) != KeyOf(t, DIRSIZ)
    ensures i == DIRSIZ || CharAt(s, i) == CharAt(t, i) == 0 ==> KeyOf(s, DIRSIZ) == KeyOf(t, DIRSIZ)
  {
    KeyFrom(s, i);
    KeyFrom(t, i);
  }

  lemma KeyFrom(s: seq<byte>, i: nat)
    requires i <= DIRSIZ && i <= |s| && 0 !in s[..i]
    ensures |KeyOf(s, DIRSIZ)| >= i && KeyOf(s, DIRSIZ)[..i] == s[..i]
    ensures i < DIRSIZ ==> (|KeyOf(s, DIRSIZ)| == i <==> CharAt(s, i) == 0)
    ensures i < DIRSIZ && CharAt(s, i) != 0 ==> KeyOf(s, DIRSIZ)[i] == CharAt(s, i)
  {
    var k := KeyOf(s, DIRSIZ);
    if i < |k| {
      assert k[i] != 0;
    }
  }

  /** Scan the directory for a name. The panics on a short read cannot happen. */
  method Dirlookup(fs: Fs, dp: MemInode, name: seq<byte>) returns (inum: nat, poff: nat)
    requires IsDir(fs, dp)
    modifies fs, dp`addrs
    ensures IsDir(fs, dp)
    ensures Untouched(fs, dp)
    ensures var m := DirMap(Content(fs.blocks, dp.Copy()));
            (inum != 0 <==> KeyOf(name, DIRSIZ) in m) && (inum != 0 ==> inum == m[KeyOf(name, DIRSIZ)])
    ensures inum != 0 ==> var c := Content(fs.blocks, dp.Copy());
            var e := Find(c, KeyOf(name, DIRSIZ), 0); poff == DIRENT * e && Live(c, e)
  {
    hide Fs.Valid, Content, DirMap, Find, NameAt, Inum;
    ghost var c := Content(fs.blocks, dp.Copy());
    LookupIsScan(c, KeyOf(name, DIRSIZ));
    var off := 0;
    while off < dp.size
      invariant off % DIRENT == 0 && off <= dp.size && IsDir(fs, dp)
      invariant Untouched(fs, dp)
      invariant c == Content(fs.blocks, dp.Copy()) && |c| == dp.size
      invariant Find(c, KeyOf(name, DIRSIZ), 0) >= off / DIRENT
    {
      var r, de := fs.Readi(dp, DIRENT, off, DIRENT);
      RecordRead(c, off, de);
      FindStep(c, KeyOf(name, DIRSIZ), off / DIRENT);
      if GetHalf(de, 0) != 0 {
        var same := Namecmp(name, de[2..16]);
        if same {
          return GetHalf(de, 0), off;
        }
      }
      off := off + DIRENT;
    }
    inum, poff := 0, 0;
  }

  lemma FindStep(c: seq<byte>, k: Key, e: nat)
    requires e < Count(c) && Find(c, k, 0) >= e
    ensures Live(c, e) && NameAt(c, e) == k ==> Find(c, k, 0) == e
    ensures !(Live(c, e) && NameAt(c, e) == k) ==> Find(c, k, 0) >= e + 1
  {
  }

  /** A 16-byte read at a record boundary is that record. */
  lemma RecordRead(c: seq<byte>, off: nat, de: seq<byte>)
    requires |c| % DIRENT == 0 && off % DIRENT == 0 && off < |c|
    requires de == c[off..off + Min(DIRENT, |c| - off)]
    ensures |de| == DIRENT && off / DIRENT < Count(c)
    ensures GetHalf(de, 0) == Inum(c, off / DIRENT) && KeyOf(de[2..16], DIRSIZ) == NameAt(c, off / DIRENT)
  {
    assert off == DIRENT * (off / DIRENT);
    assert de[2..16] == c[off + 2..off + 16];
  }

  /** dirlink's second loop: the first free record, or the end of the directory. */
  method FreeRecord(fs: Fs, dp: MemInode) returns (off: nat)
    requires IsDir(fs, dp)
    modifies fs, dp`addrs
    ensures IsDir(fs, dp)
    ensures Untouched(fs, dp)
    ensures off <= dp.size && off == DIRENT * FreeFrom(Content(fs.blocks, dp.Copy()), 0)
  {
    hide Fs.Valid, Content, FreeFrom, Inum, NameAt;
    ghost var c := Content(fs.blocks, dp.Copy());
    off := 0;
    while off < dp.size
      invariant off % DIRENT == 0 && off <= dp.size && IsDir(fs, dp)
      invariant Untouched(fs, dp)
      invariant c == Content(fs.blocks, dp.Copy()) && |c| == dp.size
      invariant FreeFrom(c, 0) >= off / DIRENT
    {
      var r, de := fs.Readi(dp, DIRENT, off, DIRENT);
      RecordRead(c, off, de);
      FreeStep(c, off / DIRENT);
      if GetHalf(de, 0) == 0 {
        break;
      }
      off := off + DIRENT;
    }
    FreeStep(c, off / DIRENT);
  }

  lemma FreeStep(c: seq<byte>, e: nat)
    requires e <= FreeFrom(c, 0)
    ensures e <= Count(c) && (Live(c, e) ==> e < FreeFrom(c, 0)) && (!Live(c, e) ==> FreeFrom(c, 0) == e)
  {
  }

  /** What one directory update leaves alone: every other inode, in memory and on disk. */
  twostate predicate OthersKept(fs: Fs, dp: MemInode)
    requires old(fs.Valid()) && fs.Valid() && old(fs.Holds(dp)) && fs.Holds(dp)
    reads fs, dp
  {
    && fs.nodes == old(fs.nodes)[dp.inum := dp.Copy()]
    && dp.Copy() == old(dp.Copy()).(addrs := dp.addrs, size := dp.size)
    && (forall j: nat | j < |fs.nodes| && j != dp.inum :: DiskInode(fs.sb, fs.blocks, j) == DiskInode(fs.sb, old(fs.blocks), j))
    && (forall j: nat | j < |fs.nodes| && j != dp.inum :: KeepsBlocks(old(fs.blocks), fs.nodes[j], fs.blocks, fs.nodes[j]))
  }

  /** writei of one record at a record boundary: written whole, or nothing changes. */
  method WriteRecord(fs: Fs, dp: MemInode, off: nat, inum: uint16, name: seq<byte>) returns (ok: bool)
    requires IsDir(fs, dp) && off % DIRENT == 0 && off <= dp.size && |name| == DIRSIZ
    requires DiskInode(fs.sb, fs.blocks, dp.inum) == dp.Copy()
    modifies fs, dp`addrs, dp`size
    ensures fs.Valid() && fs.Holds(dp) && dp.size <= MAXFILE * BSIZE && OthersKept(fs, dp)
    ensures DiskInode(fs.sb, fs.blocks, dp.inum) == dp.Copy()
    ensures var c := old(Content(fs.blocks, dp.Copy()));
            && |c| % DIRENT == 0
            && Content(fs.blocks, dp.Copy()) == if ok then PutEntry(c, off / DIRENT, inum, name) else c
    ensures Disown(fs.owner, dp.inum) == old(Disown(fs.owner, dp.inum))
    ensures ok <==> off < MAXFILE * BSIZE && old(Lacking(fs.blocks, dp.Copy(), off / BSIZE)) <= old(FreeCount(fs.sb, fs.blocks))
    ensures ok ==> FreeCount(fs.sb, fs.blocks) == old(FreeCount(fs.sb, fs.blocks)) - old(Lacking(fs.blocks, dp.Copy(), off / BSIZE))
    ensures off < old(dp.size) ==> ok
  {
    hide Fs.Valid, Content, Splice, KeepsBlocks, DirOk, DiskInode, Bit, Lacking, FreeCount, Disown;
    ghost var c := Content(fs.blocks, dp.Copy());
    WholeRecords(c);
    NothingLacking(fs, dp, off);
    SelfKept(fs);
    var de := Encode(inum, name);
    var r := fs.Writei(dp, de, off, DIRENT);
    RecordBoundary(off, r);
    assert off == DIRENT * (off / DIRENT);
    if r == DIRENT {
      assert de[..16] == de;
    } else if r == 0 {
      SpliceNothing(c, off);
    }
    ok := r == DIRENT;
  }

  /** Add (name, inum): exactly an absent name, where there is a free record or the directory can grow
      by one, goes into the first free place; otherwise the bytes stay as they were. */
  method Dirlink(fs: Fs, dp: MemInode, name: seq<byte>, inum: uint16) returns (r: int)
    requires IsDir(fs, dp) && inum != 0
    requires DiskInode(fs.sb, fs.blocks, dp.inum) == dp.Copy()
    modifies fs, dp`addrs, dp`size
    ensures IsDir(fs, dp) && OthersKept(fs, dp)
    ensures DiskInode(fs.sb, fs.blocks, dp.inum) == dp.Copy()
    ensures var m := old(DirMap(Content(fs.blocks, dp.Copy())));
            var key := KeyOf(name, DIRSIZ);
            && r == (if key !in m && old(EntryFits(fs.blocks, dp.Copy(), FreeCount(fs.sb, fs.blocks))) then 0 else -1)
            && DirMap(Content(fs.blocks, dp.Copy())) == if r == 0 then m[key := inum] else m
    ensures r == -1 ==> Content(fs.blocks, dp.Copy()) == old(Content(fs.blocks, dp.Copy()))
    ensures r == 0 ==> FreeCount(fs.sb, fs.blocks) == old(FreeCount(fs.sb, fs.blocks)) - old(EntryCost(fs.blocks, dp.Copy()))
    ensures Disown(fs.owner, dp.inum) == old(Disown(fs.owner, dp.inum))
    ensures r == 0 ==> exists e: nat :: AppendedAt(old(Content(fs.blocks, dp.Copy())), Content(fs.blocks, dp.Copy()), e, inum, name)
  {
    hide Fs.Valid, Content, DirMap, KeepsBlocks, DirOk, DiskInode, PutEntry, Live, Lacking, FreeCount, Disown, EntryFits, EntryCost, FreeFrom;
    ghost var c := Content(fs.blocks, dp.Copy());
    SelfKept(fs);
    var there, poff := Dirlookup(fs, dp, name);
    if there != 0 {
      return -1;
    }
    var off := FreeRecord(fs, dp);
    FitsAt(fs.blocks, dp.Copy(), off, FreeCount(fs.sb, fs.blocks));
    FreeStep(c, off / DIRENT);
    WholeRecords(c);
    PadKey(name);
    InsertEntry(c, off / DIRENT, inum, Pad(name));
    var ok := WriteRecord(fs, dp, off, inum, Pad(name));
    if !ok {
      return -1;
    }
    assert AppendedAt(c, Content(fs.blocks, dp.Copy()), off / DIRENT, inum, name);
    r := 0;
  }

  /** The new record went into the first free place. */
  ghost predicate AppendedAt(c: seq<byte>, c': seq<byte>, e: nat, inum: uint16, name: seq<byte>) {
    && |c| % DIRENT == 0 && e <= Count(c) && !Live(c, e)
    && (forall f: nat | f < e :: Live(c, f))
    && c' == PutEntry(c, e, inum, Pad(name))
  }

  lemma SelfKept(fs: Fs)
    requires fs.Valid()
    ensures forall j: nat | j < |fs.nodes| :: KeepsBlocks(fs.blocks, fs.nodes[j], fs.blocks, fs.nodes[j])
  {
    AllKeepBlocks(fs.sb, fs.blocks, fs.blocks, fs.nodes, fs.nodes, fs.owner);
  }

  /** The blocks of what a file holds already are there. */
  lemma NothingLacking(fs: Fs, ip: MemInode, off: nat)
    requires fs.Valid() && fs.Holds(ip) && ip.size <= MAXFILE * BSIZE
    ensures off < ip.size ==> Lacking(fs.blocks, ip.Copy(), off / BSIZE) == 0
  {
    hide Inv;
    NodeContent(fs.sb, fs.blocks, fs.nodes, fs.owner, ip.inum);
  }

  lemma WholeRecords(c: seq<byte>)
    requires DirOk(c)
    ensures |c| % DIRENT == 0
  {
  }

  lemma SpliceNothing(c: seq<byte>, off: nat)
    requires off <= |c|
    ensures Splice(c, off, []) == c
  {
  }

  /** A record never straddles two blocks, so it is written whole or not at all. */
  lemma RecordBoundary(off: nat, r: int)
    requires off % DIRENT == 0
    ensures 0 <= r < DIRENT && (r == 0 || (off + r) % BSIZE == 0) ==> r == 0
    ensures off % BSIZE + DIRENT <= BSIZE
  {
  }

  /** unlink's write of a zeroed record over the entry at off; its panic cannot happen. */
  method ZeroEntry(fs: Fs, dp: MemInode, off: nat)
    requires IsDir(fs, dp) && off % DIRENT == 0 && Live(Content(fs.blocks, dp.Copy()), off / DIRENT)
    requires DiskInode(fs.sb, fs.blocks, dp.inum) == dp.Copy()
    modifies fs, dp`addrs, dp`size
    ensures IsDir(fs, dp) && OthersKept(fs, dp)
    ensures DiskInode(fs.sb, fs.blocks, dp.inum) == dp.Copy()
    ensures var c := old(Content(fs.blocks, dp.Copy()));
            && DirMap(Content(fs.blocks, dp.Copy())) == DirMap(c) - {NameAt(c, off / DIRENT)}
            && Content(fs.blocks, dp.Copy()) == PutEntry(c, off / DIRENT, 0, seq(DIRSIZ, _ => 0))
  {
    hide Fs.Valid, Content, DirMap, KeepsBlocks, DirOk, DiskInode, PutEntry;
    ghost var c := Content(fs.blocks, dp.Copy());
    WholeRecords(c);
    var zeros: seq<byte> := seq(DIRSIZ, _ => 0);
    var ok := WriteRecord(fs, dp, off, 0, zeros);
    RemoveEntry(c, off / DIRENT);
  }

  /** Is every record after "." and ".." free? */
  method Isdirempty(fs: Fs, dp: MemInode) returns (empty: bool)
    requires IsDir(fs, dp)
    modifies fs, dp`addrs
    ensures IsDir(fs, dp)
    ensures Untouched(fs, dp)
    ensures empty <==> forall e: nat | 2 <= e :: !Live(Content(fs.blocks, dp.Copy()), e)
  {
    hide Fs.Valid, Content;
    ghost var c := Content(fs.blocks, dp.Copy());
    var off := 2 * DIRENT;
    while off < dp.size
      invariant off % DIRENT == 0 && 2 * DIRENT <= off && IsDir(fs, dp)
      invariant Untouched(fs, dp)
      invariant c == Content(fs.blocks, dp.Copy()) && |c| == dp.size
      invariant forall e: nat | 2 <= e < off / DIRENT :: !Live(c, e)
    {
      var r, de := fs.Readi(dp, DIRENT, off, DIRENT);
      RecordRead(c, off, de);
      if GetHalf(de, 0) != 0 {
        assert 2 <= off / DIRENT && Live(c, off / DIRENT);
        return false;
      }
      off := off + DIRENT;
    }
    empty := true;
  }
}
