/** The steps of create, sys_link, sys_unlink, sys_chmod and iput under their locks, run on the disk
    bytes, and what each does to the tree. */
module SysFile {
  import opened Bytes
  import opened Layout
  import opened BlockMap
  import opened FileData
  import opened DirFormat
  import opened FileSystem
  import opened Space
  import opened Directory
  import opened LinkLaw
  import opened InodeRefs

  // --- from disk image to tree ---------------------------------------------------

  function NodeView(d: Disk, n: Dinode): Node {
    if n.typ == 0 then FreeNode()
    else if n.typ == T_DIR && n.size <= MAXFILE * BSIZE then Node(T_DIR, n.nlink, DirMap(Content(d, n)))
    else Node(n.typ, n.nlink, map[])
  }

  function View(d: Disk, nodes: seq<Dinode>): (t: Tree)
    ensures |t| == |nodes|
    ensures forall i | 0 <= i < |t| :: t[i] == NodeView(d, nodes[i])
  {
    seq(|nodes|, i requires 0 <= i < |nodes| => NodeView(d, nodes[i]))
  }

  /** "." and ".." are the first two records, and the rest is in order. */
  ghost predicate DirShape(c: seq<byte>) {
    DirOk(c) && Live(c, 0) && NameAt(c, 0) == DOT && Live(c, 1) && NameAt(c, 1) == DOTDOT
  }

  /** Every directory is well formed, x aside (0 for no exception: inode 0 is never used). */
  ghost predicate DirsOk(d: Disk, nodes: seq<Dinode>, x: nat) {
    forall i: nat | 0 < i < |nodes| && nodes[i].typ == T_DIR && i != x ::
      nodes[i].size <= MAXFILE * BSIZE && DirShape(Content(d, nodes[i]))
  }

  /** A consistent image: ownership holds, the inode table is stored, directories are
      well formed, and every link count is right. */
  ghost predicate Good(fs: Fs, pend: seq<nat>)
    reads fs
  {
    && fs.Valid() && fs.Clean() && DirsOk(fs.blocks, fs.nodes, 0)
    && Lawful(View(fs.blocks, fs.nodes), pend)
  }

  /** Only inode i has changed. */
  ghost predicate OnlyInode(d: Disk, nodes: seq<Dinode>, e: Disk, nodes': seq<Dinode>, i: nat) {
    && i < |nodes| == |nodes'| && nodes' == nodes[i := nodes'[i]]
    && forall j: nat | j < |nodes| && j != i :: KeepsBlocks(d, nodes[j], e, nodes'[j])
  }

  lemma ViewStep(sb: SuperBlock, d: Disk, nodes: seq<Dinode>, owner: Owner, e: Disk, nodes': seq<Dinode>, i: nat, x: nat)
    requires Inv(sb, d, nodes, owner) && OnlyInode(d, nodes, e, nodes', i) && DirsOk(d, nodes, x)
    ensures View(e, nodes') == View(d, nodes)[i := NodeView(e, nodes'[i])]
    ensures nodes'[i].typ == T_DIR && i != x ==> 
            ((nodes'[i].size <= MAXFILE * BSIZE && DirShape(Content(e, nodes'[i]))) ==> DirsOk(e, nodes', x))
    ensures nodes'[i].typ != T_DIR || i == x ==> DirsOk(e, nodes', x)
  {
    forall j: nat | j < |nodes| && j != i
      ensures nodes[j].size <= MAXFILE * BSIZE && Content(e, nodes'[j]) == Content(d, nodes[j])
    {
      KeptContent(sb, d, nodes, owner, j, e);
    }
  }

  // --- what the tree does not show -----------------------------------------------------

  /** An inode but for its links: a directory's size and blocks go with its names. */
  datatype File = Nothing | File(record: Dinode, content: seq<byte>)

  function FileView(d: Disk, n: Dinode): File {
    if n.typ == 0 then Nothing
    else if n.typ == T_DIR then File(n.(nlink := 0, size := 0, addrs := NoAddrs()), [])
    else File(n.(nlink := 0), if n.size <= MAXFILE * BSIZE then Content(d, n) else [])
  }

  function Files(d: Disk, nodes: seq<Dinode>): (f: seq<File>)
    ensures |f| == |nodes|
    ensures forall i | 0 <= i < |f| :: f[i] == FileView(d, nodes[i])
  {
    seq(|nodes|, i requires 0 <= i < |nodes| => FileView(d, nodes[i]))
  }

  ghost function FilesOf(fs: Fs): (f: seq<File>)
    reads fs
    ensures |f| == |fs.nodes|
  {
    Files(fs.blocks, fs.nodes)
  }

  /** Files have gone, and nothing else has happened to any. */
  ghost predicate FilesKept(f: seq<File>, g: seq<File>) {
    |g| == |f| && forall j: nat | j < |f| :: g[j] == Nothing || g[j] == f[j]
  }

  /** What a call leaves alone of every inode that is in use after it, inode r (-1 for none) aside: type, device numbers and
      permissions, and of all but directories everything but the link count, contents included. */
  ghost predicate InodesKept(d: Disk, nodes: seq<Dinode>, e: Disk, nodes': seq<Dinode>, r: int) {
    && |nodes'| == |nodes|
    && forall j: nat | j < |nodes| && j != r && nodes'[j].typ != 0 ::
         && nodes'[j].typ == nodes[j].typ && nodes'[j].permissions == nodes[j].permissions
         && nodes'[j].major == nodes[j].major && nodes'[j].minor == nodes[j].minor
         && (nodes[j].typ != T_DIR ==>
               && nodes'[j] == nodes[j].(nlink := nodes'[j].nlink)
               && nodes[j].size <= MAXFILE * BSIZE && Content(e, nodes'[j]) == Content(d, nodes[j]))
  }

  lemma KeptInodes(sb: SuperBlock, d: Disk, nodes: seq<Dinode>, owner: Owner, e: Disk, nodes': seq<Dinode>, r: int)
    requires Inv(sb, d, nodes, owner) && |nodes'| == |nodes|
    requires forall j: nat | j < |nodes| && j != r :: Files(e, nodes')[j] == Nothing || Files(e, nodes')[j] == Files(d, nodes)[j]
    ensures InodesKept(d, nodes, e, nodes', r)
  {
    hide Inv, FileView, Content;
    forall j: nat | j < |nodes| && j != r && nodes'[j].typ != 0
      ensures nodes[j].size <= MAXFILE * BSIZE && FileView(e, nodes'[j]) == FileView(d, nodes[j]) != Nothing
    {
      FileAt(d, nodes, j);
      FileAt(e, nodes', j);
      NodeContent(sb, d, nodes, owner, j);
    }
    forall j: nat | j < |nodes| && j != r && nodes'[j].typ != 0
      ensures nodes'[j].typ == nodes[j].typ && nodes'[j].permissions == nodes[j].permissions
      ensures nodes'[j].major == nodes[j].major && nodes'[j].minor == nodes[j].minor
      ensures nodes[j].typ != T_DIR ==>
                nodes'[j] == nodes[j].(nlink := nodes'[j].nlink) && nodes[j].size <= MAXFILE * BSIZE && Content(e, nodes'[j]) == Content(d, nodes[j])
    {
      SameRecord(d, nodes[j], e, nodes'[j]);
    }
  }

  lemma KeptSame(f: seq<File>)
    ensures FilesKept(f, f)
  {
  }

  lemma FileTag(d: Disk, nodes: seq<Dinode>, i: nat)
    requires i < |nodes|
    ensures Files(d, nodes)[i] == Nothing <==> View(d, nodes)[i].typ == 0
  {
    FileAt(d, nodes, i);
    ViewTag(d, nodes, i);
  }

  lemma KeptTrans(f: seq<File>, g: seq<File>, h: seq<File>)
    requires FilesKept(f, g) && FilesKept(g, h)
    ensures FilesKept(f, h)
  {
  }

  lemma KeptAll(sb: SuperBlock, d: Disk, nodes: seq<Dinode>, owner: Owner, e: Disk, nodes': seq<Dinode>)
    requires Inv(sb, d, nodes, owner) && FilesKept(Files(d, nodes), Files(e, nodes'))
    ensures InodesKept(d, nodes, e, nodes', -1)
  {
    hide Inv, Files, InodesKept;
    assert |Files(d, nodes)| == |nodes| && |Files(e, nodes')| == |nodes'|;
    KeptInodes(sb, d, nodes, owner, e, nodes', -1);
  }

  lemma SameRecord(d: Disk, n: Dinode, e: Disk, m: Dinode)
    requires FileView(d, n) == FileView(e, m) != Nothing
    ensures m.typ == n.typ && m.permissions == n.permissions && m.major == n.major && m.minor == n.minor
    ensures n.typ != T_DIR ==> m == n.(nlink := m.nlink)
    ensures n.typ != T_DIR && n.size <= MAXFILE * BSIZE ==> Content(e, m) == Content(d, n)
  {
    hide Content;
    assert FileView(d, n).record == FileView(e, m).record && FileView(d, n).content == FileView(e, m).content;
  }

  lemma FilesStep(sb: SuperBlock, d: Disk, nodes: seq<Dinode>, owner: Owner, e: Disk, nodes': seq<Dinode>, i: nat)
    requires Inv(sb, d, nodes, owner) && OnlyInode(d, nodes, e, nodes', i)
    ensures Files(e, nodes') == Files(d, nodes)[i := FileView(e, nodes'[i])]
  {
    hide Content;
    forall j: nat | j < |nodes| && j != i
      ensures nodes[j].size <= MAXFILE * BSIZE && Content(e, nodes'[j]) == Content(d, nodes[j])
    {
      KeptContent(sb, d, nodes, owner, j, e);
    }
  }

  lemma FileAt(d: Disk, nodes: seq<Dinode>, i: nat)
    requires i < |nodes|
    ensures Files(d, nodes)[i] == FileView(d, nodes[i]) && Files(d, nodes) == Files(d, nodes)[i := FileView(d, nodes[i])]
    ensures Files(d, nodes)[i] == Nothing <==> nodes[i].typ == 0
  {
    hide Content;
  }

  /** A directory as a file is its record: what it names has no part in it. */
  lemma DirFile(d: Disk, n: Dinode, e: Disk, m: Dinode)
    requires n.typ == T_DIR && m == n.(addrs := m.addrs, size := m.size, nlink := m.nlink)
    ensures FileView(e, m) == FileView(d, n)
  {
  }

  lemma DirFilesSame(sb: SuperBlock, d: Disk, nodes: seq<Dinode>, owner: Owner, e: Disk, nodes': seq<Dinode>, i: nat)
    requires Inv(sb, d, nodes, owner) && OnlyInode(d, nodes, e, nodes', i)
    requires nodes[i].typ == T_DIR && nodes'[i] == nodes[i].(addrs := nodes'[i].addrs, size := nodes'[i].size)
    ensures Files(e, nodes') == Files(d, nodes)
  {
    hide Inv, Files, Content;
    FilesStep(sb, d, nodes, owner, e, nodes', i);
    FileAt(d, nodes, i);
    DirFile(d, nodes[i], e, nodes'[i]);
  }

  lemma DotKeys()
    ensures KeyOf(DOT, DIRSIZ) == DOT && KeyOf(DOTDOT, DIRSIZ) == DOTDOT
  {
    KeyOfPrefix(DOT, [], DIRSIZ);
    KeyOfPrefix(DOTDOT, [], DIRSIZ);
    assert DOT + [] == DOT && DOTDOT + [] == DOTDOT;
  }

  /** Inserting past the first two records keeps them. */
  lemma ShapeInsert(c: seq<byte>, c': seq<byte>, e: nat, inum: uint16, name: seq<byte>)
    requires DirShape(c) && AppendedAt(c, c', e, inum, name) && DirOk(c')
    ensures DirShape(c')
  {
    PutEntryReads(c, e, inum, Pad(name));
  }

  lemma ShapeRemove(c: seq<byte>, e: nat)
    requires DirShape(c) && Live(c, e) && Plain(NameAt(c, e))
    ensures DirShape(PutEntry(c, e, 0, seq(DIRSIZ, _ => 0)))
  {
    RemoveEntry(c, e);
    PutEntryReads(c, e, 0, seq(DIRSIZ, _ => 0));
  }

  /** In a well-formed directory, a free tail means only "." and ".." are named. */
  lemma EmptyMeansDots(c: seq<byte>, k: Key)
    requires DirShape(c) && (forall e: nat | 2 <= e :: !Live(c, e)) && k in DirMap(c)
    ensures !Plain(k)
  {
    LookupIsScan(c, k);
  }

  lemma DotsInMap(c: seq<byte>)
    requires DirShape(c)
    ensures DOT in DirMap(c) && DOTDOT in DirMap(c)
  {
    LiveInMap(c, 0);
    LiveInMap(c, 1);
  }

  // --- one locked step at a time ---------------------------------------------------

  /** The state between the steps of a system call, directory x under construction. */
  ghost predicate Steady(fs: Fs, x: nat)
    reads fs
  {
    fs.Valid() && fs.Clean() && DirsOk(fs.blocks, fs.nodes, x)
  }

  ghost function TreeOf(fs: Fs): Tree
    reads fs
  {
    View(fs.blocks, fs.nodes)
  }

  /** dirlink into a well-formed directory: one entry more in the tree, where the name is absent and there is
      room; otherwise no change. */
  method Link(fs: Fs, dp: MemInode, name: seq<byte>, inum: nat, ghost x: nat) returns (ok: bool)
    requires Steady(fs, x) && fs.Holds(dp) && dp.typ == T_DIR && dp.inum != x && dp.inum != 0
    requires 0 < inum < |fs.nodes|
    modifies fs, dp`addrs, dp`size
    ensures Steady(fs, x) && fs.Holds(dp) && |fs.nodes| == old(|fs.nodes|)
    ensures OnlyInode(old(fs.blocks), old(fs.nodes), fs.blocks, fs.nodes, dp.inum)
    ensures var k := KeyOf(name, DIRSIZ);
            && TreeOf(fs) == (if ok then AddEntry(old(TreeOf(fs)), dp.inum, k, inum) else old(TreeOf(fs)))
            && (ok ==> Plain(k))
            && (ok <==> k !in old(TreeOf(fs))[dp.inum].dir && old(EntryFits(fs.blocks, dp.Copy(), FreeCount(fs.sb, fs.blocks))))
    ensures ok ==> FreeCount(fs.sb, fs.blocks) == old(FreeCount(fs.sb, fs.blocks)) - old(EntryCost(fs.blocks, dp.Copy()))
    ensures Disown(fs.owner, dp.inum) == old(Disown(fs.owner, dp.inum))
    ensures FilesOf(fs) == old(FilesOf(fs)) && dp.Copy() == old(dp.Copy()).(addrs := dp.addrs, size := dp.size)
  {
    hide Inv, Content, DirMap, KeepsBlocks, DirOk, DiskInode, Live, View, AppendedAt, KeyOf, EntryFits, EntryCost, FreeCount, Disown, Files;
    InodesFit(fs);
    assert DirShape(Content(fs.blocks, dp.Copy()));
    DotsInMap(Content(fs.blocks, dp.Copy()));
    var r := Dirlink(fs, dp, name, inum);
    if r == 0 {
      ghost var e: nat :| AppendedAt(old(Content(fs.blocks, dp.Copy())), Content(fs.blocks, dp.Copy()), e, inum, name);
      ShapeInsert(old(Content(fs.blocks, dp.Copy())), Content(fs.blocks, dp.Copy()), e, inum, name);
    }
    ViewStep(fs.sb, old(fs.blocks), old(fs.nodes), old(fs.owner), fs.blocks, fs.nodes, dp.inum, x);
    ViewAt(old(fs.blocks), old(fs.nodes), dp.inum);
    DirFilesSame(fs.sb, old(fs.blocks), old(fs.nodes), old(fs.owner), fs.blocks, fs.nodes, dp.inum);
    ok := r == 0;
  }

  lemma InodesFit(fs: Fs)
    requires fs.Valid()
    ensures |fs.nodes| <= 0x1_0000 && |fs.nodes| == fs.sb.ninodes
  {
  }

  lemma ViewAt(d: Disk, nodes: seq<Dinode>, i: nat)
    requires i < |nodes|
    ensures View(d, nodes)[i] == NodeView(d, nodes[i])
    ensures View(d, nodes) == View(d, nodes)[i := NodeView(d, nodes[i])]
  {
  }

  /** ip->nlink = ...; iupdate(ip): only the link count shows in the tree. */
  method Meta(fs: Fs, ip: MemInode, major: short, minor: short, nlink: short, ghost x: nat)
    requires Steady(fs, x) && fs.Holds(ip) && ip.typ != 0 && ip.inum != 0
    modifies fs, ip`major, ip`minor, ip`nlink, ip`permissions
    ensures Steady(fs, x) && fs.Holds(ip) && |fs.nodes| == old(|fs.nodes|) && ip.nlink == nlink && ip.permissions == old(ip.permissions)
    ensures OnlyInode(old(fs.blocks), old(fs.nodes), fs.blocks, fs.nodes, ip.inum)
    ensures TreeOf(fs) == old(TreeOf(fs))[ip.inum := old(TreeOf(fs))[ip.inum].(nlink := nlink)]
    ensures ip.size == old(ip.size) && ip.size <= MAXFILE * BSIZE
    ensures Content(fs.blocks, ip.Copy()) == old(Content(fs.blocks, ip.Copy()))
    ensures fs.owner == old(fs.owner) && ip.Copy() == old(ip.Copy()).(major := major, minor := minor, nlink := nlink)
    ensures FilesOf(fs) == old(FilesOf(fs))[ip.inum := FileView(fs.blocks, ip.Copy())]
    ensures major == old(ip.major) && minor == old(ip.minor) ==> FilesOf(fs) == old(FilesOf(fs))
  {
    hide Inv, Content, DirMap, KeepsBlocks, DirShape, DiskInode, View, Files;
    fs.SetMeta(ip, major, minor, nlink, ip.permissions);
    ViewStep(fs.sb, old(fs.blocks), old(fs.nodes), old(fs.owner), fs.blocks, fs.nodes, ip.inum, x);
    ViewAt(old(fs.blocks), old(fs.nodes), ip.inum);
    NodeContent(fs.sb, fs.blocks, fs.nodes, fs.owner, ip.inum);
    FilesStep(fs.sb, old(fs.blocks), old(fs.nodes), old(fs.owner), fs.blocks, fs.nodes, ip.inum);
    FileAt(old(fs.blocks), old(fs.nodes), ip.inum);
  }

  /** unlink's zeroed record: one entry less in the tree. */
  method Unname(fs: Fs, dp: MemInode, off: nat, ghost k: Key)
    requires Steady(fs, 0) && fs.Holds(dp) && dp.typ == T_DIR && dp.inum != 0 && Plain(k)
    requires dp.size <= MAXFILE * BSIZE && off % DIRENT == 0 && Live(Content(fs.blocks, dp.Copy()), off / DIRENT)
    requires NameAt(Content(fs.blocks, dp.Copy()), off / DIRENT) == k
    modifies fs, dp`addrs, dp`size
    ensures Steady(fs, 0) && fs.Holds(dp) && |fs.nodes| == old(|fs.nodes|)
    ensures OnlyInode(old(fs.blocks), old(fs.nodes), fs.blocks, fs.nodes, dp.inum)
    ensures TreeOf(fs) == DropEntry(old(TreeOf(fs)), dp.inum, k)
    ensures FilesOf(fs) == old(FilesOf(fs)) && dp.Copy() == old(dp.Copy()).(addrs := dp.addrs, size := dp.size)
  {
    hide Inv, Content, DirMap, KeepsBlocks, DirOk, DiskInode, View, NameAt, Live, Files;
    assert DirShape(Content(fs.blocks, dp.Copy()));
    ShapeRemove(Content(fs.blocks, dp.Copy()), off / DIRENT);
    ZeroEntry(fs, dp, off);
    ViewStep(fs.sb, old(fs.blocks), old(fs.nodes), old(fs.owner), fs.blocks, fs.nodes, dp.inum, 0);
    ViewAt(old(fs.blocks), old(fs.nodes), dp.inum);
    DirFilesSame(fs.sb, old(fs.blocks), old(fs.nodes), old(fs.owner), fs.blocks, fs.nodes, dp.inum);
  }

  /** The "." and ".." entries of a new directory; fails exactly when there is no block for them. */
  method MakeDots(fs: Fs, ip: MemInode, parent: nat) returns (ok: bool)
    requires Steady(fs, ip.inum) && fs.Holds(ip) && ip.typ == T_DIR && ip.size == 0
    requires 0 < ip.inum && 0 < parent < |fs.nodes|
    modifies fs, ip`addrs, ip`size
    ensures ok <==> old(Lacking(fs.blocks, ip.Copy(), 0)) <= old(FreeCount(fs.sb, fs.blocks))
    ensures ok ==> FreeCount(fs.sb, fs.blocks) == old(FreeCount(fs.sb, fs.blocks)) - old(Lacking(fs.blocks, ip.Copy(), 0))
    ensures Disown(fs.owner, ip.inum) == old(Disown(fs.owner, ip.inum))
    ensures FilesOf(fs) == old(FilesOf(fs)) && ip.Copy() == old(ip.Copy()).(addrs := ip.addrs, size := ip.size)
    ensures Steady(fs, ip.inum) && fs.Holds(ip) && |fs.nodes| == old(|fs.nodes|)
    ensures OnlyInode(old(fs.blocks), old(fs.nodes), fs.blocks, fs.nodes, ip.inum)
    ensures ok ==> Steady(fs, 0)
    ensures ok ==> TreeOf(fs) == old(TreeOf(fs))[ip.inum := Node(T_DIR, ip.nlink, map[DOT := ip.inum, DOTDOT := parent])]
    ensures !ok ==> TreeOf(fs) == old(TreeOf(fs))[ip.inum := TreeOf(fs)[ip.inum]]
  {
    hide Inv, Content, DirMap, KeepsBlocks, DirOk, DiskInode, Live, View, AppendedAt, KeyOf, DirShape, EntryFits, EntryCost, Lacking, FreeCount, Disown, Files;
    InodesFit(fs);
    EmptyDirOk(Content(fs.blocks, ip.Copy()));
    EmptyFits(fs.blocks, ip.Copy());
    DotKeys();
    ghost var c := Content(fs.blocks, ip.Copy());
    var r := Dirlink(fs, ip, DOT, ip.inum);
    ghost var b1, n1, c1 := fs.blocks, fs.nodes, Content(fs.blocks, ip.Copy());
    if r == 0 {
      ghost var e: nat :| AppendedAt(c, c1, e, ip.inum, DOT);
      SecondFits(fs, ip, c, c1, e, ip.inum, DOT);
      r := Dirlink(fs, ip, DOTDOT, parent);
      OnlyTrans(old(fs.blocks), old(fs.nodes), b1, n1, fs.blocks, fs.nodes, ip.inum);
    }
    ViewStep(fs.sb, old(fs.blocks), old(fs.nodes), old(fs.owner), fs.blocks, fs.nodes, ip.inum, ip.inum);
    ViewAt(fs.blocks, fs.nodes, ip.inum);
    DirFilesSame(fs.sb, old(fs.blocks), old(fs.nodes), old(fs.owner), fs.blocks, fs.nodes, ip.inum);
    ok := r == 0;
    if ok {
      ghost var c2 := Content(fs.blocks, ip.Copy());
      ghost var e: nat :| AppendedAt(c, c1, e, ip.inum, DOT);
      ghost var f: nat :| AppendedAt(c1, c2, f, parent, DOTDOT);
      DotsShape(c, c1, c2, e, f, ip.inum, parent);
      assert DirsOk(fs.blocks, fs.nodes, 0);
    }
  }

  /** The first record of an empty directory goes into its first block. */
  lemma EmptyFits(d: Disk, n: Dinode)
    requires n.size == 0
    ensures forall free: int :: EntryFits(d, n, free) <==> Lacking(d, n, 0) <= free
    ensures EntryCost(d, n) == Lacking(d, n, 0)
  {
    hide Lacking;
    assert FreeFrom(Content(d, n), 0) == 0;
  }

  /** And the second into the same block. */
  lemma SecondFits(fs: Fs, ip: MemInode, c: seq<byte>, c1: seq<byte>, e: nat, inum: uint16, name: seq<byte>)
    requires fs.Valid() && fs.Holds(ip) && ip.size <= MAXFILE * BSIZE && c1 == Content(fs.blocks, ip.Copy())
    requires c == [] && inum != 0 && AppendedAt(c, c1, e, inum, name)
    ensures forall free: int :: EntryFits(fs.blocks, ip.Copy(), free) <==> 0 <= free
    ensures EntryCost(fs.blocks, ip.Copy()) == 0
  {
    hide Inv, Lacking;
    PutEntryReads(c, e, inum, Pad(name));
    assert Live(c1, 0) && Count(c1) == 1;
    assert FreeFrom(c1, 1) == 1;
    NothingLacking(fs, ip, 0);
  }

  lemma OnlyTrans(d: Disk, nodes: seq<Dinode>, e: Disk, nodes': seq<Dinode>, f: Disk, nodes'': seq<Dinode>, i: nat)
    requires OnlyInode(d, nodes, e, nodes', i) && OnlyInode(e, nodes', f, nodes'', i)
    ensures OnlyInode(d, nodes, f, nodes'', i)
  {
    forall j: nat | j < |nodes| && j != i
      ensures KeepsBlocks(d, nodes[j], f, nodes''[j])
    {
      KeepsTrans(d, nodes[j], e, nodes'[j], f, nodes''[j]);
    }
  }

  lemma EmptyDirOk(c: seq<byte>)
    requires c == []
    ensures DirOk(c) && DirMap(c) == map[]
  {
  }

  /** Two dirlinks into an empty directory fill records 0 and 1. */
  lemma DotsShape(c: seq<byte>, c1: seq<byte>, c2: seq<byte>, e: nat, f: nat, i: uint16, p: uint16)
    requires c == [] && i != 0 && p != 0 && AppendedAt(c, c1, e, i, DOT) && AppendedAt(c1, c2, f, p, DOTDOT)
    requires DirOk(c2)
    ensures DirShape(c2)
  {
    DotKeys();
    PadKey(DOT);
    PadKey(DOTDOT);
    PutEntryReads(c, e, i, Pad(DOT));
    PutEntryReads(c1, f, p, Pad(DOTDOT));
  }

  /** ialloc, as the tree sees it. */
  method Claim(fs: Fs, typ: short, ghost pend: seq<nat>) returns (i: nat)
    requires Good(fs, pend) && typ != 0
    modifies fs
    ensures |fs.nodes| == old(|fs.nodes|)
    ensures i == 0 ==> Good(fs, pend) && TreeOf(fs) == old(TreeOf(fs))
    ensures i != 0 ==> i < |fs.nodes| && Steady(fs, i) && old(TreeOf(fs))[i] == FreeNode()
    ensures i != 0 ==> OnlyInode(old(fs.blocks), old(fs.nodes), fs.blocks, fs.nodes, i) && fs.nodes[i] == FreshInode(typ)
    ensures i != 0 ==> TreeOf(fs) == old(TreeOf(fs))[i := Node(typ, 0, map[])]
    ensures i != 0 && typ != T_DIR ==> Steady(fs, 0)
    ensures fs.owner == old(fs.owner) && i == LeastFree(old(TreeOf(fs)), 1)
    ensures i == 0 ==> FilesOf(fs) == old(FilesOf(fs))
    ensures i != 0 ==> FilesOf(fs) == old(FilesOf(fs))[i := FileView(fs.blocks, FreshInode(typ))] && old(FilesOf(fs))[i] == Nothing
  {
    hide Inv, DirMap, KeepsBlocks, DirShape, DiskInode, View, Lawful, Files;
    i := fs.Ialloc(typ);
    assert forall j: nat | 1 <= j < i :: old(fs.nodes)[j] == fs.nodes[j];
    LeastFreeIs(old(fs.blocks), old(fs.nodes), i);
    if i != 0 {
      assert |old(fs.nodes)| == |fs.nodes|;
      DirsOkWeaker(old(fs.blocks), old(fs.nodes), i);
      assert OnlyInode(old(fs.blocks), old(fs.nodes), fs.blocks, fs.nodes, i);
      ViewStep(fs.sb, old(fs.blocks), old(fs.nodes), old(fs.owner), fs.blocks, fs.nodes, i, i);
      ViewStep(fs.sb, old(fs.blocks), old(fs.nodes), old(fs.owner), fs.blocks, fs.nodes, i, 0);
      ViewAt(old(fs.blocks), old(fs.nodes), i);
      EmptyDirOk(Content(fs.blocks, fs.nodes[i]));
      FilesStep(fs.sb, old(fs.blocks), old(fs.nodes), old(fs.owner), fs.blocks, fs.nodes, i);
      FileAt(old(fs.blocks), old(fs.nodes), i);
    } else {
      assert TreeOf(fs) == old(TreeOf(fs));
    }
  }

  lemma LeastFreeIs(d: Disk, nodes: seq<Dinode>, i: nat)
    requires i == 0 ==> forall j: nat | 1 <= j < |nodes| :: nodes[j].typ != 0
    requires i != 0 ==> i < |nodes| && nodes[i].typ == 0 && forall j: nat | 1 <= j < i :: nodes[j].typ != 0
    ensures LeastFree(View(d, nodes), 1) == i
  {
    hide DirMap, Content;
  }

  lemma DirsOkWeaker(d: Disk, nodes: seq<Dinode>, x: nat)
    requires DirsOk(d, nodes, 0)
    ensures DirsOk(d, nodes, x)
  {
  }

  // --- iput -----------------------------------------------------------------------

  /** iunlockput: the reference goes, and with the last one to an inode without links, inode and blocks. */
  method PutLocked(fs: Fs, it: RefTable, ip: MemInode, ghost x: nat)
    requires Steady(fs, x) && fs.Holds(ip) && ip.typ != 0 && ip.inum != 0 && (x == 0 || x == ip.inum)
    requires ip.inum in it.refs
    modifies fs, it, ip`addrs, ip`size, ip`typ
    ensures Steady(fs, if old(it.refs[ip.inum] == 1 && ip.nlink == 0) then 0 else x) && |fs.nodes| == old(|fs.nodes|)
    ensures it.refs == old(it.refs) - multiset{ip.inum}
    ensures TreeOf(fs) == Dropped(old(TreeOf(fs)), old(it.refs), ip.inum)
    ensures old(it.refs[ip.inum] != 1 || ip.nlink != 0) ==> fs.blocks == old(fs.blocks) && fs.nodes == old(fs.nodes)
    ensures FilesKept(old(FilesOf(fs)), FilesOf(fs))
  {
    hide Inv, DirMap, KeepsBlocks, DirShape, DiskInode, Content, View, Files;
    ViewTag(fs.blocks, fs.nodes, ip.inum);
    if it.refs[ip.inum] == 1 && ip.nlink == 0 {
      fs.FreeInode(ip);
      ViewStep(fs.sb, old(fs.blocks), old(fs.nodes), old(fs.owner), fs.blocks, fs.nodes, ip.inum, x);
      FilesStep(fs.sb, old(fs.blocks), old(fs.nodes), old(fs.owner), fs.blocks, fs.nodes, ip.inum);
    }
    it.Drop(ip.inum);
  }

  /** iput of an inode nobody has locked. */
  method Put(fs: Fs, it: RefTable, inum: nat)
    requires Steady(fs, 0) && 0 < inum < |fs.nodes| && fs.nodes[inum].typ != 0 && inum in it.refs
    modifies fs, it
    ensures Steady(fs, 0) && |fs.nodes| == old(|fs.nodes|) && it.refs == old(it.refs) - multiset{inum}
    ensures TreeOf(fs) == Dropped(old(TreeOf(fs)), old(it.refs), inum)
    ensures old(it.refs[inum] != 1 || fs.nodes[inum].nlink != 0) ==> fs.blocks == old(fs.blocks) && fs.nodes == old(fs.nodes)
    ensures FilesKept(old(FilesOf(fs)), FilesOf(fs))
  {
    hide Inv, DirMap, KeepsBlocks, DirShape, DiskInode, Content, View, FilesKept, Files;
    var ip := fs.Ilock(inum);
    PutLocked(fs, it, ip, 0);
  }

  /** iput of a reference that is not the last one to an inode without links: nothing is freed. */
  method PutSpare(fs: Fs, it: RefTable, inum: nat)
    requires Steady(fs, 0) && 0 < inum < |fs.nodes| && fs.nodes[inum].typ != 0
    requires inum in it.refs && (fs.nodes[inum].nlink != 0 || it.refs[inum] > 1)
    modifies fs, it
    ensures Steady(fs, 0) && it.refs == old(it.refs) - multiset{inum}
    ensures fs.blocks == old(fs.blocks) && fs.nodes == old(fs.nodes) && TreeOf(fs) == old(TreeOf(fs))
  {
    hide Inv, DirShape, View;
    ViewTag(fs.blocks, fs.nodes, inum);
    Put(fs, it, inum);
  }

  /** A reference beside those that hold the tree is such a one. */
  lemma SpareHere(fs: Fs, refs: multiset<nat>, inum: nat)
    requires inum < |fs.nodes| && fs.nodes[inum].typ != 0 && Held(TreeOf(fs), refs)
    ensures fs.nodes[inum].nlink != 0 || (refs + multiset{inum})[inum] > 1
    ensures refs + multiset{inum} - multiset{inum} == refs
  {
    ViewTag(fs.blocks, fs.nodes, inum);
    assert refs + multiset{inum} - multiset{inum} == refs;
  }

  /** iput in a lawful tree, which stays lawful. */
  method Iput(fs: Fs, it: RefTable, inum: nat, ghost pend: seq<nat>)
    requires Good(fs, pend) && Held(TreeOf(fs), it.refs) && 0 < inum && inum in it.refs
    modifies fs, it
    ensures Good(fs, pend) && Held(TreeOf(fs), it.refs) && |fs.nodes| == old(|fs.nodes|)
    ensures it.refs == old(it.refs) - multiset{inum} && inum < |fs.nodes|
    ensures TreeOf(fs) == Dropped(old(TreeOf(fs)), old(it.refs), inum)
    ensures FilesKept(old(FilesOf(fs)), FilesOf(fs))
  {
    hide Inv, DirMap, KeepsBlocks, DirShape, DiskInode, Content, Lawful, View, FilesKept, Files;
    DroppedHeld(TreeOf(fs), it.refs, inum);
    ViewTag(fs.blocks, fs.nodes, inum);
    if it.refs[inum] == 1 && TreeOf(fs)[inum].nlink == 0 {
      Free(TreeOf(fs), pend, inum);
    }
    Put(fs, it, inum);
  }

  // --- create --------------------------------------------------------------------

  /** create's failure exit: drop the only link, and iput frees the inode with its only reference. */
  method Discard(fs: Fs, it: RefTable, ip: MemInode, ghost x: nat)
    requires Steady(fs, x) && fs.Holds(ip) && ip.typ != 0 && ip.inum != 0 && (x == 0 || x == ip.inum)
    requires it.refs[ip.inum] == 1
    modifies fs, it, ip
    ensures Steady(fs, 0) && |fs.nodes| == old(|fs.nodes|)
    ensures it.refs == old(it.refs) - multiset{ip.inum}
    ensures TreeOf(fs) == old(TreeOf(fs))[ip.inum := FreeNode()]
    ensures FilesKept(old(FilesOf(fs)), FilesOf(fs))
  {
    hide Inv, DirMap, KeepsBlocks, DirShape, DiskInode, View, Content, FilesKept, Files;
    Meta(fs, ip, ip.major, ip.minor, 0, x);
    PutLocked(fs, it, ip, x);
  }

  /** Inode i has its name k in directory d, and its dots if it is a directory; or only i has changed. */
  ghost predicate Furnished(t: Tree, t': Tree, i: nat, d: nat, k: Key, ok: bool) {
    && i < |t| == |t'| && d < |t|
    && if ok then
         && Plain(k) && k !in t[d].dir
         && t' == AddEntry(t[i := t[i].(dir := if t[i].typ == T_DIR then map[DOT := i, DOTDOT := d] else t[i].dir)], d, k, i)
       else t' == t[i := t'[i]]
  }

  /** The new inode's own entries, and then its name in dp; on failure only the new inode has changed. */
  method Furnish(fs: Fs, dp: MemInode, ip: MemInode, name: seq<byte>, ghost x: nat) returns (ok: bool)
    requires Steady(fs, x) && fs.Holds(dp) && fs.Holds(ip) && 0 < ip.inum && 0 < dp.inum && ip.inum != dp.inum && ip.typ != 0 && ip.size == 0
    requires dp.typ == T_DIR && x == if ip.typ == T_DIR then ip.inum else 0
    modifies fs, dp`addrs, dp`size, ip`addrs, ip`size
    ensures Steady(fs, if ok then 0 else x) || Steady(fs, 0)
    ensures fs.Holds(dp) && fs.Holds(ip) && |fs.nodes| == old(|fs.nodes|) && FilesOf(fs) == old(FilesOf(fs))
    ensures dp.Copy() == old(dp.Copy()).(addrs := dp.addrs, size := dp.size) && ip.Copy() == old(ip.Copy()).(addrs := ip.addrs, size := ip.size)
    ensures Furnished(old(TreeOf(fs)), TreeOf(fs), ip.inum, dp.inum, KeyOf(name, DIRSIZ), ok)
    ensures ok <==> KeyOf(name, DIRSIZ) !in old(TreeOf(fs))[dp.inum].dir
                    && old(EntryFits(fs.blocks, dp.Copy(), FreeCount(fs.sb, fs.blocks) - if ip.typ == T_DIR then Lacking(fs.blocks, ip.Copy(), 0) else 0))
  {
    hide Inv, DirMap, KeepsBlocks, DirShape, DiskInode, View, Content, KeyOf, NodeView, Plain, EntryFits, Lacking, FreeCount, Disown, Files;
    ghost var t := TreeOf(fs);
    ViewTag(fs.blocks, fs.nodes, ip.inum);
    NeverFits(fs.blocks, dp.Copy());
    ok := true;
    if ip.typ == T_DIR {
      ok := MakeDots(fs, ip, dp.inum);
      OtherFits(fs.sb, old(fs.blocks), old(fs.nodes), old(fs.owner), fs.blocks, fs.nodes, fs.owner, ip.inum, dp.inum);
    }
    if ok {
      ok := Link(fs, dp, name, ip.inum, 0);
    }
  }

  lemma NeverFits(d: Disk, n: Dinode)
    ensures forall free: int | free < 0 :: !EntryFits(d, n, free)
  {
    hide Lacking;
  }

  /** What create does to the tree under an absent name: nothing, or one new inode and its entry. */
  ghost predicate Made(t: Tree, t': Tree, d: nat, k: Key, typ: int, r: nat)
    requires d < |t|
  {
    if r == 0 then t' == t
    else
      && 0 < r < |t| && r != d && t[r].typ == 0 && Plain(k) && k !in t[d].dir
      && t' == if typ == T_DIR then WithDir(t, d, k, r) else WithFile(t, d, k, r, typ)
  }

  /** From the two halves of create to the whole, but for the parent's count. */
  lemma FurnishedMade(t: Tree, t': Tree, i: nat, d: nat, k: Key, typ: int, ok: bool)
    requires i < |t| && 0 < i != d && d < |t| && t[i] == FreeNode() && Furnished(t[i := Node(typ, 1, map[])], t', i, d, k, ok)
    ensures Made(t, t, d, k, typ, 0) && |t'| == |t|
    ensures ok ==> Made(t, if typ == T_DIR then Relink(t', d, 1) else t', d, k, typ, i)
    ensures !ok ==> t'[i := FreeNode()] == t
  {
  }

  /** A file that create has made: no bytes, the device numbers given, and read, write and search for the owner. */
  function FreshFile(typ: short, major: short, minor: short): File {
    File(Dinode(typ, major, minor, 0, 0, NoAddrs(), 0x1C0), [])
  }

  /** ialloc, with the inode locked and its first link and device numbers stored; 0 when none is free. */
  method NewInode(fs: Fs, it: RefTable, typ: short, major: short, minor: short, ghost pend: seq<nat>) returns (ip: MemInode?)
    requires Good(fs, pend) && typ != 0 && Held(TreeOf(fs), it.refs)
    modifies fs, it
    ensures |fs.nodes| == old(|fs.nodes|)
    ensures ip == null ==> Good(fs, pend) && TreeOf(fs) == old(TreeOf(fs)) && it.refs == old(it.refs)
    ensures ip != null ==> fresh(ip) && fs.Holds(ip) && 0 < ip.inum && ip.typ == typ && ip.size == 0
    ensures ip != null ==> Steady(fs, if typ == T_DIR then ip.inum else 0)
    ensures ip != null ==> it.refs == old(it.refs) + multiset{ip.inum} && it.refs[ip.inum] == 1
    ensures ip != null ==> old(TreeOf(fs))[ip.inum] == FreeNode()
    ensures ip != null ==> TreeOf(fs) == old(TreeOf(fs))[ip.inum := Node(typ, 1, map[])]
    ensures ip != null ==> OnlyInode(old(fs.blocks), old(fs.nodes), fs.blocks, fs.nodes, ip.inum) && ip.addrs == NoAddrs()
    ensures ip == null ==> FilesOf(fs) == old(FilesOf(fs))
    ensures ip != null ==> FilesOf(fs) == old(FilesOf(fs))[ip.inum := FreshFile(typ, major, minor)] && old(FilesOf(fs))[ip.inum] == Nothing
    ensures ip != null ==> ip.major == major && ip.minor == minor && ip.permissions == 0x1C0
    ensures fs.owner == old(fs.owner) && LeastFree(old(TreeOf(fs)), 1) == if ip == null then 0 else ip.inum
  {
    hide Inv, DirMap, KeepsBlocks, DirShape, DiskInode, View, Content, Lawful, NodeView, DirsOk, Held, Files;
    ghost var t := TreeOf(fs);
    var i := Claim(fs, typ, pend);
    if i == 0 {
      return null;
    }
    FreeUnreferenced(t, it.refs, i);
    it.Iget(i);
    ip := fs.Ilock(i);
    ghost var b1, n1 := fs.blocks, fs.nodes;
    Meta(fs, ip, major, minor, 1, if typ == T_DIR then i else 0);
    OnlyTrans(old(fs.blocks), old(fs.nodes), b1, n1, fs.blocks, fs.nodes, i);
    assert TreeOf(fs) == t[i := Node(typ, 1, map[])];
  }

  /** Room for one more name in directory d, with some free blocks kept back. */
  ghost predicate Fits(fs: Fs, d: nat, kept: nat)
    reads fs
  {
    d < |fs.nodes| && EntryFits(fs.blocks, fs.nodes[d], FreeCount(fs.sb, fs.blocks) - kept)
  }

  /** A new directory takes a block for its dots. */
  function DotBlocks(typ: int): nat {
    if typ == T_DIR then 1 else 0
  }

  /** Entries for the new inode ip, the directory dp locked as well, or its end. */
  method Install(fs: Fs, it: RefTable, dp: MemInode, ip: MemInode, name: seq<byte>, ghost t: Tree, ghost f: seq<File>) returns (ok: bool)
    requires Steady(fs, if ip.typ == T_DIR then ip.inum else 0) && fs.Holds(dp) && fs.Holds(ip)
    requires 0 < ip.inum < |t| && 0 < dp.inum < |t| && ip.inum != dp.inum && ip.typ != 0 && ip.size == 0
    requires dp.typ == T_DIR && dp.nlink < 0x7fff && it.refs[ip.inum] == 1
    requires t[ip.inum] == FreeNode() && TreeOf(fs) == t[ip.inum := Node(ip.typ, 1, map[])]
    requires |f| == |t| && f[ip.inum] == Nothing && FilesOf(fs) == f[ip.inum := FreshFile(ip.typ, ip.major, ip.minor)]
    modifies fs, it, ip, dp`addrs, dp`size, dp`major, dp`minor, dp`nlink, dp`permissions
    ensures Steady(fs, 0) && |fs.nodes| == old(|fs.nodes|)
    ensures Made(t, TreeOf(fs), dp.inum, KeyOf(name, DIRSIZ), old(ip.typ), if ok then ip.inum else 0)
    ensures MadeFile(f, FilesOf(fs), old(ip.typ), old(ip.major), old(ip.minor), if ok then ip.inum else 0)
    ensures it.refs == if ok then old(it.refs) else old(it.refs) - multiset{ip.inum}
    ensures ok <==> KeyOf(name, DIRSIZ) !in t[dp.inum].dir
                    && old(EntryFits(fs.blocks, dp.Copy(), FreeCount(fs.sb, fs.blocks) - if ip.typ == T_DIR then Lacking(fs.blocks, ip.Copy(), 0) else 0))
  {
    hide Inv, DirMap, KeepsBlocks, DirShape, DiskInode, View, Content, KeyOf, NodeView, DirsOk, Furnished, Relink, EntryFits, Lacking, FreeCount, Disown, Made, Files, FilesKept, MadeFile, FileView, FreshFile;
    var typ := ip.typ;
    ghost var x := if typ == T_DIR then ip.inum else 0;
    ok := Furnish(fs, dp, ip, name, x);
    FurnishedMade(t, TreeOf(fs), ip.inum, dp.inum, KeyOf(name, DIRSIZ), typ, ok);
    ghost var major, minor := ip.major, ip.minor;
    KeptSame(FilesOf(fs));
    if !ok {
      Discard(fs, it, ip, if Steady(fs, 0) then 0 else x);
    } else if typ == T_DIR {
      CountDots(fs, dp);
    }
    FileTag(fs.blocks, fs.nodes, ip.inum);
    InstalledFile(t, TreeOf(fs), dp.inum, KeyOf(name, DIRSIZ), typ, ip.inum, ok);
    MadeFileIs(f, FilesOf(fs), typ, major, minor, ip.inum, ok);
  }

  lemma FreshLacking(d: Disk, n: Dinode)
    requires n.addrs == NoAddrs()
    ensures Lacking(d, n, 0) == 1
  {
  }

  /** What create does to the files: nothing, or one that is new. */
  ghost predicate MadeFile(f: seq<File>, g: seq<File>, typ: short, major: short, minor: short, r: nat) {
    if r == 0 then FilesKept(f, g)
    else r < |f| == |g| && f[r] == Nothing && g[r] == FreshFile(typ, major, minor) && FilesKept(f[r := g[r]], g)
  }

  lemma MadeFileIs(f: seq<File>, g: seq<File>, typ: short, major: short, minor: short, i: nat, ok: bool)
    requires 0 < i < |f| && f[i] == Nothing && FilesKept(f[i := FreshFile(typ, major, minor)], g) && (g[i] == Nothing <==> !ok)
    ensures MadeFile(f, g, typ, major, minor, if ok then i else 0)
  {
  }

  lemma NothingMade(f: seq<File>, typ: short, major: short, minor: short)
    ensures MadeFile(f, f, typ, major, minor, 0)
  {
  }

  lemma InstalledFile(t: Tree, u: Tree, d: nat, k: Key, typ: int, i: nat, ok: bool)
    requires d < |t| && i < |t| && t[i] == FreeNode() && typ != 0 && 0 < i != d && Made(t, u, d, k, typ, if ok then i else 0)
    ensures |u| == |t| && (u[i].typ == 0 <==> !ok)
  {
  }

  /** A fresh inode leaves a directory its room, but for the block of its own dots. */
  lemma FreshFits(sb: SuperBlock, d: Disk, nodes: seq<Dinode>, owner: Owner, e: Disk, nodes': seq<Dinode>, i: nat, dir: nat, typ: int)
    requires Inv(sb, d, nodes, owner) && Inv(sb, e, nodes', owner) && OnlyInode(d, nodes, e, nodes', i)
    requires dir < |nodes| && dir != i && nodes'[i].addrs == NoAddrs()
    ensures |nodes'| == |nodes| && nodes'[dir] == nodes[dir]
    ensures EntryFits(d, nodes[dir], FreeCount(sb, d) - DotBlocks(typ))
            <==> EntryFits(e, nodes'[dir], FreeCount(sb, e) - if typ == T_DIR then Lacking(e, nodes'[i], 0) else 0)
  {
    hide Inv, KeepsBlocks, EntryFits, FreeCount, Lacking;
    OtherFits(sb, d, nodes, owner, e, nodes', owner, i, dir);
    FreeByOwner(sb, d, nodes, e, nodes', owner);
    FreshLacking(e, nodes'[i]);
  }

  /** create's main path, the directory dp locked and the name absent: with room for the entries, the least free
      inode with a reference to it; else, or when no inode is free, 0 and nothing new. */
  method MakeNew(fs: Fs, it: RefTable, dp: MemInode, name: seq<byte>, typ: short, major: short, minor: short, ghost pend: seq<nat>)
    returns (r: nat)
    requires Good(fs, pend) && (typ == T_DIR || typ == T_FILE || typ == T_DEVICE)
    requires fs.Holds(dp) && 0 < dp.inum && dp.typ == T_DIR && Held(TreeOf(fs), it.refs)
    requires KeyOf(name, DIRSIZ) !in TreeOf(fs)[dp.inum].dir
    modifies fs, it, dp`addrs, dp`size, dp`major, dp`minor, dp`nlink, dp`permissions
    ensures Steady(fs, 0) && |fs.nodes| == old(|fs.nodes|)
    ensures Made(old(TreeOf(fs)), TreeOf(fs), dp.inum, KeyOf(name, DIRSIZ), typ, r)
    ensures MadeFile(old(FilesOf(fs)), FilesOf(fs), typ, major, minor, r)
    ensures it.refs == old(it.refs) + if r != 0 then multiset{r} else multiset{}
    ensures r == if old(Fits(fs, dp.inum, DotBlocks(typ))) then LeastFree(old(TreeOf(fs)), 1) else 0
  {
    hide Inv, DirMap, KeepsBlocks, DirShape, DiskInode, View, Content, Lawful, KeyOf, NodeView, DirsOk, Held, EntryFits, Lacking, FreeCount, Disown, Files, FilesKept, FileView, FreshFile, LeastFree, MadeFile, OnlyInode, DotBlocks;
    ghost var t := TreeOf(fs);
    RoomForDots(fs, pend, dp.inum);
    ViewTag(fs.blocks, fs.nodes, dp.inum);
    var ip := NewInode(fs, it, typ, major, minor, pend);
    if ip == null {
      NothingMade(FilesOf(fs), typ, major, minor);
      return 0;
    }
    hide Made;
    FreshFits(fs.sb, old(fs.blocks), old(fs.nodes), fs.owner, fs.blocks, fs.nodes, ip.inum, dp.inum, typ);
    var ok := Install(fs, it, dp, ip, name, t, old(FilesOf(fs)));
    r := if ok then ip.inum else 0;
  }

  /** dp->nlink++ for the ".." of a new directory. */
  method CountDots(fs: Fs, dp: MemInode)
    requires Steady(fs, 0) && fs.Holds(dp) && 0 < dp.inum && dp.typ == T_DIR && dp.nlink < 0x7fff
    modifies fs, dp`major, dp`minor, dp`nlink, dp`permissions
    ensures Steady(fs, 0) && |fs.nodes| == old(|fs.nodes|) && TreeOf(fs) == Relink(old(TreeOf(fs)), dp.inum, 1)
    ensures FilesOf(fs) == old(FilesOf(fs))
  {
    hide Inv, DirMap, KeepsBlocks, DirShape, DiskInode, View, Content, NodeView, Files;
    ViewTag(fs.blocks, fs.nodes, dp.inum);
    Meta(fs, dp, dp.major, dp.minor, dp.nlink + 1, 0);
  }

  lemma FreeUnreferenced(t: Tree, refs: multiset<nat>, i: nat)
    requires Held(t, refs) && i < |t| && t[i].typ == 0
    ensures i !in refs && (refs + multiset{i})[i] == 1 && refs + multiset{i} - multiset{i} == refs
  {
  }

  /** The 16-bit link count of a directory never overflows: a directory holds at most 17152 records. */
  lemma RoomForDots(fs: Fs, pend: seq<nat>, d: nat)
    requires Good(fs, pend) && 0 < d < |fs.nodes| && fs.nodes[d].typ == T_DIR
    ensures fs.nodes[d].nlink <= MAXFILE * BSIZE / DIRENT < 0x7fff
  {
    hide Inv, Content, DirMap, Counted;
    DirView(fs.blocks, fs.nodes, d);
    if fs.nodes[d].nlink > 0 {
      DirLinksBound(TreeOf(fs), pend, d);
      MapSize(Content(fs.blocks, fs.nodes[d]));
    }
  }

  lemma ShapeOk(c: seq<byte>)
    requires DirShape(c)
    ensures DirOk(c)
  {
  }

  // --- unlink ---------------------------------------------------------------------

  /** The names unlink may remove: present, not "." or "..", and no directory in use. */
  ghost predicate Removable(t: Tree, d: nat, k: Key)
    requires d < |t|
  {
    && Plain(k) && k in t[d].dir && t[d].dir[k] < |t|
    && (t[t[d].dir[k]].typ == T_DIR ==> EmptyDir(t, t[d].dir[k]))
  }

  /** What unlink does to the tree: nothing, or one name and one link less. An inode that nobody
      refers to is freed with its last link. */
  ghost predicate Unlinks(t: Tree, t': Tree, d: nat, k: Key, refs: multiset<nat>, r: int)
    requires d < |t|
  {
    if !Removable(t, d, k) then r == -1 && t' == t
    else
      var i, u := t[d].dir[k], Removed(t, d, k);
      r == 0 && t' == if i !in refs && u[i].nlink == 0 then u[i := FreeNode()] else u
  }

  /** unlink's checks of the name, and its lookup; 0 when there is no such plain name. */
  method NamedInode(fs: Fs, dp: MemInode, name: seq<byte>, ghost pend: seq<nat>) returns (inum: nat, off: nat)
    requires Good(fs, pend) && fs.Holds(dp) && 0 < dp.inum && dp.typ == T_DIR
    modifies fs, dp`addrs
    ensures Good(fs, pend) && fs.Holds(dp) && Untouched(fs, dp) && dp.size <= MAXFILE * BSIZE
    ensures var t, k := TreeOf(fs), KeyOf(name, DIRSIZ);
            && (inum != 0 <==> Plain(k) && k in t[dp.inum].dir)
            && (inum != 0 ==> inum == t[dp.inum].dir[k] && inum < |t| && t[inum].typ != 0 && LiveDir(t, dp.inum))
            && (inum != 0 ==> off % DIRENT == 0 && Live(Content(fs.blocks, dp.Copy()), off / DIRENT)
                              && NameAt(Content(fs.blocks, dp.Copy()), off / DIRENT) == k)
  {
    hide Inv, DirMap, KeepsBlocks, DirShape, DiskInode, View, Content, Lawful, KeyOf, Find, Live, NodeView;
    DotKeys();
    DirView(fs.blocks, fs.nodes, dp.inum);
    ShapeOk(Content(fs.blocks, dp.Copy()));
    var dot := Namecmp(name, DOT);
    var dotdot := Namecmp(name, DOTDOT);
    if dot || dotdot {
      return 0, 0;
    }
    inum, off := Dirlookup(fs, dp, name);
    if inum != 0 {
      NamedIsLive(TreeOf(fs), pend, dp.inum, KeyOf(name, DIRSIZ));
    }
  }

  /** unlink in the locked directory dp. */
  method UnlinkIn(fs: Fs, it: RefTable, dp: MemInode, name: seq<byte>, ghost pend: seq<nat>) returns (r: int)
    requires Good(fs, pend) && Held(TreeOf(fs), it.refs) && fs.Holds(dp) && 0 < dp.inum && dp.typ == T_DIR
    modifies fs, it, dp
    ensures Good(fs, pend) && Held(TreeOf(fs), it.refs) && |fs.nodes| == old(|fs.nodes|)
    ensures it.refs == old(it.refs) && (r == 0 || r == -1)
    ensures Unlinks(old(TreeOf(fs)), TreeOf(fs), dp.inum, KeyOf(name, DIRSIZ), old(it.refs), r)
    ensures FilesKept(old(FilesOf(fs)), FilesOf(fs))
  {
    hide Inv, DirMap, KeepsBlocks, DirShape, DiskInode, View, Content, Lawful, KeyOf, Find, Live, NameAt,
         EmptyDir, UnlinkedDir, Unlinked, NodeView, DirsOk, Held, Dropped, Files, FilesKept;
    ghost var t, k, refs := TreeOf(fs), KeyOf(name, DIRSIZ), it.refs;
    KeptSame(FilesOf(fs));
    var inum, off := NamedInode(fs, dp, name, pend);
    if inum == 0 {
      return -1;
    }
    NamedIsLive(t, pend, dp.inum, k);
    ViewTag(fs.blocks, fs.nodes, inum);
    HeldMore(t, refs, inum);
    SpareStays(t, refs, inum);
    it.Iget(inum);
    var ip := fs.Ilock(inum);
    if ip.typ == T_DIR {
      var empty := Unoccupied(fs, ip);
      if !empty {
        Iput(fs, it, inum, pend);
        return -1;
      }
    }
    assert t == TreeOf(fs);
    RemoveNamed(fs, it, dp, ip, off, k, pend);
    r := 0;
  }

  /** The tree without name k of directory d, and without the links that go with it. */
  function Removed(t: Tree, d: nat, k: Key): Tree
    requires d < |t| && k in t[d].dir && t[d].dir[k] < |t|
  {
    if t[t[d].dir[k]].typ == T_DIR then UnlinkedDir(t, d, k) else Unlinked(t, d, k)
  }

  /** unlink's update, both inodes locked and every check passed. */
  method Detach(fs: Fs, dp: MemInode, ip: MemInode, off: nat, ghost k: Key, ghost pend: seq<nat>)
    requires Good(fs, pend) && fs.Holds(dp) && fs.Holds(ip) && dp != ip && dp.inum > 0 && dp.typ == T_DIR && ip.typ != 0
    requires Removable(TreeOf(fs), dp.inum, k) && TreeOf(fs)[dp.inum].dir[k] == ip.inum && LiveDir(TreeOf(fs), dp.inum)
    requires dp.size <= MAXFILE * BSIZE && off % DIRENT == 0 && Live(Content(fs.blocks, dp.Copy()), off / DIRENT)
    requires NameAt(Content(fs.blocks, dp.Copy()), off / DIRENT) == k
    modifies fs, dp, ip
    ensures Good(fs, pend) && |fs.nodes| == old(|fs.nodes|)
    ensures TreeOf(fs) == Removed(old(TreeOf(fs)), dp.inum, k)
    ensures FilesOf(fs) == old(FilesOf(fs))
  {
    hide Inv, DirMap, KeepsBlocks, DirShape, DiskInode, View, Content, Lawful, Live, NameAt, EmptyDir, NodeView, Counted, Files;
    ghost var t := TreeOf(fs);
    ViewTag(fs.blocks, fs.nodes, ip.inum);
    ViewTag(fs.blocks, fs.nodes, dp.inum);
    NamedIsLive(t, pend, dp.inum, k);
    if ip.typ == T_DIR {
      DirIsOther(t, pend, dp.inum, k);
      UnlinkDir(t, pend, dp.inum, k);
      Unname(fs, dp, off, k);
      Meta(fs, dp, dp.major, dp.minor, dp.nlink - 1, 0);
    } else {
      UnlinkFile(t, pend, dp.inum, k);
      Unname(fs, dp, off, k);
    }
    Meta(fs, ip, ip.major, ip.minor, ip.nlink - 1, 0);
  }

  /** The update and the final iput of the inode unnamed. */
  method RemoveNamed(fs: Fs, it: RefTable, dp: MemInode, ip: MemInode, off: nat, ghost k: Key, ghost pend: seq<nat>)
    requires Good(fs, pend) && fs.Holds(dp) && fs.Holds(ip) && dp != ip && dp.inum > 0 && dp.typ == T_DIR && ip.typ != 0
    requires Held(TreeOf(fs), it.refs) && ip.inum in it.refs && 0 < ip.inum
    requires Removable(TreeOf(fs), dp.inum, k) && TreeOf(fs)[dp.inum].dir[k] == ip.inum && LiveDir(TreeOf(fs), dp.inum)
    requires dp.size <= MAXFILE * BSIZE && off % DIRENT == 0 && Live(Content(fs.blocks, dp.Copy()), off / DIRENT)
    requires NameAt(Content(fs.blocks, dp.Copy()), off / DIRENT) == k
    modifies fs, it, dp, ip
    ensures Good(fs, pend) && |fs.nodes| == old(|fs.nodes|) && Held(TreeOf(fs), it.refs)
    ensures it.refs == old(it.refs) - multiset{ip.inum}
    ensures Unlinks(old(TreeOf(fs)), TreeOf(fs), dp.inum, k, it.refs, 0)
    ensures FilesKept(old(FilesOf(fs)), FilesOf(fs))
  {
    hide Inv, DirShape, DirsOk, View, Content, Lawful, Live, NameAt, EmptyDir, NodeView, Held, UnlinkedDir, Unlinked, Files;
    ghost var t := TreeOf(fs);
    RemovedHeld(t, pend, it.refs, dp.inum, k);
    Detach(fs, dp, ip, off, k, pend);
    Iput(fs, it, ip.inum, pend);
  }

  /** Only the inode whose name goes can have lost its last link, and that one is held. */
  lemma RemovedHeld(t: Tree, pend: seq<nat>, refs: multiset<nat>, d: nat, k: Key)
    requires Lawful(t, pend) && Held(t, refs) && LiveDir(t, d) && Removable(t, d, k) && t[d].dir[k] in refs
    ensures Held(Removed(t, d, k), refs)
  {
    hide Lawful;
    if t[t[d].dir[k]].typ == T_DIR {
      UnlinkDir(t, pend, d, k);
      DirIsOther(t, pend, d, k);
    }
  }

  /** An empty directory is not the one that names it. */
  lemma DirIsOther(t: Tree, pend: seq<nat>, d: nat, k: Key)
    requires Lawful(t, pend) && LiveDir(t, d) && Plain(k) && k in t[d].dir && EmptyDir(t, t[d].dir[k])
    ensures t[d].dir[k] != d
  {
  }

  lemma ViewTag(d: Disk, nodes: seq<Dinode>, i: nat)
    requires i < |nodes|
    ensures View(d, nodes)[i].typ == nodes[i].typ && (nodes[i].typ != 0 ==> View(d, nodes)[i].nlink == nodes[i].nlink)
  {
    ViewAt(d, nodes, i);
  }

  lemma DirView(d: Disk, nodes: seq<Dinode>, i: nat)
    requires DirsOk(d, nodes, 0) && 0 < i < |nodes| && nodes[i].typ == T_DIR
    ensures nodes[i].size <= MAXFILE * BSIZE && DirShape(Content(d, nodes[i]))
    ensures View(d, nodes)[i] == Node(T_DIR, nodes[i].nlink, DirMap(Content(d, nodes[i])))
  {
    ViewAt(d, nodes, i);
  }

  /** A plain name that is found belongs to a live directory and leads to an allocated
      inode with at least one link: unlink's panic cannot happen. */
  lemma NamedIsLive(t: Tree, pend: seq<nat>, d: nat, k: Key)
    requires Lawful(t, pend) && d < |t| && t[d].typ == T_DIR && k in t[d].dir && Plain(k)
    ensures LiveDir(t, d)
    ensures var i := t[d].dir[k]; 0 < i < |t| && t[i].typ != 0 && t[i].nlink >= 1
  {
    var at :| Shaped(t, at);
    assert NodeShape(t, at, d);
    EntryTarget(t, at, d, k);
    var i := t[d].dir[k];
    assert (d, k) in Refs(t, i);
    SubsetSize({(d, k)}, Refs(t, i));
  }

  /** isdirempty on a well-formed directory. */
  method Unoccupied(fs: Fs, ip: MemInode) returns (empty: bool)
    requires Steady(fs, 0) && fs.Holds(ip) && ip.typ == T_DIR && 0 < ip.inum && ip.nlink > 0
    modifies fs, ip`addrs
    ensures Steady(fs, 0) && fs.Holds(ip) && Untouched(fs, ip)
    ensures empty == EmptyDir(TreeOf(fs), ip.inum)
  {
    hide Inv, KeepsBlocks, DiskInode, Content, View, NodeView, DirShape, Live, NameAt;
    DirView(fs.blocks, fs.nodes, ip.inum);
    empty := Isdirempty(fs, ip);
    ghost var c := Content(fs.blocks, ip.Copy());
    DirView(fs.blocks, fs.nodes, ip.inum);
    if empty {
      forall k | k in DirMap(c)
        ensures !Plain(k)
      {
        EmptyMeansDots(c, k);
      }
    } else {
      ghost var e: nat :| 2 <= e && Live(c, e);
      LateIsPlain(c, e);
    }
  }

  /** Records after the first two carry plain names. */
  lemma LateIsPlain(c: seq<byte>, e: nat)
    requires DirShape(c) && 2 <= e && Live(c, e)
    ensures Plain(NameAt(c, e)) && NameAt(c, e) in DirMap(c)
  {
    assert NameAt(c, 0) != NameAt(c, e) && NameAt(c, 1) != NameAt(c, e);
    LiveInMap(c, e);
  }

  lemma PendSize(t: Tree, pend: seq<nat>)
    requires Lawful(t, pend)
    ensures |pend| == |t| && forall i: nat | i < |t| && pend[i] > 0 :: t[i].typ != 0 && t[i].typ != T_DIR && t[i].nlink >= pend[i]
  {
  }

  // --- link -----------------------------------------------------------------------

  /** nlink-- on the 16-bit field. */
  function Decremented(nlink: int): int {
    if nlink == -0x8000 then 0x7fff else nlink - 1
  }

  /** First locked section: one more link, unless the inode is a directory. */
  method LinkBegin(fs: Fs, ip: MemInode, ghost pend: seq<nat>)
    requires Good(fs, pend) && fs.Holds(ip) && 0 < ip.inum && ip.typ != 0 && ip.typ != T_DIR
    modifies fs, ip
    ensures |fs.nodes| == old(|fs.nodes|) == |pend| && Steady(fs, 0)
    ensures var n := old(TreeOf(fs))[ip.inum];
            TreeOf(fs) == old(TreeOf(fs))[ip.inum := n.(nlink := Incremented(n.nlink))]
    ensures old(ip.nlink) < 0x7fff ==> Good(fs, pend[ip.inum := pend[ip.inum] + 1])
    ensures forall d: nat, kept: nat | d != ip.inum :: Fits(fs, d, kept) <==> old(Fits(fs, d, kept))
    ensures FilesOf(fs) == old(FilesOf(fs))
  {
    hide Inv, DirMap, KeepsBlocks, DirShape, DiskInode, View, Content, Lawful, NodeView, EntryFits, FreeCount, Disown, Files;
    PendSize(TreeOf(fs), pend);
    ViewTag(fs.blocks, fs.nodes, ip.inum);
    if ip.nlink < 0x7fff {
      Bump(TreeOf(fs), pend, ip.inum, 1);
    }
    Meta(fs, ip, ip.major, ip.minor, if ip.nlink == 0x7fff then -0x8000 else ip.nlink + 1, 0);
    FreeByOwner(fs.sb, old(fs.blocks), old(fs.nodes), fs.blocks, fs.nodes, fs.owner);
    forall d: nat, kept: nat | d != ip.inum
      ensures Fits(fs, d, kept) <==> old(Fits(fs, d, kept))
    {
      if d < |fs.nodes| {
        OtherFits(fs.sb, old(fs.blocks), old(fs.nodes), fs.owner, fs.blocks, fs.nodes, fs.owner, ip.inum, d);
      }
    }
  }

  /** Second locked section, in directory dp: the entry for the new link. */
  method LinkCommit(fs: Fs, i: nat, dp: MemInode, name: seq<byte>, ghost pend: seq<nat>) returns (r: int)
    requires Steady(fs, 0) && 0 < i < |fs.nodes| && fs.Holds(dp) && 0 < dp.inum && dp.typ == T_DIR
    modifies fs, dp`addrs, dp`size
    ensures |fs.nodes| == old(|fs.nodes|) && (r == 0 || r == -1) && Steady(fs, 0)
    ensures var k := KeyOf(name, DIRSIZ);
            if r == 0 then Plain(k) && k !in old(TreeOf(fs))[dp.inum].dir && TreeOf(fs) == AddEntry(old(TreeOf(fs)), dp.inum, k, i)
            else TreeOf(fs) == old(TreeOf(fs))
    ensures r == if KeyOf(name, DIRSIZ) !in old(TreeOf(fs))[dp.inum].dir && old(Fits(fs, dp.inum, 0)) then 0 else -1
    ensures old(Good(fs, pend)) && r == -1 ==> Good(fs, pend)
    ensures old(Good(fs, pend)) && r == 0 && old(dp.nlink) > 0 && |pend| == |fs.nodes| && pend[i] > 0 ==> Good(fs, pend[i := pend[i] - 1])
    ensures FilesOf(fs) == old(FilesOf(fs))
  {
    hide Inv, DirMap, KeepsBlocks, DirShape, DiskInode, View, Content, Lawful, KeyOf, DirsOk, Files;
    ghost var t := TreeOf(fs);
    ViewTag(fs.blocks, fs.nodes, dp.inum);
    var ok := Link(fs, dp, name, i, 0);
    if !ok {
      return -1;
    }
    if Lawful(t, pend) && t[dp.inum].nlink > 0 && |pend| == |t| && pend[i] > 0 {
      Commit(t, pend, dp.inum, KeyOf(name, DIRSIZ), i);
    }
    r := 0;
  }

  /** Rollback: one link less again. */
  method LinkAbort(fs: Fs, ip: MemInode, ghost pend: seq<nat>)
    requires Steady(fs, 0) && fs.Holds(ip) && 0 < ip.inum && ip.typ != 0 && ip.typ != T_DIR
    modifies fs, ip
    ensures |fs.nodes| == old(|fs.nodes|) && Steady(fs, 0)
    ensures var n := old(TreeOf(fs))[ip.inum];
            TreeOf(fs) == old(TreeOf(fs))[ip.inum := n.(nlink := Decremented(n.nlink))]
    ensures old(Good(fs, pend)) && |pend| == |fs.nodes| && pend[ip.inum] > 0 ==> Good(fs, pend[ip.inum := pend[ip.inum] - 1])
    ensures FilesOf(fs) == old(FilesOf(fs))
  {
    hide Inv, DirMap, KeepsBlocks, DirShape, DiskInode, View, Content, Lawful, NodeView, DirsOk, Files;
    ghost var t := TreeOf(fs);
    ViewTag(fs.blocks, fs.nodes, ip.inum);
    if Lawful(t, pend) && |pend| == |t| && pend[ip.inum] > 0 {
      PendSize(t, pend);
      Bump(t, pend, ip.inum, -1);
    }
    Meta(fs, ip, ip.major, ip.minor, if ip.nlink == -0x8000 then 0x7fff else ip.nlink - 1, 0);
  }

  // --- chmod and getperm ------------------------------------------------------------

  /** Inode i has new permissions, and every file its content. */
  ghost predicate Chmodded(d: Disk, nodes: seq<Dinode>, e: Disk, nodes': seq<Dinode>, i: nat, mode: int) {
    && i < |nodes| && nodes' == nodes[i := nodes[i].(permissions := mode % 0x200)]
    && forall j: nat | j < |nodes| ::
         nodes[j].size <= MAXFILE * BSIZE && Content(e, nodes'[j]) == Content(d, nodes[j])
  }

  /** chmod of a locked inode: the low nine bits of mode are stored, and nothing else changes. */
  method SetPermissions(fs: Fs, ip: MemInode, mode: int, ghost pend: seq<nat>)
    requires Good(fs, pend) && fs.Holds(ip) && 0 < ip.inum && ip.typ != 0
    modifies fs, ip
    ensures Good(fs, pend) && Chmodded(old(fs.blocks), old(fs.nodes), fs.blocks, fs.nodes, ip.inum, mode)
    ensures TreeOf(fs) == old(TreeOf(fs))
  {
    hide Inv, DirMap, KeepsBlocks, DirShape, DiskInode, Content, Lawful, View, NodeView;
    ghost var inum := ip.inum;
    fs.SetMeta(ip, ip.major, ip.minor, ip.nlink, mode % 0x200);
    forall j: nat | j < |fs.nodes|
      ensures old(fs.nodes)[j].size <= MAXFILE * BSIZE
      ensures Content(fs.blocks, fs.nodes[j]) == Content(old(fs.blocks), old(fs.nodes)[j])
    {
      if j == inum {
        NodeContent(fs.sb, old(fs.blocks), old(fs.nodes), old(fs.owner), j);
      } else {
        assert KeepsBlocks(old(fs.blocks), fs.nodes[j], fs.blocks, fs.nodes[j]);
        KeptContent(fs.sb, old(fs.blocks), old(fs.nodes), old(fs.owner), j, fs.blocks);
      }
    }
    PermissionsUnseen(fs.blocks, fs.nodes[inum], old(fs.blocks), old(fs.nodes)[inum]);
    ViewStep(fs.sb, old(fs.blocks), old(fs.nodes), old(fs.owner), fs.blocks, fs.nodes, inum, 0);
    ViewAt(old(fs.blocks), old(fs.nodes), inum);
  }

  /** The tree does not show permissions. */
  lemma PermissionsUnseen(e: Disk, m: Dinode, d: Disk, n: Dinode)
    requires n.size <= MAXFILE * BSIZE && m == n.(permissions := m.permissions) && Content(e, m) == Content(d, n)
    ensures NodeView(e, m) == NodeView(d, n)
  {
  }
}
