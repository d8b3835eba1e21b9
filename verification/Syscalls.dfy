/** link, unlink, create, chmod and getperm from their path names on: every path through each, the references
    it takes and gives back, and the link-count law it keeps, or exactly when it does not. */
module Syscalls {
  import opened Bytes
  import opened Layout
  import opened BlockMap
  import opened DirFormat
  import opened FileSystem
  import opened Space
  import opened LinkLaw
  import opened InodeRefs
  import opened SysFile
  import opened Path

  /** What a call returns, unless it hits a panic. */
  datatype Result = Ret(value: int) | Panicked

  /** A consistent image, references that keep its inodes, and a current directory that is referred to. */
  ghost predicate Ready(fs: Fs, it: RefTable, cwd: nat, pend: seq<nat>)
    reads fs, it
  {
    && Good(fs, pend) && Held(TreeOf(fs), it.refs)
    && cwd in it.refs && 0 < cwd < |fs.nodes| && fs.nodes[cwd].typ == T_DIR
  }

  function Start(path: seq<byte>, cwd: nat): nat {
    if path != [] && path[0] == SLASH then ROOT else cwd
  }

  function LastName(path: seq<byte>): Key {
    var names := Elements(path);
    if names == [] then [] else names[|names| - 1]
  }

  /** What namei, or nameiparent, makes of a path. */
  function Resolved(t: Tree, path: seq<byte>, cwd: nat, parent: bool): Outcome {
    Namei(t, Start(path, cwd), Elements(path), parent)
  }

  lemma RootReady(fs: Fs, pend: seq<nat>)
    requires Good(fs, pend)
    ensures ROOT < |fs.nodes| && fs.nodes[ROOT].typ == T_DIR
  {
    var at :| Shaped(TreeOf(fs), at);
    ViewTag(fs.blocks, fs.nodes, ROOT);
  }

  lemma ParentIsDir(t: Tree, start: nat, names: seq<Key>)
    requires Namei(t, start, names, true).Found?
    ensures var d := Namei(t, start, names, true).inum; 0 <= d < |t| && t[d].typ == T_DIR
  {
  }

  /** Trees that differ in link counts alone have the same paths. */
  lemma {:induction false} SameWalk(t: Tree, u: Tree, i: nat, names: seq<Key>)
    requires |t| == |u| && forall j: nat | j < |t| :: t[j].typ == u[j].typ && t[j].dir == u[j].dir
    ensures Walk(t, i, names) == Walk(u, i, names)
    decreases |names|
  {
    if names != [] && i < |t| && t[i].typ == T_DIR && names[0] in t[i].dir {
      SameWalk(t, u, t[i].dir[names[0]], names[1..]);
    }
  }

  lemma SameResolved(t: Tree, u: Tree, path: seq<byte>, cwd: nat, parent: bool)
    requires |t| == |u| && forall j: nat | j < |t| :: t[j].typ == u[j].typ && t[j].dir == u[j].dir
    ensures Resolved(t, path, cwd, parent) == Resolved(u, path, cwd, parent)
  {
    var names := Elements(path);
    SameWalk(t, u, Start(path, cwd), names);
    if names != [] {
      SameWalk(t, u, Start(path, cwd), names[..|names| - 1]);
    }
  }

  /** nameiparent, and the directory it finds locked. */
  method LockParent(fs: Fs, it: RefTable, path: seq<byte>, cwd: nat) returns (o: Outcome, dp: MemInode?, name: Key)
    requires Steady(fs, 0) && Held(TreeOf(fs), it.refs) && 0 !in path
    requires 0 < cwd < |fs.nodes| && ROOT < |fs.nodes| && fs.nodes[ROOT].typ == T_DIR && fs.nodes[cwd].typ == T_DIR
    modifies fs, it
    ensures Steady(fs, 0) && fs.blocks == old(fs.blocks) && fs.nodes == old(fs.nodes) && TreeOf(fs) == old(TreeOf(fs))
    ensures o == Resolved(TreeOf(fs), path, cwd, true) && (o.Found? <==> dp != null)
    ensures o.Missing? ==> it.refs == old(it.refs)
    ensures o.Found? ==> fresh(dp) && fs.Holds(dp) && dp.inum == o.inum && 0 < o.inum < |fs.nodes| && dp.typ == T_DIR
    ensures o.Found? ==> it.refs == old(it.refs) + multiset{o.inum} && name == LastName(path) && KeyOf(name, DIRSIZ) == name
  {
    hide View, Elements, Namei, Inv, DirsOk, Held, KeyOf;
    o, name := Namex(fs, it, path, true, cwd);
    dp := null;
    if o.Found? {
      ParentIsDir(TreeOf(fs), Start(path, cwd), Elements(path));
      ViewTag(fs.blocks, fs.nodes, o.inum);
      dp := fs.Ilock(o.inum);
    }
  }

  lemma NoneChanged(sb: SuperBlock, d: Disk, nodes: seq<Dinode>, owner: Owner)
    requires Inv(sb, d, nodes, owner)
    ensures FilesKept(Files(d, nodes), Files(d, nodes)) && InodesKept(d, nodes, d, nodes, -1)
  {
    hide Inv, Files, InodesKept;
    KeptAll(sb, d, nodes, owner, d, nodes);
  }

  lemma GoodAgain(fs: Fs, pend: seq<nat>)
    requires Steady(fs, 0)
    ensures Good(fs, pend) <==> Lawful(TreeOf(fs), pend)
  {
  }

  // --- unlink ---------------------------------------------------------------------------

  /** The directory that loses a name keeps a link. */
  lemma ParentKept(t: Tree, u: Tree, pend: seq<nat>, refs: multiset<nat>, d: nat, k: Key, r: int)
    requires Lawful(t, pend) && Held(t, refs) && d < |t| && t[d].typ == T_DIR
    requires Unlinks(t, u, d, k, refs + multiset{d}, r)
    ensures Unlinks(t, u, d, k, refs, r) && |u| == |t| && u[d].typ == T_DIR
    ensures u[d].nlink != 0 || d in refs
  {
    hide Lawful;
    if Removable(t, d, k) {
      NamedIsLive(t, pend, d, k);
      if t[t[d].dir[k]].typ == T_DIR {
        DirIsOther(t, pend, d, k);
        UnlinkDir(t, pend, d, k);
      }
    }
  }

  /** Remove a name. It panics exactly when its walk does; else it refuses, or takes the name and one link,
      and the law and all references are as before. */
  method SysUnlink(fs: Fs, it: RefTable, path: seq<byte>, cwd: nat, ghost pend: seq<nat>) returns (r: Result)
    requires Ready(fs, it, cwd, pend) && 0 !in path
    modifies fs, it
    ensures var t, o := old(TreeOf(fs)), Resolved(old(TreeOf(fs)), path, cwd, true);
            && (r.Panicked? <==> o.Panic?)
            && (o.Missing? ==> r == Ret(-1) && TreeOf(fs) == t)
            && (o.Found? ==> r.Ret? && o.inum < |t| && Unlinks(t, TreeOf(fs), o.inum, LastName(path), old(it.refs), r.value))
    ensures r.Ret? ==> Good(fs, pend) && Held(TreeOf(fs), it.refs) && it.refs == old(it.refs)
    ensures FilesKept(old(FilesOf(fs)), FilesOf(fs)) && InodesKept(old(fs.blocks), old(fs.nodes), fs.blocks, fs.nodes, -1)
  {
    hide Inv, DirsOk, Lawful, Held, View, Resolved, LastName, Unlinks, KeyOf, Dropped, Files, FilesKept, InodesKept;
    ghost var t, refs := TreeOf(fs), it.refs;
    RootReady(fs, pend);
    NoneChanged(fs.sb, fs.blocks, fs.nodes, fs.owner);
    var o, dp, name := LockParent(fs, it, path, cwd);
    if o.Panic? {
      return Panicked;
    }
    if dp == null {
      return Ret(-1);
    }
    ViewTag(fs.blocks, fs.nodes, dp.inum);
    HeldMore(t, refs, dp.inum);
    var v := UnlinkIn(fs, it, dp, name, pend);
    ghost var mid := FilesOf(fs);
    ParentKept(t, TreeOf(fs), pend, refs, o.inum, name, v);
    SpareStays(TreeOf(fs), refs, o.inum);
    Iput(fs, it, o.inum, pend);
    KeptTrans(old(FilesOf(fs)), mid, FilesOf(fs));
    KeptAll(fs.sb, old(fs.blocks), old(fs.nodes), old(fs.owner), fs.blocks, fs.nodes);
    r := Ret(v);
  }

  // --- link -----------------------------------------------------------------------------

  /** The directory found has room for one more name. */
  ghost predicate RoomAt(fs: Fs, o: Outcome, kept: nat)
    reads fs
  {
    o.Found? && Fits(fs, o.inum, kept)
  }

  /** What link does to the tree, given where its two paths lead and whether there is room for an entry. */
  ghost predicate LinkDoes(t: Tree, u: Tree, from: Outcome, to: Outcome, k: Key, room: bool, r: Result) {
    if from.Panic? || (from.Found? && !InUse(t, from.inum)) then r == Panicked
    else if from.Missing? || t[from.inum].typ == T_DIR || to.Missing? then r == Ret(-1) && u == t
    else if to.Panic? then r == Panicked
    else if to.inum < |t| && k !in t[to.inum].dir && room then r == Ret(0) && NewLink(t, u, from.inum, to.inum, k)
    else r == Ret(-1) && u == t
  }

  /** The directory is still linked, and the count below 32767. */
  predicate HasRoom(t: Tree, from: Outcome, to: Outcome) {
    from.Found? && to.Found? && from.inum < |t| && LiveDir(t, to.inum) && t[from.inum].nlink < 0x7fff
  }

  /** One entry more, and one link more on the 16-bit count. */
  ghost predicate NewLink(t: Tree, u: Tree, i: nat, d: nat, k: Key)
    requires i < |t| && d < |t|
  {
    && t[d].typ == T_DIR && Plain(k) && k !in t[d].dir
    && u == AddEntry(t[i := t[i].(nlink := Incremented(t[i].nlink))], d, k, i)
  }

  lemma HeldRelinked(t: Tree, refs: multiset<nat>, i: nat, n: int)
    requires Held(t, refs) && i < |t| && (n != 0 || i in refs)
    ensures Held(t[i := t[i].(nlink := n)], refs)
  {
  }

  lemma HeldEntry(t: Tree, refs: multiset<nat>, d: nat, k: Key, i: nat)
    requires Held(t, refs) && d < |t|
    ensures Held(AddEntry(t, d, k, i), refs)
  {
  }

  lemma Counts(t: Tree, pend: seq<nat>, i: nat)
    requires Lawful(t, pend) && i < |t| && t[i].typ != 0
    ensures t[i].nlink >= 0
  {
  }

  /** namei, and the inode it finds locked; none when that inode has been freed, which is a panic. */
  method LockFile(fs: Fs, it: RefTable, path: seq<byte>, cwd: nat, ghost pend: seq<nat>) returns (o: Outcome, ip: MemInode?)
    requires Ready(fs, it, cwd, pend) && 0 !in path
    modifies fs, it
    ensures Good(fs, pend) && fs.blocks == old(fs.blocks) && fs.nodes == old(fs.nodes) && TreeOf(fs) == old(TreeOf(fs))
    ensures o == Resolved(TreeOf(fs), path, cwd, false)
    ensures ip != null <==> o.Found? && InUse(TreeOf(fs), o.inum)
    ensures o.Missing? ==> it.refs == old(it.refs)
    ensures ip != null ==> fresh(ip) && fs.Holds(ip) && ip.inum == o.inum && 0 < o.inum < |fs.nodes| && ip.typ != 0
    ensures ip != null ==> it.refs == old(it.refs) + multiset{o.inum}
  {
    hide Inv, DirsOk, View, Elements, Namei, Held, Lawful;
    RootReady(fs, pend);
    var name;
    o, name := Namex(fs, it, path, false, cwd);
    ip := null;
    if o.Found? && o.inum < fs.sb.ninodes {
      InodesFit(fs);
      ViewTag(fs.blocks, fs.nodes, o.inum);
      ip := fs.Ilock(o.inum);
      if ip.typ == 0 {
        ip := null;
      }
    } else if o.Found? {
      InodesFit(fs);
    }
  }

  /** link's second half: nameiparent, the entry, and the rollback. */
  method LinkTo(fs: Fs, it: RefTable, i: nat, path: seq<byte>, cwd: nat, ghost t: Tree, ghost refs: multiset<nat>) returns (r: Result)
    requires Steady(fs, 0) && 0 < i < |t| == |fs.nodes| && t[i].typ != 0 && t[i].typ != T_DIR && 0 <= t[i].nlink <= 0x7fff
    requires TreeOf(fs) == t[i := t[i].(nlink := Incremented(t[i].nlink))]
    requires Held(t, refs) && it.refs == refs + multiset{i} && 0 !in path
    requires 0 < cwd < |t| && ROOT < |t| && t[ROOT].typ == T_DIR && t[cwd].typ == T_DIR
    modifies fs, it
    ensures Steady(fs, 0)
    ensures LinkDoes(t, TreeOf(fs), Found(i), Resolved(t, path, cwd, true), LastName(path),
                     old(RoomAt(fs, Resolved(t, path, cwd, true), 0)), r)
    ensures r.Ret? ==> it.refs == refs && Held(TreeOf(fs), refs)
    ensures FilesOf(fs) == old(FilesOf(fs))
  {
    hide Inv, DirsOk, Held, View, Resolved, LastName, KeyOf, Dropped, NodeView, Files;
    ghost var u := TreeOf(fs);
    HeldRelinked(t, refs, i, Incremented(t[i].nlink));
    HeldMore(u, refs, i);
    SameResolved(t, u, path, cwd, true);
    ViewTag(fs.blocks, fs.nodes, ROOT);
    ViewTag(fs.blocks, fs.nodes, cwd);
    var o, dp, name := LockParent(fs, it, path, cwd);
    if o.Panic? {
      return Panicked;
    }
    if dp != null {
      ViewTag(fs.blocks, fs.nodes, dp.inum);
      var done := LinkIn(fs, it, i, dp, name, u, refs);
      if done {
        return Ret(0);
      }
    }
    Undo(fs, it, i, t, refs);
    r := Ret(-1);
  }

  /** The locked target directory: dirlink, and its reference back; on success the file's as well. */
  method LinkIn(fs: Fs, it: RefTable, i: nat, dp: MemInode, name: seq<byte>, ghost u: Tree, ghost refs: multiset<nat>) returns (done: bool)
    requires Steady(fs, 0) && TreeOf(fs) == u && 0 < i < |u| == |fs.nodes| && u[i].typ != 0 && u[i].nlink != 0 && Held(u, refs)
    requires fs.Holds(dp) && 0 < dp.inum < |u| && dp.typ == T_DIR && it.refs == refs + multiset{i} + multiset{dp.inum}
    requires KeyOf(name, DIRSIZ) == name
    modifies fs, it, dp
    ensures Steady(fs, 0) && |fs.nodes| == |u|
    ensures done ==> it.refs == refs && Held(TreeOf(fs), refs)
    ensures done ==> Plain(name) && name !in u[dp.inum].dir && TreeOf(fs) == AddEntry(u, dp.inum, name, i)
    ensures !done ==> it.refs == refs + multiset{i} && TreeOf(fs) == u
    ensures done <==> name !in u[dp.inum].dir && old(Fits(fs, dp.inum, 0))
    ensures FilesOf(fs) == old(FilesOf(fs))
  {
    hide Inv, DirsOk, Held, View, KeyOf, Dropped, NodeView, Files;
    var d := dp.inum;
    ViewTag(fs.blocks, fs.nodes, d);
    ViewTag(fs.blocks, fs.nodes, i);
    HeldMore(u, refs, i);
    var v := LinkCommit(fs, i, dp, name, []);
    HeldEntry(u, refs + multiset{i}, d, name, i);
    HeldEntry(u, refs, d, name, i);
    ViewTag(fs.blocks, fs.nodes, d);
    SpareHere(fs, refs + multiset{i}, d);
    PutSpare(fs, it, d);
    done := v == 0;
    if done {
      ViewTag(fs.blocks, fs.nodes, i);
      SpareHere(fs, refs, i);
      PutSpare(fs, it, i);
    }
  }

  /** link's rollback: the count as it was, and the reference back. */
  method Undo(fs: Fs, it: RefTable, i: nat, ghost t: Tree, ghost refs: multiset<nat>)
    requires Steady(fs, 0) && 0 < i < |t| == |fs.nodes| && t[i].typ != 0 && t[i].typ != T_DIR && 0 <= t[i].nlink <= 0x7fff
    requires TreeOf(fs) == t[i := t[i].(nlink := Incremented(t[i].nlink))] && Held(t, refs) && it.refs == refs + multiset{i}
    modifies fs, it
    ensures Steady(fs, 0) && TreeOf(fs) == t && it.refs == refs && |fs.nodes| == |t|
    ensures FilesOf(fs) == old(FilesOf(fs))
  {
    hide Inv, DirsOk, Held, View, Dropped, NodeView, Files;
    ViewTag(fs.blocks, fs.nodes, i);
    var ip := fs.Ilock(i);
    LinkAbort(fs, ip, []);
    assert TreeOf(fs) == t;
    ViewTag(fs.blocks, fs.nodes, i);
    SpareHere(fs, refs, i);
    PutSpare(fs, it, i);
  }

  /** link from the locked file on. */
  method LinkFrom(fs: Fs, it: RefTable, ip: MemInode, path: seq<byte>, cwd: nat, ghost t: Tree, ghost refs: multiset<nat>, ghost pend: seq<nat>)
    returns (r: Result)
    requires Good(fs, pend) && TreeOf(fs) == t && fs.Holds(ip) && 0 < ip.inum && ip.typ != 0 && ip.typ != T_DIR
    requires Held(t, refs) && it.refs == refs + multiset{ip.inum} && 0 !in path
    requires 0 < cwd < |t| && ROOT < |t| && t[ROOT].typ == T_DIR && t[cwd].typ == T_DIR
    modifies fs, it, ip
    ensures var to := Resolved(t, path, cwd, true);
            && LinkDoes(t, TreeOf(fs), Found(ip.inum), to, LastName(path), old(RoomAt(fs, to, 0)), r)
            && (r == Ret(0) ==> (Good(fs, pend) <==> HasRoom(t, Found(ip.inum), to)))
    ensures r == Ret(-1) ==> Good(fs, pend)
    ensures r.Ret? ==> it.refs == refs && Held(TreeOf(fs), refs)
    ensures FilesOf(fs) == old(FilesOf(fs))
  {
    hide Inv, DirsOk, Lawful, Held, View, Resolved, LastName, NodeView, Fits, Files;
    var i := ip.inum;
    ViewTag(fs.blocks, fs.nodes, i);
    ToDir(t, path, cwd);
    Counts(t, pend, i);
    LinkBegin(fs, ip, pend);
    r := LinkTo(fs, it, i, path, cwd, t, refs);
    GoodAgain(fs, pend);
    if r == Ret(0) {
      LinkExact(t, pend, Resolved(t, path, cwd, true).inum, LastName(path), i);
    }
  }

  lemma ToDir(t: Tree, path: seq<byte>, cwd: nat)
    ensures var to := Resolved(t, path, cwd, true); to.Found? ==> to.inum < |t| && t[to.inum].typ == T_DIR
  {
    if Resolved(t, path, cwd, true).Found? {
      ParentIsDir(t, Start(path, cwd), Elements(path));
    }
  }

  /** Another name for a file: every path through the call does what the tree says, and it succeeds wherever
      the new name is absent and has room. All references are as before, and the law survives exactly when
      nothing changed, or the directory was still linked and the 16-bit count had room. */
  method SysLink(fs: Fs, it: RefTable, oldPath: seq<byte>, newPath: seq<byte>, cwd: nat, ghost pend: seq<nat>) returns (r: Result)
    requires Ready(fs, it, cwd, pend) && 0 !in oldPath && 0 !in newPath
    modifies fs, it
    ensures var t := old(TreeOf(fs));
            var from, to := Resolved(t, oldPath, cwd, false), Resolved(t, newPath, cwd, true);
            && LinkDoes(t, TreeOf(fs), from, to, LastName(newPath), old(RoomAt(fs, Resolved(TreeOf(fs), newPath, cwd, true), 0)), r)
            && (r == Ret(0) ==> (Good(fs, pend) <==> HasRoom(t, from, to)))
    ensures r == Ret(-1) ==> Good(fs, pend)
    ensures r.Ret? ==> it.refs == old(it.refs) && Held(TreeOf(fs), it.refs)
    ensures FilesOf(fs) == old(FilesOf(fs))
    ensures InodesKept(old(fs.blocks), old(fs.nodes), fs.blocks, fs.nodes, -1)
  {
    hide Inv, DirsOk, Lawful, Held, View, Resolved, LastName, NodeView, EntryFits, FreeCount, Files, FilesKept, InodesKept;
    ghost var t, refs := TreeOf(fs), it.refs;
    RootReady(fs, pend);
    NoneChanged(fs.sb, fs.blocks, fs.nodes, fs.owner);
    ViewTag(fs.blocks, fs.nodes, ROOT);
    ViewTag(fs.blocks, fs.nodes, cwd);
    var o, ip := LockFile(fs, it, oldPath, cwd, pend);
    if o.Missing? {
      return Ret(-1);
    }
    if ip == null {
      return Panicked;
    }
    var i := ip.inum;
    ViewTag(fs.blocks, fs.nodes, i);
    if ip.typ == T_DIR {
      SpareHere(fs, refs, i);
      PutSpare(fs, it, i);
      return Ret(-1);
    }
    r := LinkFrom(fs, it, ip, newPath, cwd, t, refs, pend);
    KeptSame(old(FilesOf(fs)));
    KeptAll(fs.sb, old(fs.blocks), old(fs.nodes), old(fs.owner), fs.blocks, fs.nodes);
  }

  // --- create -------------------------------------------------------------------------

  /** What create does to the tree: a file that is there; or, where there is room, the least free inode with
      its entry; or nothing. */
  ghost predicate CreateDoes(t: Tree, u: Tree, at: Outcome, k: Key, typ: int, room: bool, r: Result) {
    if at.Panic? then r == Panicked
    else if at.Missing? then r == Ret(0) && u == t
    else if at.inum < |t| && k in t[at.inum].dir then
      var c := t[at.inum].dir[k];
      if !InUse(t, c) then r == Panicked
      else u == t && r == Ret(if typ == T_FILE && (t[c].typ == T_FILE || t[c].typ == T_DEVICE) then c else 0)
    else at.inum < |t| && r == Ret(if room then LeastFree(t, 1) else 0) && Made(t, u, at.inum, k, typ, r.value)
  }

  /** Only the inode returned, if any, has one more reference. */
  ghost predicate Referred(refs: multiset<nat>, refs': multiset<nat>, r: int) {
    r >= 0 && refs' == if r == 0 then refs else refs + multiset{r}
  }

  predicate InLiveDir(t: Tree, o: Outcome) {
    o.Found? && LiveDir(t, o.inum)
  }

  lemma MadeHeld(t: Tree, u: Tree, refs: multiset<nat>, d: nat, k: Key, typ: int, r: nat)
    requires Held(t, refs) && d < |t| && t[d].typ == T_DIR && t[d].nlink >= 0 && Made(t, u, d, k, typ, r) && typ != 0
    ensures Held(u, refs + if r != 0 then multiset{r} else multiset{})
    ensures |u| == |t| && u[d].typ == T_DIR && (u[d].nlink != 0 || d in refs)
  {
    assert refs + multiset{} == refs;
  }

  /** A tree changed by create is lawful exactly when nothing was made or the directory is still linked. */
  lemma MadeExact(t: Tree, u: Tree, pend: seq<nat>, d: nat, k: Key, typ: int, r: nat)
    requires Lawful(t, pend) && d < |t| && t[d].typ == T_DIR && Made(t, u, d, k, typ, r)
    requires typ == T_DIR || typ == T_FILE || typ == T_DEVICE
    ensures Lawful(u, pend) <==> r == 0 || LiveDir(t, d)
  {
    hide Lawful;
    if r != 0 {
      if typ == T_DIR {
        CreateDirExact(t, pend, d, k, r);
      } else {
        CreateFileExact(t, pend, d, k, r, typ);
      }
    }
  }

  /** What create does to the files, when the inode returned was free and when it was not. */
  ghost predicate CreatedFile(f: seq<File>, g: seq<File>, typ: short, major: short, minor: short, r: int) {
    if 0 < r < |f| && f[r] == Nothing then MadeFile(f, g, typ, major, minor, r) else FilesKept(f, g)
  }

  lemma SwapRefs(refs: multiset<nat>, d: nat, i: nat)
    ensures refs + multiset{d} + multiset{i} - multiset{d} == refs + multiset{i}
  {
  }

  /** create on a name that is there: the directory's reference goes, and the inode is locked. */
  method Existing(fs: Fs, it: RefTable, d: nat, there: nat, typ: short, ghost refs: multiset<nat>) returns (r: Result)
    requires Steady(fs, 0) && 0 < d < |fs.nodes| && fs.nodes[d].typ == T_DIR && 0 < there && Held(TreeOf(fs), refs)
    requires it.refs == refs + multiset{d}
    modifies fs, it
    ensures Steady(fs, 0) && fs.blocks == old(fs.blocks) && fs.nodes == old(fs.nodes) && TreeOf(fs) == old(TreeOf(fs))
    ensures var t := TreeOf(fs);
            if !InUse(t, there) then r == Panicked
            else r == Ret(if typ == T_FILE && (t[there].typ == T_FILE || t[there].typ == T_DEVICE) then there else 0)
    ensures r.Ret? ==> it.refs == refs + if r.value == 0 then multiset{} else multiset{there}
  {
    hide Inv, DirsOk, Held, View, Files, FilesKept, Dropped, NodeView, Fits;
    InodesFit(fs);
    SpareHere(fs, refs, d);
    it.Iget(there);
    PutSpare(fs, it, d);
    SwapRefs(refs, d, there);
    if there >= fs.sb.ninodes {
      return Panicked;
    }
    ViewTag(fs.blocks, fs.nodes, there);
    var ip := fs.Ilock(there);
    if ip.typ == 0 {
      return Panicked;
    }
    if typ == T_FILE && (ip.typ == T_FILE || ip.typ == T_DEVICE) {
      return Ret(there);
    }
    SpareHere(fs, refs, there);
    PutSpare(fs, it, there);
    r := Ret(0);
  }

  lemma CreatedInodes(sb: SuperBlock, d: Disk, nodes: seq<Dinode>, owner: Owner, e: Disk, nodes': seq<Dinode>,
                      typ: short, major: short, minor: short, r: int)
    requires Inv(sb, d, nodes, owner) && |nodes'| == |nodes| && CreatedFile(Files(d, nodes), Files(e, nodes'), typ, major, minor, r) && typ != 0
    ensures var made := 0 < r < |nodes| && nodes[r].typ == 0;
            && InodesKept(d, nodes, e, nodes', if made then r else -1)
            && (made ==> nodes'[r].typ == typ && nodes'[r].major == major && nodes'[r].minor == minor
                         && nodes'[r].permissions == 0x1C0 && (typ != T_DIR ==> nodes'[r].size == 0))
  {
    hide Inv, Files, FileView, InodesKept;
    var made := 0 < r < |nodes| && nodes[r].typ == 0;
    if 0 < r < |nodes| {
      FileAt(d, nodes, r);
      FileAt(e, nodes', r);
    }
    KeptInodes(sb, d, nodes, owner, e, nodes', if made then r else -1);
    if made {
      FreshFileIs(d, typ, major, minor);
      SameRecord(d, Dinode(typ, major, minor, 0, 0, NoAddrs(), 0x1C0), e, nodes'[r]);
    }
  }

  lemma FreshFileIs(d: Disk, typ: short, major: short, minor: short)
    requires typ != 0
    ensures FileView(d, Dinode(typ, major, minor, 0, 0, NoAddrs(), 0x1C0)) == FreshFile(typ, major, minor)
  {
  }

  /** create in the locked directory dp. */
  method CreateIn(fs: Fs, it: RefTable, dp: MemInode, name: Key, typ: short, major: short, minor: short,
                  ghost t: Tree, ghost refs: multiset<nat>, ghost pend: seq<nat>) returns (r: Result)
    requires Good(fs, pend) && TreeOf(fs) == t && Held(t, refs) && (typ == T_DIR || typ == T_FILE || typ == T_DEVICE)
    requires fs.Holds(dp) && 0 < dp.inum && dp.typ == T_DIR && it.refs == refs + multiset{dp.inum} && KeyOf(name, DIRSIZ) == name
    modifies fs, it, dp
    ensures Steady(fs, 0) && CreateDoes(t, TreeOf(fs), Found(dp.inum), name, typ, old(Fits(fs, dp.inum, DotBlocks(typ))), r)
    ensures r.Ret? ==> Referred(refs, it.refs, r.value) && Held(TreeOf(fs), it.refs)
    ensures r.Ret? ==> (Lawful(TreeOf(fs), pend) <==> TreeOf(fs) == t || LiveDir(t, dp.inum))
    ensures r.Ret? ==> CreatedFile(old(FilesOf(fs)), FilesOf(fs), typ, major, minor, r.value)
  {
    hide Inv, DirsOk, Lawful, Held, View, KeyOf, NodeView, Made, Files, FilesKept, MadeFile;
    var d := dp.inum;
    ViewTag(fs.blocks, fs.nodes, d);
    var there := Lookup(fs, dp, name);
    if there != 0 {
      r := Existing(fs, it, d, there, typ, refs);
      assert refs + multiset{} == refs;
      KeptSame(FilesOf(fs));
      if r.Ret? && r.value != 0 {
        HeldMore(t, refs, there);
        ViewTag(fs.blocks, fs.nodes, there);
        FileAt(fs.blocks, fs.nodes, there);
      }
      return;
    }
    r := CreateAbsent(fs, it, dp, name, typ, major, minor, t, refs, pend);
  }

  /** create of an absent name. */
  method CreateAbsent(fs: Fs, it: RefTable, dp: MemInode, name: Key, typ: short, major: short, minor: short,
                      ghost t: Tree, ghost refs: multiset<nat>, ghost pend: seq<nat>) returns (r: Result)
    requires Good(fs, pend) && TreeOf(fs) == t && Held(t, refs) && (typ == T_DIR || typ == T_FILE || typ == T_DEVICE)
    requires fs.Holds(dp) && 0 < dp.inum && dp.typ == T_DIR && it.refs == refs + multiset{dp.inum}
    requires dp.inum < |t| && KeyOf(name, DIRSIZ) == name && name !in t[dp.inum].dir
    modifies fs, it, dp
    ensures r == Ret(if old(Fits(fs, dp.inum, DotBlocks(typ))) then LeastFree(t, 1) else 0)
    ensures Steady(fs, 0) && dp.inum < |t| && Made(t, TreeOf(fs), dp.inum, name, typ, r.value)
    ensures Referred(refs, it.refs, r.value) && Held(TreeOf(fs), it.refs)
    ensures Lawful(TreeOf(fs), pend) <==> TreeOf(fs) == t || LiveDir(t, dp.inum)
    ensures CreatedFile(old(FilesOf(fs)), FilesOf(fs), typ, major, minor, r.value)
  {
    hide Inv, DirsOk, Lawful, Held, View, KeyOf, NodeView, Made, Files;
    var d := dp.inum;
    ViewTag(fs.blocks, fs.nodes, d);
    HeldMore(t, refs, d);
    var i := MakeNew(fs, it, dp, name, typ, major, minor, pend);
    Counts(t, pend, d);
    MadeHeld(t, TreeOf(fs), refs, d, name, typ, i);
    MadeExact(t, TreeOf(fs), pend, d, name, typ, i);
    MadeMeans(t, TreeOf(fs), d, name, typ, i);
    ViewTag(fs.blocks, fs.nodes, d);
    PutSpare(fs, it, d);
    r := Ret(i);
  }

  lemma MadeMeans(t: Tree, u: Tree, d: nat, k: Key, typ: int, r: nat)
    requires d < |t| && Made(t, u, d, k, typ, r) && typ != 0
    ensures r == 0 <==> u == t
    ensures r != d || r == 0
  {
    if r != 0 {
      assert u[r].typ != t[r].typ;
    }
  }

  /** A new file, device or directory, or the file that is there. Under an absent name it is made exactly where
      the directory has room for the entry, the disk for what the entries need, and an inode is free: the least
      one. Only the inode returned gains a reference; and the law survives exactly when nothing was made or the
      directory was still linked. */
  method SysCreate(fs: Fs, it: RefTable, path: seq<byte>, cwd: nat, typ: short, major: short, minor: short, ghost pend: seq<nat>)
    returns (r: Result)
    requires Ready(fs, it, cwd, pend) && 0 !in path && (typ == T_DIR || typ == T_FILE || typ == T_DEVICE)
    modifies fs, it
    ensures CreateDoes(old(TreeOf(fs)), TreeOf(fs), Resolved(old(TreeOf(fs)), path, cwd, true), LastName(path), typ,
                       old(RoomAt(fs, Resolved(TreeOf(fs), path, cwd, true), DotBlocks(typ))), r)
    ensures r.Ret? ==> Steady(fs, 0) && Referred(old(it.refs), it.refs, r.value) && Held(TreeOf(fs), it.refs)
    ensures r.Ret? ==> (Good(fs, pend) <==>
              TreeOf(fs) == old(TreeOf(fs)) || InLiveDir(old(TreeOf(fs)), Resolved(old(TreeOf(fs)), path, cwd, true)))
    ensures r.Ret? ==> CreatedFile(old(FilesOf(fs)), FilesOf(fs), typ, major, minor, r.value)
    ensures r.Ret? ==> var made := 0 < r.value < |old(fs.nodes)| && old(fs.nodes)[r.value].typ == 0;
              && InodesKept(old(fs.blocks), old(fs.nodes), fs.blocks, fs.nodes, if made then r.value else -1)
              && (made ==> var n := fs.nodes[r.value];
                    n.typ == typ && n.major == major && n.minor == minor && n.permissions == 0x1C0 && (typ != T_DIR ==> n.size == 0))
  {
    hide Inv, DirsOk, Lawful, Held, View, Resolved, LastName, KeyOf, NodeView, Files, InodesKept;
    ghost var t, refs := TreeOf(fs), it.refs;
    RootReady(fs, pend);
    var o, dp, name := LockParent(fs, it, path, cwd);
    if o.Panic? {
      return Panicked;
    }
    if dp == null {
      CreatedInodes(fs.sb, fs.blocks, fs.nodes, fs.owner, fs.blocks, fs.nodes, typ, major, minor, 0);
      return Ret(0);
    }
    r := CreateIn(fs, it, dp, name, typ, major, minor, t, refs, pend);
    if r.Ret? {
      CreatedInodes(fs.sb, old(fs.blocks), old(fs.nodes), old(fs.owner), fs.blocks, fs.nodes, typ, major, minor, r.value);
    }
  }

  // --- mkdir and chdir --------------------------------------------------------------------

  /** mkdir makes a directory exactly where the name is absent, there is room for it, and an inode is free. */
  ghost predicate MkdirDoes(t: Tree, u: Tree, at: Outcome, k: Key, room: bool, r: Result) {
    if at.Panic? then r == Panicked
    else if at.Missing? then r == Ret(-1) && u == t
    else if at.inum < |t| && k in t[at.inum].dir then
      if InUse(t, t[at.inum].dir[k]) then r == Ret(-1) && u == t else r == Panicked
    else
      var i := if room then LeastFree(t, 1) else 0;
      at.inum < |t| && r == Ret(if i != 0 then 0 else -1) && Made(t, u, at.inum, k, T_DIR, i)
  }

  lemma MkdirIs(t: Tree, u: Tree, at: Outcome, k: Key, room: bool, r: Result)
    requires CreateDoes(t, u, at, k, T_DIR, room, r)
    ensures MkdirDoes(t, u, at, k, room, if r.Panicked? then r else Ret(if r.value != 0 then 0 else -1))
    ensures r.Ret? && r.value != 0 ==>
              r.value == LeastFree(t, 1) && 0 < r.value < |t| == |u| && t[r.value].typ == 0 && u[r.value].typ != 0 && u[r.value].nlink == 1
  {
    hide LeastFree;
    LeastIsFree(t);
  }

  lemma LeastIsFree(t: Tree)
    ensures LeastFree(t, 1) != 0 ==> 0 < LeastFree(t, 1) < |t| && t[LeastFree(t, 1)].typ == 0
  {
  }

  /** create, and the reference to the new directory given back. */
  method SysMkdir(fs: Fs, it: RefTable, path: seq<byte>, cwd: nat, ghost pend: seq<nat>) returns (r: Result)
    requires Ready(fs, it, cwd, pend) && 0 !in path
    modifies fs, it
    ensures MkdirDoes(old(TreeOf(fs)), TreeOf(fs), Resolved(old(TreeOf(fs)), path, cwd, true), LastName(path),
                      old(RoomAt(fs, Resolved(TreeOf(fs), path, cwd, true), DotBlocks(T_DIR))), r)
    ensures r.Ret? ==> it.refs == old(it.refs) && Held(TreeOf(fs), it.refs)
    ensures r.Ret? ==> (Good(fs, pend) <==>
              TreeOf(fs) == old(TreeOf(fs)) || InLiveDir(old(TreeOf(fs)), Resolved(old(TreeOf(fs)), path, cwd, true)))
    ensures r == Ret(-1) ==> InodesKept(old(fs.blocks), old(fs.nodes), fs.blocks, fs.nodes, -1)
    ensures r == Ret(0) ==>
              var i := LeastFree(old(TreeOf(fs)), 1);
              && InodesKept(old(fs.blocks), old(fs.nodes), fs.blocks, fs.nodes, i)
              && i < |fs.nodes| && fs.nodes[i].typ == T_DIR && fs.nodes[i].permissions == 0x1C0
  {
    hide Inv, DirsOk, Lawful, Held, View, Resolved, LastName, NodeView, RoomAt, LeastFree, Files, InodesKept, CreatedFile, CreateDoes, MkdirDoes, InLiveDir;
    ghost var t, refs := TreeOf(fs), it.refs;
    r := SysCreate(fs, it, path, cwd, T_DIR, 0, 0, pend);
    MkdirIs(t, TreeOf(fs), Resolved(t, path, cwd, true), LastName(path), old(RoomAt(fs, Resolved(TreeOf(fs), path, cwd, true), DotBlocks(T_DIR))), r);
    if r.Ret? {
      if r.value != 0 {
        ViewTag(old(fs.blocks), old(fs.nodes), r.value);
        PutNew(fs, it, r.value, refs);
      }
      GoodAgain(fs, pend);
      r := Ret(if r.value != 0 then 0 else -1);
    }
  }

  /** iunlockput of the inode that create has returned. */
  method PutNew(fs: Fs, it: RefTable, i: nat, ghost refs: multiset<nat>)
    requires Steady(fs, 0) && 0 < i < |TreeOf(fs)| && TreeOf(fs)[i].typ != 0 && TreeOf(fs)[i].nlink != 0
    requires it.refs == refs + multiset{i} && Held(TreeOf(fs), it.refs)
    modifies fs, it
    ensures Steady(fs, 0) && fs.blocks == old(fs.blocks) && fs.nodes == old(fs.nodes) && TreeOf(fs) == old(TreeOf(fs)) && it.refs == refs && Held(TreeOf(fs), refs)
  {
    hide Inv, DirsOk, View, NodeView, Dropped;
    ViewTag(fs.blocks, fs.nodes, i);
    assert refs + multiset{i} - multiset{i} == refs;
    PutSpare(fs, it, i);
  }

  /** What chdir leaves: the new current directory referred to instead of the old one. */
  ghost predicate ChdirDoes(t: Tree, refs: multiset<nat>, cwd: nat, u: Tree, refs': multiset<nat>, o: Outcome, r: Result, now: nat)
    requires cwd < |t|
  {
    if o.Panic? || (o.Found? && !InUse(t, o.inum)) then r == Panicked
    else if o.Missing? || t[o.inum].typ != T_DIR then r == Ret(-1) && now == cwd && u == t && refs' == refs
    else
      r == Ret(0) && now == o.inum && refs' == refs + multiset{now} - multiset{cwd} && u == Dropped(t, refs + multiset{now}, cwd)
  }

  /** The old current directory is given up, and freed if it was unlinked and nobody else refers to it. */
  method SysChdir(fs: Fs, it: RefTable, path: seq<byte>, cwd: nat, ghost pend: seq<nat>) returns (r: Result, now: nat)
    requires Ready(fs, it, cwd, pend) && 0 !in path
    modifies fs, it
    ensures cwd < |old(TreeOf(fs))|
    ensures ChdirDoes(old(TreeOf(fs)), old(it.refs), cwd, TreeOf(fs), it.refs, Resolved(old(TreeOf(fs)), path, cwd, false), r, now)
    ensures r.Ret? ==> Ready(fs, it, now, pend)
    ensures FilesKept(old(FilesOf(fs)), FilesOf(fs)) && InodesKept(old(fs.blocks), old(fs.nodes), fs.blocks, fs.nodes, -1)
  {
    hide Inv, DirsOk, Lawful, Held, View, Resolved, NodeView, Files, FilesKept, InodesKept;
    ghost var t, refs := TreeOf(fs), it.refs;
    NoneChanged(fs.sb, fs.blocks, fs.nodes, fs.owner);
    var o, ip := LockFile(fs, it, path, cwd, pend);
    now := cwd;
    if o.Missing? {
      return Ret(-1), cwd;
    }
    if ip == null {
      return Panicked, cwd;
    }
    var i := ip.inum;
    ViewTag(fs.blocks, fs.nodes, i);
    if ip.typ != T_DIR {
      SpareHere(fs, refs, i);
      PutSpare(fs, it, i);
      return Ret(-1), cwd;
    }
    HeldMore(t, refs, i);
    Iput(fs, it, cwd, pend);
    ViewTag(fs.blocks, fs.nodes, i);
    KeptAll(fs.sb, old(fs.blocks), old(fs.nodes), old(fs.owner), fs.blocks, fs.nodes);
    r, now := Ret(0), i;
  }

  // --- chmod and getperm ------------------------------------------------------------------

  /** The low nine bits of mode become the permissions of the inode the path leads to; no content, name,
      link or reference changes. */
  method SysChmod(fs: Fs, it: RefTable, path: seq<byte>, cwd: nat, mode: int, ghost pend: seq<nat>) returns (r: Result)
    requires Ready(fs, it, cwd, pend) && 0 !in path
    modifies fs, it
    ensures TreeOf(fs) == old(TreeOf(fs))
    ensures ChmodDoes(old(fs.blocks), old(fs.nodes), fs.blocks, fs.nodes, Resolved(old(TreeOf(fs)), path, cwd, false), mode, r)
    ensures r.Ret? ==> Good(fs, pend) && it.refs == old(it.refs) && Held(TreeOf(fs), it.refs)
  {
    hide Inv, DirsOk, Lawful, Held, View, Resolved, NodeView, BlockMap.Content;
    ghost var refs := it.refs;
    var o, ip := LockFile(fs, it, path, cwd, pend);
    AllocatedHere(fs, o);
    if o.Missing? {
      return Ret(-1);
    }
    if ip == null {
      return Panicked;
    }
    var i := ip.inum;
    SetPermissions(fs, ip, mode, pend);
    SpareHere(fs, refs, i);
    PutSpare(fs, it, i);
    r := Ret(0);
  }

  ghost predicate ChmodDoes(d: Disk, nodes: seq<Dinode>, e: Disk, nodes': seq<Dinode>, o: Outcome, mode: int, r: Result) {
    if o.Found? && o.inum < |nodes| && nodes[o.inum].typ != 0 then r == Ret(0) && Chmodded(d, nodes, e, nodes', o.inum, mode)
    else e == d && nodes' == nodes && r == if o.Missing? then Ret(-1) else Panicked
  }

  lemma AllocatedHere(fs: Fs, o: Outcome)
    ensures o.Found? ==> (InUse(TreeOf(fs), o.inum) <==> o.inum < |fs.nodes| && fs.nodes[o.inum].typ != 0)
  {
    if o.Found? && o.inum < |fs.nodes| {
      ViewTag(fs.blocks, fs.nodes, o.inum);
    }
  }

  /** The permissions of the inode the path leads to: after a chmod that returned, its mode's low nine bits. */
  method SysGetperm(fs: Fs, it: RefTable, path: seq<byte>, cwd: nat, ghost pend: seq<nat>) returns (r: Result)
    requires Ready(fs, it, cwd, pend) && 0 !in path
    modifies fs, it
    ensures fs.blocks == old(fs.blocks) && fs.nodes == old(fs.nodes) && TreeOf(fs) == old(TreeOf(fs))
    ensures var o := Resolved(TreeOf(fs), path, cwd, false);
            r == if o.Missing? then Ret(-1)
                 else if o.Found? && o.inum < |fs.nodes| && fs.nodes[o.inum].typ != 0 then Ret(fs.nodes[o.inum].permissions)
                 else Panicked
    ensures r.Ret? ==> Good(fs, pend) && it.refs == old(it.refs)
  {
    hide Inv, DirsOk, Lawful, Held, View, Resolved, NodeView;
    ghost var refs := it.refs;
    var o, ip := LockFile(fs, it, path, cwd, pend);
    AllocatedHere(fs, o);
    if o.Missing? {
      return Ret(-1);
    }
    if ip == null {
      return Panicked;
    }
    SpareHere(fs, refs, ip.inum);
    r := Ret(ip.permissions);
    PutSpare(fs, it, ip.inum);
    GoodAgain(fs, pend);
  }
}
