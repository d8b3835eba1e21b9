/** The file system's promises fail in states that programs reach: each program below runs the system calls on
    any disk of four inodes with room for all they can hold, empty but for its root, such as Image.Mount's. */
module Reachable {
  import opened Bytes
  import opened Layout
  import opened BlockMap
  import opened DirFormat
  import opened LinkLaw
  import opened InodeRefs
  import opened FileSystem
  import opened SysFile
  import opened Path
  import opened Syscalls
  import opened Capacity
  import opened Image

  const A: Key := [97]
  const B: Key := [98]

  /** The disk is empty, and the only reference is the first process's to its current directory, the root. */
  ghost predicate Mounted(fs: Fs, it: RefTable)
    reads fs, it
  {
    Good(fs, NoPending()) && TreeOf(fs) == Empty() && it.refs == multiset{ROOT} && Spare(fs.sb) >= 3
  }

  // --- paths ---------------------------------------------------------------------------------

  predicate Word(k: Key) {
    0 < |k| <= DIRSIZ && SLASH !in k && 0 !in k
  }

  /** "/k" */
  function Top(k: Key): seq<byte> {
    [SLASH] + k
  }

  /** "/k/l" */
  function Below(k: Key, l: Key): seq<byte> {
    Top(k) + Top(l)
  }

  lemma TopNames(k: Key)
    requires Word(k)
    ensures Elements(Top(k)) == [k] && 0 !in Top(k)
  {
    hide Elements;
    LeadingSlash(Top(k));
    FirstWord(k, []);
    HasWord([]);
    assert k + [] == k && Top(k)[1..] == k;
  }

  lemma BelowNames(k: Key, l: Key)
    requires Word(k) && Word(l)
    ensures Elements(Below(k, l)) == [k, l] && 0 !in Below(k, l)
  {
    hide Elements;
    LeadingSlash(Below(k, l));
    FirstWord(k, Top(l));
    TopNames(l);
    assert Below(k, l)[1..] == k + Top(l);
  }

  lemma ResolveTop(t: Tree, k: Key, cwd: nat)
    requires Word(k) && ROOT < |t| && t[ROOT].typ == T_DIR
    ensures Resolved(t, Top(k), cwd, true) == Found(ROOT) && LastName(Top(k)) == k
    ensures k in t[ROOT].dir ==> Resolved(t, Top(k), cwd, false) == Found(t[ROOT].dir[k])
  {
    TopNames(k);
    if k in t[ROOT].dir {
      WalkOne(t, ROOT, k);
    }
  }

  lemma WalkOne(t: Tree, i: nat, k: Key)
    requires i < |t| && t[i].typ == T_DIR && k in t[i].dir
    ensures Walk(t, i, [k]) == Found(t[i].dir[k])
  {
    assert [k][1..] == [];
    assert Walk(t, t[i].dir[k], []) == Found(t[i].dir[k]);
  }

  lemma ResolveBelow(t: Tree, k: Key, l: Key, cwd: nat)
    requires Word(k) && Word(l) && ROOT < |t| && t[ROOT].typ == T_DIR && k in t[ROOT].dir
    requires t[ROOT].dir[k] < |t| && t[t[ROOT].dir[k]].typ == T_DIR
    ensures Resolved(t, Below(k, l), cwd, true) == Found(t[ROOT].dir[k]) && LastName(Below(k, l)) == l
    ensures l in t[t[ROOT].dir[k]].dir ==> Resolved(t, Below(k, l), cwd, false) == Found(t[t[ROOT].dir[k]].dir[l])
  {
    BelowNames(k, l);
    var d := t[ROOT].dir[k];
    WalkOne(t, ROOT, k);
    assert [k, l][..1] == [k] && [k, l][1..] == [l];
    if l in t[d].dir {
      WalkOne(t, d, l);
    }
  }

  // --- a walk that panics ------------------------------------------------------------------

  function MadeA(): Tree {
    [FreeNode(), Node(T_DIR, 2, map[DOT := 1, DOTDOT := 1, A := 2]), Node(T_DIR, 1, map[DOT := 2, DOTDOT := 1]), FreeNode()]
  }

  function MadeB(): Tree {
    [FreeNode(), Node(T_DIR, 2, map[DOT := 1, DOTDOT := 1, A := 2]), Node(T_DIR, 2, map[DOT := 2, DOTDOT := 1, B := 3]),
     Node(T_DIR, 1, map[DOT := 3, DOTDOT := 2])]
  }

  function RemovedB(): Tree {
    [FreeNode(), Node(T_DIR, 2, map[DOT := 1, DOTDOT := 1, A := 2]), Node(T_DIR, 1, map[DOT := 2, DOTDOT := 1]),
     Node(T_DIR, 0, map[DOT := 3, DOTDOT := 2])]
  }

  function RemovedA(): Tree {
    [FreeNode(), Node(T_DIR, 1, map[DOT := 1, DOTDOT := 1]), FreeNode(), Node(T_DIR, 0, map[DOT := 3, DOTDOT := 2])]
  }

  lemma MakeA(u: Tree, r: Result)
    requires MkdirDoes(Empty(), u, Resolved(Empty(), Top(A), ROOT, true), LastName(Top(A)), true, r)
    ensures r == Ret(0) && u == MadeA() && InLiveDir(Empty(), Resolved(Empty(), Top(A), ROOT, true))
  {
    ResolveTop(Empty(), A, ROOT);
    assert LeastFree(Empty(), 1) == LeastFree(Empty(), 2) == 2;
    assert WithDir(Empty(), 1, A, 2) == MadeA();
  }

  lemma MakeB(u: Tree, r: Result)
    requires MkdirDoes(MadeA(), u, Resolved(MadeA(), Below(A, B), ROOT, true), LastName(Below(A, B)), true, r)
    ensures r == Ret(0) && u == MadeB() && InLiveDir(MadeA(), Resolved(MadeA(), Below(A, B), ROOT, true))
  {
    ResolveBelow(MadeA(), A, B, ROOT);
    assert LeastFree(MadeA(), 1) == LeastFree(MadeA(), 2) == LeastFree(MadeA(), 3) == 3;
    assert WithDir(MadeA(), 2, B, 3) == MadeB();
  }

  lemma EnterB(u: Tree, refs: multiset<nat>, r: Result, now: nat)
    requires ChdirDoes(MadeB(), multiset{ROOT}, ROOT, u, refs, Resolved(MadeB(), Below(A, B), ROOT, false), r, now)
    ensures r == Ret(0) && now == 3 && u == MadeB() && refs == multiset{3}
  {
    ResolveBelow(MadeB(), A, B, ROOT);
  }

  lemma RemoveB(u: Tree, r: Result)
    requires r.Ret? && Unlinks(MadeB(), u, 2, B, multiset{3}, r.value)
    ensures r == Ret(0) && u == RemovedB()
  {
    assert EmptyDir(MadeB(), 3);
    assert MadeB()[2].dir - {B} == RemovedB()[2].dir;
    assert UnlinkedDir(MadeB(), 2, B) == RemovedB();
  }

  lemma RemoveA(u: Tree, r: Result)
    requires r.Ret? && Unlinks(RemovedB(), u, 1, A, multiset{3}, r.value)
    ensures r == Ret(0) && u == RemovedA()
  {
    assert EmptyDir(RemovedB(), 2);
    assert RemovedB()[1].dir - {A} == RemovedA()[1].dir;
    assert UnlinkedDir(RemovedB(), 1, A)[2 := FreeNode()] == RemovedA();
  }

  /** From the unlinked directory, "../." locks the freed one above it. */
  lemma UpAndDot()
    ensures Elements([46, 46, 47, 46]) == [DOTDOT, DOT]
    ensures Resolved(RemovedA(), [46, 46, 47, 46], 3, false).Panic? && !Anchored(RemovedA(), 3)
  {
    FirstWord(DOTDOT, [47, 46]);
    LeadingSlash([47, 46]);
    FirstWord(DOT, []);
    HasWord([]);
    assert [46, 46, 47, 46] == DOTDOT + [47, 46] && [47, 46][1..] == DOT + [];
    assert [DOTDOT, DOT][1..] == [DOT];
    assert Walk(RemovedA(), 2, [DOT]).Panic?;
    assert Climb(RemovedA(), 3, 1) == 2 && !InUse(RemovedA(), Climb(RemovedA(), 3, 1));
  }

  /** A directory that can take one more name. */
  predicate SmallDir(t: Tree, i: nat) {
    0 < i < |t| && t[i].typ == T_DIR && |t[i].dir| < MAXNAMES
  }

  predicate SmallBelow(t: Tree, k: Key) {
    ROOT < |t| && t[ROOT].typ == T_DIR && k in t[ROOT].dir && SmallDir(t, t[ROOT].dir[k])
  }

  lemma SmallTrees()
    ensures SmallDir(Empty(), ROOT) && SmallDir(MadeA(), ROOT) && SmallBelow(MadeA(), A) && SmallDir(MadeB(), ROOT)
    ensures SmallDir(RemovedB(), 3) && SmallDir(RemovedA(), 3)
  {
  }

  lemma MountReady(fs: Fs, it: RefTable)
    requires Mounted(fs, it)
    ensures Ready(fs, it, ROOT, NoPending())
  {
    hide Good;
    RootReady(fs, NoPending());
  }

  /** The caller's directory stays one while it is referred to. */
  lemma StillReady(fs: Fs, it: RefTable, cwd: nat)
    requires Good(fs, NoPending()) && Held(TreeOf(fs), it.refs) && cwd in it.refs
    requires SmallDir(TreeOf(fs), cwd)
    ensures Ready(fs, it, cwd, NoPending())
  {
    hide Good, Held;
    ViewTag(fs.blocks, fs.nodes, cwd);
  }

  /** A directory that is not full has room for one more name. */
  lemma RoomInTop(fs: Fs, k: Key, cwd: nat, kept: nat)
    requires Good(fs, NoPending()) && Word(k) && kept <= 1 && Spare(fs.sb) >= 3
    requires SmallDir(TreeOf(fs), ROOT)
    ensures RoomAt(fs, Resolved(TreeOf(fs), Top(k), cwd, true), kept)
  {
    hide Fits, Lawful, View;
    ResolveTop(TreeOf(fs), k, cwd);
    ViewTag(fs.blocks, fs.nodes, ROOT);
    AlwaysFits(fs, ROOT, kept);
  }

  lemma RoomBelow(fs: Fs, k: Key, l: Key, cwd: nat, kept: nat)
    requires Good(fs, NoPending()) && Word(k) && Word(l) && kept <= 1 && Spare(fs.sb) >= 3
    requires SmallBelow(TreeOf(fs), k)
    ensures RoomAt(fs, Resolved(TreeOf(fs), Below(k, l), cwd, true), kept)
  {
    hide Fits, Lawful, View;
    ResolveBelow(TreeOf(fs), k, l, cwd);
    var d := TreeOf(fs)[ROOT].dir[k];
    ViewTag(fs.blocks, fs.nodes, d);
    AlwaysFits(fs, d, kept);
  }

  /** mkdir /a */
  method MakeTop(fs: Fs, it: RefTable)
    requires Mounted(fs, it)
    modifies fs, it
    ensures Ready(fs, it, ROOT, NoPending()) && TreeOf(fs) == MadeA() && it.refs == multiset{ROOT}
  {
    hide Good, Ready, Held, View, Resolved, LastName, MkdirDoes, RoomAt, Elements, InLiveDir, SmallDir, Empty, MadeA, InodesKept, FilesKept, FilesOf;
    TopNames(A);
    SmallTrees();
    MountReady(fs, it);
    RoomInTop(fs, A, ROOT, 1);
    var r := SysMkdir(fs, it, Top(A), ROOT, NoPending());
    MakeA(TreeOf(fs), r);
    StillReady(fs, it, ROOT);
  }

  /** mkdir /a/b; cd /a/b */
  method MakeBelow(fs: Fs, it: RefTable) returns (cwd: nat)
    requires Ready(fs, it, ROOT, NoPending()) && TreeOf(fs) == MadeA() && it.refs == multiset{ROOT} && Spare(fs.sb) >= 3
    modifies fs, it
    ensures cwd == 3 && Ready(fs, it, 3, NoPending()) && TreeOf(fs) == MadeB() && it.refs == multiset{3}
  {
    hide Good, Held, View, Resolved, LastName, MkdirDoes, ChdirDoes, RoomAt, Elements, InLiveDir, SmallDir, SmallBelow, MadeA, MadeB, InodesKept, FilesKept, FilesOf;
    BelowNames(A, B);
    SmallTrees();
    RoomBelow(fs, A, B, ROOT, 1);
    var r := SysMkdir(fs, it, Below(A, B), ROOT, NoPending());
    MakeB(TreeOf(fs), r);
    StillReady(fs, it, ROOT);
    r, cwd := SysChdir(fs, it, Below(A, B), ROOT, NoPending());
    EnterB(TreeOf(fs), it.refs, r, cwd);
  }

  /** rmdir /a/b; rmdir /a, with a/b still the current directory */
  method RemoveDirs(fs: Fs, it: RefTable)
    requires Ready(fs, it, 3, NoPending()) && TreeOf(fs) == MadeB() && it.refs == multiset{3}
    modifies fs, it
    ensures Ready(fs, it, 3, NoPending()) && TreeOf(fs) == RemovedA()
  {
    hide Good, Ready, Held, View, Resolved, LastName, Unlinks, Elements, SmallDir, InodesKept, FilesKept, FilesOf;
    SmallTrees();
    TopNames(A);
    BelowNames(A, B);
    ResolveBelow(MadeB(), A, B, 3);
    var r := SysUnlink(fs, it, Below(A, B), 3, NoPending());
    RemoveB(TreeOf(fs), r);
    StillReady(fs, it, 3);
    ResolveTop(RemovedB(), A, 3);
    r := SysUnlink(fs, it, Top(A), 3, NoPending());
    RemoveA(TreeOf(fs), r);
    StillReady(fs, it, 3);
  }

  /** mkdir a; mkdir a/b; cd a/b; rmdir /a/b; rmdir /a: every call succeeds and the law holds throughout. But
      now "../." panics. */
  method DeadCwdPanics(fs: Fs, it: RefTable) returns (r: Result)
    requires Mounted(fs, it)
    modifies fs, it
    ensures r == Panicked && TreeOf(fs) == RemovedA() && Lawful(TreeOf(fs), NoPending())
  {
    hide Ready, Held, View, Resolved, Lawful, Inv, DirsOk, InodesKept, FilesKept, FilesOf;
    MakeTop(fs, it);
    var cwd := MakeBelow(fs, it);
    RemoveDirs(fs, it);
    UpAndDot();
    ReadyLawful(fs, it, cwd);
    r := SysGetperm(fs, it, [46, 46, 47, 46], cwd, NoPending());
  }

  lemma ReadyLawful(fs: Fs, it: RefTable, cwd: nat)
    requires Ready(fs, it, cwd, NoPending())
    ensures Lawful(TreeOf(fs), NoPending())
  {
  }

  // --- a link count that overflows -----------------------------------------------------------

  /** Directory a, and file 3 under the name b. */
  function Start(): Tree {
    [FreeNode(), Node(T_DIR, 2, map[DOT := 1, DOTDOT := 1, A := 2, B := 3]), Node(T_DIR, 1, map[DOT := 2, DOTDOT := 1]),
     Node(T_FILE, 1, map[])]
  }

  const MOST: nat := 16000

  /** Names of three bytes, one for each number. */
  function NumKey(n: nat): Key
    requires n < 0x8000
  {
    [64 + n / 32 / 32, 64 + n / 32 % 32, 64 + n % 32]
  }

  lemma NumKeys(n: nat, m: nat)
    requires n < 0x8000 && m < 0x8000
    ensures NumKey(n) == NumKey(m) ==> n == m
    ensures Word(NumKey(n)) && Plain(NumKey(n)) && NumKey(n) != A && NumKey(n) != B
  {
    assert |NumKey(n)| == 3;
    if NumKey(n) == NumKey(m) {
      Digits(n, m);
    }
  }

  lemma Digits(n: nat, m: nat)
    requires n / 32 / 32 == m / 32 / 32 && n / 32 % 32 == m / 32 % 32 && n % 32 == m % 32
    ensures n == m
  {
    assert n / 32 == m / 32;
  }

  /** The root takes the first names, directory a the rest, so that neither outgrows a directory. */
  function DirOf(n: nat): nat {
    if n < MOST then ROOT else 2
  }

  function NumPath(n: nat): seq<byte>
    requires n < 0x8000
  {
    if n < MOST then Top(NumKey(n)) else Below(A, NumKey(n))
  }

  /** The tree after n links of file 3. */
  ghost predicate Many(t: Tree, n: nat)
    requires n < 0x8000
  {
    && |t| == 4 && Lawful(t, NoPending()) && LiveDir(t, ROOT) && LiveDir(t, 2)
    && A in t[ROOT].dir && t[ROOT].dir[A] == 2 && B in t[ROOT].dir && t[ROOT].dir[B] == 3
    && t[3].typ == T_FILE && t[3].nlink == n + 1
    && |t[ROOT].dir| <= 4 + n && |t[ROOT].dir| <= 4 + MOST && |t[2].dir| <= (if n < MOST then 2 else 2 + n - MOST)
    && forall m: nat | n <= m < 0x8000 :: NumKey(m) !in t[ROOT].dir && NumKey(m) !in t[2].dir
  }

  lemma MakeStart(u: Tree, r: Result)
    requires CreateDoes(MadeA(), u, Resolved(MadeA(), Top(B), ROOT, true), LastName(Top(B)), T_FILE, true, r)
    ensures r == Ret(3) && u == Start() && InLiveDir(MadeA(), Resolved(MadeA(), Top(B), ROOT, true))
  {
    ResolveTop(MadeA(), B, ROOT);
    assert LeastFree(MadeA(), 1) == LeastFree(MadeA(), 2) == LeastFree(MadeA(), 3) == 3;
    assert WithFile(MadeA(), ROOT, B, 3, T_FILE) == Start();
  }

  lemma StartMany()
    requires Lawful(Start(), NoPending())
    ensures Many(Start(), 0) && SmallDir(Start(), ROOT)
  {
    hide Lawful;
    forall m: nat | m < 0x8000
      ensures NumKey(m) !in Start()[ROOT].dir && NumKey(m) !in Start()[2].dir
    {
      NumKeys(m, m);
    }
    assert Start()[ROOT].dir.Keys == {DOT, DOTDOT, A, B} && Start()[2].dir.Keys == {DOT, DOTDOT};
  }

  /** create /b, and close it */
  method MakeFile(fs: Fs, it: RefTable)
    requires Ready(fs, it, ROOT, NoPending()) && TreeOf(fs) == MadeA() && it.refs == multiset{ROOT} && Spare(fs.sb) >= 3
    modifies fs, it
    ensures Ready(fs, it, ROOT, NoPending()) && Many(TreeOf(fs), 0) && it.refs == multiset{ROOT}
  {
    hide Inv, DirsOk, Lawful, Held, View, Resolved, LastName, CreateDoes, RoomAt, Elements, InLiveDir, SmallDir, MadeA, Many, InodesKept, FilesKept, FilesOf, CreatedFile;
    TopNames(B);
    SmallTrees();
    RoomInTop(fs, B, ROOT, 0);
    var r := SysCreate(fs, it, Top(B), ROOT, T_FILE, 0, 0, NoPending());
    MakeStart(TreeOf(fs), r);
    StartMany();
    PutNew(fs, it, 3, multiset{ROOT});
    StillReady(fs, it, ROOT);
  }

  /** What the next link does is settled. */
  lemma NextLink(t: Tree, n: nat, u: Tree, r: Result)
    requires n + 1 < 0x8000 && Many(t, n)
    requires LinkDoes(t, u, Resolved(t, Top(B), ROOT, false), Resolved(t, NumPath(n), ROOT, true), LastName(NumPath(n)), true, r)
    ensures r == Ret(0) && NewLink(t, u, 3, DirOf(n), NumKey(n))
    ensures HasRoom(t, Resolved(t, Top(B), ROOT, false), Resolved(t, NumPath(n), ROOT, true)) <==> n + 1 < 0x7fff
  {
    hide Lawful, Resolved, LastName, NumKey, Top, Below;
    NumKeys(n, n);
    ResolveTop(t, B, ROOT);
    if n < MOST {
      ResolveTop(t, NumKey(n), ROOT);
    } else {
      ResolveBelow(t, A, NumKey(n), ROOT);
    }
  }

  /** One link more; or one too many. */
  lemma MoreMany(t: Tree, n: nat, u: Tree)
    requires n + 1 < 0x8000 && Many(t, n) && NewLink(t, u, 3, DirOf(n), NumKey(n))
    ensures n + 1 < 0x7fff ==> Many(u, n + 1)
    ensures n + 1 == 0x7fff ==> !Lawful(u, NoPending()) && |u| == 4 && u[3].nlink == -0x8000
  {
    hide Lawful, NumKey;
    NumKeys(n, n);
    LinkExact(t, NoPending(), DirOf(n), NumKey(n), 3);
    forall m: nat | n < m < 0x8000
      ensures NumKey(m) !in u[ROOT].dir && NumKey(m) !in u[2].dir
    {
      NumKeys(n, m);
    }
    var d := DirOf(n);
    assert u[d].dir.Keys == t[d].dir.Keys + {NumKey(n)};
  }

  lemma ManySmall(t: Tree, n: nat)
    requires n < 0x7fff && Many(t, n)
    ensures SmallDir(t, ROOT) && SmallBelow(t, A) && |t| == 4 && t[3].typ == T_FILE
  {
  }

  lemma PathsOk(n: nat)
    requires n < 0x8000
    ensures 0 !in NumPath(n) && 0 !in Top(B)
  {
    hide NumKey, Top, Below, Elements;
    NumKeys(n, n);
    TopNames(B);
    TopNames(NumKey(n));
    BelowNames(A, NumKey(n));
  }

  lemma RoomForNext(fs: Fs, n: nat)
    requires Good(fs, NoPending()) && n < 0x7fff && Many(TreeOf(fs), n) && Spare(fs.sb) >= 3
    ensures RoomAt(fs, Resolved(TreeOf(fs), NumPath(n), ROOT, true), 0)
  {
    hide Good, Resolved, RoomAt, View, Many, SmallDir, SmallBelow, NumKey, Top, Below, Plain;
    ManySmall(TreeOf(fs), n);
    NumKeys(n, n);
    if n < MOST {
      RoomInTop(fs, NumKey(n), ROOT, 0);
    } else {
      RoomBelow(fs, A, NumKey(n), ROOT, 0);
    }
  }

  /** ln /b, once more */
  method LinkOnce(fs: Fs, it: RefTable, n: nat) returns (r: Result)
    requires n < 0x7fff && Ready(fs, it, ROOT, NoPending()) && Many(TreeOf(fs), n) && it.refs == multiset{ROOT} && Spare(fs.sb) >= 3
    modifies fs, it
    ensures r == Ret(0) && |TreeOf(fs)| == 4
    ensures n + 1 < 0x7fff ==> Ready(fs, it, ROOT, NoPending()) && Many(TreeOf(fs), n + 1) && it.refs == multiset{ROOT}
    ensures n + 1 == 0x7fff ==> !Lawful(TreeOf(fs), NoPending()) && TreeOf(fs)[3].nlink == -0x8000
  {
    hide Good, Lawful, Held, View, Resolved, LastName, LinkDoes, RoomAt, Elements, HasRoom, SmallDir, Many, NumPath, NumKey, InodesKept, FilesKept, FilesOf;
    ghost var t := TreeOf(fs);
    ManySmall(t, n);
    PathsOk(n);
    RoomForNext(fs, n);
    r := SysLink(fs, it, Top(B), NumPath(n), ROOT, NoPending());
    NextLink(t, n, TreeOf(fs), r);
    MoreMany(t, n, TreeOf(fs));
    if n + 1 < 0x7fff {
      ManySmall(TreeOf(fs), n + 1);
      StillReady(fs, it, ROOT);
    }
  }

  /** The first so many links of /b. */
  method LinkMany(fs: Fs, it: RefTable, count: nat)
    requires count < 0x7fff && Ready(fs, it, ROOT, NoPending()) && Many(TreeOf(fs), 0) && it.refs == multiset{ROOT} && Spare(fs.sb) >= 3
    modifies fs, it
    ensures Ready(fs, it, ROOT, NoPending()) && Many(TreeOf(fs), count) && it.refs == multiset{ROOT}
  {
    hide *;
    var n := 0;
    while n < count
      invariant n <= count && Ready(fs, it, ROOT, NoPending()) && Many(TreeOf(fs), n) && it.refs == multiset{ROOT}
    {
      var r := LinkOnce(fs, it, n);
      n := n + 1;
    }
  }

  /** mkdir /a; create /b; then 32766 links of /b, each in a directory that is not full: each succeeds and keeps
      the law. The next one succeeds too, and its count is -32768. */
  method OverflowReached(fs: Fs, it: RefTable) returns (r: Result)
    requires Mounted(fs, it)
    modifies fs, it
    ensures r == Ret(0) && |TreeOf(fs)| == 4 && TreeOf(fs)[3].nlink == -0x8000 && !Lawful(TreeOf(fs), NoPending())
  {
    hide Good, Ready, Lawful, Many, View, Empty, MadeA, Spare;
    MakeTop(fs, it);
    MakeFile(fs, it);
    LinkMany(fs, it, 0x7ffe);
    r := LinkOnce(fs, it, 0x7ffe);
  }

  /** Both programs, each from a disk formatted for it. */
  method Programs() returns (panicked: Result, linked: Result)
    ensures panicked == Panicked && linked == Ret(0)
  {
    hide Good, Empty;
    var fs, it := Mount();
    panicked := DeadCwdPanics(fs, it);
    fs, it := Mount();
    linked := OverflowReached(fs, it);
  }
}
