/** Path names: skipelem against slash-splitting, and namex as a fold of directory lookups. */
module Path {
  import opened Bytes
  import opened Layout
  import opened BlockMap
  import opened DirFormat
  import opened FileSystem
  import opened Directory
  import opened LinkLaw
  import opened InodeRefs
  import opened SysFile

  const SLASH: byte := 47

  // --- the meaning of a path -------------------------------------------------

  /** Cut at every slash; the pieces between adjacent slashes are empty. */
  function Split(p: seq<byte>): (r: seq<seq<byte>>)
    ensures r != []
  {
    if p == [] then [[]]
    else
      var r := Split(p[1..]);
      if p[0] == SLASH then [[]] + r else [[p[0]] + r[0]] + r[1..]
  }

  function Cut(w: seq<byte>): Key {
    if |w| > DIRSIZ then w[..DIRSIZ] else w
  }

  function NonEmpty(ws: seq<seq<byte>>): seq<Key> {
    if ws == [] then [] else (if ws[0] == [] then [] else [Cut(ws[0])]) + NonEmpty(ws[1..])
  }

  /** The non-empty components of a path, each cut to 14 bytes. */
  function Elements(p: seq<byte>): seq<Key> {
    NonEmpty(Split(p))
  }

  lemma LeadingSlash(p: seq<byte>)
    requires p != [] && p[0] == SLASH
    ensures Elements(p) == Elements(p[1..])
  {
    assert Split(p)[1..] == Split(p[1..]);
  }

  /** A word up to a slash or the end is the first component. */
  lemma {:induction false} FirstWord(w: seq<byte>, rest: seq<byte>)
    requires w != [] && SLASH !in w && (rest == [] || rest[0] == SLASH)
    ensures Elements(w + rest) == [if |w| <= 14 then w else w[..14]] + Elements(rest)
  {
    hide Split, NonEmpty;
    SplitWord(w, rest);
    WordFirst(w, Split(rest)[1..]);
    EmptyFirst(rest);
  }

  lemma WordFirst(w: seq<byte>, ws: seq<seq<byte>>)
    requires w != []
    ensures NonEmpty([w] + ws) == [Cut(w)] + NonEmpty(ws)
  {
    assert ([w] + ws)[1..] == ws;
  }

  lemma EmptyFirst(rest: seq<byte>)
    requires rest == [] || rest[0] == SLASH
    ensures NonEmpty(Split(rest)) == NonEmpty(Split(rest)[1..])
  {
    assert Split(rest)[0] == [];
    assert NonEmpty(Split(rest)) == [] + NonEmpty(Split(rest)[1..]);
  }

  lemma {:induction false} SplitWord(w: seq<byte>, rest: seq<byte>)
    requires SLASH !in w && (rest == [] || rest[0] == SLASH)
    ensures Split(w + rest) == [w] + Split(rest)[1..]
    decreases |w|
  {
    if w == [] {
      assert w + rest == rest;
    } else {
      assert (w + rest)[1..] == w[1..] + rest;
      SplitWord(w[1..], rest);
      assert [w[0]] + w[1..] == w && ([w[1..]] + Split(rest)[1..])[1..] == Split(rest)[1..];
    }
  }

  // --- skipelem ----------------------------------------------------------------

  method SkipSlashes(path: seq<byte>, p: nat) returns (i: nat)
    requires p <= |path|
    ensures p <= i <= |path| && Elements(path[p..]) == Elements(path[i..])
    ensures forall k: nat | p <= k < i :: path[k] == SLASH
    ensures i < |path| ==> path[i] != SLASH
  {
    i := p;
    while i < |path| && path[i] == SLASH
      invariant p <= i <= |path| && Elements(path[p..]) == Elements(path[i..])
      invariant forall k: nat | p <= k < i :: path[k] == SLASH
    {
      LeadingSlash(path[i..]);
      assert path[i..][1..] == path[i + 1..];
      i := i + 1;
    }
  }

  /** From p on come slashes up to s, and there the name: a word's first 14 bytes, or all of a shorter one. */
  predicate NextWord(path: seq<byte>, p: nat, s: nat, name: Key) {
    && p <= s && s + |name| <= |path| && (forall k: nat | p <= k < s :: path[k] == SLASH)
    && name != [] && name == path[s..s + |name|] && SLASH !in name
    && (|name| == 14 || (|name| < 14 && (s + |name| == |path| || path[s + |name|] == SLASH)))
  }

  /** The next element of path from position p, and where the one after it starts. */
  method Skipelem(path: seq<byte>, p: nat) returns (found: bool, next: nat, name: Key)
    requires p <= |path|
    ensures found <==> Elements(path[p..]) != []
    ensures found ==> p < next <= |path| && Elements(path[p..]) == [name] + Elements(path[next..])
    ensures found ==> (next == |path| <==> Elements(path[next..]) == [])
    ensures |name| <= DIRSIZ && forall c | c in name :: c in path
    ensures found ==> exists s: nat :: NextWord(path, p, s, name)
  {
    hide Elements;
    var s := SkipSlashes(path, p);
    HasWord(path[s..]);
    if s == |path| {
      return false, s, [];
    }
    var e := s;
    while e < |path| && path[e] != SLASH
      invariant s <= e <= |path| && SLASH !in path[s..e]
      invariant e == s ==> e < |path| && path[e] != SLASH
    {
      e := e + 1;
    }
    assert path[s..] == path[s..e] + path[e..];
    FirstWord(path[s..e], path[e..]);
    name := if e - s >= DIRSIZ then path[s..s + DIRSIZ] else path[s..e];
    assert e - s >= DIRSIZ ==> path[s..e][..DIRSIZ] == path[s..s + DIRSIZ];
    assert name == Cut(path[s..e]);
    assert NextWord(path, p, s, name) by {
      assert name == path[s..s + |name|];
      assert forall c | c in name :: c in path[s..e];
    }
    next := SkipSlashes(path, e);
    HasWord(path[next..]);
    found := true;
  }

  /** With no slash in front, what is left has a component unless it is empty. */
  lemma HasWord(p: seq<byte>)
    requires p == [] || p[0] != SLASH
    ensures p == [] <==> Elements(p) == []
  {
    if p == [] {
      assert Split([]) == [[]] && NonEmpty([[]]) == [] + NonEmpty([]);
    }
  }

  // --- namex ---------------------------------------------------------------------

  datatype Outcome = Found(inum: nat) | Missing | Panic

  /** One directory lookup per name. Locking an inode that has been freed is a panic. */
  function Walk(t: Tree, i: nat, names: seq<Key>): Outcome
    decreases |names|
  {
    if names == [] then Found(i)
    else if i >= |t| || t[i].typ == 0 then Panic
    else if t[i].typ != T_DIR || names[0] !in t[i].dir then Missing
    else Walk(t, t[i].dir[names[0]], names[1..])
  }

  /** namei, or nameiparent: the directory that holds the last name. */
  function Namei(t: Tree, start: nat, names: seq<Key>, parent: bool): Outcome {
    if !parent then Walk(t, start, names)
    else if names == [] then Missing
    else
      var o := Walk(t, start, names[..|names| - 1]);
      if !o.Found? then o
      else if o.inum >= |t| || t[o.inum].typ == 0 then Panic
      else if t[o.inum].typ != T_DIR then Missing
      else o
  }

  lemma NameiStep(t: Tree, i: nat, names: seq<Key>, parent: bool)
    ensures names == [] ==> Namei(t, i, names, parent) == if parent then Missing else Found(i)
    ensures names != [] ==>
              Namei(t, i, names, parent) ==
                (if i >= |t| || t[i].typ == 0 then Panic
                 else if t[i].typ != T_DIR then Missing
                 else if parent && |names| == 1 then Found(i)
                 else if names[0] !in t[i].dir then Missing
                 else Namei(t, t[i].dir[names[0]], names[1..], parent))
  {
    if names != [] {
      if parent && |names| > 1 {
        assert names[..|names| - 1][1..] == names[1..][..|names[1..]| - 1];
      }
    }
  }

  /** ilock during a walk. */
  method Locked(fs: Fs, inum: nat) returns (ip: MemInode)
    requires Steady(fs, 0) && inum < fs.sb.ninodes
    ensures fresh(ip) && ip.inum == inum && fs.Holds(ip)
    ensures inum < |TreeOf(fs)| == |fs.nodes| && TreeOf(fs)[inum].typ == ip.typ
  {
    InodesFit(fs);
    ViewTag(fs.blocks, fs.nodes, inum);
    ip := fs.Ilock(inum);
  }

  /** dirlookup during a walk: the tree's own map. */
  method Lookup(fs: Fs, dp: MemInode, name: Key) returns (child: nat)
    requires Steady(fs, 0) && fs.Holds(dp) && 0 < dp.inum && dp.typ == T_DIR
    requires KeyOf(name, DIRSIZ) == name
    modifies fs, dp`addrs
    ensures fs.Holds(dp) && Steady(fs, 0) && fs.blocks == old(fs.blocks) && fs.nodes == old(fs.nodes) && TreeOf(fs) == old(TreeOf(fs))
    ensures var m := TreeOf(fs)[dp.inum].dir;
            if name in m then child != 0 && child == m[name] else child == 0
  {
    hide Inv, Content, View;
    DirView(fs.blocks, fs.nodes, dp.inum);
    var off;
    child, off := Dirlookup(fs, dp, name);
  }

  /** One round of namex's loop: lock inum, and either stop there or step to its child. */
  method Enter(fs: Fs, it: RefTable, inum: nat, name: Key, stop: bool) returns (done: bool, o: Outcome, child: nat)
    requires Steady(fs, 0) && 0 < inum && KeyOf(name, DIRSIZ) == name
    requires inum in it.refs && Held(TreeOf(fs), it.refs - multiset{inum})
    modifies fs, it
    ensures Steady(fs, 0) && fs.blocks == old(fs.blocks) && fs.nodes == old(fs.nodes) && TreeOf(fs) == old(TreeOf(fs))
    ensures var t := old(TreeOf(fs));
            if inum >= |t| || t[inum].typ == 0 then done && o == Panic
            else if t[inum].typ != T_DIR then done && o == Missing
            else if stop then done && o == Found(inum)
            else if name !in t[inum].dir then done && o == Missing
            else !done && child == t[inum].dir[name] && child > 0
    ensures done && o.Found? ==> it.refs == old(it.refs)
    ensures done && o.Missing? ==> it.refs == old(it.refs) - multiset{inum}
    ensures !done ==> it.refs == old(it.refs) - multiset{inum} + multiset{child}
  {
    hide Inv, View, Content, DirShape, DirMap, KeyOf;
    ghost var t := TreeOf(fs);
    InodesFit(fs);
    done, o, child := true, Missing, 0;
    if inum >= fs.sb.ninodes {
      return true, Panic, 0;
    }
    var ip := Locked(fs, inum);
    if ip.typ == 0 {
      return true, Panic, 0;
    }
    KeptBy(fs, it.refs, inum);
    if ip.typ != T_DIR {
      PutSpare(fs, it, inum);
      return true, Missing, 0;
    }
    if stop {
      return true, Found(inum), 0;
    }
    child := Lookup(fs, ip, name);
    if child == 0 {
      PutSpare(fs, it, inum);
      return true, Missing, 0;
    }
    it.Iget(child);
    PutSpare(fs, it, inum);
    done := false;
  }

  lemma KeptBy(fs: Fs, refs: multiset<nat>, inum: nat)
    requires inum in refs && Held(TreeOf(fs), refs - multiset{inum}) && inum < |fs.nodes| && fs.nodes[inum].typ != 0
    ensures fs.nodes[inum].nlink != 0 || refs[inum] > 1
  {
    assert refs == refs - multiset{inum} + multiset{inum};
    SpareHere(fs, refs - multiset{inum}, inum);
  }

  lemma StartHere(fs: Fs, i: nat)
    requires i < |fs.nodes| && fs.nodes[i].typ == T_DIR
    ensures i < |TreeOf(fs)| && TreeOf(fs)[i].typ == T_DIR
  {
    ViewTag(fs.blocks, fs.nodes, i);
  }

  lemma HeldSpare(t: Tree, refs: multiset<nat>, i: nat)
    requires Held(t, refs)
    ensures refs + multiset{i} - multiset{i} == refs && Held(t, refs + multiset{i} - multiset{i})
    ensures i < |t| && t[i].typ != 0 && (refs + multiset{i})[i] == 1 ==> t[i].nlink != 0
  {
    assert refs + multiset{i} - multiset{i} == refs;
  }

  /** A walk from start that has come to inum, with the given names ahead of it. */
  ghost predicate Ahead(t: Tree, start: nat, names: seq<Key>, inum: nat, ahead: seq<Key>, parent: bool) {
    && Namei(t, start, names, parent) == Namei(t, inum, ahead, parent)
    && (parent && ahead == [] ==> inum == start && names == [])
    && (ahead != [] ==> names != [] && names[|names| - 1] == ahead[|ahead| - 1])
  }

  lemma AheadStart(t: Tree, start: nat, names: seq<Key>, parent: bool)
    ensures Ahead(t, start, names, start, names, parent)
  {
  }

  lemma AheadDone(t: Tree, start: nat, names: seq<Key>, inum: nat, parent: bool)
    requires Ahead(t, start, names, inum, [], parent)
    ensures Namei(t, start, names, parent) == if parent then Missing else Found(inum)
    ensures parent ==> inum == start
  {
  }

  /** Where the next name leads it. */
  lemma AheadStep(t: Tree, start: nat, names: seq<Key>, inum: nat, k: Key, rest: seq<Key>, parent: bool)
    requires Ahead(t, start, names, inum, [k] + rest, parent)
    ensures Namei(t, start, names, parent) ==
              (if inum >= |t| || t[inum].typ == 0 then Panic
               else if t[inum].typ != T_DIR then Missing
               else if parent && rest == [] then Found(inum)
               else if k !in t[inum].dir then Missing
               else Namei(t, t[inum].dir[k], rest, parent))
    ensures names != [] && (rest == [] ==> names[|names| - 1] == k)
    ensures inum < |t| && k in t[inum].dir && t[inum].typ != 0 && t[inum].typ == T_DIR && !(parent && rest == []) ==>
              Ahead(t, start, names, t[inum].dir[k], rest, parent)
  {
    NameiStep(t, inum, [k] + rest, parent);
    assert ([k] + rest)[1..] == rest;
  }

  /** One round of namex's loop, from position p in the path and the directory inum. */
  method Round(fs: Fs, it: RefTable, path: seq<byte>, p: nat, inum: nat, parent: bool, ghost start: nat, ghost refs: multiset<nat>)
    returns (found: bool, next: nat, name: Key, done: bool, o: Outcome, child: nat)
    requires Steady(fs, 0) && Held(TreeOf(fs), refs) && p <= |path| && 0 < inum && 0 !in path
    requires it.refs == refs + multiset{inum} && Ahead(TreeOf(fs), start, Elements(path), inum, Elements(path[p..]), parent)
    modifies fs, it
    ensures Steady(fs, 0) && fs.blocks == old(fs.blocks) && fs.nodes == old(fs.nodes) && TreeOf(fs) == old(TreeOf(fs))
    ensures !found ==> Elements(path[p..]) == [] && it.refs == old(it.refs)
    ensures found ==> p < next <= |path| && Elements(path) != [] && KeyOf(name, DIRSIZ) == name
    ensures found && done ==> o == Namei(TreeOf(fs), start, Elements(path), parent)
    ensures found && done && o.Found? ==> it.refs == refs + multiset{o.inum} && 0 < o.inum
    ensures found && done && o.Missing? ==> it.refs == refs
    ensures found && done && o.Found? && parent ==> name == Elements(path)[|Elements(path)| - 1]
    ensures found && !done ==> Ahead(TreeOf(fs), start, Elements(path), child, Elements(path[next..]), parent)
    ensures found && !done ==> it.refs == refs + multiset{child} && 0 < child
  {
    hide View, Elements, Namei, Steady, TreeOf, Held, KeyOf, Ahead;
    ghost var t := TreeOf(fs);
    done, o, child := true, Missing, 0;
    found, next, name := Skipelem(path, p);
    if found {
      AheadStep(t, start, Elements(path), inum, name, Elements(path[next..]), parent);
      OwnName(name);
      HeldSpare(t, refs, inum);
      done, o, child := Enter(fs, it, inum, name, parent && next == |path|);
    }
  }

  lemma OwnName(name: Key)
    requires |name| <= DIRSIZ && 0 !in name
    ensures KeyOf(name, DIRSIZ) == name
  {
    KeyOfPrefix(name, [], DIRSIZ);
    assert name + [] == name;
  }

  /** Resolve a path from the root or the current directory. Success leaves exactly one
      more reference, to the result; failure leaves the counts as they were. */
  method Namex(fs: Fs, it: RefTable, path: seq<byte>, parent: bool, cwd: nat) returns (r: Outcome, name: Key)
    requires Steady(fs, 0) && 0 < cwd < |fs.nodes| && ROOT < |fs.nodes| && 0 !in path
    requires Held(TreeOf(fs), it.refs)
    requires fs.nodes[ROOT].typ == T_DIR && fs.nodes[cwd].typ == T_DIR
    modifies fs, it
    ensures Steady(fs, 0) && fs.blocks == old(fs.blocks) && fs.nodes == old(fs.nodes) && TreeOf(fs) == old(TreeOf(fs))
    ensures var start := if path != [] && path[0] == SLASH then ROOT else cwd;
            r == Namei(old(TreeOf(fs)), start, Elements(path), parent)
    ensures r.Found? ==> it.refs == old(it.refs) + multiset{r.inum}
    ensures r.Missing? ==> it.refs == old(it.refs)
    ensures r.Found? ==> 0 < r.inum
    ensures parent && r.Found? ==> Elements(path) != [] && name == Elements(path)[|Elements(path)| - 1] && KeyOf(name, DIRSIZ) == name
  {
    hide View, Elements, Namei, Steady, TreeOf, Held, KeyOf, Ahead;
    ghost var t := TreeOf(fs);
    var inum: nat := if path != [] && path[0] == SLASH then ROOT else cwd;
    ghost var start := inum;
    StartHere(fs, start);
    it.Iget(inum);
    var p := 0;
    name := [];
    assert path[0..] == path;
    AheadStart(t, start, Elements(path), parent);
    while true
      invariant p <= |path| && Steady(fs, 0) && fs.blocks == old(fs.blocks) && fs.nodes == old(fs.nodes) && TreeOf(fs) == t
      invariant Ahead(t, start, Elements(path), inum, Elements(path[p..]), parent)
      invariant it.refs == old(it.refs) + multiset{inum} && inum > 0
      decreases |path| - p
    {
      var found, next, nm, done, o, child := Round(fs, it, path, p, inum, parent, start, old(it.refs));
      if !found {
        break;
      }
      if done {
        return o, nm;
      }
      p, inum := next, child;
    }
    AheadDone(t, start, Elements(path), inum, parent);
    HeldSpare(t, old(it.refs), inum);
    if parent {
      KeptBy(fs, it.refs, inum);
      PutSpare(fs, it, inum);
      return Missing, name;
    }
    r := Found(inum);
  }

  // --- when a walk can panic --------------------------------------------------------

  predicate InUse(t: Tree, i: nat) {
    i < |t| && t[i].typ != 0
  }

  /** Where n times ".." leads from i; it ends at what is no directory. */
  function Climb(t: Tree, i: nat, n: nat): nat
    decreases n
  {
    if n == 0 || i >= |t| || t[i].typ != T_DIR || DOTDOT !in t[i].dir then i else Climb(t, t[i].dir[DOTDOT], n - 1)
  }

  /** Climbing from i never meets an inode that has been freed. */
  ghost predicate Anchored(t: Tree, i: nat) {
    forall n: nat :: InUse(t, Climb(t, i, n))
  }

  lemma AnchoredUp(t: Tree, i: nat)
    requires Anchored(t, i) && i < |t| && t[i].typ == T_DIR && DOTDOT in t[i].dir
    ensures Anchored(t, t[i].dir[DOTDOT])
  {
    forall n: nat
      ensures InUse(t, Climb(t, t[i].dir[DOTDOT], n))
    {
      assert InUse(t, Climb(t, i, n + 1));
    }
  }

  /** From a directory that is still linked, climbing stays on linked directories. */
  lemma {:induction false} LiveClimb(t: Tree, pend: seq<nat>, i: nat, n: nat)
    requires Lawful(t, pend) && LiveDir(t, i)
    ensures LiveDir(t, Climb(t, i, n))
    decreases n
  {
    if n > 0 && DOTDOT in t[i].dir {
      ChildAlive(t, pend, i, DOTDOT);
      LiveParent(t, pend, i);
      LiveClimb(t, pend, t[i].dir[DOTDOT], n - 1);
    }
  }

  lemma LiveParent(t: Tree, pend: seq<nat>, i: nat)
    requires Lawful(t, pend) && LiveDir(t, i) && DOTDOT in t[i].dir
    ensures LiveDir(t, t[i].dir[DOTDOT])
  {
    var at :| Shaped(t, at);
    assert NodeShape(t, at, i) && EntryOk(t, at, i, DOTDOT);
  }

  /** What a lawful directory's names lead to, when it is anchored, is anchored too. */
  lemma AnchoredChild(t: Tree, pend: seq<nat>, i: nat, k: Key)
    requires Lawful(t, pend) && Anchored(t, i) && i < |t| && t[i].typ == T_DIR && k in t[i].dir
    ensures Anchored(t, t[i].dir[k])
  {
    hide Counted, EntryOk;
    var at :| Shaped(t, at);
    assert NodeShape(t, at, i);
    if k == DOTDOT {
      AnchoredUp(t, i);
    } else if Plain(k) {
      var c := t[i].dir[k];
      ChildAlive(t, pend, i, k);
      forall n: nat
        ensures InUse(t, Climb(t, c, n))
      {
        if t[c].typ == T_DIR {
          LiveClimb(t, pend, c, n);
        }
      }
    }
  }

  lemma {:induction false} AnchoredWalk(t: Tree, pend: seq<nat>, i: nat, names: seq<Key>)
    requires Lawful(t, pend) && Anchored(t, i)
    ensures !Walk(t, i, names).Panic?
    ensures Walk(t, i, names).Found? ==> Anchored(t, Walk(t, i, names).inum)
    decreases |names|
  {
    hide Lawful, Anchored;
    if names != [] {
      Anchored0(t, i);
      if t[i].typ == T_DIR && names[0] in t[i].dir {
        AnchoredChild(t, pend, i, names[0]);
        AnchoredWalk(t, pend, t[i].dir[names[0]], names[1..]);
      }
    }
  }

  lemma Anchored0(t: Tree, i: nat)
    requires Anchored(t, i)
    ensures InUse(t, i)
  {
    assert InUse(t, Climb(t, i, 0));
  }

  /** The path "../../ .. /." of n climbs. */
  function Climbs(n: nat): seq<Key> {
    if n == 0 then [DOT] else [DOTDOT] + Climbs(n - 1)
  }

  /** If climbing meets a freed inode, the path that climbs there locks it. */
  lemma {:induction false} ClimbPanics(t: Tree, i: nat, n: nat)
    requires !InUse(t, Climb(t, i, n))
    ensures exists m: nat :: Walk(t, i, Climbs(m)).Panic?
    decreases n
  {
    if !InUse(t, i) {
      assert Walk(t, i, Climbs(0)).Panic?;
    } else {
      var up := t[i].dir[DOTDOT];
      ClimbPanics(t, up, n - 1);
      var m: nat :| Walk(t, up, Climbs(m)).Panic?;
      assert Climbs(m + 1)[1..] == Climbs(m);
      assert Walk(t, i, Climbs(m + 1)).Panic?;
    }
  }

  /** In a lawful tree the paths from a directory are all safe, for namei and nameiparent, exactly when
      climbing from it through ".." never meets a freed inode. */
  lemma WalkExact(t: Tree, pend: seq<nat>, start: nat)
    requires Lawful(t, pend)
    ensures (forall names: seq<Key>, parent: bool :: !Namei(t, start, names, parent).Panic?) <==> Anchored(t, start)
  {
    hide Lawful;
    if Anchored(t, start) {
      forall names: seq<Key>, parent: bool
        ensures !Namei(t, start, names, parent).Panic?
      {
        AnchoredNamei(t, pend, start, names, parent);
      }
    } else {
      var n: nat :| !InUse(t, Climb(t, start, n));
      ClimbPanics(t, start, n);
      var m: nat :| Walk(t, start, Climbs(m)).Panic?;
      assert Namei(t, start, Climbs(m), false).Panic?;
    }
  }

  lemma AnchoredNamei(t: Tree, pend: seq<nat>, start: nat, names: seq<Key>, parent: bool)
    requires Lawful(t, pend) && Anchored(t, start)
    ensures !Namei(t, start, names, parent).Panic?
  {
    hide Lawful, Anchored;
    if !parent {
      AnchoredWalk(t, pend, start, names);
    } else if names != [] {
      var front := names[..|names| - 1];
      AnchoredWalk(t, pend, start, front);
      if Walk(t, start, front).Found? {
        Anchored0(t, Walk(t, start, front).inum);
      }
    }
  }

  /** So a walk from a directory that is still linked never locks a freed inode. */
  lemma LiveWalkSafe(t: Tree, pend: seq<nat>, start: nat, names: seq<Key>, parent: bool)
    requires Lawful(t, pend) && LiveDir(t, start)
    ensures !Namei(t, start, names, parent).Panic?
  {
    forall n: nat
      ensures InUse(t, Climb(t, start, n))
    {
      LiveClimb(t, pend, start, n);
    }
    AnchoredNamei(t, pend, start, names, parent);
  }

  lemma ChildAlive(t: Tree, pend: seq<nat>, d: nat, k: Key)
    requires Lawful(t, pend) && LiveDir(t, d) && k in t[d].dir
    ensures var i := t[d].dir[k]; i < |t| && t[i].typ != 0 && (t[i].typ == T_DIR ==> LiveDir(t, i))
  {
    var at :| Shaped(t, at);
    assert NodeShape(t, at, d) && EntryOk(t, at, d, k);
    if Plain(k) {
      NamedIsLive(t, pend, d, k);
    }
  }
}
