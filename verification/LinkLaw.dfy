/** The directory tree behind the disk image, and the law that every inode's link
    count is the number of live directory entries that name it. */
module LinkLaw {
  import opened Layout
  import opened DirFormat

  const DOT: Key := [46]
  const DOTDOT: Key := [46, 46]
  const ROOT := 1

  /** An inode as the directory layer sees it; dir is empty unless it is a directory. */
  datatype Node = Node(typ: int, nlink: int, dir: map<Key, nat>)

  type Tree = seq<Node>

  /** Directory d can still be reached, so its entries count as links. */
  predicate LiveDir(t: Tree, d: nat) {
    d < |t| && t[d].typ == T_DIR && t[d].nlink > 0
  }

  predicate Refers(t: Tree, d: nat, k: Key, i: nat) {
    LiveDir(t, d) && k != DOT && k in t[d].dir && t[d].dir[k] == i
  }

  /** The live entries, other than ".", that refer to inode i. */
  function Refs(t: Tree, i: nat): set<(nat, Key)> {
    set d: nat, k | d < |t| && k in t[d].dir && Refers(t, d, k, i) :: (d, k)
  }

  /** The law; pend counts the sys_link calls that have bumped nlink and not yet
      written their entry or taken the bump back. */
  ghost predicate Counted(t: Tree, pend: seq<nat>) {
    |pend| == |t| && forall i: nat | i < |t| && t[i].typ != 0 :: t[i].nlink == |Refs(t, i)| + pend[i]
  }

  predicate Plain(k: Key) {
    k != DOT && k != DOTDOT
  }

  /** The directory that ".." of d leads to. */
  function Up(t: Tree, d: nat): nat
    requires d < |t|
  {
    if DOTDOT in t[d].dir then t[d].dir[DOTDOT] else 0
  }

  /** Where each directory is named: its one plain entry, in the directory above it. */
  type Naming = map<nat, Key>

  /** An entry of a live directory leads to an allocated inode; if that is a live
      directory, the entry is ".." or the one name it has, in the directory above it. */
  ghost predicate EntryOk(t: Tree, at: Naming, d: nat, k: Key)
    requires d < |t| && k in t[d].dir
  {
    var i := t[d].dir[k];
    && 0 < i < |t| && t[i].typ != 0
    && (k == DOT ==> i == d)
    && (k == DOTDOT ==> LiveDir(t, i))
    && (Plain(k) && LiveDir(t, i) ==> i in at && k == at[i] && d == Up(t, i) && i != ROOT)
  }

  ghost predicate NamedAbove(t: Tree, at: Naming, d: nat)
    requires d < |t|
  {
    DOTDOT in t[d].dir && (d != ROOT ==> d in at && Plain(at[d]) && Refers(t, Up(t, d), at[d], d))
  }

  /** A directory, unlinked or not, has "." for itself and some "..", which need not be allocated any more. */
  predicate Dotted(t: Tree, d: nat)
    requires d < |t|
  {
    DOT in t[d].dir && t[d].dir[DOT] == d && DOTDOT in t[d].dir && t[d].dir[DOTDOT] < |t|
  }

  ghost predicate NodeShape(t: Tree, at: Naming, d: nat)
    requires d < |t|
  {
    && (if t[d].typ == T_DIR then Dotted(t, d) else t[d].dir == map[])
    && (t[d].typ == T_DIR && t[d].nlink <= 0 ==> forall k | k in t[d].dir :: !Plain(k))
    && (LiveDir(t, d) ==> NamedAbove(t, at, d) && forall k | k in t[d].dir :: EntryOk(t, at, d, k))
  }

  /** The shape of the tree that unlink relies on. */
  ghost predicate Shaped(t: Tree, at: Naming) {
    LiveDir(t, ROOT) && Up(t, ROOT) == ROOT && t[0].typ == 0 && forall d: nat | d < |t| :: NodeShape(t, at, d)
  }

  ghost predicate Pending(t: Tree, pend: seq<nat>) {
    |pend| == |t| && forall i: nat | i < |t| && pend[i] > 0 :: t[i].typ != 0 && t[i].typ != T_DIR
  }

  ghost predicate Lawful(t: Tree, pend: seq<nat>) {
    Counted(t, pend) && Pending(t, pend) && exists at :: Shaped(t, at)
  }

  /** The least inode number from i on that is free; 0 when there is none. */
  function LeastFree(t: Tree, i: nat): (r: nat)
    ensures r != 0 ==> i <= r < |t| && t[r].typ == 0 && forall j: nat | i <= j < r :: t[j].typ != 0
    ensures i > 0 && r == 0 ==> forall j: nat | i <= j < |t| :: t[j].typ != 0
    decreases |t| - i
  {
    if i >= |t| then 0 else if t[i].typ == 0 then i else LeastFree(t, i + 1)
  }

  // --- the steps ---------------------------------------------------------------

  function Relink(t: Tree, i: nat, delta: int): Tree
    requires i < |t|
  {
    t[i := t[i].(nlink := t[i].nlink + delta)]
  }

  function AddEntry(t: Tree, d: nat, k: Key, i: nat): Tree
    requires d < |t|
  {
    t[d := t[d].(dir := t[d].dir[k := i])]
  }

  function DropEntry(t: Tree, d: nat, k: Key): Tree
    requires d < |t|
  {
    t[d := t[d].(dir := t[d].dir - {k})]
  }

  function FreeNode(): Node {
    Node(0, 0, map[])
  }

  lemma InRefs(t: Tree, d: nat, k: Key, i: nat)
    ensures (d, k) in Refs(t, i) <==> Refers(t, d, k, i)
  {
  }

  /** How one step changes the entries that count for inode j. */
  lemma RefsGain(t: Tree, t': Tree, d: nat, k: Key, i: nat, j: nat)
    requires forall e: nat, l :: Refers(t', e, l, j) <==> Refers(t, e, l, j) || (e == d && l == k && j == i)
    requires j == i ==> !Refers(t, d, k, j)
    ensures |Refs(t', j)| == |Refs(t, j)| + if j == i then 1 else 0
  {
    if j == i {
      assert Refs(t', j) == Refs(t, j) + {(d, k)};
    } else {
      assert Refs(t', j) == Refs(t, j);
    }
  }

  lemma RefsSame(t: Tree, t': Tree, j: nat)
    requires forall e: nat, l :: Refers(t', e, l, j) <==> Refers(t, e, l, j)
    ensures Refs(t', j) == Refs(t, j)
  {
  }

  lemma NoRefs(t: Tree, j: nat)
    requires forall e: nat, l :: !Refers(t, e, l, j)
    ensures Refs(t, j) == {}
  {
  }

  lemma RefsLose(t: Tree, t': Tree, d: nat, k: Key, i: nat, j: nat)
    requires forall e: nat, l :: Refers(t', e, l, j) <==> Refers(t, e, l, j) && !(e == d && l == k && j == i)
    requires j == i ==> Refers(t, d, k, j)
    ensures |Refs(t', j)| == |Refs(t, j)| - if j == i then 1 else 0
  {
    if j == i {
      assert Refs(t', j) == Refs(t, j) - {(d, k)} && (d, k) in Refs(t, j);
    } else {
      assert Refs(t', j) == Refs(t, j);
    }
  }

  /** In a shaped tree a free inode has no entries and no content. */
  lemma FreeUnnamed(t: Tree, at: Naming, i: nat)
    requires Shaped(t, at) && i < |t| && t[i].typ == 0
    ensures t[i].dir == map[] && forall e: nat, l :: !Refers(t, e, l, i)
  {
    forall e: nat, l
      ensures !Refers(t, e, l, i)
    {
      if LiveDir(t, e) && l in t[e].dir {
        assert NodeShape(t, at, e) && EntryOk(t, at, e, l);
      }
    }
    assert NodeShape(t, at, i);
  }

  /** An entry stays right while its target keeps its type, its life and its "..". */
  lemma EntryCarries(t: Tree, at: Naming, t': Tree, at': Naming, x: nat, l: Key)
    requires x < |t| == |t'| && l in t[x].dir && EntryOk(t, at, x, l)
    requires l in t'[x].dir && t'[x].dir[l] == t[x].dir[l]
    requires var i := t[x].dir[l];
             && t'[i].typ != 0 && (LiveDir(t', i) <==> LiveDir(t, i)) && (LiveDir(t, i) ==> Up(t', i) == Up(t, i))
             && (LiveDir(t, i) && i in at ==> i in at' && at'[i] == at[i])
    ensures EntryOk(t', at', x, l)
  {
  }

  lemma EntryToFile(t: Tree, at: Naming, x: nat, l: Key)
    requires x < |t| && l in t[x].dir && Plain(l)
    requires 0 < t[x].dir[l] < |t| && t[t[x].dir[l]].typ != 0 && t[t[x].dir[l]].typ != T_DIR
    ensures EntryOk(t, at, x, l)
  {
  }

  lemma TargetInRange(t: Tree, at: Naming, x: nat, l: Key)
    requires x < |t| && l in t[x].dir && EntryOk(t, at, x, l)
    ensures 0 < t[x].dir[l] < |t| && t[t[x].dir[l]].typ != 0 && (l == DOT ==> t[x].dir[l] == x)
  {
  }

  /** Replacing a node that is no directory, by another such node, keeps the shape,
      unless it frees an inode that entries still lead to. */
  lemma RefileShape(t: Tree, at: Naming, i: nat, n: Node)
    requires Shaped(t, at) && 0 < i < |t| && !LiveDir(t, i)
    requires n.typ != T_DIR && n.dir == map[]
    requires n.typ != 0 || forall e: nat, l :: !Refers(t, e, l, i)
    ensures Shaped(t[i := n], at)
    ensures forall e: nat, l, j: nat :: Refers(t[i := n], e, l, j) <==> Refers(t, e, l, j)
  {
    var t' := t[i := n];
    forall x: nat | x < |t'|
      ensures NodeShape(t', at, x)
    {
      RefileNode(t, at, i, n, x);
    }
  }

  lemma RefileNode(t: Tree, at: Naming, i: nat, n: Node, x: nat)
    requires Shaped(t, at) && 0 < i < |t| && !LiveDir(t, i) && x < |t|
    requires n.typ != T_DIR && n.dir == map[]
    requires n.typ != 0 || forall e: nat, l :: !Refers(t, e, l, i)
    ensures NodeShape(t[i := n], at, x)
  {
    hide EntryOk;
    var t' := t[i := n];
    assert NodeShape(t, at, x);
    if LiveDir(t', x) {
      forall l | l in t'[x].dir
        ensures EntryOk(t', at, x, l)
      {
        TargetInRange(t, at, x, l);
        assert l != DOT ==> Refers(t, x, l, t[x].dir[l]);
        EntryCarries(t, at, t', at, x, l);
      }
    }
  }

  // --- sys_link, and the file half of create ----------------------------------------

  /** ialloc plus nlink = 1: an inode whose one link is still to be written. */
  lemma NewFile(t: Tree, pend: seq<nat>, i: nat, typ: int)
    requires Lawful(t, pend) && 0 < i < |t| && t[i].typ == 0 && typ != 0 && typ != T_DIR
    ensures pend[i] == 0 && Lawful(t[i := Node(typ, 1, map[])], pend[i := 1])
  {
    hide Shaped, Refers;
    var at :| Shaped(t, at);
    FreeUnnamed(t, at, i);
    NoRefs(t, i);
    var t' := t[i := Node(typ, 1, map[])];
    RefileShape(t, at, i, t'[i]);
    forall j: nat | j < |t'|
      ensures Refs(t', j) == Refs(t, j)
    {
      RefsSame(t, t', j);
    }
  }

  /** sys_link's first half, and its rollback: nlink and the pending count move together. */
  lemma Bump(t: Tree, pend: seq<nat>, i: nat, delta: int)
    requires Lawful(t, pend) && 0 < i < |t| && t[i].typ != 0 && t[i].typ != T_DIR && pend[i] + delta >= 0
    ensures Lawful(Relink(t, i, delta), pend[i := pend[i] + delta])
  {
    hide Shaped, Refers;
    var at :| Shaped(t, at);
    FileNode(t, at, i);
    var t' := Relink(t, i, delta);
    RefileShape(t, at, i, t'[i]);
    forall j: nat | j < |t'|
      ensures Refs(t', j) == Refs(t, j)
    {
      RefsSame(t, t', j);
    }
  }

  /** nlink++ on the 16-bit field, which nothing checks before. */
  function Incremented(nlink: int): int {
    if nlink == 0x7fff then -0x8000 else nlink + 1
  }

  /** sys_link's nlink++ keeps the law exactly while the count is below 32767. */
  lemma BumpExact(t: Tree, pend: seq<nat>, i: nat)
    requires Lawful(t, pend) && 0 < i < |t| && t[i].typ != 0 && t[i].typ != T_DIR && t[i].nlink <= 0x7fff
    ensures Lawful(t[i := t[i].(nlink := Incremented(t[i].nlink))], pend[i := pend[i] + 1]) <==> t[i].nlink < 0x7fff
  {
    hide Shaped, Refers, Refs;
    if t[i].nlink < 0x7fff {
      Bump(t, pend, i, 1);
    } else {
      var t', pend' := t[i := t[i].(nlink := -0x8000)], pend[i := pend[i] + 1];
      assert t'[i].nlink != |Refs(t', i)| + pend'[i];
    }
  }

  lemma FileNode(t: Tree, at: Naming, i: nat)
    requires Shaped(t, at) && i < |t| && t[i].typ != T_DIR
    ensures t[i].dir == map[]
  {
    assert NodeShape(t, at, i);
  }

  /** dirlink of a plain new name to a file: one more entry counts, if the directory is live. */
  lemma AddedRefers(t: Tree, d: nat, k: Key, i: nat)
    requires d < |t| && t[d].typ == T_DIR && Plain(k) && k !in t[d].dir
    ensures forall e: nat, l, j: nat :: Refers(AddEntry(t, d, k, i), e, l, j) <==>
              Refers(t, e, l, j) || (LiveDir(t, d) && e == d && l == k && j == i)
  {
  }

  lemma AddedShape(t: Tree, at: Naming, d: nat, k: Key, i: nat)
    requires Shaped(t, at) && LiveDir(t, d) && Plain(k) && k !in t[d].dir
    requires 0 < i < |t| && t[i].typ != 0 && t[i].typ != T_DIR
    ensures Shaped(AddEntry(t, d, k, i), at)
  {
    forall x: nat | x < |t|
      ensures NodeShape(AddEntry(t, d, k, i), at, x)
    {
      AddedNode(t, at, d, k, i, x);
    }
  }

  lemma AddedNode(t: Tree, at: Naming, d: nat, k: Key, i: nat, x: nat)
    requires Shaped(t, at) && LiveDir(t, d) && Plain(k) && k !in t[d].dir && x < |t|
    requires 0 < i < |t| && t[i].typ != 0 && t[i].typ != T_DIR
    ensures NodeShape(AddEntry(t, d, k, i), at, x)
  {
    hide EntryOk;
    var t' := AddEntry(t, d, k, i);
    assert NodeShape(t, at, x);
    if LiveDir(t', x) {
      forall l | l in t'[x].dir
        ensures EntryOk(t', at, x, l)
      {
        if x == d && l == k {
          EntryToFile(t', at, x, l);
        } else {
          TargetInRange(t, at, x, l);
          EntryCarries(t, at, t', at, x, l);
        }
      }
    }
  }

  /** sys_link's second half: the pending link becomes a real one. */
  lemma Commit(t: Tree, pend: seq<nat>, d: nat, k: Key, i: nat)
    requires Lawful(t, pend) && LiveDir(t, d) && Plain(k) && k !in t[d].dir && i < |t| && pend[i] > 0
    ensures Lawful(AddEntry(t, d, k, i), pend[i := pend[i] - 1])
  {
    hide Shaped, Refers, Counted;
    var at :| Shaped(t, at);
    CommitExact(t, pend, d, k, i);
    ZeroIsFree(t, at);
    AddedShape(t, at, d, k, i);
  }

  lemma ZeroIsFree(t: Tree, at: Naming)
    requires Shaped(t, at)
    ensures 1 < |t| && t[0].typ == 0
  {
  }

  /** A new entry pays for a pending link exactly when its directory is still live: in a
      directory that has been unlinked (dp->nlink == 0) the law breaks. */
  lemma CommitExact(t: Tree, pend: seq<nat>, d: nat, k: Key, i: nat)
    requires Counted(t, pend) && d < |t| && t[d].typ == T_DIR && Plain(k) && k !in t[d].dir
    requires i < |t| && t[i].typ != 0 && pend[i] > 0
    ensures Counted(AddEntry(t, d, k, i), pend[i := pend[i] - 1]) <==> LiveDir(t, d)
  {
    hide Refers;
    var t' := AddEntry(t, d, k, i);
    AddedRefers(t, d, k, i);
    if LiveDir(t, d) {
      forall j: nat | j < |t'| && t'[j].typ != 0
        ensures t'[j].nlink == |Refs(t', j)| + pend[i := pend[i] - 1][j]
      {
        NotYet(t, d, k, j);
        RefsGain(t, t', d, k, i, j);
      }
    } else {
      RefsSame(t, t', i);
    }
  }

  lemma NotYet(t: Tree, d: nat, k: Key, j: nat)
    requires d < |t| && k !in t[d].dir
    ensures !Refers(t, d, k, j)
  {
  }

  /** create of a file: the two halves together. */
  function WithFile(t: Tree, d: nat, k: Key, i: nat, typ: int): Tree
    requires d < |t| && i < |t|
  {
    AddEntry(t[i := Node(typ, 1, map[])], d, k, i)
  }

  lemma CreateFile(t: Tree, pend: seq<nat>, d: nat, k: Key, i: nat, typ: int)
    requires Lawful(t, pend) && LiveDir(t, d) && Plain(k) && k !in t[d].dir
    requires 0 < i < |t| && t[i].typ == 0 && typ != 0 && typ != T_DIR
    ensures Lawful(WithFile(t, d, k, i, typ), pend)
  {
    hide Shaped, Refers;
    NewFile(t, pend, i, typ);
    Commit(t[i := Node(typ, 1, map[])], pend[i := 1], d, k, i);
    assert pend[i := 1][i := 0] == pend;
  }

  /** create of a file keeps the law exactly in a directory that is still linked. */
  lemma CreateFileExact(t: Tree, pend: seq<nat>, d: nat, k: Key, i: nat, typ: int)
    requires Lawful(t, pend) && d < |t| && t[d].typ == T_DIR && Plain(k) && k !in t[d].dir
    requires 0 < i < |t| && t[i].typ == 0 && typ != 0 && typ != T_DIR
    ensures Lawful(WithFile(t, d, k, i, typ), pend) <==> LiveDir(t, d)
  {
    if LiveDir(t, d) {
      CreateFile(t, pend, d, k, i, typ);
    } else {
      var at :| Shaped(t, at);
      var t' := WithFile(t, d, k, i, typ);
      FreeUnnamed(t, at, i);
      forall e: nat, l
        ensures !Refers(t', e, l, i)
      {
        assert !Refers(t, e, l, i);
      }
      NoRefs(t', i);
    }
  }

  /** sys_link keeps the law exactly when the directory is still linked and the 16-bit count has room. */
  lemma LinkExact(t: Tree, pend: seq<nat>, d: nat, k: Key, i: nat)
    requires Lawful(t, pend) && d < |t| && t[d].typ == T_DIR && Plain(k) && k !in t[d].dir
    requires 0 < i < |t| && t[i].typ != 0 && t[i].typ != T_DIR && t[i].nlink <= 0x7fff
    ensures Lawful(AddEntry(t[i := t[i].(nlink := Incremented(t[i].nlink))], d, k, i), pend)
            <==> LiveDir(t, d) && t[i].nlink < 0x7fff
  {
    hide Shaped, Refs;
    var u := t[i := t[i].(nlink := Incremented(t[i].nlink))];
    var t' := AddEntry(u, d, k, i);
    if LiveDir(t, d) && t[i].nlink < 0x7fff {
      Bump(t, pend, i, 1);
      Commit(u, pend[i := pend[i] + 1], d, k, i);
      assert pend[i := pend[i] + 1][i := pend[i]] == pend;
    } else if t[i].nlink == 0x7fff {
      assert t'[i].nlink < 0;
    } else {
      AddedRefers(u, d, k, i);
      RefsSame(t, t', i);
    }
  }

  // --- mkdir ------------------------------------------------------------------

  function WithDir(t: Tree, d: nat, k: Key, i: nat): Tree
    requires d < |t| && i < |t| && i != d
  {
    Relink(AddEntry(t[i := Node(T_DIR, 1, map[DOT := i, DOTDOT := d])], d, k, i), d, 1)
  }

  lemma CreateDir(t: Tree, pend: seq<nat>, d: nat, k: Key, i: nat)
    requires Lawful(t, pend) && LiveDir(t, d) && Plain(k) && k !in t[d].dir
    requires 0 < i < |t| && t[i].typ == 0
    ensures i != d && Lawful(WithDir(t, d, k, i), pend)
  {
    hide Shaped, Refers;
    var at :| Shaped(t, at);
    FreeUnnamed(t, at, i);
    var t' := WithDir(t, d, k, i);
    DirRefers(t, d, k, i);
    NotYet(t, d, k, i);
    NotYet(t, i, DOTDOT, d);
    forall j: nat | j < |t'| && t'[j].typ != 0
      ensures t'[j].nlink == |Refs(t', j)| + pend[j]
    {
      if j == d {
        RefsGain(t, t', i, DOTDOT, d, j);
      } else {
        RefsGain(t, t', d, k, i, j);
        if j == i {
          NoRefs(t, j);
        }
      }
    }
    CreateDirShape(t, at, d, k, i);
  }

  /** mkdir keeps the law exactly in a directory that is still linked. An unlinked one would come back to
      life by its own nlink++, with no name above it. */
  lemma CreateDirExact(t: Tree, pend: seq<nat>, d: nat, k: Key, i: nat)
    requires Lawful(t, pend) && d < |t| && t[d].typ == T_DIR && Plain(k) && k !in t[d].dir
    requires 0 < i < |t| && t[i].typ == 0
    ensures i != d && (Lawful(WithDir(t, d, k, i), pend) <==> LiveDir(t, d))
  {
    hide Shaped, Refs, EntryOk;
    if LiveDir(t, d) {
      CreateDir(t, pend, d, k, i);
    } else {
      var at :| Shaped(t, at);
      RootLives(t, at);
      Revived(t, d, k, i);
      assert t[d].nlink == |Refs(t, d)| + pend[d];
      if Lawful(WithDir(t, d, k, i), pend) {
        RevivedNamed(WithDir(t, d, k, i), pend, d, i);
      }
    }
  }

  /** What mkdir in an unlinked directory makes of it. */
  lemma Revived(t: Tree, d: nat, k: Key, i: nat)
    requires d < |t| && t[d].typ == T_DIR && t[d].nlink <= 0 && 0 < i < |t| && i != d && k != DOTDOT
    ensures var t' := WithDir(t, d, k, i); t'[d].typ == T_DIR && t'[d].nlink == t[d].nlink + 1 && Refers(t', i, DOTDOT, d)
  {
  }

  lemma HasName(t: Tree, at: Naming, d: nat)
    requires Shaped(t, at) && LiveDir(t, d) && d != ROOT
    ensures d in at && Plain(at[d]) && Refers(t, Up(t, d), at[d], d)
  {
    assert NodeShape(t, at, d);
  }

  /** A live directory that another one has as "..", and that is not the root, has two links. */
  lemma RevivedNamed(t: Tree, pend: seq<nat>, d: nat, i: nat)
    requires Lawful(t, pend) && LiveDir(t, d) && d != ROOT && Refers(t, i, DOTDOT, d)
    ensures t[d].nlink >= 2
  {
    hide Shaped, Refers;
    var at :| Shaped(t, at);
    HasName(t, at, d);
    var two: set<(nat, Key)> := {(i, DOTDOT), (Up(t, d), at[d])};
    assert two <= Refs(t, d) by {
      InRefs(t, i, DOTDOT, d);
      InRefs(t, Up(t, d), at[d], d);
    }
    SubsetSize(two, Refs(t, d));
  }

  lemma DirRefers(t: Tree, d: nat, k: Key, i: nat)
    requires LiveDir(t, d) && Plain(k) && k !in t[d].dir && i < |t| && t[i].typ == 0
    ensures forall e: nat, l, j: nat :: Refers(WithDir(t, d, k, i), e, l, j) <==>
              Refers(t, e, l, j) || (e == d && l == k && j == i) || (e == i && l == DOTDOT && j == d)
  {
  }

  lemma CreateDirShape(t: Tree, at: Naming, d: nat, k: Key, i: nat)
    requires Shaped(t, at) && LiveDir(t, d) && Plain(k) && k !in t[d].dir && 0 < i < |t| && t[i].typ == 0
    ensures Shaped(WithDir(t, d, k, i), at[i := k])
  {
    var t', at' := WithDir(t, d, k, i), at[i := k];
    forall x: nat | x < |t'|
      ensures NodeShape(t', at', x)
    {
      if x == i {
        NewDirNode(t, at', d, k, i);
      } else {
        OldDirNode(t, at, d, k, i, x);
      }
    }
  }

  lemma NewDirNode(t: Tree, at: Naming, d: nat, k: Key, i: nat)
    requires LiveDir(t, d) && Plain(k) && 0 < d && 0 < i < |t| && t[i].typ == 0 && i in at && at[i] == k
    ensures NodeShape(WithDir(t, d, k, i), at, i)
  {
  }

  lemma OldDirNode(t: Tree, at: Naming, d: nat, k: Key, i: nat, x: nat)
    requires Shaped(t, at) && LiveDir(t, d) && Plain(k) && k !in t[d].dir
    requires 0 < i < |t| && t[i].typ == 0 && x < |t| && x != i
    ensures NodeShape(WithDir(t, d, k, i), at[i := k], x)
  {
    hide EntryOk;
    var t', at' := WithDir(t, d, k, i), at[i := k];
    assert NodeShape(t, at, x);
    if LiveDir(t', x) {
      forall l | l in t'[x].dir
        ensures EntryOk(t', at', x, l)
      {
        if x == d && l == k {
          EntryToNewDir(t, at', d, k, i);
        } else {
          TargetInRange(t, at, x, l);
          EntryCarries(t, at, t', at', x, l);
        }
      }
    }
  }

  lemma EntryToNewDir(t: Tree, at: Naming, d: nat, k: Key, i: nat)
    requires LiveDir(t, d) && LiveDir(t, ROOT) && Plain(k) && 0 < i < |t| && t[i].typ == 0 && i in at && at[i] == k
    ensures EntryOk(WithDir(t, d, k, i), at, d, k)
  {
  }

  // --- unlink -------------------------------------------------------------------

  lemma DroppedRefers(t: Tree, d: nat, k: Key)
    requires LiveDir(t, d) && Plain(k) && k in t[d].dir
    ensures Refers(t, d, k, t[d].dir[k])
    ensures forall e: nat, l, j: nat :: Refers(DropEntry(t, d, k), e, l, j) <==>
              Refers(t, e, l, j) && !(e == d && l == k && j == t[d].dir[k])
  {
  }

  /** unlink of a name that is no directory: the entry goes, and one link with it. */
  function Unlinked(t: Tree, d: nat, k: Key): Tree
    requires d < |t| && k in t[d].dir && t[d].dir[k] < |t|
  {
    Relink(DropEntry(t, d, k), t[d].dir[k], -1)
  }

  lemma UnlinkFile(t: Tree, pend: seq<nat>, d: nat, k: Key)
    requires Lawful(t, pend) && LiveDir(t, d) && Plain(k) && k in t[d].dir
    requires t[d].dir[k] < |t| && t[t[d].dir[k]].typ != T_DIR
    ensures Lawful(Unlinked(t, d, k), pend)
  {
    hide Shaped, Refers;
    var at :| Shaped(t, at);
    var i := t[d].dir[k];
    DroppedRefers(t, d, k);
    DropShape(t, at, d, k);
    EntryTarget(t, at, d, k);
    var u := DropEntry(t, d, k);
    var t' := Unlinked(t, d, k);
    FileNode(t, at, i);
    RefileShape(u, at, i, t'[i]);
    forall j: nat | j < |t'| && t'[j].typ != 0
      ensures t'[j].nlink == |Refs(t', j)| + pend[j]
    {
      RefsLose(t, t', d, k, i, j);
    }
  }

  lemma EntryTarget(t: Tree, at: Naming, d: nat, k: Key)
    requires Shaped(t, at) && LiveDir(t, d) && k in t[d].dir
    ensures 0 < t[d].dir[k] < |t| && t[t[d].dir[k]].typ != 0
  {
    assert NodeShape(t, at, d) && EntryOk(t, at, d, k);
  }

  /** Dropping a name that leads to no live directory keeps the shape. */
  lemma DropShape(t: Tree, at: Naming, d: nat, k: Key)
    requires Shaped(t, at) && LiveDir(t, d) && Plain(k) && k in t[d].dir && !LiveDir(t, t[d].dir[k])
    ensures Shaped(DropEntry(t, d, k), at)
  {
    forall x: nat | x < |t|
      ensures NodeShape(DropEntry(t, d, k), at, x)
    {
      DropNode(t, at, d, k, x);
    }
  }

  lemma DropNode(t: Tree, at: Naming, d: nat, k: Key, x: nat)
    requires Shaped(t, at) && LiveDir(t, d) && Plain(k) && k in t[d].dir && !LiveDir(t, t[d].dir[k])
    requires x < |t|
    ensures NodeShape(DropEntry(t, d, k), at, x)
  {
    hide EntryOk;
    var t' := DropEntry(t, d, k);
    assert NodeShape(t, at, x);
    if LiveDir(t', x) {
      forall l | l in t'[x].dir
        ensures EntryOk(t', at, x, l)
      {
        TargetInRange(t, at, x, l);
        EntryCarries(t, at, t', at, x, l);
      }
    }
  }

  ghost predicate EmptyDir(t: Tree, i: nat) {
    LiveDir(t, i) && forall l | l in t[i].dir :: !Plain(l)
  }

  /** An empty directory's only link is the name about to go, and the directory above
      it has at least two. */
  lemma EmptyDirLinks(t: Tree, at: Naming, d: nat, k: Key)
    requires Shaped(t, at) && LiveDir(t, d) && Plain(k) && k in t[d].dir && EmptyDir(t, t[d].dir[k])
    ensures var i := t[d].dir[k];
            && 0 < i && i != d && i != ROOT && Up(t, i) == d && DOTDOT in t[i].dir
            && (forall e: nat, l :: Refers(t, e, l, i) <==> e == d && l == k)
            && |Refs(t, i)| == 1 && |Refs(t, d)| >= 2
  {
    var i := t[d].dir[k];
    assert NodeShape(t, at, d) && EntryOk(t, at, d, k) && NodeShape(t, at, i);
    forall e: nat, l
      ensures Refers(t, e, l, i) <==> e == d && l == k
    {
      OnlyName(t, at, d, k, e, l);
    }
    assert Refs(t, i) == {(d, k)};
    var other: (nat, Key) := if d == ROOT then (ROOT, DOTDOT) else (Up(t, d), at[d]);
    assert Refers(t, i, DOTDOT, d) && Refers(t, other.0, other.1, d) && other != (i, DOTDOT);
    var two: set<(nat, Key)> := {(i, DOTDOT), other};
    assert two <= Refs(t, d);
    SubsetSize(two, Refs(t, d));
  }

  lemma OnlyName(t: Tree, at: Naming, d: nat, k: Key, e: nat, l: Key)
    requires Shaped(t, at) && LiveDir(t, d) && Plain(k) && k in t[d].dir && EmptyDir(t, t[d].dir[k])
    ensures Refers(t, e, l, t[d].dir[k]) <==> e == d && l == k
  {
    var i := t[d].dir[k];
    assert NodeShape(t, at, d) && EntryOk(t, at, d, k);
    if LiveDir(t, e) && l in t[e].dir {
      assert NodeShape(t, at, e) && EntryOk(t, at, e, l);
    }
  }

  lemma SubsetSize<T>(a: set<T>, b: set<T>)
    requires a <= b
    ensures |a| <= |b|
  {
    if a != {} {
      var x :| x in a;
      SubsetSize(a - {x}, b - {x});
    }
  }

  /** rmdir by unlink: the entry goes, the directory above loses the "..", and the
      directory itself loses its last link. */
  function UnlinkedDir(t: Tree, d: nat, k: Key): Tree
    requires d < |t| && k in t[d].dir && t[d].dir[k] < |t|
  {
    Relink(Relink(DropEntry(t, d, k), d, -1), t[d].dir[k], -1)
  }

  lemma UnlinkDir(t: Tree, pend: seq<nat>, d: nat, k: Key)
    requires Lawful(t, pend) && LiveDir(t, d) && Plain(k) && k in t[d].dir && EmptyDir(t, t[d].dir[k])
    ensures t[t[d].dir[k]].nlink == 1 && t[d].nlink >= 2
    ensures Lawful(UnlinkedDir(t, d, k), pend)
  {
    hide Shaped, Refers;
    var at :| Shaped(t, at);
    var i := t[d].dir[k];
    EmptyDirLinks(t, at, d, k);
    var t' := UnlinkedDir(t, d, k);
    UnlinkedRefers(t, at, d, k);
    forall j: nat | j < |t'| && t'[j].typ != 0
      ensures t'[j].nlink == |Refs(t', j)| + pend[j]
    {
      if j == i {
        RefsLose(t, t', d, k, i, j);
      } else {
        RefsLose(t, t', i, DOTDOT, d, j);
      }
    }
    UnlinkedShape(t, at, d, k);
  }

  lemma UnlinkedRefers(t: Tree, at: Naming, d: nat, k: Key)
    requires Shaped(t, at) && LiveDir(t, d) && Plain(k) && k in t[d].dir && EmptyDir(t, t[d].dir[k])
    requires t[t[d].dir[k]].nlink == 1 && t[d].nlink >= 2
    ensures var i := t[d].dir[k];
            && Refers(t, i, DOTDOT, d) && Refers(t, d, k, i)
            && forall e: nat, l, j: nat :: Refers(UnlinkedDir(t, d, k), e, l, j) <==>
                 Refers(t, e, l, j) && !(e == d && l == k && j == i) && !(e == i && l == DOTDOT && j == d)
  {
    EmptyDirLinks(t, at, d, k);
  }

  lemma UnlinkedShape(t: Tree, at: Naming, d: nat, k: Key)
    requires Shaped(t, at) && LiveDir(t, d) && Plain(k) && k in t[d].dir && EmptyDir(t, t[d].dir[k])
    requires t[t[d].dir[k]].nlink == 1 && t[d].nlink >= 2
    ensures Shaped(UnlinkedDir(t, d, k), at)
  {
    EmptyDirLinks(t, at, d, k);
    var t' := UnlinkedDir(t, d, k);
    forall x: nat | x < |t'|
      ensures NodeShape(t', at, x)
    {
      UnlinkedNode(t, at, d, k, x);
    }
  }

  lemma UnlinkedNode(t: Tree, at: Naming, d: nat, k: Key, x: nat)
    requires Shaped(t, at) && LiveDir(t, d) && Plain(k) && k in t[d].dir && EmptyDir(t, t[d].dir[k])
    requires t[t[d].dir[k]].nlink == 1 && t[d].nlink >= 2 && x < |t|
    ensures NodeShape(UnlinkedDir(t, d, k), at, x)
  {
    hide EntryOk;
    var t' := UnlinkedDir(t, d, k);
    var i := t[d].dir[k];
    EmptyDirLinks(t, at, d, k);
    assert NodeShape(t, at, x);
    if LiveDir(t', x) {
      assert DOTDOT in t[x].dir ==> t[x].dir[DOTDOT] != i by {
        assert !Refers(t, x, DOTDOT, i);
      }
      forall l | l in t'[x].dir
        ensures EntryOk(t', at, x, l)
      {
        TargetInRange(t, at, x, l);
        assert Refers(t, x, l, i) ==> x == d && l == k;
        EntryCarries(t, at, t', at, x, l);
      }
    }
  }

  // --- how many links a directory can have ----------------------------------------------

  lemma InjectionSize<A, B>(a: set<A>, b: set<B>, f: A -> B)
    requires forall x | x in a :: f(x) in b
    requires forall x, y | x in a && y in a && f(x) == f(y) :: x == y
    ensures |a| <= |b|
  {
    if a != {} {
      var x :| x in a;
      InjectionSize(a - {x}, b - {f(x)}, f);
    }
  }

  /** A different name in d for each reference to it: a child's name for the child's "..", "." for the
      root's own "..", ".." for its name. */
  function NameFor(at: Naming, r: (nat, Key)): Key {
    if r.1 != DOTDOT then DOTDOT else if r.0 == ROOT || r.0 !in at then DOT else at[r.0]
  }

  lemma NameForFits(t: Tree, at: Naming, d: nat, r: (nat, Key))
    requires Shaped(t, at) && LiveDir(t, d) && Refers(t, r.0, r.1, d)
    ensures NameFor(at, r) in t[d].dir
    ensures r.1 != DOTDOT ==> d in at && r == (Up(t, d), at[d])
    ensures r.1 == DOTDOT && r.0 != ROOT ==> Plain(NameFor(at, r)) && t[d].dir[NameFor(at, r)] == r.0
  {
    assert NodeShape(t, at, d) && NodeShape(t, at, r.0) && EntryOk(t, at, r.0, r.1);
  }

  lemma NameForInjective(t: Tree, at: Naming, d: nat, r: (nat, Key), q: (nat, Key))
    requires Shaped(t, at) && LiveDir(t, d) && r in Refs(t, d) && q in Refs(t, d) && NameFor(at, r) == NameFor(at, q)
    ensures r == q
  {
    hide Shaped;
    NameForFits(t, at, d, r);
    NameForFits(t, at, d, q);
  }

  /** A linked directory has no more links than names in it. */
  lemma DirLinksBound(t: Tree, pend: seq<nat>, d: nat)
    requires Lawful(t, pend) && LiveDir(t, d)
    ensures t[d].nlink <= |t[d].dir|
  {
    hide Shaped, NameFor, Refers;
    var at :| Shaped(t, at);
    forall r | r in Refs(t, d)
      ensures NameFor(at, r) in t[d].dir.Keys
    {
      NameForFits(t, at, d, r);
    }
    forall r, q | r in Refs(t, d) && q in Refs(t, d) && NameFor(at, r) == NameFor(at, q)
      ensures r == q
    {
      NameForInjective(t, at, d, r, q);
    }
    InjectionSize(Refs(t, d), t[d].dir.Keys, r => NameFor(at, r));
    assert |t[d].dir.Keys| == |t[d].dir|;
  }

  // --- iput's free -----------------------------------------------------------------

  /** With no links and none pending, nothing refers to the inode and it may be freed. */
  lemma Free(t: Tree, pend: seq<nat>, i: nat)
    requires Lawful(t, pend) && i < |t| && t[i].typ != 0 && t[i].nlink == 0
    ensures Lawful(t[i := FreeNode()], pend)
  {
    hide Shaped, Refers;
    var at :| Shaped(t, at);
    RootLives(t, at);
    forall e: nat, l
      ensures !Refers(t, e, l, i)
    {
      InRefs(t, e, l, i);
    }
    var t' := t[i := FreeNode()];
    RefileShape(t, at, i, FreeNode());
    forall j: nat | j < |t'|
      ensures Refs(t', j) == Refs(t, j)
    {
      RefsSame(t, t', j);
    }
  }

  lemma RootLives(t: Tree, at: Naming)
    requires Shaped(t, at)
    ensures LiveDir(t, ROOT) && t[0].typ == 0
  {
  }
}
