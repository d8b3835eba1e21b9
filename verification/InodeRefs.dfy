/** The reference counts of the inode table, summed over its entries, and what they keep alive. */
module InodeRefs {
  import opened LinkLaw

  /** What is referred to is allocated, and an inode without links is allocated only while it is referred to. */
  ghost predicate Held(t: Tree, refs: multiset<nat>) {
    && (forall i: nat | i < |t| && t[i].typ != 0 && t[i].nlink == 0 :: i in refs)
    && (forall i: nat | i in refs :: i < |t| && t[i].typ != 0)
  }

  /** The tree after iput of i: the last reference takes an inode without links with it. */
  function Dropped(t: Tree, refs: multiset<nat>, i: nat): Tree
    requires i < |t|
  {
    if refs[i] == 1 && t[i].nlink == 0 then t[i := FreeNode()] else t
  }

  class RefTable {
    var refs: multiset<nat>

    constructor (refs: multiset<nat>)
      ensures this.refs == refs
    {
      this.refs := refs;
    }

    method Iget(i: nat)
      modifies this
      ensures refs == old(refs) + multiset{i}
    {
      refs := refs + multiset{i};
    }

    method Drop(i: nat)
      requires i in refs
      modifies this
      ensures refs == old(refs) - multiset{i}
    {
      refs := refs - multiset{i};
    }
  }

  /** iput keeps what is held. */
  lemma DroppedHeld(t: Tree, refs: multiset<nat>, i: nat)
    requires Held(t, refs) && i in refs
    ensures i < |t| && Held(Dropped(t, refs, i), refs - multiset{i})
  {
    var u := Dropped(t, refs, i);
    forall j: nat | j in refs - multiset{i}
      ensures j < |u| && u[j].typ != 0
    {
      assert j in refs;
    }
  }

  /** A reference beside those that hold the tree can go again without freeing anything. */
  lemma SpareStays(t: Tree, refs: multiset<nat>, i: nat)
    requires i < |t| && (t[i].nlink == 0 ==> i in refs)
    ensures Dropped(t, refs + multiset{i}, i) == t && refs + multiset{i} - multiset{i} == refs
  {
    assert refs + multiset{i} - multiset{i} == refs;
  }

  /** One more reference to an allocated inode. */
  lemma HeldMore(t: Tree, refs: multiset<nat>, i: nat)
    requires Held(t, refs) && i < |t| && t[i].typ != 0
    ensures Held(t, refs + multiset{i})
  {
  }
}
