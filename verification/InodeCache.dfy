/** The reference-counted inode table, with every lock release a point where other
    threads run, and its coherence with the inodes on disk. */
module InodeCache {
  import opened Bytes
  import opened Layout
  import opened FileData

  /** How far the holder of an entry's sleep-lock has come. The last five are iput freeing
      the inode: locked, truncated, type cleared in memory, type cleared on disk, valid = 0. */
  datatype Phase = Acquired | Clean | Dirty | Doomed | Truncated | Typeless | Erased | Invalid

  datatype Lock = Free | Held(tid: nat, phase: Phase)

  datatype Entry = Entry(inum: nat, ref: nat, valid: bool, data: Dinode, lock: Lock)

  /** What a thread is in the middle of, and the references it owns, by slot. */
  datatype Pc = Running | Freeing(slot: nat) | Dropping(slot: nat) | Claimed(inum: nat)
  datatype Thread = Thread(pc: Pc, refs: multiset<nat>)

  /** perm is a history variable: the permissions last given to each inode number. */
  datatype State = State(disk: seq<Dinode>, table: seq<Entry>, threads: seq<Thread>, perm: seq<int>)

  datatype Step =
    | Iget(inum: nat)
    | Ialloc(inum: nat, typ: short)
    | Idup(slot: nat)
    | LockEntry(slot: nat)
    | Load(slot: nat)
    | Modify(slot: nat, data: Dinode)
    | Chmod(slot: nat, mode: int)
    | Update(slot: nat)
    | Unlock(slot: nat)
    | Put(slot: nat)
    | Truncate
    | ClearType
    | Erase
    | Invalidate
    | Release
    | Drop

  // --- iget's search -----------------------------------------------------------

  function FindLive(table: seq<Entry>, inum: nat, i: nat): (r: nat)
    requires i <= |table|
    ensures i <= r <= |table|
    ensures r < |table| ==> table[r].ref > 0 && table[r].inum == inum
    ensures forall j | i <= j < r :: !(table[j].ref > 0 && table[j].inum == inum)
    decreases |table| - i
  {
    if i == |table| || (table[i].ref > 0 && table[i].inum == inum) then i else FindLive(table, inum, i + 1)
  }

  function FindFree(table: seq<Entry>, i: nat): (r: nat)
    requires i <= |table|
    ensures i <= r <= |table|
    ensures r < |table| ==> table[r].ref == 0
    ensures forall j | i <= j < r :: table[j].ref > 0
    decreases |table| - i
  {
    if i == |table| || table[i].ref == 0 then i else FindFree(table, i + 1)
  }

  /** The slot iget returns: the live entry if there is one, else the first empty slot;
      the table's length when iget panics. */
  function IgetSlot(table: seq<Entry>, inum: nat): nat {
    var live := FindLive(table, inum, 0);
    if live < |table| then live else FindFree(table, 0)
  }

  function IgetTable(table: seq<Entry>, inum: nat): (r: seq<Entry>)
    requires IgetSlot(table, inum) < |table|
    ensures |r| == |table|
  {
    var s := IgetSlot(table, inum);
    if FindLive(table, inum, 0) < |table| then table[s := table[s].(ref := table[s].ref + 1)]
    else table[s := table[s].(inum := inum, ref := 1, valid := false)]
  }

  /** itable.inode as the array it is; its lock makes each method one step. */
  class Itable {
    const inode: array<Entry>

    constructor (n: nat, e: Entry)
      ensures fresh(inode) && inode.Length == n
    {
      inode := new Entry[n](_ => e);
    }

    /** Find the inode's entry, or recycle an empty one; None is the "no inodes" panic. */
    method Iget(inum: nat) returns (found: bool, slot: nat)
      modifies inode
      ensures found <==> old(IgetSlot(inode[..], inum)) < inode.Length
      ensures found ==> slot == old(IgetSlot(inode[..], inum)) < inode.Length && inode[..] == old(IgetTable(inode[..], inum))
      ensures !found ==> inode[..] == old(inode[..])
    {
      var empty := inode.Length;
      var i := 0;
      while i < inode.Length
        invariant i <= inode.Length && inode[..] == old(inode[..])
        invariant FindLive(inode[..], inum, 0) == FindLive(inode[..], inum, i)
        invariant empty < inode.Length ==> FindFree(inode[..], 0) == empty
        invariant empty == inode.Length ==> FindFree(inode[..], 0) == FindFree(inode[..], i)
        invariant empty <= inode.Length
      {
        if inode[i].ref > 0 && inode[i].inum == inum {
          inode[i] := inode[i].(ref := inode[i].ref + 1);
          return true, i;
        }
        if empty == inode.Length && inode[i].ref == 0 {
          empty := i;
        }
        i := i + 1;
      }
      if empty == inode.Length {
        return false, 0;
      }
      inode[empty] := inode[empty].(inum := inum, ref := 1, valid := false);
      return true, empty;
    }
  }

  // --- the transition system --------------------------------------------------------

  predicate IsFreeing(p: Phase) {
    p.Doomed? || p.Truncated? || p.Typeless? || p.Erased? || p.Invalid?
  }

  function SetEntry(s: State, x: nat, e: Entry): State
    requires x < |s.table|
  {
    s.(table := s.table[x := e])
  }

  function SetThread(s: State, tid: nat, t: Thread): State
    requires tid < |s.threads|
  {
    s.(threads := s.threads[tid := t])
  }

  predicate HeldBy(s: State, x: nat, tid: nat, p: Phase) {
    x < |s.table| && s.table[x].lock == Held(tid, p) && s.table[x].inum < |s.disk| == |s.perm|
  }

  /** May thread tid take this step now? A step that blocks or panics is not enabled. */
  predicate Enabled(s: State, tid: nat, step: Step) {
    tid < |s.threads| && |s.perm| == |s.disk| &&
    var t := s.threads[tid];
    match step
    case Iget(inum) => inum < |s.disk| && IgetSlot(s.table, inum) < |s.table| && (t.pc == Running || t.pc == Claimed(inum))
    case Ialloc(inum, typ) => t.pc == Running && 0 < inum < |s.disk| && s.disk[inum].typ == 0 && typ != 0
    case Idup(x) => t.pc == Running && x < |s.table| && x in t.refs
    case LockEntry(x) => t.pc == Running && x < |s.table| && x in t.refs && s.table[x].lock == Free
    case Load(x) => t.pc == Running && HeldBy(s, x, tid, Acquired) && (s.table[x].valid || s.disk[s.table[x].inum].typ != 0)
    case Modify(x, data) => t.pc == Running && (HeldBy(s, x, tid, Clean) || HeldBy(s, x, tid, Dirty))
                            && data.typ != 0 && data.permissions == s.table[x].data.permissions
    case Chmod(x, mode) => t.pc == Running && (HeldBy(s, x, tid, Clean) || HeldBy(s, x, tid, Dirty))
    case Update(x) => t.pc == Running && HeldBy(s, x, tid, Dirty)
    case Unlock(x) => t.pc == Running && HeldBy(s, x, tid, Clean)
    case Put(x) => t.pc == Running && x < |s.table| && x in t.refs && s.table[x].ref > 0
                   && !(s.table[x].lock.Held? && s.table[x].lock.tid == tid)
    case Truncate => t.pc.Freeing? && HeldBy(s, t.pc.slot, tid, Doomed)
    case ClearType => t.pc.Freeing? && HeldBy(s, t.pc.slot, tid, Truncated)
    case Erase => t.pc.Freeing? && HeldBy(s, t.pc.slot, tid, Typeless)
    case Invalidate => t.pc.Freeing? && HeldBy(s, t.pc.slot, tid, Erased)
    case Release => t.pc.Freeing? && HeldBy(s, t.pc.slot, tid, Invalid)
    case Drop => t.pc.Dropping? && t.pc.slot < |s.table| && t.pc.slot in t.refs && s.table[t.pc.slot].ref > 0
  }

  function Apply(s: State, tid: nat, step: Step): (r: State)
    requires Enabled(s, tid, step)
    ensures |r.table| == |s.table| && |r.threads| == |s.threads| && |r.disk| == |s.disk| && |r.perm| == |s.perm|
  {
    var t := s.threads[tid];
    match step
    case Iget(inum) =>
      SetThread(s.(table := IgetTable(s.table, inum)), tid, Thread(Running, t.refs + multiset{IgetSlot(s.table, inum)}))
    case Ialloc(inum, typ) =>
      SetThread(s.(disk := s.disk[inum := FreshInode(typ)], perm := s.perm[inum := DEFAULT_PERMISSIONS]), tid, t.(pc := Claimed(inum)))
    case Idup(x) =>
      SetThread(SetEntry(s, x, s.table[x].(ref := s.table[x].ref + 1)), tid, t.(refs := t.refs + multiset{x}))
    case LockEntry(x) => SetEntry(s, x, s.table[x].(lock := Held(tid, Acquired)))
    case Load(x) =>
      var e := s.table[x];
      SetEntry(s, x, e.(valid := true, data := if e.valid then e.data else s.disk[e.inum], lock := Held(tid, Clean)))
    case Modify(x, data) => SetEntry(s, x, s.table[x].(data := data, lock := Held(tid, Dirty)))
    case Chmod(x, mode) =>
      var e := s.table[x];
      SetEntry(s, x, e.(data := e.data.(permissions := mode % 0x200), lock := Held(tid, Dirty))).(perm := s.perm[e.inum := mode % 0x200])
    case Update(x) =>
      var e := s.table[x];
      SetEntry(s, x, e.(lock := Held(tid, Clean))).(disk := s.disk[e.inum := e.data])
    case Unlock(x) => SetEntry(s, x, s.table[x].(lock := Free))
    case Put(x) =>
      var e := s.table[x];
      if e.ref == 1 && e.valid && e.data.nlink == 0 then
        SetThread(SetEntry(s, x, e.(lock := Held(tid, Doomed))), tid, t.(pc := Freeing(x)))
      else
        SetThread(SetEntry(s, x, e.(ref := e.ref - 1)), tid, t.(refs := t.refs - multiset{x}))
    case Truncate =>
      var e := s.table[t.pc.slot];
      var n := e.data.(addrs := NoAddrs(), size := 0);
      SetEntry(s, t.pc.slot, e.(data := n, lock := Held(tid, Truncated))).(disk := s.disk[e.inum := n])
    case ClearType =>
      var e := s.table[t.pc.slot];
      SetEntry(s, t.pc.slot, e.(data := e.data.(typ := 0), lock := Held(tid, Typeless)))
    case Erase =>
      var e := s.table[t.pc.slot];
      SetEntry(s, t.pc.slot, e.(lock := Held(tid, Erased))).(disk := s.disk[e.inum := e.data])
    case Invalidate => SetEntry(s, t.pc.slot, s.table[t.pc.slot].(valid := false, lock := Held(tid, Invalid)))
    case Release =>
      SetThread(SetEntry(s, t.pc.slot, s.table[t.pc.slot].(lock := Free)), tid, t.(pc := Dropping(t.pc.slot)))
    case Drop =>
      var e := s.table[t.pc.slot];
      SetThread(SetEntry(s, t.pc.slot, e.(ref := e.ref - 1)), tid, Thread(Running, t.refs - multiset{t.pc.slot}))
  }

  // --- the invariant -----------------------------------------------------------------

  /** The references to slot x held by all threads together. */
  function RefSum(threads: seq<Thread>, x: nat): nat {
    if threads == [] then 0 else threads[0].refs[x] + RefSum(threads[1..], x)
  }

  /** What a live entry's copy has to do with the inode on disk. */
  predicate DataOk(e: Entry, d: Dinode) {
    if !e.valid then e.lock == Free || e.lock.phase.Acquired? || e.lock.phase.Invalid?
    else if e.lock == Free then e.data == d && d.typ != 0
    else match e.lock.phase
      case Acquired => e.data == d && d.typ != 0
      case Clean => e.data == d && d.typ != 0
      case Dirty => e.data.typ != 0 && d.typ != 0
      case Doomed => e.data == d && d.typ != 0 && d.nlink == 0
      case Truncated => e.data == d && d.typ != 0 && d.nlink == 0 && d.size == 0
      case Typeless => e.data == d.(typ := 0) && d.typ != 0 && d.nlink == 0 && d.size == 0
      case Erased => true
      case Invalid => false
  }

  predicate SlotOk(s: State, x: nat)
    requires x < |s.table|
  {
    var e := s.table[x];
    && e.ref == RefSum(s.threads, x)
    && (e.ref > 0 ==> e.inum < |s.disk| && DataOk(e, s.disk[e.inum]))
    && (e.lock.Held? ==> e.lock.tid < |s.threads| && x in s.threads[e.lock.tid].refs
                         && (IsFreeing(e.lock.phase) <==> s.threads[e.lock.tid].pc == Freeing(x)))
  }

  predicate ThreadOk(s: State, tid: nat)
    requires tid < |s.threads|
  {
    match s.threads[tid].pc
    case Running => true
    case Claimed(inum) => true
    case Freeing(x) => x < |s.table| && s.table[x].lock.Held? && s.table[x].lock.tid == tid && IsFreeing(s.table[x].lock.phase)
    case Dropping(x) => x < |s.table| && x in s.threads[tid].refs && !(s.table[x].lock.Held? && s.table[x].lock.tid == tid)
  }

  predicate BeingChanged(s: State, x: nat, inum: nat) {
    x < |s.table| && s.table[x].inum == inum && s.table[x].lock.Held? && s.table[x].lock.phase.Dirty?
  }

  /** The last permissions given are on disk, or in the copy of a holder who must still store them. */
  ghost predicate PermOk(s: State, inum: nat)
    requires inum < |s.disk| == |s.perm|
  {
    && ((forall x: nat :: !BeingChanged(s, x, inum)) && s.disk[inum].typ != 0 ==> s.perm[inum] == s.disk[inum].permissions)
    && (forall x: nat | BeingChanged(s, x, inum) :: s.perm[inum] == s.table[x].data.permissions)
  }

  predicate Distinct(s: State, x: nat, y: nat)
    requires x < |s.table| && y < |s.table|
  {
    x != y && s.table[x].ref > 0 && s.table[y].ref > 0 ==> s.table[x].inum != s.table[y].inum
  }

  ghost predicate Coherent(s: State) {
    && |s.perm| == |s.disk|
    && (forall x: nat | x < |s.table| :: SlotOk(s, x))
    && (forall tid: nat | tid < |s.threads| :: ThreadOk(s, tid))
    && (forall x: nat, y: nat | x < |s.table| && y < |s.table| :: Distinct(s, x, y))
    && (forall inum: nat | inum < |s.disk| :: PermOk(s, inum))
  }

  lemma {:induction false} SumUpdate(threads: seq<Thread>, tid: nat, t: Thread, x: nat)
    requires tid < |threads|
    ensures RefSum(threads[tid := t], x) == RefSum(threads, x) - threads[tid].refs[x] + t.refs[x]
    decreases |threads|
  {
    if tid > 0 {
      assert threads[tid := t][1..] == threads[1..][tid - 1 := t];
      SumUpdate(threads[1..], tid - 1, t, x);
    } else {
      assert threads[0 := t][1..] == threads[1..];
    }
  }

  lemma {:induction false} SumAtLeast(threads: seq<Thread>, tid: nat, x: nat)
    requires tid < |threads|
    ensures RefSum(threads, x) >= threads[tid].refs[x]
    decreases |threads|
  {
    if tid > 0 {
      SumAtLeast(threads[1..], tid - 1, x);
    }
  }

  lemma {:induction false} SumTwo(threads: seq<Thread>, a: nat, b: nat, x: nat)
    requires a < b < |threads|
    ensures RefSum(threads, x) >= threads[a].refs[x] + threads[b].refs[x]
    decreases |threads|
  {
    if a == 0 {
      SumAtLeast(threads[1..], b - 1, x);
    } else {
      SumTwo(threads[1..], a - 1, b - 1, x);
    }
  }

  // --- every step keeps it ---------------------------------------------------------------

  predicate AtWorkOn(t: Thread, x: nat) {
    (t.pc.Freeing? ==> t.pc.slot == x) && (t.pc.Dropping? ==> t.pc.slot == x)
  }

  /** A step of thread tid on slot x, its thread record and the inode behind the slot. */
  ghost predicate LocalStep(s: State, s': State, tid: nat, x: nat) {
    && tid < |s.threads| && x < |s.table| == |s'.table| && |s'.disk| == |s.disk| == |s.perm| == |s'.perm|
    && (forall y: nat | y < |s.table| && y != x :: s'.table[y] == s.table[y])
    && |s'.threads| == |s.threads| && s'.threads == s.threads[tid := s'.threads[tid]]
    && (forall y: nat | y != x :: s'.threads[tid].refs[y] == s.threads[tid].refs[y])
    && AtWorkOn(s.threads[tid], x) && AtWorkOn(s'.threads[tid], x)
    && (forall i: nat | i < |s.disk| && !(s.table[x].ref > 0 && i == s.table[x].inum) ::
          s'.disk[i] == s.disk[i] && s'.perm[i] == s.perm[i])
  }

  /** A lock changes only from or to thread tid. */
  predicate LockMoves(l: Lock, l': Lock, tid: nat) {
    l' == l || ((l == Free || l.tid == tid) && (l' == Free || l'.tid == tid))
  }

  lemma OtherSlot(s: State, s': State, tid: nat, x: nat, y: nat)
    requires Coherent(s) && LocalStep(s, s', tid, x) && y < |s.table| && y != x
    ensures SlotOk(s', y)
  {
    SumUpdate(s.threads, tid, s'.threads[tid], y);
    assert SlotOk(s, y) && Distinct(s, x, y);
  }

  lemma OtherThread(s: State, s': State, tid: nat, x: nat, u: nat)
    requires Coherent(s) && LocalStep(s, s', tid, x) && u < |s.threads| && u != tid && SlotOk(s', x)
    requires LockMoves(s.table[x].lock, s'.table[x].lock, tid)
    ensures ThreadOk(s', u)
  {
    assert ThreadOk(s, u);
  }

  lemma OtherPerm(s: State, s': State, tid: nat, x: nat, i: nat)
    requires Coherent(s) && LocalStep(s, s', tid, x) && i < |s.disk|
    requires i != s'.table[x].inum && i != s.table[x].inum
    ensures PermOk(s', i)
  {
    assert PermOk(s, i);
    forall y: nat
      ensures BeingChanged(s', y, i) <==> BeingChanged(s, y, i)
    {
    }
  }

  /** A local step is judged by its own slot, thread and inode. */
  lemma LocalKeeps(s: State, s': State, tid: nat, x: nat)
    requires Coherent(s) && LocalStep(s, s', tid, x)
    requires LockMoves(s.table[x].lock, s'.table[x].lock, tid)
    requires SlotOk(s', x) && ThreadOk(s', tid)
    requires forall y: nat | y < |s.table| :: Distinct(s', x, y) && Distinct(s', y, x)
    requires forall i: nat | i < |s.disk| && (i == s'.table[x].inum || i == s.table[x].inum) :: PermOk(s', i)
    ensures Coherent(s')
  {
    forall y: nat | y < |s'.table|
      ensures SlotOk(s', y)
    {
      if y != x {
        OtherSlot(s, s', tid, x, y);
      }
    }
    forall u: nat | u < |s'.threads|
      ensures ThreadOk(s', u)
    {
      if u != tid {
        OtherThread(s, s', tid, x, u);
      }
    }
    forall y: nat, z: nat | y < |s'.table| && z < |s'.table|
      ensures Distinct(s', y, z)
    {
      assert Distinct(s, y, z);
    }
    forall i: nat | i < |s'.disk|
      ensures PermOk(s', i)
    {
      if i != s'.table[x].inum && i != s.table[x].inum {
        OtherPerm(s, s', tid, x, i);
      }
    }
  }

  /** Which slot a step works on. */
  function SlotOf(s: State, tid: nat, step: Step): nat
    requires Enabled(s, tid, step) && !step.Ialloc?
  {
    match step
    case Iget(inum) => IgetSlot(s.table, inum)
    case Idup(x) => x
    case LockEntry(x) => x
    case Load(x) => x
    case Modify(x, _) => x
    case Chmod(x, _) => x
    case Update(x) => x
    case Unlock(x) => x
    case Put(x) => x
    case Truncate => s.threads[tid].pc.slot
    case ClearType => s.threads[tid].pc.slot
    case Erase => s.threads[tid].pc.slot
    case Invalidate => s.threads[tid].pc.slot
    case Release => s.threads[tid].pc.slot
    case Drop => s.threads[tid].pc.slot
  }

  /** The holder of a lock owns a reference, so the entry is live. */
  lemma HolderLive(s: State, x: nat)
    requires Coherent(s) && x < |s.table| && s.table[x].lock.Held?
    ensures s.table[x].ref > 0
  {
    assert SlotOk(s, x);
    SumAtLeast(s.threads, s.table[x].lock.tid, x);
  }

  /** "ip->ref == 1 means no other process can have ip locked", so iput's acquiresleep cannot block. */
  lemma LastRefUnlocked(s: State, tid: nat, x: nat)
    requires Coherent(s) && Enabled(s, tid, Put(x)) && s.table[x].ref == 1
    ensures s.table[x].lock == Free
  {
    assert SlotOk(s, x);
    if s.table[x].lock.Held? {
      var u := s.table[x].lock.tid;
      SumTwo(s.threads, if u < tid then u else tid, if u < tid then tid else u, x);
    }
  }

  /** Only iget works on a slot that may be out of use. */
  lemma StepLive(s: State, tid: nat, step: Step)
    requires Coherent(s) && Enabled(s, tid, step) && !step.Ialloc? && !step.Iget?
    ensures SlotOf(s, tid, step) < |s.table| && s.table[SlotOf(s, tid, step)].ref > 0
    ensures s.table[SlotOf(s, tid, step)].inum < |s.disk|
  {
    var x := SlotOf(s, tid, step);
    assert SlotOk(s, x);
    SumAtLeast(s.threads, tid, x);
    if s.table[x].lock.Held? {
      HolderLive(s, x);
    }
  }

  lemma IsLocal(s: State, tid: nat, step: Step)
    requires Coherent(s) && Enabled(s, tid, step) && !step.Ialloc?
    ensures SlotOf(s, tid, step) < |s.table| && LocalStep(s, Apply(s, tid, step), tid, SlotOf(s, tid, step))
  {
    if !step.Iget? {
      StepLive(s, tid, step);
    }
  }

  /** What a step must show of its own slot and thread. */
  ghost predicate OwnOk(s: State, tid: nat, step: Step)
    requires Enabled(s, tid, step) && !step.Ialloc? && SlotOf(s, tid, step) < |s.table|
  {
    var x, s' := SlotOf(s, tid, step), Apply(s, tid, step);
    && x < |s'.table| && tid < |s'.threads| && SlotOk(s', x) && ThreadOk(s', tid)
    && LockMoves(s.table[x].lock, s'.table[x].lock, tid)
  }

  lemma IgetStep(s: State, tid: nat, inum: nat)
    requires Coherent(s) && Enabled(s, tid, Iget(inum))
    ensures IgetSlot(s.table, inum) < |s.table| && OwnOk(s, tid, Iget(inum))
  {
    var x, s' := IgetSlot(s.table, inum), Apply(s, tid, Iget(inum));
    assert SlotOk(s, x);
    SumUpdate(s.threads, tid, s'.threads[tid], x);
    if s.table[x].lock.Held? {
      HolderLive(s, x);
    }
  }

  /** The freeing branch of iput: nobody holds the lock, so it is there to take. */
  lemma PutFrees(s: State, tid: nat, x: nat)
    requires Coherent(s) && Enabled(s, tid, Put(x))
    requires s.table[x].ref == 1 && s.table[x].valid && s.table[x].data.nlink == 0
    ensures OwnOk(s, tid, Put(x))
  {
    var s' := Apply(s, tid, Put(x));
    assert SlotOk(s, x);
    SumUpdate(s.threads, tid, s'.threads[tid], x);
    LastRefUnlocked(s, tid, x);
  }

  lemma PutDrops(s: State, tid: nat, x: nat)
    requires Coherent(s) && Enabled(s, tid, Put(x))
    requires !(s.table[x].ref == 1 && s.table[x].valid && s.table[x].data.nlink == 0)
    ensures OwnOk(s, tid, Put(x))
  {
    var s' := Apply(s, tid, Put(x));
    assert SlotOk(s, x);
    SumUpdate(s.threads, tid, s'.threads[tid], x);
    if s.table[x].ref == 1 {
      LastRefUnlocked(s, tid, x);
    }
  }

  /** The steps of iput from the freeing of an inode to the drop of its reference. */
  predicate InPut(step: Step) {
    step.Truncate? || step.ClearType? || step.Erase? || step.Invalidate? || step.Release? || step.Drop?
  }

  lemma LockStep(s: State, tid: nat, step: Step)
    requires Coherent(s) && Enabled(s, tid, step) && !step.Ialloc? && !step.Iget? && !step.Put? && !InPut(step)
    ensures SlotOf(s, tid, step) < |s.table| && OwnOk(s, tid, step)
  {
    IsLocal(s, tid, step);
    var x := SlotOf(s, tid, step);
    var s' := Apply(s, tid, step);
    assert SlotOk(s, x) && ThreadOk(s, tid);
    SumUpdate(s.threads, tid, s'.threads[tid], x);
    StepLive(s, tid, step);
  }

  lemma FreeingStep(s: State, tid: nat, step: Step)
    requires Coherent(s) && Enabled(s, tid, step) && InPut(step)
    ensures SlotOf(s, tid, step) < |s.table| && OwnOk(s, tid, step)
  {
    IsLocal(s, tid, step);
    var x := SlotOf(s, tid, step);
    var s' := Apply(s, tid, step);
    assert SlotOk(s, x) && ThreadOk(s, tid);
    SumUpdate(s.threads, tid, s'.threads[tid], x);
    StepLive(s, tid, step);
  }

  /** Only slot x can change who is changing inode i; another slot's change is of another inode. */
  lemma OthersChanging(s: State, s': State, tid: nat, x: nat, i: nat)
    requires Coherent(s) && LocalStep(s, s', tid, x)
    ensures forall y: nat | y != x :: BeingChanged(s', y, i) <==> BeingChanged(s, y, i)
    ensures s.table[x].ref > 0 && s.table[x].inum == i ==> forall y: nat | y != x :: !BeingChanged(s, y, i)
  {
    forall y: nat | y != x
      ensures BeingChanged(s', y, i) <==> BeingChanged(s, y, i)
      ensures BeingChanged(s, y, i) && s.table[x].ref > 0 ==> s.table[x].inum != i
    {
      if BeingChanged(s, y, i) && s.table[x].ref > 0 {
        AloneOnInode(s, x, y, i);
      }
    }
  }

  /** iput changes no copy, and takes a lock only where nobody holds it. */
  lemma PutPerm(s: State, tid: nat, x: nat, i: nat)
    requires Coherent(s) && Enabled(s, tid, Put(x)) && i < |s.disk|
    ensures PermOk(Apply(s, tid, Put(x)), i)
  {
    IsLocal(s, tid, Put(x));
    var s' := Apply(s, tid, Put(x));
    if s.table[x].ref == 1 {
      LastRefUnlocked(s, tid, x);
    }
    OthersChanging(s, s', tid, x, i);
    assert BeingChanged(s', x, i) <==> BeingChanged(s, x, i);
    assert PermOk(s, i);
  }

  lemma StepPerm(s: State, tid: nat, step: Step, i: nat)
    requires Coherent(s) && Enabled(s, tid, step) && !step.Ialloc? && !step.Put? && i < |s.disk|
    ensures PermOk(Apply(s, tid, step), i)
  {
    IsLocal(s, tid, step);
    var x := SlotOf(s, tid, step);
    var s' := Apply(s, tid, step);
    assert SlotOk(s, x) && PermOk(s, i);
    OthersChanging(s, s', tid, x, i);
    assert BeingChanged(s, x, i) ==> s.perm[i] == s.table[x].data.permissions;
    assert BeingChanged(s', x, i) || !BeingChanged(s', x, i);
    if !step.Iget? {
      StepLive(s, tid, step);
    } else if s.table[x].lock.Held? {
      HolderLive(s, x);
    }
  }

  lemma AloneOnInode(s: State, x: nat, y: nat, i: nat)
    requires Coherent(s) && x < |s.table| && s.table[x].ref > 0 && y != x && BeingChanged(s, y, i)
    ensures s.table[x].inum != i
  {
    HolderLive(s, y);
    assert Distinct(s, x, y);
  }

  lemma StepDistinct(s: State, tid: nat, step: Step, y: nat)
    requires Coherent(s) && Enabled(s, tid, step) && !step.Ialloc? && y < |s.table|
    ensures var x, s' := SlotOf(s, tid, step), Apply(s, tid, step);
            x < |s.table| == |s'.table| && Distinct(s', x, y) && Distinct(s', y, x)
  {
    IsLocal(s, tid, step);
    if !step.Iget? {
      StepLive(s, tid, step);
    }
    assert Distinct(s, SlotOf(s, tid, step), y) && Distinct(s, y, SlotOf(s, tid, step));
  }

  lemma ClaimKeeps(s: State, tid: nat, inum: nat, typ: short)
    requires Coherent(s) && Enabled(s, tid, Ialloc(inum, typ))
    ensures Coherent(Apply(s, tid, Ialloc(inum, typ)))
  {
    var s' := Apply(s, tid, Ialloc(inum, typ));
    forall x: nat | x < |s'.table|
      ensures SlotOk(s', x)
    {
      assert SlotOk(s, x);
      SumUpdate(s.threads, tid, s'.threads[tid], x);
    }
    forall u: nat | u < |s'.threads|
      ensures ThreadOk(s', u)
    {
      assert ThreadOk(s, u);
    }
    forall x: nat, y: nat | x < |s'.table| && y < |s'.table|
      ensures Distinct(s', x, y)
    {
      assert Distinct(s, x, y);
    }
    forall i: nat | i < |s'.disk|
      ensures PermOk(s', i)
    {
      assert PermOk(s, i);
      forall y: nat
        ensures BeingChanged(s', y, i) <==> BeingChanged(s, y, i)
        ensures BeingChanged(s, y, i) ==> s.disk[i].typ != 0
      {
        if BeingChanged(s, y, i) {
          HolderLive(s, y);
          assert SlotOk(s, y);
        }
      }
    }
  }

  /** Every step of every thread keeps the cache coherent. */
  lemma StepCoherent(s: State, tid: nat, step: Step)
    requires Coherent(s) && Enabled(s, tid, step)
    ensures Coherent(Apply(s, tid, step))
  {
    if step.Ialloc? {
      ClaimKeeps(s, tid, step.inum, step.typ);
    } else {
      var x, s' := SlotOf(s, tid, step), Apply(s, tid, step);
      IsLocal(s, tid, step);
      if step.Iget? {
        IgetStep(s, tid, step.inum);
      } else if step.Put? {
        var e := s.table[step.slot];
        if e.ref == 1 && e.valid && e.data.nlink == 0 {
          PutFrees(s, tid, step.slot);
        } else {
          PutDrops(s, tid, step.slot);
        }
      } else if InPut(step) {
        FreeingStep(s, tid, step);
      } else {
        LockStep(s, tid, step);
      }
      forall y: nat | y < |s.table|
        ensures Distinct(s', x, y) && Distinct(s', y, x)
      {
        StepDistinct(s, tid, step, y);
      }
      forall i: nat | i < |s.disk| && (i == s'.table[x].inum || i == s.table[x].inum)
        ensures PermOk(s', i)
      {
        if step.Put? {
          PutPerm(s, tid, step.slot, i);
        } else {
          StepPerm(s, tid, step, i);
        }
      }
      LocalKeeps(s, s', tid, x);
    }
  }

  // --- whole runs -------------------------------------------------------------------

  /** No entry in use, no thread in a call, permissions as stored. */
  ghost predicate Initial(s: State) {
    && |s.perm| == |s.disk|
    && (forall x: nat | x < |s.table| :: s.table[x].ref == 0 && s.table[x].lock == Free)
    && (forall tid: nat | tid < |s.threads| :: s.threads[tid] == Thread(Running, multiset{}))
    && (forall i: nat | i < |s.disk| :: s.perm[i] == s.disk[i].permissions)
  }

  predicate IsRun(s: State, run: seq<(nat, Step)>)
    decreases |run|
  {
    run == [] || (Enabled(s, run[0].0, run[0].1) && IsRun(Apply(s, run[0].0, run[0].1), run[1..]))
  }

  function After(s: State, run: seq<(nat, Step)>): State
    requires IsRun(s, run)
    decreases |run|
  {
    if run == [] then s else After(Apply(s, run[0].0, run[0].1), run[1..])
  }

  lemma {:induction false} NoRefsYet(threads: seq<Thread>, x: nat)
    requires forall tid: nat | tid < |threads| :: threads[tid] == Thread(Running, multiset{})
    ensures RefSum(threads, x) == 0
    decreases |threads|
  {
    if threads != [] {
      NoRefsYet(threads[1..], x);
    }
  }

  lemma InitialCoherent(s: State)
    requires Initial(s)
    ensures Coherent(s)
  {
    forall x: nat | x < |s.table|
      ensures SlotOk(s, x)
    {
      NoRefsYet(s.threads, x);
    }
  }

  lemma {:induction false} RunCoherent(s: State, run: seq<(nat, Step)>)
    requires Coherent(s) && IsRun(s, run)
    ensures Coherent(After(s, run))
    decreases |run|
  {
    if run != [] {
      StepCoherent(s, run[0].0, run[0].1);
      RunCoherent(Apply(s, run[0].0, run[0].1), run[1..]);
    }
  }

  /** What every interleaving guarantees: one live entry per inode, reference counts that
      count references, unlocked valid copies equal to the disk, and a getperm under the
      lock that returns the permissions last given. */
  lemma CacheTheorem(s: State, run: seq<(nat, Step)>)
    requires Initial(s) && IsRun(s, run)
    ensures var f := After(s, run);
            && (forall x: nat, y: nat | x < |f.table| && y < |f.table| :: Distinct(f, x, y))
            && (forall x: nat | x < |f.table| :: f.table[x].ref == RefSum(f.threads, x))
            && (forall x: nat | x < |f.table| && f.table[x].ref > 0 && f.table[x].valid && f.table[x].lock == Free ::
                  f.table[x].inum < |f.disk| && f.table[x].data == f.disk[f.table[x].inum] && f.table[x].data.typ != 0)
            && (forall x: nat, tid: nat | x < |f.table| && f.table[x].lock == Held(tid, Clean) ::
                  f.table[x].inum < |f.perm| && f.table[x].data.permissions == f.perm[f.table[x].inum])
            && (forall i: nat | i < |f.disk| && f.disk[i].typ != 0 && (forall x: nat :: !BeingChanged(f, x, i)) ::
                  i < |f.perm| && f.disk[i].permissions == f.perm[i])
  {
    InitialCoherent(s);
    RunCoherent(s, run);
    var f := After(s, run);
    forall x: nat | x < |f.table|
      ensures f.table[x].ref == RefSum(f.threads, x)
      ensures f.table[x].ref > 0 && f.table[x].valid && f.table[x].lock == Free ==>
                f.table[x].inum < |f.disk| && f.table[x].data == f.disk[f.table[x].inum] && f.table[x].data.typ != 0
      ensures f.table[x].lock.Held? && f.table[x].lock.phase.Clean? ==>
                f.table[x].inum < |f.perm| && f.table[x].data.permissions == f.perm[f.table[x].inum]
    {
      assert SlotOk(f, x);
      if f.table[x].lock.Held? && f.table[x].lock.phase.Clean? {
        CleanPerm(f, x);
      }
    }
    forall i: nat | i < |f.disk| && f.disk[i].typ != 0 && (forall x: nat :: !BeingChanged(f, x, i))
      ensures i < |f.perm| && f.disk[i].permissions == f.perm[i]
    {
      assert PermOk(f, i);
    }
  }

  lemma CleanPerm(f: State, x: nat)
    requires Coherent(f) && x < |f.table| && f.table[x].lock.Held? && f.table[x].lock.phase.Clean?
    ensures f.table[x].inum < |f.perm| && f.table[x].data.permissions == f.perm[f.table[x].inum]
  {
    HolderLive(f, x);
    assert SlotOk(f, x) && PermOk(f, f.table[x].inum);
    forall y: nat
      ensures !BeingChanged(f, y, f.table[x].inum)
    {
      if y != x && BeingChanged(f, y, f.table[x].inum) {
        AloneOnInode(f, x, y, f.table[x].inum);
      }
    }
  }

  // --- iput's free reaches the disk -----------------------------------------------------

  /** Thread tid is still to store that inode i is free; or it is free on disk. */
  predicate GoingFree(s: State, tid: nat, i: nat) {
    && i < |s.disk| && tid < |s.threads|
    && (s.disk[i].typ == 0
        || (s.threads[tid].pc.Freeing? && s.threads[tid].pc.slot < |s.table|
            && var e := s.table[s.threads[tid].pc.slot];
            e.inum == i && e.lock.Held? && e.lock.tid == tid && (e.lock.phase.Doomed? || e.lock.phase.Truncated? || e.lock.phase.Typeless?)))
  }

  /** Only ialloc gives a free inode a type again. */
  lemma StaysFree(s: State, u: nat, step: Step, i: nat)
    requires Coherent(s) && Enabled(s, u, step) && i < |s.disk| && s.disk[i].typ == 0 && !(step.Ialloc? && step.inum == i)
    ensures Apply(s, u, step).disk[i].typ == 0
  {
    if step.Update? || step.Truncate? || step.Erase? {
      var x := SlotOf(s, u, step);
      HolderLive(s, x);
      assert SlotOk(s, x);
    }
  }

  /** And only iput, of an inode without links that it has truncated, frees one. */
  lemma OnlyUnlinkedFreed(s: State, u: nat, step: Step, i: nat)
    requires Coherent(s) && Enabled(s, u, step) && i < |s.disk| && s.disk[i].typ != 0
    ensures Apply(s, u, step).disk[i].typ == 0 ==>
              step.Erase? && s.disk[i].nlink == 0 && s.disk[i].size == 0 && Apply(s, u, step).disk[i] == s.disk[i].(typ := 0)
  {
    if step.Update? || step.Truncate? || step.Erase? {
      var x := SlotOf(s, u, step);
      HolderLive(s, x);
      assert SlotOk(s, x);
    }
  }

  /** The inode that ialloc has claimed is what its caller reads under the lock: fresh, and of the type asked for,
      even if the table still has an entry for it. */
  lemma ClaimSeen(s: State, tid: nat, i: nat, typ: short, x: nat)
    requires Coherent(s) && Enabled(s, tid, Ialloc(i, typ))
    requires var a := Apply(s, tid, Ialloc(i, typ));
             Enabled(a, tid, Iget(i)) && x == IgetSlot(a.table, i)
             && var b := Apply(a, tid, Iget(i));
             Enabled(b, tid, LockEntry(x)) && Enabled(Apply(b, tid, LockEntry(x)), tid, Load(x))
    ensures var a := Apply(s, tid, Ialloc(i, typ));
            var c := Apply(Apply(Apply(a, tid, Iget(i)), tid, LockEntry(x)), tid, Load(x));
            x < |c.table| && c.table[x].lock == Held(tid, Clean) && c.table[x].inum == i
            && c.table[x].data.typ == typ && c.table[x].data.nlink == 0 && c.table[x].data.size == 0
            && c.table[x].data.permissions == 0x1C0
  {
    var a := Apply(s, tid, Ialloc(i, typ));
    if FindLive(a.table, i, 0) < |a.table| {
      assert SlotOk(s, x);
    }
  }

  /** What the holder writes and stores is what is on disk, and what the next reader gets. */
  lemma ModifyStored(s: State, tid: nat, x: nat, data: Dinode)
    requires Coherent(s) && Enabled(s, tid, Modify(x, data)) && Enabled(Apply(s, tid, Modify(x, data)), tid, Update(x))
    ensures var f := Apply(Apply(s, tid, Modify(x, data)), tid, Update(x));
            x < |f.table| && s.table[x].inum < |f.disk| && f.disk[s.table[x].inum] == data && f.table[x].data == data
  {
    assert SlotOk(s, x);
  }

  /** The references of the thread at work after a step: one more, one less, or the same. */
  lemma RefsMoved(s: State, tid: nat, step: Step)
    requires Coherent(s) && Enabled(s, tid, step)
    ensures var f, refs := Apply(s, tid, step), s.threads[tid].refs;
            && tid < |f.threads|
            && (step.Iget? ==> IgetSlot(s.table, step.inum) < |f.table| && f.threads[tid].refs == refs + multiset{IgetSlot(s.table, step.inum)}
                               && f.table[IgetSlot(s.table, step.inum)].inum == step.inum)
            && (step.Idup? ==> f.threads[tid].refs == refs + multiset{step.slot})
            && (step.Put? && !f.threads[tid].pc.Freeing? ==> f.threads[tid].refs == refs - multiset{step.slot})
            && (step.Drop? ==> f.threads[tid].refs == refs - multiset{s.threads[tid].pc.slot})
            && (!step.Iget? && !step.Idup? && !step.Put? && !step.Drop? ==> f.threads[tid].refs == refs)
  {
  }

  lemma OwnFreeing(s: State, tid: nat, step: Step, i: nat)
    requires Coherent(s) && Enabled(s, tid, step) && GoingFree(s, tid, i) && s.disk[i].typ != 0
    ensures GoingFree(Apply(s, tid, step), tid, i)
  {
    var x := s.threads[tid].pc.slot;
    HolderLive(s, x);
    assert SlotOk(s, x);
  }

  lemma OtherFreeing(s: State, tid: nat, u: nat, step: Step, i: nat)
    requires Coherent(s) && Enabled(s, u, step) && u != tid && GoingFree(s, tid, i) && s.disk[i].typ != 0
    ensures GoingFree(Apply(s, u, step), tid, i)
  {
    var x := s.threads[tid].pc.slot;
    HolderLive(s, x);
    if step.Ialloc? {
      assert step.inum != i;
    } else {
      IsLocal(s, u, step);
      if SlotOf(s, u, step) == x && step.Put? && s.table[x].ref == 1 {
        LastRefUnlocked(s, u, x);
      }
    }
  }

  lemma {:induction false} RunGoingFree(s: State, run: seq<(nat, Step)>, tid: nat, i: nat)
    requires Coherent(s) && IsRun(s, run) && GoingFree(s, tid, i)
    requires forall k: nat | k < |run| && run[k].1.Ialloc? :: run[k].1.inum != i
    ensures GoingFree(After(s, run), tid, i)
    decreases |run|
  {
    hide Coherent, GoingFree, Enabled, Apply;
    if run != [] {
      var u, step := run[0].0, run[0].1;
      StepCoherent(s, u, step);
      assert GoingFree(Apply(s, u, step), tid, i) by {
        StepGoingFree(s, u, step, tid, i);
      }
      assert forall k: nat | k < |run[1..]| :: run[1..][k] == run[k + 1];
      RunGoingFree(Apply(s, u, step), run[1..], tid, i);
    }
  }

  lemma StepGoingFree(s: State, u: nat, step: Step, tid: nat, i: nat)
    requires Coherent(s) && Enabled(s, u, step) && GoingFree(s, tid, i) && !(step.Ialloc? && step.inum == i)
    ensures GoingFree(Apply(s, u, step), tid, i)
  {
    hide Coherent, Enabled, Apply;
    if s.disk[i].typ == 0 {
      StaysFree(s, u, step, i);
    } else if u == tid {
      OwnFreeing(s, tid, step, i);
    } else {
      OtherFreeing(s, tid, u, step, i);
    }
  }

  /** Once iput takes its freeing branch and goes on to drop the reference, the inode is free on disk,
      whatever ran in between, and until ialloc claims it again. */
  lemma IputFrees(s: State, tid: nat, x: nat, run: seq<(nat, Step)>)
    requires Coherent(s) && Enabled(s, tid, Put(x)) && s.table[x].ref == 1 && s.table[x].valid && s.table[x].data.nlink == 0
    requires IsRun(Apply(s, tid, Put(x)), run) && tid < |After(Apply(s, tid, Put(x)), run).threads|
    requires forall k: nat | k < |run| && run[k].1.Ialloc? :: run[k].1.inum != s.table[x].inum
    requires !After(Apply(s, tid, Put(x)), run).threads[tid].pc.Freeing?
    ensures var f := After(Apply(s, tid, Put(x)), run); s.table[x].inum < |f.disk| && f.disk[s.table[x].inum].typ == 0
  {
    var s' := Apply(s, tid, Put(x));
    StepLive(s, tid, Put(x));
    StepCoherent(s, tid, Put(x));
    assert GoingFree(s', tid, s.table[x].inum);
    hide Coherent, Enabled, Apply;
    RunGoingFree(s', run, tid, s.table[x].inum);
  }
}
