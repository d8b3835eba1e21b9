/** The ring buffer and its two counting semaphores: each operation alone, and any number of
    inserters and removers interleaved at every lock, semaphore and assignment. */
module BoundedBuffer {
  import opened Options

  // --- the ring -------------------------------------------------------------------

  /** (head + j) % size, for the arguments a ring has. */
  function Slot(head: nat, j: nat, size: nat): (r: nat)
    requires head < size && j <= size
    ensures r < size
  {
    if head + j < size then head + j else head + j - size
  }

  lemma MulMono(a: nat, b: nat, c: nat)
    requires a <= b
    ensures a * c <= b * c
  {
    assert b * c == a * c + (b - a) * c;
  }

  lemma SlotIsMod(head: nat, j: nat, size: nat)
    requires head < size && j <= size
    ensures (head + j) % size == Slot(head, j, size)
  {
    var q, r := (head + j) / size, (head + j) % size;
    assert head + j == q * size + r;
    if q >= 2 {
      MulMono(2, q, size);
    } else if q == 0 {
      assert q * size == 0;
    }
  }

  /** The k unread messages starting at head. */
  function Unread<T>(buffer: seq<T>, head: nat, k: nat): (r: seq<T>)
    requires head < |buffer| && k <= |buffer|
    ensures |r| == k
  {
    seq(k, (j: int) requires 0 <= j < k => buffer[Slot(head, j, |buffer|)])
  }

  /** Storing at the tail appends, provided a slot is free: nothing unread is overwritten. */
  lemma StoreAppends<T>(buffer: seq<T>, head: nat, k: nat, x: T)
    requires head < |buffer| && k < |buffer|
    ensures var tail := (head + k) % |buffer|;
            && tail < |buffer|
            && Unread(buffer[tail := x], head, k) == Unread(buffer, head, k)
            && Unread(buffer[tail := x], head, k + 1) == Unread(buffer, head, k) + [x]
            && (tail + 1) % |buffer| == (head + (k + 1)) % |buffer|
  {
    var n := |buffer|;
    SlotIsMod(head, k, n);
    SlotIsMod(head, k + 1, n);
    SlotIsMod(Slot(head, k, n), 1, n);
  }

  /** Advancing the head drops the oldest unread message. */
  lemma FetchDrops<T>(buffer: seq<T>, head: nat, k: nat)
    requires head < |buffer| && 0 < k <= |buffer|
    ensures var next := (head + 1) % |buffer|;
            && Unread(buffer, head, k) == [buffer[head]] + Unread(buffer, next, k - 1)
            && (next + (k - 1)) % |buffer| == (head + k) % |buffer|
  {
    var n := |buffer|;
    SlotIsMod(head, 1, n);
    SlotIsMod(head, k, n);
    SlotIsMod(Slot(head, 1, n), k - 1, n);
  }

  /** What isBufferEmpty's test says: head == tail holds of an empty ring, and of a full one. */
  lemma EmptyTest(head: nat, k: nat, size: nat)
    requires head < size && k <= size
    ensures head == (head + k) % size <==> k == 0 || k == size
  {
    SlotIsMod(head, k, size);
  }

  /** The struct with its operations run one at a time. */
  class Ring<T(0)> {
    const buffer: array<T>
    var head: nat
    var tail: nat
    var readSem: nat
    var writeSem: nat
    ghost var items: seq<T>

    ghost predicate Valid()
      reads this, buffer
    {
      && buffer.Length > 0 && head < buffer.Length && |items| <= buffer.Length
      && tail == (head + |items|) % buffer.Length
      && items == Unread(buffer[..], head, |items|)
      && readSem == |items| && writeSem == buffer.Length - |items|
    }

    constructor (size: nat)
      requires size > 0
      ensures Valid() && fresh(buffer) && buffer.Length == size && items == []
    {
      buffer := new T[size];
      head, tail, readSem, writeSem, items := 0, 0, 0, size, [];
    }

    /** The caller blocks in sem_wait while the ring is full. */
    method Insert(msg: T)
      requires Valid() && |items| < buffer.Length
      modifies this, buffer
      ensures Valid() && items == old(items) + [msg]
    {
      StoreAppends(buffer[..], head, |items|, msg);
      writeSem := writeSem - 1;
      ghost var was := buffer[..];
      buffer[tail] := msg;
      assert buffer[..] == was[tail := msg];
      tail := (tail + 1) % buffer.Length;
      items := items + [msg];
      readSem := readSem + 1;
    }

    /** The caller blocks in sem_wait while the ring is empty. */
    method Remove() returns (msg: T)
      requires Valid() && items != []
      modifies this
      ensures Valid() && msg == old(items)[0] && items == old(items)[1..]
    {
      FetchDrops(buffer[..], head, |items|);
      readSem := readSem - 1;
      msg := buffer[head];
      head := (head + 1) % buffer.Length;
      items := items[1..];
      writeSem := writeSem + 1;
    }

    method TryRemove() returns (msg: Option<T>)
      requires Valid()
      modifies this
      ensures Valid()
      ensures msg.None? <==> old(items) == []
      ensures msg.None? ==> items == old(items)
      ensures msg.Some? ==> msg.value == old(items)[0] && items == old(items)[1..]
    {
      if readSem == 0 {
        return None;
      }
      var m := Remove();
      msg := Some(m);
    }

    method IsEmpty() returns (empty: bool)
      requires Valid()
      ensures empty <==> items == [] || |items| == buffer.Length
    {
      EmptyTest(head, |items|, buffer.Length);
      empty := head == tail;
    }
  }

  // --- all interleavings ----------------------------------------------------------------

  /** Where a thread is in insertToBuffer or removeFromBuffer (tryRemoveFromBuffer is the latter
      when its sem_trywait succeeds), or holding the lock in isBufferEmpty. */
  datatype Pc<T> =
    | Idle
    | Admitted(msg: T) | Locked(msg: T) | Stored(msg: T) | Advanced | Inserted
    | Entitled | Looking | Fetched(msg: T) | Taken(msg: T) | Removed(msg: T)
    | Testing

  /** inserted and removed are history: every message in the order the lock was held for it. */
  datatype State<T> = State(buffer: seq<T>, head: nat, tail: nat, readSem: nat, writeSem: nat,
                            lock: Option<nat>, threads: seq<Pc<T>>, inserted: seq<T>, removed: seq<T>)

  datatype Step<T> =
    | WaitWrite(msg: T) | LockInsert | Store | AdvanceTail | UnlockInsert | PostRead
    | WaitRead | LockRemove | Fetch | AdvanceHead | UnlockRemove | PostWrite
    | LockTest | UnlockTest

  predicate Enabled<T>(s: State<T>, t: nat, step: Step<T>) {
    t < |s.threads| && s.head < |s.buffer| && s.tail < |s.buffer| &&
    var pc := s.threads[t];
    match step
    case WaitWrite(_) => pc.Idle? && s.writeSem > 0
    case LockInsert => pc.Admitted? && s.lock.None?
    case Store => pc.Locked?
    case AdvanceTail => pc.Stored?
    case UnlockInsert => pc.Advanced?
    case PostRead => pc.Inserted?
    case WaitRead => pc.Idle? && s.readSem > 0
    case LockRemove => pc.Entitled? && s.lock.None?
    case Fetch => pc.Looking?
    case AdvanceHead => pc.Fetched?
    case UnlockRemove => pc.Taken?
    case PostWrite => pc.Removed?
    case LockTest => pc.Idle? && s.lock.None?
    case UnlockTest => pc.Testing?
  }

  function To<T>(s: State<T>, t: nat, pc: Pc<T>): State<T>
    requires t < |s.threads|
  {
    s.(threads := s.threads[t := pc])
  }

  function Apply<T>(s: State<T>, t: nat, step: Step<T>): (r: State<T>)
    requires Enabled(s, t, step)
    ensures |r.threads| == |s.threads| && |r.buffer| == |s.buffer|
  {
    var pc, size := s.threads[t], |s.buffer|;
    match step
    case WaitWrite(msg) => To(s, t, Admitted(msg)).(writeSem := s.writeSem - 1)
    case LockInsert => To(s, t, Locked(pc.msg)).(lock := Some(t))
    case Store => To(s, t, Stored(pc.msg)).(buffer := s.buffer[s.tail := pc.msg])
    case AdvanceTail => To(s, t, Advanced).(tail := (s.tail + 1) % size, inserted := s.inserted + [pc.msg])
    case UnlockInsert => To(s, t, Inserted).(lock := None)
    case PostRead => To(s, t, Idle).(readSem := s.readSem + 1)
    case WaitRead => To(s, t, Entitled).(readSem := s.readSem - 1)
    case LockRemove => To(s, t, Looking).(lock := Some(t))
    case Fetch => To(s, t, Fetched(s.buffer[s.head]))
    case AdvanceHead => To(s, t, Taken(pc.msg)).(head := (s.head + 1) % size, removed := s.removed + [pc.msg])
    case UnlockRemove => To(s, t, Removed(pc.msg)).(lock := None)
    case PostWrite => To(s, t, Idle).(writeSem := s.writeSem + 1)
    case LockTest => To(s, t, Testing).(lock := Some(t))
    case UnlockTest => To(s, t, Idle).(lock := None)
  }

  /** The four ways an operation is in flight, for the semaphores' books. */
  datatype Flight = Inserting | Posting | Removing | Releasing

  predicate InFlight<T>(pc: Pc<T>, f: Flight) {
    match f
    case Inserting => pc.Admitted? || pc.Locked? || pc.Stored?
    case Posting => pc.Advanced? || pc.Inserted?
    case Removing => pc.Entitled? || pc.Looking? || pc.Fetched?
    case Releasing => pc.Taken? || pc.Removed?
  }

  function Count<T>(threads: seq<Pc<T>>, f: Flight): nat {
    if threads == [] then 0 else (if InFlight(threads[0], f) then 1 else 0) + Count(threads[1..], f)
  }

  lemma {:induction false} CountUpdate<T>(threads: seq<Pc<T>>, t: nat, pc: Pc<T>, f: Flight)
    requires t < |threads|
    ensures Count(threads[t := pc], f) + (if InFlight(threads[t], f) then 1 else 0)
            == Count(threads, f) + if InFlight(pc, f) then 1 else 0
    ensures Count(threads, f) >= if InFlight(threads[t], f) then 1 else 0
    decreases |threads|
  {
    if t > 0 {
      assert threads[t := pc][1..] == threads[1..][t - 1 := pc];
      CountUpdate(threads[1..], t - 1, pc, f);
    } else {
      assert threads[0 := pc][1..] == threads[1..];
    }
  }

  predicate HoldsLock<T>(pc: Pc<T>) {
    pc.Locked? || pc.Stored? || pc.Advanced? || pc.Looking? || pc.Fetched? || pc.Taken? || pc.Testing?
  }

  function Items<T>(s: State<T>): int {
    |s.inserted| - |s.removed|
  }

  predicate Books<T>(s: State<T>) {
    && s.writeSem + Count(s.threads, Inserting) + Items(s) + Count(s.threads, Releasing) == |s.buffer|
    && s.readSem + Count(s.threads, Removing) + Count(s.threads, Posting) == Items(s)
  }

  /** The ring holds exactly what has been inserted and not yet removed, oldest first. */
  predicate RingOk<T(==)>(s: State<T>) {
    && 0 <= Items(s) <= |s.buffer| && s.head < |s.buffer| && s.tail == Slot(s.head, Items(s), |s.buffer|)
    && s.inserted == s.removed + Unread(s.buffer, s.head, Items(s))
  }

  predicate ThreadOk<T(==)>(s: State<T>, t: nat)
    requires t < |s.threads|
  {
    && (s.lock == Some(t) <==> HoldsLock(s.threads[t]))
    && (s.threads[t].Stored? ==> s.tail < |s.buffer| && s.buffer[s.tail] == s.threads[t].msg)
    && (s.threads[t].Fetched? ==> s.head < |s.buffer| && s.buffer[s.head] == s.threads[t].msg)
  }

  predicate Sound<T(==)>(s: State<T>) {
    && Books(s) && RingOk(s)
    && (forall t: nat | t < |s.threads| :: ThreadOk(s, t))
    && (s.lock.Some? ==> s.lock.value < |s.threads|)
  }

  predicate InInsert<T>(step: Step<T>) {
    step.WaitWrite? || step.LockInsert? || step.Store? || step.AdvanceTail? || step.UnlockInsert? || step.PostRead?
  }

  lemma InsertBooks<T>(s: State<T>, t: nat, step: Step<T>)
    requires Sound(s) && Enabled(s, t, step) && InInsert(step)
    ensures Books(Apply(s, t, step))
  {
    hide RingOk, ThreadOk;
    var pc := Apply(s, t, step).threads[t];
    CountUpdate(s.threads, t, pc, Inserting);
    CountUpdate(s.threads, t, pc, Posting);
    CountUpdate(s.threads, t, pc, Removing);
    CountUpdate(s.threads, t, pc, Releasing);
  }

  lemma OtherBooks<T>(s: State<T>, t: nat, step: Step<T>)
    requires Sound(s) && Enabled(s, t, step) && !InInsert(step)
    ensures Books(Apply(s, t, step))
  {
    hide RingOk, ThreadOk;
    var pc := Apply(s, t, step).threads[t];
    CountUpdate(s.threads, t, pc, Inserting);
    CountUpdate(s.threads, t, pc, Posting);
    CountUpdate(s.threads, t, pc, Removing);
    CountUpdate(s.threads, t, pc, Releasing);
  }

  /** A thread at its critical section owns a slot: a free one to fill, or a full one to empty. */
  lemma Room<T>(s: State<T>, t: nat)
    requires Sound(s) && t < |s.threads|
    ensures InFlight(s.threads[t], Inserting) ==> Items(s) < |s.buffer|
    ensures InFlight(s.threads[t], Removing) ==> Items(s) > 0
  {
    CountUpdate(s.threads, t, s.threads[t], Inserting);
    CountUpdate(s.threads, t, s.threads[t], Removing);
  }

  lemma InsertRing<T>(s: State<T>, t: nat, step: Step<T>)
    requires Sound(s) && Enabled(s, t, step) && (step.Store? || step.AdvanceTail?)
    ensures RingOk(Apply(s, t, step))
  {
    hide Unread, Books;
    Room(s, t);
    var k, x := Items(s), s.threads[t].msg;
    assert ThreadOk(s, t);
    SlotIsMod(s.head, k, |s.buffer|);
    SlotIsMod(s.head, k + 1, |s.buffer|);
    StoreAppends(s.buffer, s.head, k, x);
    assert step.AdvanceTail? ==> s.buffer[s.tail := x] == s.buffer;
  }

  lemma RemoveRing<T>(s: State<T>, t: nat)
    requires Sound(s) && Enabled(s, t, AdvanceHead)
    ensures RingOk(Apply(s, t, AdvanceHead))
  {
    hide Unread, Books;
    Room(s, t);
    var k := Items(s);
    assert ThreadOk(s, t);
    SlotIsMod(s.head, 1, |s.buffer|);
    SlotIsMod(s.head, k, |s.buffer|);
    SlotIsMod((s.head + 1) % |s.buffer|, k - 1, |s.buffer|);
    FetchDrops(s.buffer, s.head, k);
  }

  lemma StepRing<T>(s: State<T>, t: nat, step: Step<T>)
    requires Sound(s) && Enabled(s, t, step)
    ensures RingOk(Apply(s, t, step))
  {
    hide Unread, Books, ThreadOk;
    if step.Store? || step.AdvanceTail? {
      InsertRing(s, t, step);
    } else if step.AdvanceHead? {
      RemoveRing(s, t);
    }
  }

  lemma StepThreads<T>(s: State<T>, t: nat, step: Step<T>, u: nat)
    requires Sound(s) && Enabled(s, t, step) && u < |s.threads|
    ensures ThreadOk(Apply(s, t, step), u)
  {
    hide Books, RingOk;
    assert ThreadOk(s, t) && ThreadOk(s, u);
  }

  lemma StepSound<T>(s: State<T>, t: nat, step: Step<T>)
    requires Sound(s) && Enabled(s, t, step)
    ensures Sound(Apply(s, t, step))
  {
    if InInsert(step) {
      InsertBooks(s, t, step);
    } else {
      OtherBooks(s, t, step);
    }
    StepRing(s, t, step);
    forall u: nat | u < |s.threads|
      ensures ThreadOk(Apply(s, t, step), u)
    {
      StepThreads(s, t, step, u);
    }
  }

  predicate IsRun<T>(s: State<T>, run: seq<(nat, Step<T>)>)
    decreases |run|
  {
    run == [] || (Enabled(s, run[0].0, run[0].1) && IsRun(Apply(s, run[0].0, run[0].1), run[1..]))
  }

  function After<T>(s: State<T>, run: seq<(nat, Step<T>)>): State<T>
    requires IsRun(s, run)
    decreases |run|
  {
    if run == [] then s else After(Apply(s, run[0].0, run[0].1), run[1..])
  }

  /** initBuffer, and no thread in an operation. */
  predicate Initial<T(==)>(s: State<T>) {
    && |s.buffer| > 0 && s.head == 0 && s.tail == 0 && s.readSem == 0 && s.writeSem == |s.buffer| && s.lock.None?
    && (forall t: nat | t < |s.threads| :: s.threads[t] == Idle)
    && s.inserted == [] && s.removed == []
  }

  lemma {:induction false} NoneInFlight<T>(threads: seq<Pc<T>>, f: Flight)
    requires forall t: nat | t < |threads| :: threads[t] == Idle
    ensures Count(threads, f) == 0
    decreases |threads|
  {
    if threads != [] {
      NoneInFlight(threads[1..], f);
    }
  }

  lemma {:induction false} RunSound<T>(s: State<T>, run: seq<(nat, Step<T>)>)
    requires Sound(s) && IsRun(s, run)
    ensures Sound(After(s, run))
    decreases |run|
  {
    if run != [] {
      StepSound(s, run[0].0, run[0].1);
      RunSound(Apply(s, run[0].0, run[0].1), run[1..]);
    }
  }

  lemma InitialSound<T>(s: State<T>)
    requires Initial(s)
    ensures Sound(s)
  {
    NoneInFlight(s.threads, Inserting);
    NoneInFlight(s.threads, Posting);
    NoneInFlight(s.threads, Removing);
    NoneInFlight(s.threads, Releasing);
  }

  /** In every interleaving: the counts stay in range and add up to the size, messages come out in
      the order they went in, and a thread about to store finds a free slot, one about to fetch a full one. */
  lemma RingTheorem<T>(s: State<T>, run: seq<(nat, Step<T>)>)
    requires Initial(s) && IsRun(s, run)
    ensures var f := After(s, run);
            && 0 <= Items(f) <= |f.buffer| && f.head < |f.buffer| && f.tail == (f.head + Items(f)) % |f.buffer|
            && f.readSem + f.writeSem + Count(f.threads, Inserting) + Count(f.threads, Posting)
               + Count(f.threads, Removing) + Count(f.threads, Releasing) == |f.buffer|
            && f.inserted == f.removed + Unread(f.buffer, f.head, Items(f))
            && (forall t: nat | t < |f.threads| && f.threads[t].Locked? :: Items(f) < |f.buffer|)
            && (forall t: nat | t < |f.threads| && f.threads[t].Looking? :: Items(f) > 0)
  {
    InitialSound(s);
    RunSound(s, run);
    var f := After(s, run);
    SlotIsMod(f.head, Items(f), |f.buffer|);
    forall t: nat | t < |f.threads|
      ensures f.threads[t].Locked? ==> Items(f) < |f.buffer|
      ensures f.threads[t].Looking? ==> Items(f) > 0
    {
      Room(f, t);
    }
  }
}
