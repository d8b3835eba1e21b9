/** The ring buffer under all its interleavings is the queue that the pipeline's threads use: each of its
    steps is one access to the queue, or none. */
module RingQueue {
  import opened Options
  import Ring = BoundedBuffer
  import Net = Pipeline

  type Msg = Net.Msg
  type State = Ring.State<Msg>
  type Step = Ring.Step<Msg>

  /** The queue a sound ring stands for. */
  function View(s: State): (q: Net.Queue)
    requires s.head < |s.buffer| && 0 <= Ring.Items(s) <= |s.buffer|
  {
    Net.Queue(Ring.Unread(s.buffer, s.head, Ring.Items(s)), s.readSem, s.writeSem, |s.buffer|)
  }

  datatype Access = WaitWrite | Push(msg: Msg) | PostRead | WaitRead | Pop | PostWrite

  predicate Possible(q: Net.Queue, a: Access) {
    match a
    case WaitWrite => q.writeSem > 0
    case WaitRead => q.readSem > 0
    case Pop => q.items != []
    case _ => true
  }

  function Do(q: Net.Queue, a: Access): Net.Queue
    requires Possible(q, a)
  {
    match a
    case WaitWrite => Net.WaitWrite(q)
    case Push(m) => Net.Push(q, m)
    case PostRead => Net.PostRead(q)
    case WaitRead => Net.WaitRead(q)
    case Pop => Net.Pop(q)
    case PostWrite => Net.PostWrite(q)
  }

  /** A message enters and leaves the queue where tail and head move, inside the lock. */
  function AccessOf(s: State, t: nat, step: Step): Option<Access>
    requires Ring.Enabled(s, t, step)
  {
    match step
    case WaitWrite(_) => Some(Access.WaitWrite)
    case AdvanceTail => Some(Push(s.threads[t].msg))
    case PostRead => Some(Access.PostRead)
    case WaitRead => Some(Access.WaitRead)
    case AdvanceHead => Some(Pop)
    case PostWrite => Some(Access.PostWrite)
    case _ => None
  }

  lemma UnreadIs(s: State)
    requires Ring.Sound(s)
    ensures s.head < |s.buffer| && 0 <= Ring.Items(s) <= |s.buffer|
    ensures View(s).items == s.inserted[|s.removed|..]
  {
  }

  lemma StepRefines(s: State, t: nat, step: Step)
    requires Ring.Sound(s) && Ring.Enabled(s, t, step)
    ensures var f, a := Ring.Apply(s, t, step), AccessOf(s, t, step);
            && Ring.Sound(s) && Ring.Sound(f)
            && s.head < |s.buffer| && f.head < |f.buffer| && 0 <= Ring.Items(s) <= |s.buffer| && 0 <= Ring.Items(f) <= |f.buffer|
            && (a.None? ==> View(f) == View(s))
            && (a.Some? ==> Possible(View(s), a.value) && View(f) == Do(View(s), a.value))
            && (step.AdvanceHead? ==> View(s).items[0] == s.threads[t].msg)
  {
    hide Ring.Unread, Ring.Books;
    var f := Ring.Apply(s, t, step);
    Ring.StepSound(s, t, step);
    UnreadIs(s);
    UnreadIs(f);
    Ring.Room(s, t);
    assert Ring.ThreadOk(s, t);
  }

  /** A thread blocks on the ring's semaphores exactly where it blocks on the queue's. */
  lemma BlocksAlike(s: State, t: nat, m: Msg)
    requires Ring.Sound(s) && t < |s.threads| && s.threads[t].Idle?
    ensures s.head < |s.buffer| && 0 <= Ring.Items(s) <= |s.buffer|
    ensures Ring.Enabled(s, t, Ring.WaitWrite(m)) <==> Possible(View(s), WaitWrite)
    ensures Ring.Enabled(s, t, Ring.WaitRead) <==> Possible(View(s), WaitRead)
  {
    hide Ring.Unread, Ring.Books;
  }

  /** isBufferEmpty's head == tail says of the ring what the queue's test says. */
  lemma TestsAlike(s: State)
    requires Ring.Sound(s)
    ensures s.head < |s.buffer| && 0 <= Ring.Items(s) <= |s.buffer|
    ensures s.head == s.tail <==> Net.IsBufferEmpty(View(s))
  {
    hide Ring.Unread, Ring.Books;
  }

  // --- whole runs ------------------------------------------------------------------------

  /** The accesses to the queue in a run of the ring, in order. */
  function Accesses(s: State, run: seq<(nat, Step)>): seq<Access>
    requires Ring.IsRun(s, run)
    decreases |run|
  {
    if run == [] then []
    else
      var a, rest := AccessOf(s, run[0].0, run[0].1), Accesses(Ring.Apply(s, run[0].0, run[0].1), run[1..]);
      if a.Some? then [a.value] + rest else rest
  }

  predicate AllPossible(q: Net.Queue, accesses: seq<Access>)
    decreases |accesses|
  {
    accesses == [] || (Possible(q, accesses[0]) && AllPossible(Do(q, accesses[0]), accesses[1..]))
  }

  function DoAll(q: Net.Queue, accesses: seq<Access>): Net.Queue
    requires AllPossible(q, accesses)
    decreases |accesses|
  {
    if accesses == [] then q else DoAll(Do(q, accesses[0]), accesses[1..])
  }

  /** Every run of the ring is a run of the queue, and ends in the queue that the ring then stands for. */
  lemma {:induction false} RunRefines(s: State, run: seq<(nat, Step)>)
    requires Ring.Sound(s) && Ring.IsRun(s, run)
    ensures var f := Ring.After(s, run);
            && Ring.Sound(f) && s.head < |s.buffer| && f.head < |f.buffer| && 0 <= Ring.Items(s) <= |s.buffer| && 0 <= Ring.Items(f) <= |f.buffer|
            && AllPossible(View(s), Accesses(s, run)) && DoAll(View(s), Accesses(s, run)) == View(f)
    decreases |run|
  {
    hide Ring.Sound, Ring.Apply, Ring.Enabled, View, Do, Possible, AccessOf;
    if run == [] {
      UnreadIs(s);
    } else {
      StepRefines(s, run[0].0, run[0].1);
      var a := AccessOf(s, run[0].0, run[0].1);
      RunRefines(Ring.Apply(s, run[0].0, run[0].1), run[1..]);
      if a.Some? {
        assert Accesses(s, run)[1..] == Accesses(Ring.Apply(s, run[0].0, run[0].1), run[1..]);
      }
    }
  }

  /** From initBuffer on: the ring of any size refines the empty queue of that size. */
  lemma RefinementTheorem(s: State, run: seq<(nat, Step)>)
    requires Ring.Initial(s) && Ring.IsRun(s, run)
    ensures var q, f := Net.Queue([], 0, |s.buffer|, |s.buffer|), Ring.After(s, run);
            && AllPossible(q, Accesses(s, run))
            && f.head < |f.buffer| && 0 <= Ring.Items(f) <= |f.buffer| && DoAll(q, Accesses(s, run)) == View(f)
            && (f.head == f.tail <==> Net.IsBufferEmpty(View(f)))
  {
    Ring.InitialSound(s);
    RunRefines(s, run);
    TestsAlike(Ring.After(s, run));
  }
}
