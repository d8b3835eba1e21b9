/** The kernel semaphores: the table of slots, and sem_down and sem_up on one slot interleaved over any
    number of CPUs through the kernel's sleep and wakeup. */
module KernelSem {
  import opened Options

  // --- the table -------------------------------------------------------------------------

  datatype Sem = Sem(value: int, initValue: int, used: bool)

  /** sems[]; every method runs under the locks it takes, so each is one step. */
  class SemTable {
    const sems: array<Sem>

    constructor (max: nat)
      ensures fresh(sems) && sems.Length == max
      ensures forall i: nat | i < max :: !sems[i].used
    {
      sems := new Sem[max](_ => Sem(0, 0, false));
    }

    predicate Bad(id: int) {
      id < 0 || id >= sems.Length
    }

    /** The lowest free slot is taken, with the value asked for; -1 means that all are in use. */
    method Create(initValue: int) returns (id: int)
      modifies sems
      ensures id == -1 <==> forall i: nat | i < sems.Length :: old(sems[i].used)
      ensures id == -1 ==> sems[..] == old(sems[..])
      ensures id != -1 ==> 0 <= id < sems.Length && !old(sems[id].used) && forall i: nat | i < id :: old(sems[i].used)
      ensures id != -1 ==> sems[..] == old(sems[..])[id := Sem(initValue, initValue, true)]
    {
      var i := 0;
      while i < sems.Length
        invariant 0 <= i <= sems.Length && sems[..] == old(sems[..])
        invariant forall j: nat | j < i :: sems[j].used
      {
        if !sems[i].used {
          sems[i] := Sem(initValue, initValue, true);
          return i;
        }
        i := i + 1;
      }
      return -1;
    }

    /** A slot is freed exactly when it is in use with its first value restored. */
    method FreeSlot(id: int) returns (r: int)
      modifies sems
      ensures r == 0 <==> !Bad(id) && old(sems[..])[id].used && old(sems[..])[id].value == old(sems[..])[id].initValue
      ensures r == 0 ==> sems[..] == old(sems[..])[id := Sem(0, 0, false)]
      ensures r != 0 ==> r == -1 && sems[..] == old(sems[..])
    {
      if Bad(id) {
        return -1;
      }
      if !sems[id].used {
        return -1;
      }
      if sems[id].value != sems[id].initValue {
        return -1;
      }
      sems[id] := Sem(0, 0, false);
      return 0;
    }
  }

  // --- one semaphore, all interleavings ----------------------------------------------------

  /** Check to Lowered: sem_down, Both to Reacquire its sleep; Raising, Waking: sem_up. */
  datatype Pc =
    | Idle
    | Check | Both | Window | Asleep | Reacquire | Lowered
    | Raising | Waking(j: nat)

  /** lock is p->lock; sleeping is the state SLEEPING on the semaphore's channel. */
  datatype Proc = Proc(pc: Pc, sleeping: bool, lock: Option<nat>)

  /** ups and downs count the calls that have returned. */
  datatype State = State(value: int, first: int, lock: Option<nat>, procs: seq<Proc>, ups: nat, downs: nat)

  datatype Step =
    | DownEnter | SleepLock | SleepRelease | SleepMark | Switch | Resume | Again | Lower | DownExit
    | UpEnter | Increment | WakeNext | UpExit | Kill(victim: nat)

  predicate Enabled(s: State, i: nat, step: Step) {
    i < |s.procs| &&
    var p, n := s.procs[i], |s.procs|;
    match step
    case DownEnter => p.pc.Idle? && s.lock.None?
    case SleepLock => p.pc.Check? && s.value == 0 && p.lock.None?
    case SleepRelease => p.pc.Both?
    case SleepMark => p.pc.Window?
    case Switch => p.pc.Asleep? && p.sleeping && p.lock == Some(i)
    case Resume => p.pc.Asleep? && !p.sleeping && p.lock.None?
    case Again => p.pc.Reacquire? && s.lock.None?
    case Lower => p.pc.Check? && s.value != 0
    case DownExit => p.pc.Lowered?
    case UpEnter => p.pc.Idle? && s.lock.None?
    case Increment => p.pc.Raising?
    case WakeNext => p.pc.Waking? && p.pc.j < n && (p.pc.j != i ==> s.procs[p.pc.j].lock.None?)
    case UpExit => p.pc.Waking? && p.pc.j == n
    case Kill(v) => p.pc.Idle? && v < n && s.procs[v].lock.None?
  }

  function Put(s: State, i: nat, p: Proc): State
    requires i < |s.procs|
  {
    s.(procs := s.procs[i := p])
  }

  function At(s: State, i: nat, pc: Pc): State
    requires i < |s.procs|
  {
    Put(s, i, s.procs[i].(pc := pc))
  }

  function Apply(s: State, i: nat, step: Step): State
    requires Enabled(s, i, step)
  {
    var p := s.procs[i];
    match step
    case DownEnter => At(s, i, Check).(lock := Some(i))
    case SleepLock => Put(s, i, p.(lock := Some(i), pc := Both))
    case SleepRelease => At(s, i, Window).(lock := None)
    case SleepMark => Put(s, i, p.(sleeping := true, pc := Asleep))
    case Switch => Put(s, i, p.(lock := None))
    case Resume => At(s, i, Reacquire)
    case Again => At(s, i, Check).(lock := Some(i))
    case Lower => At(s, i, Lowered).(value := s.value - 1)
    case DownExit => At(s, i, Idle).(lock := None, downs := s.downs + 1)
    case UpEnter => At(s, i, Raising).(lock := Some(i))
    case Increment => At(s, i, Waking(0)).(value := s.value + 1)
    case WakeNext =>
      if p.pc.j == i then At(s, i, Waking(i + 1))
      else At(Put(s, p.pc.j, s.procs[p.pc.j].(sleeping := false)), i, Waking(p.pc.j + 1))
    case UpExit => At(s, i, Idle).(lock := None, ups := s.ups + 1)
    case Kill(v) => Put(s, v, s.procs[v].(sleeping := false))
  }

  predicate Holding(pc: Pc) {
    pc.Check? || pc.Both? || pc.Lowered? || pc.Raising? || pc.Waking?
  }

  /** Asleep on the channel, or past releasing the lock in order to be. */
  predicate Waiting(p: Proc) {
    p.pc.Window? || (p.pc.Asleep? && p.sleeping)
  }

  predicate WakePending(s: State, i: nat) {
    s.lock.Some? && s.lock.value < |s.procs| && s.procs[s.lock.value].pc.Waking? && s.procs[s.lock.value].pc.j <= i
  }

  predicate ProcOk(s: State, i: nat)
    requires i < |s.procs|
  {
    var p := s.procs[i];
    && (s.lock == Some(i) <==> Holding(p.pc))
    && (p.sleeping ==> p.pc.Asleep?)
    && (p.pc.Both? || p.pc.Window? ==> p.lock == Some(i))
    && (p.pc.Both? ==> s.value == 0)
    && (p.pc.Waking? ==> p.pc.j <= |s.procs|)
    && (Waiting(p) && s.value > 0 ==> WakePending(s, i))
  }

  /** What the call in progress under the lock has already done to the value. */
  function InProgress(s: State): int {
    if s.lock.None? || s.lock.value >= |s.procs| then 0
    else if s.procs[s.lock.value].pc.Waking? then 1
    else if s.procs[s.lock.value].pc.Lowered? then -1
    else 0
  }

  ghost predicate Sound(s: State) {
    && s.value >= 0 && s.value == s.first + s.ups - s.downs + InProgress(s)
    && (s.lock.Some? ==> s.lock.value < |s.procs|)
    && forall i: nat | i < |s.procs| :: ProcOk(s, i)
  }

  lemma StepLedger(s: State, i: nat, step: Step)
    requires Sound(s) && Enabled(s, i, step)
    ensures var f := Apply(s, i, step);
            && f.value >= 0 && f.value == f.first + f.ups - f.downs + InProgress(f)
            && (f.lock.Some? ==> f.lock.value < |f.procs|)
  {
    assert ProcOk(s, i);
    if s.lock.Some? {
      assert ProcOk(s, s.lock.value);
    }
  }

  lemma StepProc(s: State, i: nat, step: Step, x: nat)
    requires Sound(s) && Enabled(s, i, step) && x < |s.procs|
    ensures ProcOk(Apply(s, i, step), x)
  {
    assert ProcOk(s, i) && ProcOk(s, x);
    if s.lock.Some? {
      assert ProcOk(s, s.lock.value);
    }
  }

  lemma StepSound(s: State, i: nat, step: Step)
    requires Sound(s) && Enabled(s, i, step)
    ensures Sound(Apply(s, i, step))
  {
    StepLedger(s, i, step);
    forall x: nat | x < |s.procs|
      ensures ProcOk(Apply(s, i, step), x)
    {
      StepProc(s, i, step, x);
    }
  }

  predicate IsRun(s: State, run: seq<(nat, Step)>)
    decreases |run|
  {
    run == [] || (Enabled(s, run[0].0, run[0].1) && IsRun(Apply(s, run[0].0, run[0].1), run[1..]))
  }

  function After(s: State, run: seq<(nat, Step)>): State
    requires IsRun(s, run)
    decreases |run|
  {
    if run == [] then s else After(Apply(s, run[0].0, run[0].1), run[1..])
  }

  /** The slot has just been created with a value that is not negative, and nobody is at it. */
  predicate Initial(s: State) {
    && s.value == s.first >= 0 && s.lock.None? && s.ups == s.downs == 0
    && forall i: nat | i < |s.procs| :: s.procs[i] == Proc(Idle, false, None)
  }

  lemma {:induction false} RunSound(s: State, run: seq<(nat, Step)>)
    requires Sound(s) && IsRun(s, run)
    ensures Sound(After(s, run)) && After(s, run).first == s.first
    decreases |run|
  {
    if run != [] {
      StepSound(s, run[0].0, run[0].1);
      RunSound(Apply(s, run[0].0, run[0].1), run[1..]);
    }
  }

  /** In every interleaving the value is never negative; whenever the lock is free it is the first value
      plus the ups less the downs that have returned, and if it is positive nobody is asleep on the
      semaphore or on the way from releasing the lock to sleeping. */
  lemma SemaphoreTheorem(s: State, run: seq<(nat, Step)>)
    requires Initial(s) && IsRun(s, run)
    ensures var f := After(s, run);
            && f.value >= 0
            && (f.lock.None? ==> f.value == s.value + f.ups - f.downs)
            && (f.lock.None? && f.value > 0 ==> forall i: nat | i < |f.procs| :: !Waiting(f.procs[i]))
  {
    assert Sound(s);
    RunSound(s, run);
    var f := After(s, run);
    forall i: nat | i < |f.procs|
      ensures f.lock.None? && f.value > 0 ==> !Waiting(f.procs[i])
    {
      assert ProcOk(f, i);
    }
  }

  /** So a down blocks for good only while the value is zero: a process that is not waiting for the lock
      or the CPU, with nobody at work, can always go on. */
  lemma NobodyStranded(s: State, run: seq<(nat, Step)>, i: nat)
    requires Initial(s) && IsRun(s, run) && i < |After(s, run).procs| && After(s, run).lock.None?
    requires var p := After(s, run).procs[i]; !p.pc.Idle? && p.lock.None? && After(s, run).value > 0
    ensures exists step: Step :: Enabled(After(s, run), i, step)
  {
    SemaphoreTheorem(s, run);
    assert Sound(s);
    RunSound(s, run);
    var f := After(s, run);
    assert ProcOk(f, i) && !Waiting(f.procs[i]);
    assert Enabled(f, i, Resume) || Enabled(f, i, Again);
  }
}
