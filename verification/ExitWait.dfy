/** exit, wait, fork and the sleep/wakeup under them, interleaved over any number of CPUs at the
    granularity of lock acquisitions and releases. */
module ExitWait {
  import opened Options

  datatype Status = Unused | Used | Active | Sleeping | Zombie

  /** Where a process is: in wait (Scan to Reacquire), in exit (Reparent to Dead), in fork (Allocated to
      Ready) or elsewhere. Wake is a wakeup(chan) loop at process j; next says where reparent goes on. */
  datatype Pc =
    | Idle | Embryo(forker: nat)
    | Scan(k: nat, haveKids: bool) | Both | Window | Asleep | Reacquire
    | Reparent(k: nat) | Wake(chan: Option<nat>, j: nat, next: Option<nat>) | ZombieLock | ZombieMark | ZombieRelease | Dead
    | Allocated(child: nat) | Unparented(child: nat) | Parented(child: nat) | Ready(child: nat)

  /** A process waiting for a child sleeps on its own index; other channels are at least |procs|. */
  datatype Proc = Proc(status: Status, parent: Option<nat>, chan: nat, lock: Option<nat>, pc: Pc)

  datatype State = State(procs: seq<Proc>, waitLock: Option<nat>, init: nat)

  datatype Step =
    | WaitEnter | ScanNext | Reap | ReapFault | WaitFail(killed: bool) | SleepLock | SleepRelease | SleepMark | Resume | WaitAgain
    | ExitEnter | ReparentNext | ReparentEnd | WakeNext | WakeEnd | LockSelf | MarkZombie | ExitRelease
    | ForkAlloc(slot: nat) | ForkFail | ForkUnlock | ForkParent | ForkRelease | ForkRun
    | Switch | SleepOther(on: nat) | WakeOther(sleeper: nat) | Kill(victim: nat)

  function Put(s: State, i: nat, p: Proc): (r: State)
    requires i < |s.procs|
    ensures |r.procs| == |s.procs| && r.init == s.init
  {
    s.(procs := s.procs[i := p])
  }

  function At(s: State, i: nat, pc: Pc): (r: State)
    requires i < |s.procs|
    ensures |r.procs| == |s.procs| && r.init == s.init
  {
    Put(s, i, s.procs[i].(pc := pc))
  }

  predicate IsChild(s: State, i: nat, c: nat)
    requires c < |s.procs|
  {
    s.procs[c].parent == Some(i)
  }

  predicate LockFree(s: State, i: nat) {
    i < |s.procs| && s.procs[i].lock.None?
  }

  /** The child wait's scan stands at can be locked. */
  predicate AtChild(s: State, i: nat) {
    i < |s.procs| && s.procs[i].pc.Scan? && LockFree(s, s.procs[i].pc.k) && IsChild(s, i, s.procs[i].pc.k)
  }

  /** May process i take this step now? WakeOther is one round of any other wakeup, of a pipe, the disk or the
      clock, and asks nothing of process i: an interrupt can take it while everyone sleeps. */
  predicate Enabled(s: State, i: nat, step: Step) {
    i < |s.procs| && s.init < |s.procs| &&
    var p, n := s.procs[i], |s.procs|;
    match step
    case WaitEnter => p.status.Active? && p.pc.Idle? && s.waitLock.None?
    case ScanNext => p.pc.Scan? && p.pc.k < n && (IsChild(s, i, p.pc.k) ==> AtChild(s, i) && !s.procs[p.pc.k].status.Zombie?)
    case Reap => AtChild(s, i) && s.procs[p.pc.k].status.Zombie?
    case ReapFault => AtChild(s, i) && s.procs[p.pc.k].status.Zombie?
    case WaitFail(killed) => p.pc.Scan? && p.pc.k == n && (!p.pc.haveKids || killed)
    case SleepLock => p.pc.Scan? && p.pc.k == n && p.pc.haveKids && p.lock.None?
    case SleepRelease => p.pc.Both?
    case SleepMark => p.pc.Window?
    case Resume => p.pc.Asleep? && p.status.Active? && p.lock.None?
    case WaitAgain => p.pc.Reacquire? && s.waitLock.None?
    case ExitEnter => p.status.Active? && p.pc.Idle? && i != s.init && s.waitLock.None?
    case ReparentNext => p.pc.Reparent? && p.pc.k < n
    case ReparentEnd => p.pc.Reparent? && p.pc.k == n
    case WakeNext => p.pc.Wake? && p.pc.j < n && (p.pc.j != i ==> LockFree(s, p.pc.j))
    case WakeEnd => p.pc.Wake? && p.pc.j == n
    case LockSelf => p.pc.ZombieLock? && p.lock.None?
    case MarkZombie => p.pc.ZombieMark?
    case ExitRelease => p.pc.ZombieRelease?
    case ForkAlloc(c) => p.status.Active? && p.pc.Idle? && LockFree(s, c) && s.procs[c].status.Unused?
    case ForkFail => p.pc.Allocated? && p.pc.child < n
    case ForkUnlock => p.pc.Allocated? && p.pc.child < n
    case ForkParent => p.pc.Unparented? && p.pc.child < n && s.waitLock.None?
    case ForkRelease => p.pc.Parented?
    case ForkRun => p.pc.Ready? && LockFree(s, p.pc.child)
    case Switch => (p.pc.Dead? || (p.pc.Asleep? && p.status.Sleeping?)) && p.lock == Some(i)
    case SleepOther(chan) => p.status.Active? && p.pc.Idle? && chan >= n && p.lock.None?
    case WakeOther(v) => LockFree(s, v) && s.procs[v].status.Sleeping? && s.procs[v].chan >= n
    case Kill(v) => p.status.Active? && p.pc.Idle? && LockFree(s, v)
  }

  /** freeproc, as far as this protocol sees it. */
  function Freed(p: Proc): Proc {
    p.(status := Unused, parent := None, chan := 0, pc := Idle)
  }

  function Woken(p: Proc, chan: Option<nat>): Proc {
    if p.status.Sleeping? && chan == Some(p.chan) then p.(status := Active) else p
  }

  function Apply(s: State, i: nat, step: Step): (r: State)
    requires Enabled(s, i, step)
    ensures |r.procs| == |s.procs| && r.init == s.init
  {
    var p, pc := s.procs[i], s.procs[i].pc;
    match step
    case WaitEnter => At(s, i, Scan(0, false)).(waitLock := Some(i))
    case ScanNext => At(s, i, Scan(pc.k + 1, pc.haveKids || IsChild(s, i, pc.k)))
    case Reap => At(Put(s, pc.k, Freed(s.procs[pc.k])), i, Idle).(waitLock := None)
    case ReapFault => At(s, i, Idle).(waitLock := None)
    case WaitFail(_) => At(s, i, Idle).(waitLock := None)
    case SleepLock => Put(s, i, p.(lock := Some(i), pc := Both))
    case SleepRelease => At(s, i, Window).(waitLock := None)
    case SleepMark => Put(s, i, p.(status := Sleeping, chan := i, pc := Asleep))
    case Resume => Put(s, i, p.(chan := 0, pc := Reacquire))
    case WaitAgain => At(s, i, Scan(0, false)).(waitLock := Some(i))
    case ExitEnter => At(s, i, Reparent(0)).(waitLock := Some(i))
    case ReparentNext =>
      if IsChild(s, i, pc.k)
      then At(Put(s, pc.k, s.procs[pc.k].(parent := Some(s.init))), i, Wake(Some(s.init), 0, Some(pc.k + 1)))
      else At(s, i, Reparent(pc.k + 1))
    case ReparentEnd => At(s, i, Wake(p.parent, 0, None))
    case WakeNext =>
      var next := Wake(pc.chan, pc.j + 1, pc.next);
      if pc.j == i then At(s, i, next) else At(Put(s, pc.j, Woken(s.procs[pc.j], pc.chan)), i, next)
    case WakeEnd => At(s, i, if pc.next.Some? then Reparent(pc.next.value) else ZombieLock)
    case LockSelf => Put(s, i, p.(lock := Some(i), pc := ZombieMark))
    case MarkZombie => Put(s, i, p.(status := Zombie, pc := ZombieRelease))
    case ExitRelease => At(s, i, Dead).(waitLock := None)
    case ForkAlloc(c) => At(Put(s, c, s.procs[c].(status := Used, lock := Some(i), pc := Embryo(i))), i, Allocated(c))
    case ForkFail => At(Put(s, pc.child, Freed(s.procs[pc.child]).(lock := None)), i, Idle)
    case ForkUnlock => At(Put(s, pc.child, s.procs[pc.child].(lock := None)), i, Unparented(pc.child))
    case ForkParent => At(Put(s, pc.child, s.procs[pc.child].(parent := Some(i))), i, Parented(pc.child)).(waitLock := Some(i))
    case ForkRelease => At(s, i, Ready(pc.child)).(waitLock := None)
    case ForkRun => At(Put(s, pc.child, s.procs[pc.child].(status := Active, pc := Idle)), i, Idle)
    case Switch => Put(s, i, p.(lock := None))
    case SleepOther(chan) => Put(s, i, p.(status := Sleeping, chan := chan))
    case WakeOther(v) => Put(s, v, s.procs[v].(status := Active))
    case Kill(v) => Put(s, v, Woken(s.procs[v], Some(s.procs[v].chan)))
  }

  // --- the invariant ---------------------------------------------------------------------

  predicate Holding(pc: Pc) {
    pc.Scan? || pc.Both? || pc.Reparent? || pc.Wake? || pc.ZombieLock? || pc.ZombieMark? || pc.ZombieRelease? || pc.Parented?
  }

  /** In wait with no lock that keeps exit out: asleep, or about to be. */
  predicate Waiting(p: Proc) {
    p.pc.Window? || (p.pc.Asleep? && p.status.Sleeping?)
  }

  predicate Forking(pc: Pc) {
    pc.Allocated? || pc.Unparented? || pc.Parented? || pc.Ready?
  }

  predicate Exiting(pc: Pc) {
    pc.Reparent? || pc.Wake? || pc.ZombieLock? || pc.ZombieMark? || pc.ZombieRelease? || pc.Dead?
  }

  /** The locks a process holds, and its status, fit where it is. */
  predicate Placed(s: State, i: nat)
    requires i < |s.procs|
  {
    var p := s.procs[i];
    && (s.waitLock == Some(i) <==> Holding(p.pc))
    && (p.pc.Both? || p.pc.Window? ==> p.lock == Some(i))
    && (i == s.init ==> p.status.Active? || p.status.Sleeping?)
    && match p.status {
         case Unused => p.pc.Idle? && p.parent.None?
         case Used => p.pc.Embryo?
         case Active => !p.pc.ZombieRelease? && !p.pc.Dead? && !p.pc.Embryo?
         case Sleeping => (p.pc.Idle? && p.chan >= |s.procs|) || (p.pc.Asleep? && p.chan == i)
         case Zombie => p.pc.ZombieRelease? || p.pc.Dead?
       }
  }

  /** The processes a process refers to are what it takes them for. */
  predicate Tied(s: State, i: nat)
    requires i < |s.procs|
  {
    var p, n := s.procs[i], |s.procs|;
    && (p.parent.Some? ==> p.parent.value < n)
    && (Exiting(p.pc) ==> i != s.init)
    && (Forking(p.pc) ==> p.pc.child < n && s.procs[p.pc.child].pc == Embryo(i))
    && (p.pc.Parented? || p.pc.Ready? ==> s.procs[p.pc.child].parent == Some(i))
    && (p.pc.Wake? ==> p.pc.j <= n)
    && (p.pc.Wake? && p.pc.next.None? ==> p.pc.chan == p.parent)
    && (p.pc.Wake? && p.pc.next.Some? ==> p.pc.chan == Some(s.init) && p.pc.next.value <= n)
    && (p.pc.Scan? || p.pc.Reparent? ==> p.pc.k <= n)
  }

  /** How far exit's reparent loop has come: children below this index are gone. */
  function Orphaned(pc: Pc, n: nat): nat {
    if pc.Reparent? then pc.k
    else if pc.Wake? && pc.next.Some? then pc.next.value
    else if Exiting(pc) then n
    else 0
  }

  /** How far wait's scan has come: children below this index are not zombies. */
  function Scanned(pc: Pc, n: nat): nat {
    if pc.Scan? then pc.k else if pc.Both? then n else 0
  }

  /** A wakeup that will still reach process i. */
  predicate WakePending(s: State, i: nat) {
    s.waitLock.Some? && s.waitLock.value < |s.procs| &&
    var pc := s.procs[s.waitLock.value].pc;
    pc.Wake? && pc.chan == Some(i) && pc.j <= i
  }

  /** Exit has woken its parent, and has not yet become a zombie. */
  predicate ParentWoken(pc: Pc, parent: nat) {
    pc.ZombieLock? || pc.ZombieMark? || (pc.Wake? && pc.next.None? && pc.j > parent)
  }

  /** The parent i of c is alive; exit has not passed c in its table, nor wait if c is a zombie. */
  predicate Kin(s: State, i: nat, c: nat)
    requires i < |s.procs| && c < |s.procs|
  {
    IsChild(s, i, c) ==>
      && (s.procs[i].status.Active? || s.procs[i].status.Sleeping?)
      && c >= Orphaned(s.procs[i].pc, |s.procs|)
      && (s.procs[c].status.Zombie? ==> c >= Scanned(s.procs[i].pc, |s.procs|))
  }

  /** If the parent i of c is asleep in wait, then c has not got past waking it, and if c is a
      zombie a wakeup is on its way. */
  predicate Woke(s: State, i: nat, c: nat)
    requires i < |s.procs| && c < |s.procs|
  {
    IsChild(s, i, c) && Waiting(s.procs[i]) ==>
      && !ParentWoken(s.procs[c].pc, i)
      && (s.procs[c].status.Zombie? ==> WakePending(s, i))
  }

  ghost predicate Sound(s: State) {
    && s.init < |s.procs|
    && (s.waitLock.Some? ==> s.waitLock.value < |s.procs|)
    && (forall i: nat | i < |s.procs| :: Placed(s, i) && Tied(s, i))
    && (forall i: nat, c: nat | i < |s.procs| && c < |s.procs| :: Kin(s, i, c) && Woke(s, i, c))
  }

  /** The other process a step may change. */
  function Other(s: State, i: nat, step: Step): (k: nat)
    requires Enabled(s, i, step)
    ensures k < |s.procs|
  {
    var pc := s.procs[i].pc;
    match step
    case Reap => pc.k
    case ReparentNext => pc.k
    case WakeNext => pc.j
    case ForkAlloc(c) => c
    case ForkFail => pc.child
    case ForkUnlock => pc.child
    case ForkParent => pc.child
    case ForkRun => pc.child
    case WakeOther(v) => v
    case Kill(v) => v
    case _ => i
  }

  // --- what each kind of step keeps, from what it needs to know ---------------------------

  predicate InWait(step: Step) {
    step.WaitEnter? || step.ScanNext? || step.WaitFail? || step.WaitAgain? || step.Reap?
    || step.ReapFault?
  }

  predicate InDoze(step: Step) {
    step.SleepLock? || step.SleepRelease? || step.SleepMark? || step.Resume?
  }

  predicate InExit(step: Step) {
    step.ExitEnter? || step.ReparentNext? || step.ReparentEnd? || step.WakeEnd? || step.LockSelf?
    || step.MarkZombie? || step.ExitRelease?
  }

  predicate InFree(step: Step) {
    step.ForkFail? || step.ForkUnlock?
  }

  predicate InFork(step: Step) {
    step.ForkParent? || step.ForkRelease? || step.ForkRun?
  }

  predicate InRest(step: Step) {
    !InWait(step) && !InDoze(step) && !InExit(step) && !step.WakeNext? && !step.ForkAlloc? && !InFree(step) && !InFork(step)
  }

  /** What a step of process i, touching process k at most, needs to know of process x. */
  ghost predicate Known(s: State, i: nat, k: nat, x: nat) {
    && i < |s.procs| && k < |s.procs| && x < |s.procs| && s.init < |s.procs|
    && Placed(s, i) && Placed(s, k) && Placed(s, x) && Tied(s, i) && Tied(s, x)
  }

  /** And of parent x and child y. */
  ghost predicate KnownKin(s: State, i: nat, x: nat, y: nat) {
    && i < |s.procs| && x < |s.procs| && y < |s.procs| && s.init < |s.procs|
    && Placed(s, i) && Placed(s, x) && Placed(s, y) && Tied(s, i) && Tied(s, x) && Tied(s, y)
    && Kin(s, x, y) && Kin(s, i, x) && Kin(s, x, i) && Kin(s, i, y) && Kin(s, y, i)
  }

  /** And of their sleep: a wakeup that is pending goes on unless its own process moves. */
  ghost predicate KnownWoke(s: State, i: nat, step: Step, x: nat, y: nat) {
    && i < |s.procs| && x < |s.procs| && y < |s.procs| && s.init < |s.procs|
    && Placed(s, i) && Placed(s, x) && Placed(s, y) && Tied(s, i) && Tied(s, y)
    && Kin(s, i, y) && Woke(s, x, y) && Woke(s, x, i)
    && Enabled(s, i, step) && (WakePending(s, x) && s.waitLock != Some(i) ==> WakePending(Apply(s, i, step), x))
  }

  lemma WaitPlaced(s: State, i: nat, step: Step, x: nat)
    requires Enabled(s, i, step) && InWait(step) && Known(s, i, Other(s, i, step), x)
    ensures Placed(Apply(s, i, step), x)
  {
  }

  lemma WaitTied(s: State, i: nat, step: Step, x: nat)
    requires Enabled(s, i, step) && InWait(step) && Known(s, i, Other(s, i, step), x)
    ensures Tied(Apply(s, i, step), x)
  {
  }

  lemma WaitKin(s: State, i: nat, step: Step, x: nat, y: nat)
    requires Enabled(s, i, step) && InWait(step) && KnownKin(s, i, x, y)
    ensures Kin(Apply(s, i, step), x, y)
  {
  }

  lemma WaitWoke(s: State, i: nat, step: Step, x: nat, y: nat)
    requires Enabled(s, i, step) && InWait(step) && KnownWoke(s, i, step, x, y)
    ensures Woke(Apply(s, i, step), x, y)
  {
  }

  lemma DozePlaced(s: State, i: nat, step: Step, x: nat)
    requires Enabled(s, i, step) && InDoze(step) && Known(s, i, Other(s, i, step), x)
    ensures Placed(Apply(s, i, step), x)
  {
  }

  lemma DozeTied(s: State, i: nat, step: Step, x: nat)
    requires Enabled(s, i, step) && InDoze(step) && Known(s, i, Other(s, i, step), x)
    ensures Tied(Apply(s, i, step), x)
  {
  }

  lemma DozeKin(s: State, i: nat, step: Step, x: nat, y: nat)
    requires Enabled(s, i, step) && InDoze(step) && KnownKin(s, i, x, y)
    ensures Kin(Apply(s, i, step), x, y)
  {
  }

  lemma DozeWoke(s: State, i: nat, step: Step, x: nat, y: nat)
    requires Enabled(s, i, step) && InDoze(step) && KnownWoke(s, i, step, x, y)
    ensures Woke(Apply(s, i, step), x, y)
  {
  }

  lemma ExitPlaced(s: State, i: nat, step: Step, x: nat)
    requires Enabled(s, i, step) && InExit(step) && Known(s, i, Other(s, i, step), x)
    ensures Placed(Apply(s, i, step), x)
  {
  }

  lemma ExitTied(s: State, i: nat, step: Step, x: nat)
    requires Enabled(s, i, step) && InExit(step) && !step.ReparentNext? && Known(s, i, Other(s, i, step), x)
    ensures Tied(Apply(s, i, step), x)
  {
  }

  lemma AdoptTied(s: State, i: nat, step: Step, x: nat)
    requires Enabled(s, i, step) && step.ReparentNext? && Known(s, i, Other(s, i, step), x)
    ensures Tied(Apply(s, i, step), x)
  {
  }

  lemma ExitKin(s: State, i: nat, step: Step, x: nat, y: nat)
    requires Enabled(s, i, step) && InExit(step) && KnownKin(s, i, x, y)
    ensures Kin(Apply(s, i, step), x, y)
  {
  }

  lemma ExitWoke(s: State, i: nat, step: Step, x: nat, y: nat)
    requires Enabled(s, i, step) && InExit(step) && KnownWoke(s, i, step, x, y)
    ensures Woke(Apply(s, i, step), x, y)
  {
  }

  lemma WakePlaced(s: State, i: nat, step: Step, x: nat)
    requires Enabled(s, i, step) && step.WakeNext? && Known(s, i, Other(s, i, step), x)
    ensures Placed(Apply(s, i, step), x)
  {
  }

  lemma WakeTied(s: State, i: nat, step: Step, x: nat)
    requires Enabled(s, i, step) && step.WakeNext? && Known(s, i, Other(s, i, step), x)
    ensures Tied(Apply(s, i, step), x)
  {
  }

  lemma WakeKin(s: State, i: nat, step: Step, x: nat, y: nat)
    requires Enabled(s, i, step) && step.WakeNext? && KnownKin(s, i, x, y)
    ensures Kin(Apply(s, i, step), x, y)
  {
  }

  lemma WakeWoke(s: State, i: nat, step: Step, x: nat, y: nat)
    requires Enabled(s, i, step) && step.WakeNext? && KnownWoke(s, i, step, x, y)
    ensures Woke(Apply(s, i, step), x, y)
  {
  }

  lemma AllocPlaced(s: State, i: nat, step: Step, x: nat)
    requires Enabled(s, i, step) && step.ForkAlloc? && Known(s, i, Other(s, i, step), x)
    ensures Placed(Apply(s, i, step), x)
  {
  }

  lemma AllocTied(s: State, i: nat, step: Step, x: nat)
    requires Enabled(s, i, step) && step.ForkAlloc? && Known(s, i, Other(s, i, step), x)
    ensures Tied(Apply(s, i, step), x)
  {
  }

  lemma AllocKin(s: State, i: nat, step: Step, x: nat, y: nat)
    requires Enabled(s, i, step) && step.ForkAlloc? && KnownKin(s, i, x, y)
    ensures Kin(Apply(s, i, step), x, y)
  {
  }

  lemma AllocWoke(s: State, i: nat, step: Step, x: nat, y: nat)
    requires Enabled(s, i, step) && step.ForkAlloc? && KnownWoke(s, i, step, x, y)
    ensures Woke(Apply(s, i, step), x, y)
  {
  }

  lemma FreePlaced(s: State, i: nat, step: Step, x: nat)
    requires Enabled(s, i, step) && InFree(step) && Known(s, i, Other(s, i, step), x)
    ensures Placed(Apply(s, i, step), x)
  {
  }

  lemma FreeTied(s: State, i: nat, step: Step, x: nat)
    requires Enabled(s, i, step) && InFree(step) && Known(s, i, Other(s, i, step), x)
    ensures Tied(Apply(s, i, step), x)
  {
  }

  lemma FreeKin(s: State, i: nat, step: Step, x: nat, y: nat)
    requires Enabled(s, i, step) && InFree(step) && KnownKin(s, i, x, y)
    ensures Kin(Apply(s, i, step), x, y)
  {
  }

  lemma FreeWoke(s: State, i: nat, step: Step, x: nat, y: nat)
    requires Enabled(s, i, step) && InFree(step) && KnownWoke(s, i, step, x, y)
    ensures Woke(Apply(s, i, step), x, y)
  {
  }

  lemma ForkPlaced(s: State, i: nat, step: Step, x: nat)
    requires Enabled(s, i, step) && InFork(step) && Known(s, i, Other(s, i, step), x)
    ensures Placed(Apply(s, i, step), x)
  {
  }

  lemma ForkTied(s: State, i: nat, step: Step, x: nat)
    requires Enabled(s, i, step) && InFork(step) && !step.ForkParent? && Known(s, i, Other(s, i, step), x)
    ensures Tied(Apply(s, i, step), x)
  {
  }

  lemma ParentTied(s: State, i: nat, step: Step, x: nat)
    requires Enabled(s, i, step) && step.ForkParent? && Known(s, i, Other(s, i, step), x)
    ensures Tied(Apply(s, i, step), x)
  {
  }

  lemma ForkKin(s: State, i: nat, step: Step, x: nat, y: nat)
    requires Enabled(s, i, step) && InFork(step) && KnownKin(s, i, x, y)
    ensures Kin(Apply(s, i, step), x, y)
  {
  }

  lemma ForkWoke(s: State, i: nat, step: Step, x: nat, y: nat)
    requires Enabled(s, i, step) && InFork(step) && KnownWoke(s, i, step, x, y)
    ensures Woke(Apply(s, i, step), x, y)
  {
  }

  lemma RestPlaced(s: State, i: nat, step: Step, x: nat)
    requires Enabled(s, i, step) && InRest(step) && Known(s, i, Other(s, i, step), x)
    ensures Placed(Apply(s, i, step), x)
  {
  }

  lemma RestTied(s: State, i: nat, step: Step, x: nat)
    requires Enabled(s, i, step) && InRest(step) && Known(s, i, Other(s, i, step), x)
    ensures Tied(Apply(s, i, step), x)
  {
  }

  lemma RestKin(s: State, i: nat, step: Step, x: nat, y: nat)
    requires Enabled(s, i, step) && InRest(step) && KnownKin(s, i, x, y)
    ensures Kin(Apply(s, i, step), x, y)
  {
  }

  lemma RestWoke(s: State, i: nat, step: Step, x: nat, y: nat)
    requires Enabled(s, i, step) && InRest(step) && KnownWoke(s, i, step, x, y)
    ensures Woke(Apply(s, i, step), x, y)
  {
  }

  lemma StillPending(s: State, i: nat, step: Step, x: nat)
    requires Enabled(s, i, step) && WakePending(s, x) && s.waitLock != Some(i) && Known(s, i, Other(s, i, step), s.waitLock.value)
    ensures WakePending(Apply(s, i, step), x)
  {
  }

  lemma Knows(s: State, i: nat, step: Step, x: nat)
    requires Sound(s) && Enabled(s, i, step) && x < |s.procs|
    ensures Known(s, i, Other(s, i, step), x)
  {
    hide Placed, Tied, Kin, Woke;
    var k := Other(s, i, step);
    assert Placed(s, i) && Placed(s, k) && Placed(s, x) && Tied(s, i) && Tied(s, x);
  }

  lemma KnowsPair(s: State, i: nat, step: Step, x: nat, y: nat)
    requires Sound(s) && Enabled(s, i, step) && x < |s.procs| && y < |s.procs|
    ensures KnownKin(s, i, x, y) && KnownWoke(s, i, step, x, y)
  {
    Knows(s, i, step, x);
    Knows(s, i, step, y);
    if WakePending(s, x) && s.waitLock != Some(i) {
      Knows(s, i, step, s.waitLock.value);
      StillPending(s, i, step, x);
    }
    hide Placed, Tied, Kin, Woke, Enabled, Apply, WakePending;
    assert Kin(s, x, y) && Kin(s, i, x) && Kin(s, x, i) && Kin(s, i, y) && Kin(s, y, i) && Woke(s, x, y) && Woke(s, x, i);
  }

  lemma StepOne(s: State, i: nat, step: Step, x: nat)
    requires Sound(s) && Enabled(s, i, step) && x < |s.procs|
    ensures Placed(Apply(s, i, step), x) && Tied(Apply(s, i, step), x)
  {
    Knows(s, i, step, x);
    hide Sound, Enabled, Apply, Placed, Tied, Kin, Woke, Known, KnownKin, KnownWoke;
    if InWait(step) {
      WaitPlaced(s, i, step, x);
      WaitTied(s, i, step, x);
    } else if InDoze(step) {
      DozePlaced(s, i, step, x);
      DozeTied(s, i, step, x);
    } else if InExit(step) {
      ExitPlaced(s, i, step, x);
      if step.ReparentNext? {
        AdoptTied(s, i, step, x);
      } else {
        ExitTied(s, i, step, x);
      }
    } else if step.WakeNext? {
      WakePlaced(s, i, step, x);
      WakeTied(s, i, step, x);
    } else if step.ForkAlloc? {
      AllocPlaced(s, i, step, x);
      AllocTied(s, i, step, x);
    } else if InFree(step) {
      FreePlaced(s, i, step, x);
      FreeTied(s, i, step, x);
    } else if InFork(step) {
      ForkPlaced(s, i, step, x);
      if step.ForkParent? {
        ParentTied(s, i, step, x);
      } else {
        ForkTied(s, i, step, x);
      }
    } else {
      RestPlaced(s, i, step, x);
      RestTied(s, i, step, x);
    }
  }

  lemma StepTwo(s: State, i: nat, step: Step, x: nat, y: nat)
    requires Sound(s) && Enabled(s, i, step) && x < |s.procs| && y < |s.procs|
    ensures Kin(Apply(s, i, step), x, y) && Woke(Apply(s, i, step), x, y)
  {
    KnowsPair(s, i, step, x, y);
    hide Sound, Enabled, Apply, Placed, Tied, Kin, Woke, Known, KnownKin, KnownWoke;
    if InWait(step) {
      WaitKin(s, i, step, x, y);
      WaitWoke(s, i, step, x, y);
    } else if InDoze(step) {
      DozeKin(s, i, step, x, y);
      DozeWoke(s, i, step, x, y);
    } else if InExit(step) {
      ExitKin(s, i, step, x, y);
      ExitWoke(s, i, step, x, y);
    } else if step.WakeNext? {
      WakeKin(s, i, step, x, y);
      WakeWoke(s, i, step, x, y);
    } else if step.ForkAlloc? {
      AllocKin(s, i, step, x, y);
      AllocWoke(s, i, step, x, y);
    } else if InFree(step) {
      FreeKin(s, i, step, x, y);
      FreeWoke(s, i, step, x, y);
    } else if InFork(step) {
      ForkKin(s, i, step, x, y);
      ForkWoke(s, i, step, x, y);
    } else {
      RestKin(s, i, step, x, y);
      RestWoke(s, i, step, x, y);
    }
  }

  /** Every step of every process keeps the protocol sound. */
  lemma StepSound(s: State, i: nat, step: Step)
    requires Sound(s) && Enabled(s, i, step)
    ensures Sound(Apply(s, i, step))
  {
    var s' := Apply(s, i, step);
    forall x: nat | x < |s'.procs|
      ensures Placed(s', x) && Tied(s', x)
    {
      StepOne(s, i, step, x);
    }
    forall x: nat, y: nat | x < |s'.procs| && y < |s'.procs|
      ensures Kin(s', x, y) && Woke(s', x, y)
    {
      StepTwo(s, i, step, x, y);
    }
    SameShape(s, i, step);
  }

  lemma SameShape(s: State, i: nat, step: Step)
    requires Sound(s) && Enabled(s, i, step)
    ensures var s' := Apply(s, i, step);
            && |s'.procs| == |s.procs| && s'.init == s.init
            && (s'.waitLock.Some? ==> s'.waitLock.value < |s.procs|)
  {
    hide Placed, Tied, Kin, Woke;
  }

  /** A process asleep on a channel of its own subsystem can always be woken. */
  lemma Wakeable(s: State, i: nat, v: nat)
    requires Sound(s) && i < |s.procs| && v < |s.procs| && s.procs[v].status.Sleeping? && s.procs[v].pc.Idle?
    ensures s.procs[v].lock.None? ==> Enabled(s, i, WakeOther(v)) && Apply(s, i, WakeOther(v)).procs[v].status.Active?
  {
    assert Placed(s, v);
  }

  /** Nobody sleeps on after kill. */
  lemma KillWakes(s: State, i: nat, v: nat)
    requires Sound(s) && Enabled(s, i, Kill(v))
    ensures var f := Apply(s, i, Kill(v)); v < |f.procs| && !f.procs[v].status.Sleeping?
    ensures !s.procs[v].status.Sleeping? ==> Apply(s, i, Kill(v)).procs[v].status == s.procs[v].status
  {
    assert Placed(s, i);
  }

  /** When fork fails, the slot it took is free again. */
  lemma ForkGivesBack(s: State, i: nat)
    requires Sound(s) && Enabled(s, i, ForkFail)
    ensures var c, f := s.procs[i].pc.child, Apply(s, i, ForkFail);
            && c != i && c < |f.procs| && f.procs[c].status.Unused? && f.procs[c].parent.None? && f.procs[c].lock.None?
            && f.procs[i].pc.Idle? && f.procs[i].status == s.procs[i].status
  {
    assert Placed(s, i) && Tied(s, i);
  }

  /** fork hands over a child of its own that can run. */
  lemma ForkGives(s: State, i: nat)
    requires Sound(s) && Enabled(s, i, ForkRun)
    ensures var c, f := s.procs[i].pc.child, Apply(s, i, ForkRun);
            c != i && c < |f.procs| && f.procs[c].status.Active? && f.procs[c].parent == Some(i) && f.procs[c].pc.Idle?
  {
    assert Placed(s, i) && Tied(s, i);
  }

  // --- whole runs ----------------------------------------------------------------------

  /** Only init exists. */
  predicate Initial(s: State) {
    && s.init < |s.procs| && s.waitLock.None?
    && forall i: nat | i < |s.procs| :: s.procs[i] == Proc(if i == s.init then Active else Unused, None, 0, None, Idle)
  }

  predicate IsRun(s: State, run: seq<(nat, Step)>)
    decreases |run|
  {
    run == [] || (Enabled(s, run[0].0, run[0].1) && IsRun(Apply(s, run[0].0, run[0].1), run[1..]))
  }

  function After(s: State, run: seq<(nat, Step)>): State
    requires IsRun(s, run)
    decreases |run|
  {
    if run == [] then s else After(Apply(s, run[0].0, run[0].1), run[1..])
  }

  lemma {:induction false} RunSound(s: State, run: seq<(nat, Step)>)
    requires Sound(s) && IsRun(s, run)
    ensures Sound(After(s, run))
    decreases |run|
  {
    if run != [] {
      StepSound(s, run[0].0, run[0].1);
      RunSound(Apply(s, run[0].0, run[0].1), run[1..]);
    }
  }

  lemma InitialSound(s: State)
    requires Initial(s)
    ensures Sound(s)
  {
    forall i: nat, c: nat | i < |s.procs| && c < |s.procs|
      ensures Placed(s, i) && Tied(s, i) && Kin(s, i, c) && Woke(s, i, c)
    {
    }
  }

  /** No lost wakeup, in every interleaving: with wait_lock free, nobody sleeps in wait, or has let go
      of wait_lock to do so, over a zombie child, reparented ones included; and whoever has been made
      a parent is neither an unused slot nor a zombie. */
  lemma NoLostWakeup(s: State, run: seq<(nat, Step)>, i: nat, c: nat)
    requires Initial(s) && IsRun(s, run)
    requires i < |After(s, run).procs| && c < |After(s, run).procs| && IsChild(After(s, run), i, c)
    ensures var f := After(s, run);
            && (f.waitLock.None? && f.procs[c].status.Zombie? ==> !Waiting(f.procs[i]))
            && !f.procs[i].status.Unused? && !f.procs[i].status.Zombie? && !f.procs[c].status.Unused?
  {
    InitialSound(s);
    RunSound(s, run);
    assert Kin(After(s, run), i, c) && Woke(After(s, run), i, c) && Placed(After(s, run), c);
  }
}
