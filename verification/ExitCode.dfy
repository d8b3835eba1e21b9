/** exit, reparent, wakeup and wait as the code they are, run without interruption: every statement is a
    step of ExitWait's protocol, and each call has the effect its name promises. */
module ExitCode {
  import opened Options
  import opened ExitWait

  /** Process i alone takes the table from s to t, by steps of the protocol. */
  ghost predicate Reaches(s: State, t: State, i: nat) {
    exists run: seq<(nat, Step)> :: IsRun(s, run) && After(s, run) == t && forall k: nat | k < |run| :: run[k].0 == i
  }

  lemma ReachSelf(s: State, i: nat)
    ensures Reaches(s, s, i)
  {
    var run: seq<(nat, Step)> := [];
    assert IsRun(s, run) && After(s, run) == s;
  }

  lemma {:induction false} RunThen(s: State, run: seq<(nat, Step)>, i: nat, step: Step)
    requires IsRun(s, run) && Enabled(After(s, run), i, step)
    ensures IsRun(s, run + [(i, step)]) && After(s, run + [(i, step)]) == Apply(After(s, run), i, step)
    decreases |run|
  {
    hide Apply, Enabled;
    if run == [] {
      assert run + [(i, step)] == [(i, step)] && [(i, step)][1..] == [];
    } else {
      assert (run + [(i, step)])[1..] == run[1..] + [(i, step)];
      RunThen(Apply(s, run[0].0, run[0].1), run[1..], i, step);
    }
  }

  lemma ReachStep(s: State, t: State, i: nat, step: Step)
    requires Reaches(s, t, i) && Enabled(t, i, step)
    ensures Reaches(s, Apply(t, i, step), i)
  {
    hide Apply, Enabled;
    var run: seq<(nat, Step)> :| IsRun(s, run) && After(s, run) == t && forall k: nat | k < |run| :: run[k].0 == i;
    RunThen(s, run, i, step);
    var more := run + [(i, step)];
    assert forall k: nat | k < |more| :: more[k].0 == i;
  }

  /** What reparent does to a process other than the exiting one. */
  function Adopted(p: Proc, i: nat, init: nat, woke: bool): Proc {
    (if woke then Woken(p, Some(init)) else p).(parent := if p.parent == Some(i) then Some(init) else p.parent)
  }

  predicate HasChild(procs: seq<Proc>, i: nat, k: nat)
    requires k <= |procs|
  {
    exists c: nat :: c < k && procs[c].parent == Some(i)
  }

  datatype WaitResult = Reaped(child: nat) | Failed | Slept

  /** What wait does to the table. */
  ghost predicate Waited(was: seq<Proc>, now: seq<Proc>, i: nat, killed: bool, fault: bool, r: WaitResult)
    requires i < |was|
  {
    if exists c: nat :: c < |was| && was[c].parent == Some(i) && was[c].status.Zombie? then
      if fault then r == Failed && now == was
      else
        && r.Reaped? && r.child < |was| && was[r.child].parent == Some(i) && was[r.child].status.Zombie?
        && (forall c: nat | c < r.child && was[c].parent == Some(i) :: !was[c].status.Zombie?)
        && now == was[r.child := Proc(Unused, Option.None, 0, was[r.child].lock, Pc.Idle)]
    else if !HasChild(was, i, |was|) || killed then r == Failed && now == was
    else r == Slept && now == was[i := was[i].(status := Sleeping, chan := i, pc := Asleep, lock := Some(i))]
  }

  /** A child that has been reaped is nobody's child, so after the only one the next wait fails. */
  lemma ReapedThenFails(was: seq<Proc>, now: seq<Proc>, after: seq<Proc>, i: nat, c: nat, killed: bool, fault: bool, r: WaitResult)
    requires i < |was| && Waited(was, now, i, false, false, Reaped(c))
    requires forall j: nat | j < |was| && was[j].parent == Some(i) :: j == c
    requires |now| == |was| && Waited(now, after, i, killed, fault, r)
    ensures r == Failed && after == now
  {
    assert c < |was| && was[c].parent == Some(i) && was[c].status.Zombie?;
    assert !HasChild(now, i, |now|);
  }

  /** What exit leaves of another process: its parent is init if it was the exiting one, and it is awake if
      it slept on init with init given a child, or on the exiting one's parent. */
  predicate Survives(p: Proc, q: Proc, i: nat, init: nat, given: bool, parent: Option<nat>) {
    && q.parent == (if p.parent == Some(i) then Some(init) else p.parent)
    && q.status == (if p.status.Sleeping? && ((given && p.chan == init) || parent == Some(p.chan)) then Active else p.status)
    && q.chan == p.chan && q.lock == p.lock && q.pc == p.pc
  }

  class ProcTable {
    const procs: array<Proc>
    const init: nat
    var waitLock: Option<nat>

    ghost function View(): State
      reads this, procs
    {
      State(procs[..], waitLock, init)
    }

    /** userinit has made init. */
    constructor (n: nat, init: nat)
      requires init < n
      ensures Initial(View()) && fresh(procs) && procs.Length == n && this.init == init
    {
      procs := new Proc[n](k => Proc(if k == init then Active else Unused, Option.None, 0, Option.None, Pc.Idle));
      this.init, waitLock := init, Option.None;
    }

    /** No other process is in the middle of a locked section. */
    ghost predicate Quiet(i: nat)
      reads this, procs
    {
      && init < procs.Length && i < procs.Length
      && forall j: nat | j < procs.Length && j != i :: procs[j].lock.None?
    }

    /** The table now is what the step makes of the table before. */
    lemma Took(before: State, i: nat, step: Step, s: State)
      requires Reaches(s, before, i) && Enabled(before, i, step) && View() == Apply(before, i, step)
      ensures Reaches(s, View(), i)
    {
      ReachStep(s, before, i, step);
    }

    /** Process i goes on to pc by a step that changes nothing else. */
    method Advance(i: nat, pc: Pc, ghost step: Step, ghost s: State)
      requires Quiet(i) && Reaches(s, View(), i) && Enabled(View(), i, step)
      requires Apply(View(), i, step) == At(View(), i, pc)
      modifies procs
      ensures Quiet(i) && Reaches(s, View(), i) && procs[..] == old(procs[..])[i := old(procs[i]).(pc := pc)]
    {
      ghost var before := View();
      procs[i] := procs[i].(pc := pc);
      assert procs[..] == before.procs[i := procs[i]];
      Took(before, i, step, s);
    }

    /** The body of wakeup's loop. */
    method WakeOne(i: nat, j: nat, chan: Option<nat>, next: Option<nat>, ghost s: State)
      requires Quiet(i) && Reaches(s, View(), i) && j < procs.Length && procs[i].pc == Wake(chan, j, next)
      modifies procs
      ensures Quiet(i) && Reaches(s, View(), i)
      ensures procs[i] == old(procs[i]).(pc := Wake(chan, j + 1, next))
      ensures j != i ==> procs[j] == Woken(old(procs[j]), chan)
      ensures forall k: nat | k < procs.Length && k != i && k != j :: procs[k] == old(procs[k])
    {
      if j == i {
        Advance(i, Wake(chan, j + 1, next), WakeNext, s);
      } else {
        Rouse(i, j, chan, next, s);
      }
    }

    /** The same at another process than the caller. */
    method Rouse(i: nat, j: nat, chan: Option<nat>, next: Option<nat>, ghost s: State)
      requires Quiet(i) && Reaches(s, View(), i) && j < procs.Length && j != i && procs[i].pc == Wake(chan, j, next)
      modifies procs
      ensures Quiet(i) && Reaches(s, View(), i)
      ensures procs[i] == old(procs[i]).(pc := Wake(chan, j + 1, next)) && procs[j] == Woken(old(procs[j]), chan)
      ensures forall k: nat | k < procs.Length && k != i && k != j :: procs[k] == old(procs[k])
    {
      hide Reaches, Enabled, Apply;
      ghost var before := View();
      RouseStep(before, i, j, chan, next);
      if procs[j].status.Sleeping? && chan == Some(procs[j].chan) {
        procs[j] := procs[j].(status := Active);
      }
      procs[i] := procs[i].(pc := Wake(chan, j + 1, next));
      assert procs[..] == before.procs[j := Woken(before.procs[j], chan)][i := procs[i]];
      Took(before, i, WakeNext, s);
    }

    lemma RouseStep(s: State, i: nat, j: nat, chan: Option<nat>, next: Option<nat>)
      requires i < |s.procs| && s.init < |s.procs| && j < |s.procs| && j != i && s.procs[i].pc == Wake(chan, j, next)
      requires s.procs[j].lock.None?
      ensures Enabled(s, i, WakeNext)
      ensures Apply(s, i, WakeNext) == s.(procs := s.procs[j := Woken(s.procs[j], chan)][i := s.procs[i].(pc := Wake(chan, j + 1, next))])
    {
    }

    /** Wake every process sleeping on chan, but not the caller. */
    method Wakeup(i: nat, chan: Option<nat>, next: Option<nat>, ghost s: State)
      requires Quiet(i) && procs[i].pc == Wake(chan, 0, next) && Reaches(s, View(), i)
      modifies procs
      ensures Quiet(i) && Reaches(s, View(), i)
      ensures procs[i] == old(procs[i]).(pc := Wake(chan, procs.Length, next))
      ensures forall j: nat | j < procs.Length && j != i :: procs[j] == Woken(old(procs[j]), chan)
    {
      hide Reaches, View;
      var j := 0;
      while j < procs.Length
        invariant 0 <= j <= procs.Length && Quiet(i) && Reaches(s, View(), i)
        invariant procs[i] == old(procs[i]).(pc := Wake(chan, j, next))
        invariant forall k: nat | k < procs.Length && k != i ::
                    procs[k] == if k < j then Woken(old(procs[k]), chan) else old(procs[k])
      {
        WakeOne(i, j, chan, next, s);
        j := j + 1;
      }
    }

    /** The body of reparent's loop at a child: init gets it, and is woken. */
    method Adopt(i: nat, k: nat, ghost s: State)
      requires Quiet(i) && Reaches(s, View(), i) && k < procs.Length && k != i
      requires procs[i].pc == Pc.Reparent(k) && procs[k].parent == Some(i)
      modifies procs
      ensures Quiet(i) && Reaches(s, View(), i) && procs[i] == old(procs[i]).(pc := Pc.Reparent(k + 1))
      ensures forall j: nat | j < procs.Length && j != i ::
                procs[j] == Woken(old(procs[j]), Some(init)).(parent := if j == k then Some(init) else old(procs[j]).parent)
    {
      hide Reaches, View;
      HandOver(i, k, s);
      Wakeup(i, Some(init), Some(k + 1), s);
      WakeDone(i, s);
    }

    /** pp->parent = initproc. */
    method HandOver(i: nat, k: nat, ghost s: State)
      requires Quiet(i) && Reaches(s, View(), i) && k < procs.Length && k != i
      requires procs[i].pc == Pc.Reparent(k) && procs[k].parent == Some(i)
      modifies procs
      ensures Quiet(i) && Reaches(s, View(), i)
      ensures procs[i] == old(procs[i]).(pc := Wake(Some(init), 0, Some(k + 1)))
      ensures procs[k] == old(procs[k]).(parent := Some(init))
      ensures forall j: nat | j < procs.Length && j != i && j != k :: procs[j] == old(procs[j])
    {
      ghost var before := View();
      procs[k] := procs[k].(parent := Some(init));
      procs[i] := procs[i].(pc := Wake(Some(init), 0, Some(k + 1)));
      assert View().procs == Apply(before, i, ReparentNext).procs;
      Took(before, i, ReparentNext, s);
    }

    /** wakeup returns to reparent, or to exit. */
    method WakeDone(i: nat, ghost s: State)
      requires Quiet(i) && Reaches(s, View(), i) && procs[i].pc.Wake? && procs[i].pc.j == procs.Length
      modifies procs
      ensures Quiet(i) && Reaches(s, View(), i)
      ensures var next := old(procs[i]).pc.next;
              procs[i] == old(procs[i]).(pc := if next.Some? then Pc.Reparent(next.value) else ZombieLock)
      ensures forall j: nat | j < procs.Length && j != i :: procs[j] == old(procs[j])
    {
      var next := procs[i].pc.next;
      Advance(i, if next.Some? then Pc.Reparent(next.value) else ZombieLock, WakeEnd, s);
    }

    /** Give i's children to init, waking it for each. */
    method Reparent(i: nat, ghost s: State)
      requires Quiet(i) && procs[i].pc == Pc.Reparent(0) && procs[i].parent != Some(i) && Reaches(s, View(), i)
      modifies procs
      ensures Quiet(i) && Reaches(s, View(), i)
      ensures procs[i] == old(procs[i]).(pc := Pc.Reparent(procs.Length))
      ensures forall j: nat | j < procs.Length && j != i ::
                procs[j] == Adopted(old(procs[j]), i, init, HasChild(old(procs[..]), i, procs.Length))
    {
      hide Reaches;
      ghost var was := procs[..];
      var k := 0;
      while k < procs.Length
        invariant 0 <= k <= procs.Length == |was| && Quiet(i) && Reaches(s, View(), i)
        invariant procs[i] == was[i].(pc := Pc.Reparent(k))
        invariant forall j: nat | j < procs.Length && j != i ::
                    procs[j] == if j < k then Adopted(was[j], i, init, HasChild(was, i, k))
                                else if HasChild(was, i, k) then Woken(was[j], Some(init)) else was[j]
      {
        if procs[k].parent == Some(i) {
          Adopt(i, k, s);
        } else {
          Advance(i, Pc.Reparent(k + 1), ReparentNext, s);
        }
        k := k + 1;
      }
    }

    /** acquire(&wait_lock), on the way into exit or wait. */
    method Acquire(i: nat, pc: Pc, ghost step: Step, ghost s: State)
      requires Quiet(i) && Reaches(s, View(), i) && Enabled(View(), i, step)
      requires (step == WaitEnter && pc == Scan(0, false)) || (step == ExitEnter && pc == Pc.Reparent(0))
      modifies procs, this`waitLock
      ensures Quiet(i) && Reaches(s, View(), i) && waitLock == Some(i)
      ensures procs[..] == old(procs[..])[i := old(procs[i]).(pc := pc)]
    {
      ghost var before := View();
      waitLock := Some(i);
      procs[i] := procs[i].(pc := pc);
      assert procs[..] == before.procs[i := procs[i]];
      Took(before, i, step, s);
    }

    /** release(&wait_lock). */
    method Release(i: nat, pc: Pc, ghost step: Step, ghost s: State)
      requires Quiet(i) && Reaches(s, View(), i) && Enabled(View(), i, step)
      requires Apply(View(), i, step) == At(View(), i, pc).(waitLock := None)
      modifies procs, this`waitLock
      ensures Quiet(i) && Reaches(s, View(), i) && waitLock.None?
      ensures procs[..] == old(procs[..])[i := old(procs[i]).(pc := pc)]
    {
      ghost var before := View();
      waitLock := None;
      procs[i] := procs[i].(pc := pc);
      assert procs[..] == before.procs[i := procs[i]];
      Took(before, i, step, s);
    }

    /** The process changes nothing but its own record. */
    method Become(i: nat, p: Proc, ghost step: Step, ghost s: State)
      requires Quiet(i) && Reaches(s, View(), i) && Enabled(View(), i, step)
      requires Apply(View(), i, step) == Put(View(), i, p)
      modifies procs
      ensures Quiet(i) && Reaches(s, View(), i) && procs[..] == old(procs[..])[i := p]
    {
      ghost var before := View();
      procs[i] := p;
      assert procs[..] == before.procs[i := procs[i]];
      Took(before, i, step, s);
    }

    /** exit, from its first lock to its last: children go to init, init and the parent are woken, and
        the process is a zombie. */
    method Exit(i: nat)
      requires Quiet(i) && Enabled(View(), i, ExitEnter) && procs[i].parent != Some(i) && procs[i].lock.None?
      modifies procs, this`waitLock
      ensures Quiet(i) && Reaches(old(View()), View(), i) && waitLock.None?
      ensures procs[i] == old(procs[i]).(status := Zombie, pc := Dead, lock := Some(i))
      ensures var given := HasChild(old(procs[..]), i, procs.Length);
              forall j: nat | j < procs.Length && j != i ::
                Survives(old(procs[j]), procs[j], i, init, given, old(procs[i]).parent)
    {
      hide Reaches, HasChild, Adopted, Woken, Survives;
      ghost var s := View();
      ReachSelf(s, i);
      Acquire(i, Pc.Reparent(0), ExitEnter, s);
      SameChildren(s.procs, procs[..], i);
      Reparent(i, s);
      WakeParent(i, s);
      Die(i, s);
      forall j: nat | j < procs.Length && j != i
        ensures Survives(old(procs[j]), procs[j], i, init, HasChild(old(procs[..]), i, procs.Length), old(procs[i]).parent)
      {
        SurvivesIs(old(procs[j]), i, init, HasChild(old(procs[..]), i, procs.Length), old(procs[i]).parent);
      }
    }

    lemma SurvivesIs(p: Proc, i: nat, init: nat, given: bool, parent: Option<nat>)
      ensures Survives(p, Woken(Adopted(p, i, init, given), parent), i, init, given, parent)
    {
    }

    /** Parent might be sleeping in wait. */
    method WakeParent(i: nat, ghost s: State)
      requires Quiet(i) && Reaches(s, View(), i) && procs[i].pc == Pc.Reparent(procs.Length)
      modifies procs
      ensures Quiet(i) && Reaches(s, View(), i) && procs[i] == old(procs[i]).(pc := ZombieLock)
      ensures forall j: nat | j < procs.Length && j != i :: procs[j] == Woken(old(procs[j]), old(procs[i]).parent)
    {
      hide Reaches;
      var parent := procs[i].parent;
      Advance(i, Wake(parent, 0, Option.None), ReparentEnd, s);
      Wakeup(i, parent, Option.None, s);
      WakeDone(i, s);
    }

    /** exit's last section: its own lock, the state, and wait_lock given up. */
    method Die(i: nat, ghost s: State)
      requires Quiet(i) && Reaches(s, View(), i) && procs[i].pc == ZombieLock && procs[i].lock.None?
      modifies procs, this`waitLock
      ensures Quiet(i) && Reaches(s, View(), i) && waitLock.None?
      ensures procs[..] == old(procs[..])[i := old(procs[i]).(status := Zombie, pc := Dead, lock := Some(i))]
    {
      hide Reaches;
      Become(i, procs[i].(lock := Some(i), pc := ZombieMark), LockSelf, s);
      Become(i, procs[i].(status := Zombie, pc := ZombieRelease), MarkZombie, s);
      Release(i, Dead, ExitRelease, s);
    }

    lemma SameChildren(a: seq<Proc>, b: seq<Proc>, i: nat)
      requires |a| == |b| && forall c: nat | c < |a| :: a[c].parent == b[c].parent
      ensures HasChild(a, i, |a|) <==> HasChild(b, i, |b|)
    {
    }

    /** wait: the least zombie child is freed and returned; with no child, or killed, wait fails; else it
        sleeps on its own address. A fault in copying the exit status leaves the zombie there. */
    method Wait(i: nat, killed: bool, fault: bool) returns (r: WaitResult)
      requires Quiet(i) && Enabled(View(), i, WaitEnter) && procs[i].parent != Some(i) && procs[i].lock.None?
      modifies procs, this`waitLock
      ensures Reaches(old(View()), View(), i) && waitLock.None?
      ensures Waited(old(procs[..]), procs[..], i, killed, fault, r)
    {
      hide Reaches, Apply, HasChild, Waited;
      ghost var s, was := View(), procs[..];
      ReachSelf(s, i);
      Acquire(i, Scan(0, false), WaitEnter, s);
      ghost var mid := procs[..];
      var k, have := Look(i, s);
      LookMeans(was, mid, i, k, have, killed, fault);
      if k < procs.Length {
        if fault {
          Leave(i, ReapFault, s);
          assert procs[..] == was;
          return Failed;
        }
        Collect(i, k, s);
        assert procs[..] == was[k := Freed(was[k])];
        return Reaped(k);
      }
      if !have || killed {
        Leave(i, ExitWait.WaitFail(killed), s);
        assert procs[..] == was;
        return Failed;
      }
      GoToSleep(i, s);
      assert procs[..] == was[i := was[i].(status := Sleeping, chan := i, pc := Asleep, lock := Some(i))];
      r := Slept;
    }

    /** wait's loop over the table: it stops at the first zombie child, or at the end. */
    method Look(i: nat, ghost s: State) returns (k: nat, have: bool)
      requires Quiet(i) && Reaches(s, View(), i) && procs[i].pc == Scan(0, false) && procs[i].parent != Some(i)
      modifies procs
      ensures Quiet(i) && Reaches(s, View(), i) && k <= procs.Length
      ensures procs[..] == old(procs[..])[i := old(procs[i]).(pc := Scan(k, have))]
      ensures k < procs.Length ==> procs[k].parent == Some(i) && procs[k].status.Zombie?
      ensures have <==> HasChild(old(procs[..]), i, k)
      ensures forall c: nat | c < k && old(procs[..])[c].parent == Some(i) :: !old(procs[..])[c].status.Zombie?
    {
      hide Reaches;
      ghost var was := procs[..];
      k, have := 0, false;
      while k < procs.Length
        invariant 0 <= k <= procs.Length == |was| && Quiet(i) && Reaches(s, View(), i)
        invariant have <==> HasChild(was, i, k)
        invariant procs[..] == was[i := was[i].(pc := Scan(k, have))]
        invariant forall c: nat | c < k && was[c].parent == Some(i) :: !was[c].status.Zombie?
      {
        var child := procs[k].parent == Some(i);
        if child && procs[k].status.Zombie? {
          return;
        }
        Advance(i, Scan(k + 1, have || child), ScanNext, s);
        k, have := k + 1, have || child;
      }
    }

    /** What the scan has found decides what wait must do. */
    lemma LookMeans(was: seq<Proc>, mid: seq<Proc>, i: nat, k: nat, have: bool, killed: bool, fault: bool)
      requires i < |was| && mid == was[i := was[i].(pc := Scan(0, false))] && was[i].parent != Some(i) && was[i].pc.Idle?
      ensures was[i := was[i].(pc := Pc.Idle)] == was
      requires k <= |mid| && (have <==> HasChild(mid, i, k))
      requires k < |mid| ==> mid[k].parent == Some(i) && mid[k].status.Zombie?
      requires forall c: nat | c < k && mid[c].parent == Some(i) :: !mid[c].status.Zombie?
      ensures k < |was| ==> k != i && was[k].parent == Some(i) && was[k].status.Zombie?
      ensures k < |was| && fault ==> Waited(was, was, i, killed, fault, Failed)
      ensures k < |was| && !fault ==> Waited(was, was[k := Freed(was[k])], i, killed, fault, Reaped(k))
      ensures k == |was| && (!have || killed) ==> Waited(was, was, i, killed, fault, Failed)
      ensures k == |was| && have && !killed ==>
                Waited(was, was[i := was[i].(status := Sleeping, chan := i, pc := Asleep, lock := Some(i))], i, killed, fault, Slept)
    {
      forall c: nat | c < |was|
        ensures mid[c].parent == was[c].parent && mid[c].status == was[c].status
      {
      }
      if HasChild(was, i, k) {
        var c: nat :| c < k && was[c].parent == Some(i);
        assert mid[c].parent == Some(i);
      }
      if HasChild(mid, i, k) {
        var c: nat :| c < k && mid[c].parent == Some(i);
        assert was[c].parent == Some(i);
      }
      forall c: nat | c < k && was[c].parent == Some(i)
        ensures !was[c].status.Zombie?
      {
        assert mid[c].parent == Some(i);
      }
    }

    /** wait fails: wait_lock is given up. */
    method Leave(i: nat, ghost step: Step, ghost s: State)
      requires Quiet(i) && Reaches(s, View(), i) && Enabled(View(), i, step) && (step.ReapFault? || step.WaitFail?)
      modifies procs, this`waitLock
      ensures Reaches(s, View(), i) && waitLock.None?
      ensures procs[..] == old(procs[..])[i := old(procs[i]).(pc := Pc.Idle)]
    {
      hide Reaches;
      Release(i, Pc.Idle, step, s);
    }

    /** freeproc of the zombie found, and both locks given up. */
    method Collect(i: nat, k: nat, ghost s: State)
      requires Quiet(i) && Reaches(s, View(), i) && k < procs.Length && k != i
      requires procs[i].pc.Scan? && procs[i].pc.k == k && procs[k].parent == Some(i) && procs[k].status.Zombie?
      modifies procs, this`waitLock
      ensures Reaches(s, View(), i) && waitLock.None?
      ensures procs[..] == old(procs[..])[k := Freed(old(procs[k]))][i := old(procs[i]).(pc := Pc.Idle)]
    {
      ghost var before := View();
      procs[k] := Freed(procs[k]);
      waitLock := Option.None;
      procs[i] := procs[i].(pc := Pc.Idle);
      assert View().procs == Apply(before, i, ExitWait.Reap).procs;
      Took(before, i, ExitWait.Reap, s);
    }

    /** sleep(p, &wait_lock), up to the switch. */
    method GoToSleep(i: nat, ghost s: State)
      requires Quiet(i) && Reaches(s, View(), i) && procs[i].pc == Scan(procs.Length, true) && procs[i].lock.None?
      modifies procs, this`waitLock
      ensures Reaches(s, View(), i) && waitLock.None?
      ensures procs[..] == old(procs[..])[i := old(procs[i]).(status := Sleeping, chan := i, pc := Asleep, lock := Some(i))]
    {
      hide Reaches;
      Become(i, procs[i].(lock := Some(i), pc := Both), SleepLock, s);
      Release(i, Window, SleepRelease, s);
      Become(i, procs[i].(status := Sleeping, chan := i, pc := Asleep), SleepMark, s);
    }
  }
}
