/** sem_down and sem_up as the code they are, run without interruption: every statement is a step of
    KernelSem's protocol. */
module SemCode {
  import opened Options
  import opened KernelSem

  /** Process i alone takes the semaphore from s to t, by steps of the protocol. */
  ghost predicate Reaches(s: State, t: State, i: nat) {
    exists run: seq<(nat, Step)> :: IsRun(s, run) && After(s, run) == t && forall k: nat | k < |run| :: run[k].0 == i
  }

  lemma ReachSelf(s: State, i: nat)
    ensures Reaches(s, s, i)
  {
    var run: seq<(nat, Step)> := [];
    assert IsRun(s, run) && After(s, run) == s;
  }

  lemma {:induction false} RunThen(s: State, run: seq<(nat, Step)>, i: nat, step: Step)
    requires IsRun(s, run) && Enabled(After(s, run), i, step)
    ensures IsRun(s, run + [(i, step)]) && After(s, run + [(i, step)]) == Apply(After(s, run), i, step)
    decreases |run|
  {
    hide Apply, Enabled;
    if run == [] {
      assert run + [(i, step)] == [(i, step)] && [(i, step)][1..] == [];
    } else {
      assert (run + [(i, step)])[1..] == run[1..] + [(i, step)];
      RunThen(Apply(s, run[0].0, run[0].1), run[1..], i, step);
    }
  }

  lemma ReachStep(s: State, t: State, i: nat, step: Step)
    requires Reaches(s, t, i) && Enabled(t, i, step)
    ensures Reaches(s, Apply(t, i, step), i)
  {
    hide Apply, Enabled;
    var run: seq<(nat, Step)> :| IsRun(s, run) && After(s, run) == t && forall k: nat | k < |run| :: run[k].0 == i;
    RunThen(s, run, i, step);
    var more := run + [(i, step)];
    assert forall k: nat | k < |more| :: more[k].0 == i;
  }

  /** One slot of sems[] and the processes that use it; ups and downs count the calls that returned. */
  class Semaphore {
    const procs: array<Proc>
    ghost const first: int
    var value: int
    var lock: Option<nat>
    ghost var ups: nat
    ghost var downs: nat

    ghost function View(): State
      reads this, procs
    {
      State(value, first, lock, procs[..], ups, downs)
    }

    /** sem_create for n processes, none of them at the semaphore yet. */
    constructor (first: int, n: nat)
      requires first >= 0
      ensures Initial(View()) && fresh(procs) && procs.Length == n && value == first
    {
      procs := new Proc[n](_ => Proc(Pc.Idle, false, Option.None));
      this.first, value, lock, ups, downs := first, first, Option.None, 0, 0;
    }

    /** No other process holds a lock. */
    ghost predicate Quiet(i: nat)
      reads this, procs
    {
      i < procs.Length && forall j: nat | j < procs.Length && j != i :: procs[j].lock.None?
    }

    /** A step that changes only the process's own record. */
    method Become(i: nat, p: Proc, ghost step: Step, ghost s: State)
      requires Quiet(i) && Reaches(s, View(), i) && Enabled(View(), i, step)
      requires Apply(View(), i, step) == Put(View(), i, p)
      modifies procs
      ensures Quiet(i) && Reaches(s, View(), i) && procs[..] == old(procs[..])[i := p]
    {
      ghost var before := View();
      procs[i] := p;
      assert procs[..] == before.procs[i := p];
      ReachStep(s, before, i, step);
    }

    /** A step that sets the lock, the value or a count as well. */
    method Change(i: nat, pc: Pc, newLock: Option<nat>, newValue: int, ghost step: Step, ghost s: State)
      requires Quiet(i) && Reaches(s, View(), i) && Enabled(View(), i, step)
      requires var t := Apply(View(), i, step);
               t == At(View(), i, pc).(lock := newLock, value := newValue, ups := t.ups, downs := t.downs)
      modifies procs, this
      ensures Quiet(i) && Reaches(s, View(), i) && View() == Apply(old(View()), i, step)
    {
      ghost var before := View();
      ghost var t := Apply(before, i, step);
      procs[i] := procs[i].(pc := pc);
      lock, value, ups, downs := newLock, newValue, t.ups, t.downs;
      assert procs[..] == before.procs[i := procs[i]];
      ReachStep(s, before, i, step);
    }

    /** The body of wakeup's loop. */
    method WakeOne(i: nat, j: nat, ghost s: State)
      requires Quiet(i) && Reaches(s, View(), i) && j < procs.Length && procs[i].pc == Waking(j)
      modifies procs
      ensures Quiet(i) && Reaches(s, View(), i) && procs[i] == old(procs[i]).(pc := Waking(j + 1))
      ensures j != i ==> procs[j] == old(procs[j]).(sleeping := false)
      ensures forall k: nat | k < procs.Length && k != i && k != j :: procs[k] == old(procs[k])
    {
      ghost var before := View();
      if j != i {
        procs[j] := procs[j].(sleeping := false);
      }
      procs[i] := procs[i].(pc := Waking(j + 1));
      assert View().procs == Apply(before, i, WakeNext).procs;
      ReachStep(s, before, i, WakeNext);
    }

    /** sem_up: one more, and everyone asleep on the semaphore is woken. */
    method Up(i: nat)
      requires Quiet(i) && Enabled(View(), i, UpEnter)
      modifies procs, this
      ensures Reaches(old(View()), View(), i) && Quiet(i)
      ensures value == old(value) + 1 && lock.None? && ups == old(ups) + 1 && downs == old(downs)
      ensures procs[i] == old(procs[i])
      ensures forall j: nat | j < procs.Length && j != i :: procs[j] == old(procs[j]).(sleeping := false)
    {
      hide Reaches;
      ghost var s, was := View(), procs[..];
      ReachSelf(s, i);
      Change(i, Raising, Some(i), value, UpEnter, s);
      Change(i, Waking(0), Some(i), value + 1, Increment, s);
      var j := 0;
      while j < procs.Length
        invariant 0 <= j <= procs.Length == |was| && Quiet(i) && Reaches(s, View(), i)
        invariant value == old(value) + 1 && ups == old(ups) && downs == old(downs)
        invariant procs[i] == was[i].(pc := Waking(j))
        invariant forall k: nat | k < procs.Length && k != i :: procs[k] == if k < j then was[k].(sleeping := false) else was[k]
      {
        WakeOne(i, j, s);
        j := j + 1;
      }
      Change(i, Pc.Idle, Option.None, value, UpExit, s);
    }

    /** sem_down: one less, or asleep until an up. */
    method Down(i: nat) returns (done: bool)
      requires Quiet(i) && Enabled(View(), i, DownEnter) && procs[i].lock.None?
      modifies procs, this
      ensures Reaches(old(View()), View(), i) && done == (old(value) != 0) && lock.None? && ups == old(ups)
      ensures done ==> value == old(value) - 1 && downs == old(downs) + 1 && procs[..] == old(procs[..])
      ensures !done ==> value == 0 && downs == old(downs)
      ensures !done ==> procs[..] == old(procs[..])[i := Proc(Asleep, true, Some(i))]
    {
      hide Reaches;
      ghost var s, was := View(), procs[..];
      ReachSelf(s, i);
      Change(i, Check, Some(i), value, DownEnter, s);
      if value == 0 {
        Become(i, procs[i].(lock := Some(i), pc := Both), SleepLock, s);
        Change(i, Window, Option.None, value, SleepRelease, s);
        Become(i, procs[i].(sleeping := true, pc := Asleep), SleepMark, s);
        return false;
      }
      Change(i, Lowered, Some(i), value - 1, Lower, s);
      Change(i, Pc.Idle, Option.None, value, DownExit, s);
      assert procs[..] == was;
      done := true;
    }
  }
}
