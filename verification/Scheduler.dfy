/** The accumulator scheduler on one CPU: its table operations, and the fairness of every run. */
module Scheduler {
  import opened Options

  datatype ProcState = Unused | Used | Sleeping | Runnable | Running | Zombie

  /** forking is the child a process has allocated in fork but not yet made runnable. */
  datatype Proc = Proc(state: ProcState, accumulator: int, priority: int, chan: nat, forking: Option<nat>)

  /** cur is the process the CPU runs, None while it is in the scheduler. */
  datatype State = State(procs: seq<Proc>, cur: Option<nat>)

  const DEFAULT_PRIORITY: int := 5

  predicate Active(p: Proc) {
    p.state.Runnable? || p.state.Running?
  }

  predicate ActiveAt(procs: seq<Proc>, i: nat) {
    i < |procs| && Active(procs[i])
  }

  // --- get_min_accumulator and the scheduler's choice --------------------------------

  /** m is the least accumulator of the active processes other than `except`, or 0 when there are none. */
  ghost predicate IsMin(procs: seq<Proc>, except: nat, m: int) {
    if exists j: nat :: j != except && ActiveAt(procs, j) then
      && (exists j: nat :: j != except && ActiveAt(procs, j) && procs[j].accumulator == m)
      && (forall j: nat | j != except && ActiveAt(procs, j) :: m <= procs[j].accumulator)
    else m == 0
  }

  /** The same, computed; -1 stands for "none seen yet", as in the source. */
  function LeastSeen(procs: seq<Proc>, except: nat, k: nat): (m: int)
    requires k <= |procs|
    ensures (forall j: nat | j < k && j != except && Active(procs[j]) :: procs[j].accumulator >= 0) ==>
      && (m >= -1)
      && (m == -1 <==> forall j: nat | j < k && j != except :: !Active(procs[j]))
      && (m >= 0 ==> exists j: nat :: j < k && j != except && Active(procs[j]) && procs[j].accumulator == m)
      && (forall j: nat | j < k && j != except && Active(procs[j]) :: m <= procs[j].accumulator)
  {
    if k == 0 then -1
    else
      var m := LeastSeen(procs, except, k - 1);
      var p := procs[k - 1];
      if k - 1 != except && Active(p) && (m == -1 || p.accumulator < m) then p.accumulator else m
  }

  function MinAcc(procs: seq<Proc>, except: nat): int {
    var m := LeastSeen(procs, except, |procs|);
    if m == -1 then 0 else m
  }

  predicate NonNegative(procs: seq<Proc>) {
    forall i: nat | i < |procs| :: procs[i].accumulator >= 0
  }

  /** get_min_accumulator meets its definition and nothing else does. */
  lemma MinAccIsMin(procs: seq<Proc>, except: nat, m: int)
    requires NonNegative(procs)
    ensures IsMin(procs, except, m) <==> m == MinAcc(procs, except)
  {
    var l := LeastSeen(procs, except, |procs|);
    assert l >= 0 ==> exists j: nat :: j < |procs| && j != except && Active(procs[j]) && procs[j].accumulator == l;
    if l == -1 {
      assert forall j: nat | j < |procs| && j != except :: !Active(procs[j]);
    } else {
      var j: nat :| j < |procs| && j != except && Active(procs[j]) && procs[j].accumulator == l;
      assert ActiveAt(procs, j);
    }
  }

  /** Process i comes before j in the scheduler's order: accumulator first, then table index. */
  predicate Before(procs: seq<Proc>, i: nat, j: nat)
    requires i < |procs| && j < |procs|
  {
    procs[i].accumulator < procs[j].accumulator || (procs[i].accumulator == procs[j].accumulator && i <= j)
  }

  predicate IsBest(procs: seq<Proc>, i: nat) {
    && i < |procs| && procs[i].state.Runnable?
    && forall j: nat | j < |procs| && procs[j].state.Runnable? :: Before(procs, i, j)
  }

  /** The table after wakeup(chan): every sleeper on chan is runnable from the minimum of the
      processes that were already active. */
  function Woken(procs: seq<Proc>, chan: nat): (r: seq<Proc>)
    ensures |r| == |procs|
  {
    seq(|procs|, (j: int) requires 0 <= j < |procs| =>
      if procs[j].state.Sleeping? && procs[j].chan == chan
      then procs[j].(state := Runnable, accumulator := MinAcc(procs, |procs|)) else procs[j])
  }

  // --- the transition system -------------------------------------------------------------

  datatype Step =
    | Dispatch(i: nat)
    | Tick
    | KernelYield
    | Sleep(chan: nat)
    | Wakeup(chan: nat)
    | ForkAlloc(child: nat)
    | ForkFail(child: nat)
    | ForkRun
    | Exit
    | Reap(child: nat)
    | SetPriority(priority: int)

  /** A process runs, and is not between fork's lock releases. */
  predicate Free(s: State) {
    s.cur.Some? && s.cur.value < |s.procs| && s.procs[s.cur.value].state.Running? && s.procs[s.cur.value].forking.None?
  }

  predicate Enabled(s: State, step: Step) {
    match step
    case Dispatch(i) => s.cur.None? && IsBest(s.procs, i)
    case Tick => Free(s)
    case KernelYield => s.cur.Some? && s.cur.value < |s.procs| && s.procs[s.cur.value].state.Running?
    case Sleep(_) => Free(s)
    case Wakeup(_) => true
    case ForkAlloc(c) => Free(s) && c < |s.procs| && s.procs[c].state.Unused?
    case ForkFail(c) => Free(s) && c < |s.procs| && s.procs[c].state.Unused?
    case ForkRun => s.cur.Some? && s.cur.value < |s.procs| && s.procs[s.cur.value].state.Running?
                    && s.procs[s.cur.value].forking.Some? && s.procs[s.cur.value].forking.value < |s.procs|
    case Exit => Free(s)
    case Reap(c) => Free(s) && c < |s.procs| && s.procs[c].state.Zombie?
    case SetPriority(_) => Free(s)
  }

  /** What allocproc writes in the slot it found. */
  function NewProc(procs: seq<Proc>, c: nat): Proc
    requires c < |procs|
  {
    Proc(Used, MinAcc(procs, c), DEFAULT_PRIORITY, procs[c].chan, None)
  }

  function Freed(p: Proc): Proc {
    p.(state := Unused, chan := 0)
  }

  function Apply(s: State, step: Step): State
    requires Enabled(s, step)
  {
    var n := if s.cur.Some? then s.cur.value else 0;
    match step
    case Dispatch(i) => State(s.procs[i := s.procs[i].(state := Running)], Some(i))
    case Tick =>
      var p := s.procs[n];
      State(s.procs[n := p.(accumulator := p.accumulator + p.priority, state := Runnable)], None)
    case KernelYield => State(s.procs[n := s.procs[n].(state := Runnable)], None)
    case Sleep(chan) => State(s.procs[n := s.procs[n].(state := Sleeping, chan := chan)], None)
    case Wakeup(chan) => s.(procs := Woken(s.procs, chan))
    case ForkAlloc(c) => s.(procs := s.procs[c := NewProc(s.procs, c)][n := s.procs[n].(forking := Some(c))])
    case ForkFail(c) => s.(procs := s.procs[c := Freed(NewProc(s.procs, c))])
    case ForkRun =>
      var c := s.procs[n].forking.value;
      s.(procs := s.procs[c := s.procs[c].(state := Runnable)][n := s.procs[n].(forking := None)])
    case Exit => State(s.procs[n := s.procs[n].(state := Zombie)], None)
    case Reap(c) => s.(procs := s.procs[c := Freed(s.procs[c])])
    case SetPriority(v) =>
      if v < 1 || v > 10 then s else s.(procs := s.procs[n := s.procs[n].(priority := v)])
  }

  /** userinit has made process 0 runnable; the rest of the table is zeroed. */
  predicate Initial(s: State) {
    && s.cur.None? && |s.procs| > 0
    && s.procs[0] == Proc(Runnable, 0, DEFAULT_PRIORITY, 0, None)
    && forall i: nat | 0 < i < |s.procs| :: s.procs[i] == Proc(Unused, 0, 0, 0, None)
  }

  // --- the spread invariant ------------------------------------------------------------

  predicate ForkOk(procs: seq<Proc>, p: nat)
    requires p < |procs|
  {
    procs[p].forking.Some? ==>
      var c := procs[p].forking.value;
      && Active(procs[p]) && c < |procs| && procs[c].state.Used?
      && procs[c].accumulator == procs[p].accumulator && procs[c].forking.None?
  }

  predicate Near(procs: seq<Proc>, i: nat, j: nat)
    requires i < |procs| && j < |procs|
  {
    Active(procs[i]) && Active(procs[j]) ==> procs[i].accumulator - procs[j].accumulator <= 10
  }

  predicate LeastOf(procs: seq<Proc>, i: nat, j: nat)
    requires i < |procs| && j < |procs|
  {
    Active(procs[j]) ==> procs[i].accumulator <= procs[j].accumulator
  }

  predicate OwnChild(procs: seq<Proc>, p: nat, q: nat)
    requires p < |procs| && q < |procs|
  {
    procs[p].forking.Some? && procs[p].forking == procs[q].forking ==> p == q
  }

  predicate ProcOk(procs: seq<Proc>, i: nat)
    requires i < |procs|
  {
    procs[i].accumulator >= 0 && (procs[i].state.Unused? || 1 <= procs[i].priority <= 10) && ForkOk(procs, i)
  }

  /** No accumulator is negative, the running process has the least accumulator of the active
      ones, and active accumulators are at most 10 apart. */
  ghost predicate Fair(s: State) {
    && (forall i: nat | i < |s.procs| :: ProcOk(s.procs, i))
    && (forall i: nat | i < |s.procs| :: s.procs[i].state.Running? <==> s.cur == Some(i))
    && (s.cur.Some? ==> s.cur.value < |s.procs|)
    && (s.cur.Some? ==> forall j: nat | j < |s.procs| :: LeastOf(s.procs, s.cur.value, j))
    && (forall i: nat, j: nat | i < |s.procs| && j < |s.procs| :: Near(s.procs, i, j))
    && (forall p: nat, q: nat | p < |s.procs| && q < |s.procs| :: OwnChild(s.procs, p, q))
  }

  lemma FairNonNegative(s: State)
    requires Fair(s)
    ensures NonNegative(s.procs)
  {
    forall i: nat | i < |s.procs|
      ensures s.procs[i].accumulator >= 0
    {
      assert ProcOk(s.procs, i);
    }
  }

  /** What wakeup gives: the least accumulator, if anyone is active. */
  lemma WakeLevel(s: State)
    requires Fair(s)
    ensures var m := MinAcc(s.procs, |s.procs|);
            && m >= 0
            && (forall j: nat | ActiveAt(s.procs, j) :: m <= s.procs[j].accumulator <= m + 10)
            && (s.cur.Some? ==> m == s.procs[s.cur.value].accumulator)
  {
    var m := MinAcc(s.procs, |s.procs|);
    FairNonNegative(s);
    MinAccIsMin(s.procs, |s.procs|, m);
    forall j: nat | ActiveAt(s.procs, j)
      ensures m <= s.procs[j].accumulator <= m + 10
    {
      assert j != |s.procs|;
      var k: nat :| k != |s.procs| && ActiveAt(s.procs, k) && s.procs[k].accumulator == m;
      assert k < |s.procs| && Near(s.procs, j, k);
    }
    if s.cur.Some? {
      assert ActiveAt(s.procs, s.cur.value);
      var k: nat :| k != |s.procs| && ActiveAt(s.procs, k) && s.procs[k].accumulator == m;
      assert LeastOf(s.procs, s.cur.value, k);
    }
  }

  lemma WokenFair(s: State, chan: nat)
    requires Fair(s)
    ensures Fair(Apply(s, Wakeup(chan)))
  {
    hide LeastSeen, MinAcc;
    WakeLevel(s);
    var r := Woken(s.procs, chan);
    forall i: nat | i < |r|
      ensures ProcOk(r, i)
    {
      assert ProcOk(s.procs, i);
    }
    forall i: nat, j: nat | i < |r| && j < |r|
      ensures Near(r, i, j) && OwnChild(r, i, j)
    {
      assert Near(s.procs, i, j) && OwnChild(s.procs, i, j);
      assert Active(s.procs[i]) ==> ActiveAt(s.procs, i);
      assert Active(s.procs[j]) ==> ActiveAt(s.procs, j);
    }
    if s.cur.Some? {
      forall j: nat | j < |r|
        ensures LeastOf(r, s.cur.value, j)
      {
        assert LeastOf(s.procs, s.cur.value, j);
      }
    }
  }

  /** A new child starts level with the parent, which is running and so has the least accumulator. */
  lemma ChildLevel(s: State, c: nat)
    requires Fair(s) && Free(s) && c < |s.procs| && s.procs[c].state.Unused?
    ensures MinAcc(s.procs, c) == s.procs[s.cur.value].accumulator
  {
    FairNonNegative(s);
    MinAccIsMin(s.procs, c, MinAcc(s.procs, c));
    assert ActiveAt(s.procs, s.cur.value);
    var k: nat :| k != c && ActiveAt(s.procs, k) && s.procs[k].accumulator == MinAcc(s.procs, c);
    assert LeastOf(s.procs, s.cur.value, k);
  }

  /** The steps that give up the CPU or set a priority. */
  lemma CurFair(s: State, step: Step)
    requires Fair(s) && Enabled(s, step)
    requires step.Tick? || step.KernelYield? || step.Sleep? || step.Exit? || step.SetPriority?
    ensures Fair(Apply(s, step))
  {
    var s', n := Apply(s, step), s.cur.value;
    forall j: nat | j < |s'.procs|
      ensures ProcOk(s'.procs, j)
    {
      assert ProcOk(s.procs, j) && ProcOk(s.procs, n) && LeastOf(s.procs, n, j);
    }
    forall p: nat, q: nat | p < |s'.procs| && q < |s'.procs|
      ensures Near(s'.procs, p, q) && OwnChild(s'.procs, p, q)
    {
      assert Near(s.procs, p, q) && OwnChild(s.procs, p, q) && LeastOf(s.procs, n, p) && LeastOf(s.procs, n, q) && ProcOk(s.procs, n);
    }
    forall j: nat | j < |s'.procs|
      ensures s'.procs[j].state.Running? <==> s'.cur == Some(j)
      ensures s'.cur.Some? ==> LeastOf(s'.procs, n, j)
    {
      assert s.procs[j].state.Running? <==> s.cur == Some(j);
      assert LeastOf(s.procs, n, j);
    }
  }

  /** Dispatch, and the steps on a slot that is not active before or after. */
  lemma SlotFair(s: State, step: Step)
    requires Fair(s) && Enabled(s, step)
    requires step.Dispatch? || step.ForkFail? || step.Reap?
    ensures Fair(Apply(s, step))
  {
    hide LeastSeen, MinAcc;
    var s' := Apply(s, step);
    if step.ForkFail? {
      ChildLevel(s, step.child);
      assert ProcOk(s.procs, s.cur.value);
    }
    forall j: nat | j < |s'.procs|
      ensures ProcOk(s'.procs, j)
      ensures s'.procs[j].state.Running? <==> s'.cur == Some(j)
      ensures s'.cur.Some? ==> LeastOf(s'.procs, s'.cur.value, j)
    {
      assert ProcOk(s.procs, j) && (s.procs[j].state.Running? <==> s.cur == Some(j));
      if s.cur.Some? {
        assert LeastOf(s.procs, s.cur.value, j);
      }
    }
    forall p: nat, q: nat | p < |s'.procs| && q < |s'.procs|
      ensures Near(s'.procs, p, q) && OwnChild(s'.procs, p, q)
    {
      assert Near(s.procs, p, q) && OwnChild(s.procs, p, q) && ProcOk(s.procs, p) && ProcOk(s.procs, q);
    }
  }

  lemma ForkFair(s: State, step: Step)
    requires Fair(s) && Enabled(s, step) && (step.ForkAlloc? || step.ForkRun?)
    ensures Fair(Apply(s, step))
  {
    hide LeastSeen, MinAcc;
    var s', n := Apply(s, step), s.cur.value;
    assert ProcOk(s.procs, n);
    if step.ForkAlloc? {
      ChildLevel(s, step.child);
    }
    forall j: nat | j < |s'.procs|
      ensures ProcOk(s'.procs, j) && LeastOf(s'.procs, n, j)
      ensures s'.procs[j].state.Running? <==> s'.cur == Some(j)
    {
      assert ProcOk(s.procs, j) && OwnChild(s.procs, j, n) && LeastOf(s.procs, n, j);
      assert s.procs[j].state.Running? <==> s.cur == Some(j);
    }
    forall p: nat, q: nat | p < |s'.procs| && q < |s'.procs|
      ensures Near(s'.procs, p, q) && OwnChild(s'.procs, p, q)
    {
      assert Near(s.procs, p, q) && OwnChild(s.procs, p, q) && Near(s.procs, p, n) && Near(s.procs, n, q);
      assert ProcOk(s.procs, p) && ProcOk(s.procs, q) && LeastOf(s.procs, n, p) && LeastOf(s.procs, n, q);
    }
  }

  /** Every step keeps the spread invariant, a preempted fork included. */
  lemma StepFair(s: State, step: Step)
    requires Fair(s) && Enabled(s, step)
    ensures Fair(Apply(s, step))
  {
    hide *;
    match step
    case Wakeup(chan) => WokenFair(s, chan);
    case Dispatch(_) => SlotFair(s, step);
    case ForkFail(_) => SlotFair(s, step);
    case Reap(_) => SlotFair(s, step);
    case ForkAlloc(_) => ForkFair(s, step);
    case ForkRun => ForkFair(s, step);
    case _ => CurFair(s, step);
  }

  /** What the body of wakeup's loop does to process p: from sleep, it starts again at the
      minimum of the other active processes. */
  ghost predicate OneWoken(before: seq<Proc>, after: seq<Proc>, cur: Option<nat>, chan: nat, p: nat)
    requires p < |before|
  {
    && |after| == |before|
    && if cur != Some(p) && before[p].state.Sleeping? && before[p].chan == chan
       then IsMin(before, p, after[p].accumulator)
            && after == before[p := before[p].(state := Runnable, accumulator := after[p].accumulator)]
       else after == before
  }

  // --- the process table as the array it is --------------------------------------------

  /** proc[] and the one CPU's c->proc; spinlocks keep interrupts off, so each method is one step. */
  class Cpu {
    const proc: array<Proc>
    var cur: Option<nat>

    ghost function View(): State
      reads this, proc
    {
      State(proc[..], cur)
    }

    constructor (n: nat)
      requires n > 0
      ensures fresh(proc) && Initial(View()) && proc.Length == n
    {
      proc := new Proc[n](i => if i == 0 then Proc(Runnable, 0, DEFAULT_PRIORITY, 0, None) else Proc(Unused, 0, 0, 0, None));
      cur := None;
    }

    method GetMinAccumulator(except: nat) returns (min: int)
      requires NonNegative(proc[..])
      ensures IsMin(proc[..], except, min)
    {
      var m := -1;
      for p := 0 to proc.Length
        invariant m == LeastSeen(proc[..], except, p)
      {
        if p != except && Active(proc[p]) {
          if m == -1 || proc[p].accumulator < m {
            m := proc[p].accumulator;
          }
        }
      }
      min := if m == -1 then 0 else m;
      MinAccIsMin(proc[..], except, min);
    }

    /** One pass of scheduler(): the first of the least accumulators runs, if anyone is runnable. */
    method Schedule()
      requires Fair(View()) && cur.None?
      modifies this`cur, proc
      ensures cur.None? ==> proc[..] == old(proc[..]) && forall j: nat | j < proc.Length :: !proc[j].state.Runnable?
      ensures cur.Some? ==> IsBest(old(proc[..]), cur.value) && View() == Apply(old(View()), Dispatch(cur.value))
      ensures cur.Some? ==>
                && proc[..] == old(proc[..])[cur.value := old(proc[..])[cur.value].(state := Running)]
                && forall j: nat | j < proc.Length && old(proc[..])[j].state.Runnable? && j != cur.value ::
                     old(proc[..])[cur.value].accumulator < old(proc[..])[j].accumulator
                     || (old(proc[..])[cur.value].accumulator == old(proc[..])[j].accumulator && cur.value < j)
      ensures Fair(View())
    {
      var best: Option<nat> := None;
      for p := 0 to proc.Length
        invariant proc[..] == old(proc[..])
        invariant best.None? ==> forall j: nat | j < p :: !proc[j].state.Runnable?
        invariant best.Some? ==> best.value < p && proc[best.value].state.Runnable?
        invariant best.Some? ==> forall j: nat | j < p && proc[j].state.Runnable? :: Before(proc[..], best.value, j)
      {
        if proc[p].state.Runnable? {
          if best.None? || proc[p].accumulator < proc[best.value].accumulator {
            best := Some(p);
          }
        }
      }
      if best.Some? {
        StepFair(View(), Dispatch(best.value));
        proc[best.value] := proc[best.value].(state := Running);
        cur := best;
      }
    }

    method Yield()
      requires Fair(View()) && Enabled(View(), KernelYield)
      modifies this`cur, proc
      ensures View() == Apply(old(View()), KernelYield) && Fair(View())
      ensures var n := old(cur).value; cur.None? && proc[..] == old(proc[..])[n := old(proc[n]).(state := Runnable)]
    {
      StepFair(View(), KernelYield);
      proc[cur.value] := proc[cur.value].(state := Runnable);
      cur := None;
    }

    /** A timer interrupt from user mode: charge, then yield. */
    method UserTick()
      requires Fair(View()) && Enabled(View(), Tick)
      modifies this`cur, proc
      ensures View() == Apply(old(View()), Tick) && Fair(View())
      ensures var n, p := old(cur).value, old(proc[cur.value]);
              cur.None? && proc[..] == old(proc[..])[n := p.(accumulator := p.accumulator + p.priority, state := Runnable)]
    {
      StepFair(View(), Tick);
      var p := proc[cur.value];
      if p.state.Running? {
        proc[cur.value] := p.(accumulator := p.accumulator + p.priority);
      }
      proc[cur.value] := proc[cur.value].(state := Runnable);
      cur := None;
    }

    method SleepOn(chan: nat)
      requires Fair(View()) && Enabled(View(), Sleep(chan))
      modifies this`cur, proc
      ensures View() == Apply(old(View()), Sleep(chan)) && Fair(View())
      ensures var n := old(cur).value; cur.None? && proc[..] == old(proc[..])[n := old(proc[n]).(state := Sleeping, chan := chan)]
    {
      StepFair(View(), Sleep(chan));
      proc[cur.value] := proc[cur.value].(chan := chan, state := Sleeping);
      cur := None;
    }

    method WakeOne(chan: nat, p: nat)
      requires p < proc.Length && NonNegative(proc[..])
      modifies proc
      ensures OneWoken(old(proc[..]), proc[..], cur, chan, p)
    {
      if cur != Some(p) {
        if proc[p].state.Sleeping? && proc[p].chan == chan {
          var min := GetMinAccumulator(p);
          proc[p] := proc[p].(accumulator := min);
          proc[p] := proc[p].(state := Runnable);
        }
      }
    }

    /** wakeup: waking one process may change who has the minimum, but not the minimum the next is given. */
    method WakeSleepers(chan: nat)
      requires NonNegative(proc[..])
      requires cur.Some? ==> cur.value < proc.Length && proc[cur.value].state.Running?
      modifies proc
      ensures proc[..] == Woken(old(proc[..]), chan)
      ensures forall j: nat | j < proc.Length && !(old(proc[j]).state.Sleeping? && old(proc[j]).chan == chan) :: proc[j] == old(proc[j])
      ensures forall j: nat | j < proc.Length && old(proc[j]).state.Sleeping? && old(proc[j]).chan == chan ::
                && proc[j] == old(proc[j]).(state := Runnable, accumulator := proc[j].accumulator)
                && IsMin(old(proc[..]), proc.Length, proc[j].accumulator)
    {
      hide OneWoken, MinAcc, Woken, Partly, NonNegative;
      ghost var was := proc[..];
      PartlyEnds(was, chan);
      var p := 0;
      while p < proc.Length
        invariant 0 <= p <= |was| == proc.Length && proc[..] == Partly(was, chan, p)
      {
        PartlyNonNegative(was, chan, p);
        WakeOne(chan, p);
        PartlyNext(was, chan, p, proc[..], cur);
        p := p + 1;
      }
      WokenLevel(was, chan);
    }

    method WakeAll(chan: nat)
      requires Fair(View())
      modifies proc
      ensures View() == Apply(old(View()), Wakeup(chan)) && Fair(View())
    {
      StepFair(View(), Wakeup(chan));
      FairNonNegative(View());
      WakeSleepers(chan);
    }

    /** fork up to the release of the child's lock; `memory` says whether the copies succeed. */
    method ForkBegin(memory: bool) returns (child: Option<nat>)
      requires Fair(View()) && Free(View())
      modifies proc
      ensures Fair(View())
      ensures (forall c: nat | c < proc.Length :: !old(proc[c]).state.Unused?) ==> child.None? && View() == old(View())
      ensures (exists c: nat :: c < proc.Length && old(proc[c]).state.Unused?) ==>
                exists c: nat :: Enabled(old(View()), ForkAlloc(c)) && Enabled(old(View()), ForkFail(c))
                  && (forall j: nat | j < c :: !old(proc[..])[j].state.Unused?)
                  && child == (if memory then Some(c) else None)
                  && (memory ==> Begun(old(proc[..]), proc[..], cur.value, c))
                  && (!memory ==> proc[c].state.Unused? && forall j: nat | j < proc.Length && j != c :: proc[j] == old(proc[..])[j])
                  && View() == Apply(old(View()), if memory then ForkAlloc(c) else ForkFail(c))
    {
      hide Fair, LeastSeen, MinAcc, IsMin;
      FairNonNegative(View());
      var c := 0;
      while c < proc.Length && !proc[c].state.Unused?
        invariant 0 <= c <= proc.Length && forall j: nat | j < c :: !proc[j].state.Unused?
      {
        c := c + 1;
      }
      if c == proc.Length {
        return None;
      }
      StepFair(View(), if memory then ForkAlloc(c) else ForkFail(c));
      ghost var was := proc[..];
      proc[c] := proc[c].(state := Used, priority := DEFAULT_PRIORITY, forking := None);
      var min := GetMinAccumulator(c);
      SameMin(was, proc[..], c, min);
      proc[c] := proc[c].(accumulator := min);
      if memory {
        proc[cur.value] := proc[cur.value].(forking := Some(c));
        child := Some(c);
      } else {
        proc[c] := Freed(proc[c]);
        child := None;
      }
      ghost var step := if memory then ForkAlloc(c) else ForkFail(c);
      assert proc[..] == Apply(old(View()), step).procs;
      assert memory ==> Begun(was, proc[..], cur.value, c) by {
        MinAccIsMin(was, c, min);
      }
    }

    method ForkEnd()
      requires Fair(View()) && Enabled(View(), ForkRun)
      modifies proc
      ensures View() == Apply(old(View()), ForkRun) && Fair(View())
      ensures var n, c := cur.value, old(proc[cur.value]).forking.value;
              c != n && proc[..] == old(proc[..])[c := old(proc[..])[c].(state := Runnable)][n := old(proc[n]).(forking := None)]
    {
      StepFair(View(), ForkRun);
      assert ProcOk(proc[..], cur.value);
      var c := proc[cur.value].forking.value;
      proc[c] := proc[c].(state := Runnable);
      proc[cur.value] := proc[cur.value].(forking := None);
    }

    method ExitProcess()
      requires Fair(View()) && Enabled(View(), Exit)
      modifies this`cur, proc
      ensures View() == Apply(old(View()), Exit) && Fair(View())
      ensures var n := old(cur).value; cur.None? && proc[..] == old(proc[..])[n := old(proc[n]).(state := Zombie)]
    {
      StepFair(View(), Exit);
      proc[cur.value] := proc[cur.value].(state := Zombie);
      cur := None;
    }

    method FreeProc(c: nat)
      requires Fair(View()) && Enabled(View(), Reap(c))
      modifies proc
      ensures View() == Apply(old(View()), Reap(c)) && Fair(View())
      ensures proc[..] == old(proc[..])[c := old(proc[c]).(state := Unused, chan := 0)]
    {
      StepFair(View(), Reap(c));
      proc[c] := proc[c].(chan := 0, state := Unused);
    }

    method SetPsPriority(priority: int) returns (r: int)
      requires Fair(View()) && Free(View())
      modifies proc
      ensures r == if 1 <= priority <= 10 then 0 else -1
      ensures View() == Apply(old(View()), SetPriority(priority)) && Fair(View())
      ensures r == -1 ==> proc[..] == old(proc[..])
      ensures r == 0 ==> proc[..] == old(proc[..])[cur.value := old(proc[cur.value]).(priority := priority)]
    {
      StepFair(View(), SetPriority(priority));
      if priority < 1 || priority > 10 {
        return -1;
      }
      proc[cur.value] := proc[cur.value].(priority := priority);
      return 0;
    }
  }

  /** Process n has started a child in slot c: not runnable yet, level with the least, at priority 5. */
  ghost predicate Begun(was: seq<Proc>, now: seq<Proc>, n: nat, c: nat) {
    && |was| == |now| && n < |was| && c < |was| && c != n
    && now[c].state.Used? && now[c].priority == 5 && IsMin(was, c, now[c].accumulator)
    && now[n] == was[n].(forking := Some(c))
    && forall j: nat | j < |was| && j != c && j != n :: now[j] == was[j]
  }

  lemma WokenLevel(was: seq<Proc>, chan: nat)
    requires NonNegative(was)
    ensures IsMin(was, |was|, MinAcc(was, |was|))
    ensures forall j: nat | j < |was| && !(was[j].state.Sleeping? && was[j].chan == chan) :: Woken(was, chan)[j] == was[j]
    ensures forall j: nat | j < |was| && was[j].state.Sleeping? && was[j].chan == chan ::
              Woken(was, chan)[j] == was[j].(state := Runnable, accumulator := MinAcc(was, |was|))
  {
    MinAccIsMin(was, |was|, MinAcc(was, |was|));
  }

  lemma MinUnique(procs: seq<Proc>, except: nat, m: int, n: int)
    requires IsMin(procs, except, m) && IsMin(procs, except, n)
    ensures m == n
  {
  }

  /** The table when wakeup's loop has passed the first p processes. */
  ghost function Partly(was: seq<Proc>, chan: nat, p: nat): seq<Proc>
    requires p <= |was|
  {
    Woken(was, chan)[..p] + was[p..]
  }

  lemma MinAccSign(procs: seq<Proc>)
    ensures NonNegative(procs) ==> MinAcc(procs, |procs|) >= 0
  {
    if NonNegative(procs) {
      MinAccIsMin(procs, |procs|, MinAcc(procs, |procs|));
    }
  }

  lemma PartlyEnds(was: seq<Proc>, chan: nat)
    ensures Partly(was, chan, 0) == was && Partly(was, chan, |was|) == Woken(was, chan)
  {
  }

  /** Half-way through wakeup, the minimum is still that of the processes active before it. */
  lemma HalfWoken(was: seq<Proc>, chan: nat, p: nat)
    requires NonNegative(was) && p < |was| && was[p].state.Sleeping?
    ensures var now := Partly(was, chan, p);
            NonNegative(now) && IsMin(now, p, MinAcc(was, |was|))
  {
    hide LeastSeen;
    var m := MinAcc(was, |was|);
    MinAccIsMin(was, |was|, m);
    var now := Partly(was, chan, p);
    forall j: nat
      ensures ActiveAt(was, j) ==> ActiveAt(now, j) && now[j].accumulator == was[j].accumulator && j != p && j != |was|
      ensures ActiveAt(now, j) ==> now[j].accumulator == m || ActiveAt(was, j)
    {
    }
    if k: nat :| k != |was| && ActiveAt(was, k) && was[k].accumulator == m {
      assert ActiveAt(now, k) && k != p;
    }
    assert m >= 0;
  }

  lemma PartlyNonNegative(was: seq<Proc>, chan: nat, p: nat)
    requires NonNegative(was) && p <= |was|
    ensures NonNegative(Partly(was, chan, p))
  {
    MinAccSign(was);
  }

  lemma PartlyNext(was: seq<Proc>, chan: nat, p: nat, after: seq<Proc>, cur: Option<nat>)
    requires NonNegative(was) && p < |was| && OneWoken(Partly(was, chan, p), after, cur, chan, p)
    requires cur.Some? ==> cur.value < |was| && was[cur.value].state.Running?
    ensures after == Partly(was, chan, p + 1)
  {
    hide LeastSeen, MinAcc;
    if was[p].state.Sleeping? && was[p].chan == chan {
      HalfWoken(was, chan, p);
      MinUnique(Partly(was, chan, p), p, after[p].accumulator, MinAcc(was, |was|));
    }
  }

  lemma SameMin(was: seq<Proc>, now: seq<Proc>, c: nat, m: int)
    requires NonNegative(was) && c < |was| == |now| && forall j: nat | j < |was| && j != c :: now[j] == was[j]
    requires IsMin(now, c, m)
    ensures m == MinAcc(was, c)
  {
    assert forall j: nat :: j != c ==> (ActiveAt(was, j) <==> ActiveAt(now, j));
    MinAccIsMin(was, c, m);
  }
}
