/** What the accumulator scheduler guarantees over whole runs: spread, proportional share, bounded wait. */
module Fairness {
  import opened Options
  import opened Scheduler

  predicate IsRun(s: State, run: seq<Step>)
    decreases |run|
  {
    run == [] || (Enabled(s, run[0]) && IsRun(Apply(s, run[0]), run[1..]))
  }

  function After(s: State, run: seq<Step>): State
    requires IsRun(s, run)
    decreases |run|
  {
    if run == [] then s else After(Apply(s, run[0]), run[1..])
  }

  lemma {:induction false} RunFair(s: State, run: seq<Step>)
    requires Fair(s) && IsRun(s, run)
    ensures Fair(After(s, run))
    decreases |run|
  {
    if run != [] {
      StepFair(s, run[0]);
      RunFair(Apply(s, run[0]), run[1..]);
    }
  }

  lemma InitialFair(s: State)
    requires Initial(s)
    ensures Fair(s)
  {
    forall i: nat, j: nat | i < |s.procs| && j < |s.procs|
      ensures Near(s.procs, i, j) && OwnChild(s.procs, i, j) && ProcOk(s.procs, i)
    {
      assert s.procs[i] == s.procs[0] || s.procs[i] == Proc(Unused, 0, 0, 0, None);
    }
  }

  /** From the first process on: no accumulator is negative, the running process has the least
      accumulator among the active ones, and two active accumulators are at most 10 apart. */
  lemma SpreadTheorem(s: State, run: seq<Step>)
    requires Initial(s) && IsRun(s, run)
    ensures var f := After(s, run);
            && (forall i: nat | i < |f.procs| :: f.procs[i].accumulator >= 0)
            && (forall i: nat, j: nat | ActiveAt(f.procs, i) && ActiveAt(f.procs, j) ::
                  f.procs[i].accumulator <= f.procs[j].accumulator + 10)
            && (forall i: nat, j: nat | i < |f.procs| && f.procs[i].state.Running? && ActiveAt(f.procs, j) ::
                  f.procs[i].accumulator <= f.procs[j].accumulator)
  {
    InitialFair(s);
    RunFair(s, run);
    var f := After(s, run);
    FairNonNegative(f);
    forall i: nat, j: nat | ActiveAt(f.procs, i) && ActiveAt(f.procs, j)
      ensures f.procs[i].accumulator <= f.procs[j].accumulator + 10
    {
      assert Near(f.procs, i, j);
    }
    forall i: nat, j: nat | i < |f.procs| && f.procs[i].state.Running? && ActiveAt(f.procs, j)
      ensures f.procs[i].accumulator <= f.procs[j].accumulator
    {
      assert f.cur == Some(i) && LeastOf(f.procs, i, j);
    }
  }

  // --- kill, which is left out of the runs -------------------------------------------------

  /** What kill does to a sleeper: runnable, with the accumulator it went to sleep with. */
  function Killed(s: State, i: nat): State
    requires i < |s.procs| && s.procs[i].state.Sleeping?
  {
    s.(procs := s.procs[i := s.procs[i].(state := Runnable)])
  }

  /** kill keeps the spread exactly when the sleeper's accumulator is still within reach of the others. */
  lemma KillExact(s: State, i: nat)
    requires Fair(s) && i < |s.procs| && s.procs[i].state.Sleeping?
    ensures Fair(Killed(s, i)) <==>
      && (forall j: nat | ActiveAt(s.procs, j) ::
            s.procs[j].accumulator - 10 <= s.procs[i].accumulator <= s.procs[j].accumulator + 10)
      && (s.cur.Some? ==> s.procs[s.cur.value].accumulator <= s.procs[i].accumulator)
  {
    var k := Killed(s, i);
    if forall j: nat | ActiveAt(s.procs, j) ::
         s.procs[j].accumulator - 10 <= s.procs[i].accumulator <= s.procs[j].accumulator + 10 {
      if s.cur.Some? ==> s.procs[s.cur.value].accumulator <= s.procs[i].accumulator {
        forall p: nat, q: nat | p < |k.procs| && q < |k.procs|
          ensures Near(k.procs, p, q) && OwnChild(k.procs, p, q)
        {
          assert Near(s.procs, p, q) && OwnChild(s.procs, p, q);
          assert Active(s.procs[p]) ==> ActiveAt(s.procs, p);
          assert Active(s.procs[q]) ==> ActiveAt(s.procs, q);
        }
        forall j: nat | j < |k.procs|
          ensures ProcOk(k.procs, j) && (k.procs[j].state.Running? <==> k.cur == Some(j))
          ensures k.cur.Some? ==> LeastOf(k.procs, k.cur.value, j)
        {
          assert ProcOk(s.procs, j) && (s.procs[j].state.Running? <==> s.cur == Some(j));
          assert s.cur.Some? ==> LeastOf(s.procs, s.cur.value, j);
        }
      }
    }
    if Fair(k) {
      forall j: nat | ActiveAt(s.procs, j)
        ensures s.procs[j].accumulator - 10 <= s.procs[i].accumulator <= s.procs[j].accumulator + 10
      {
        assert Near(k.procs, i, j) && Near(k.procs, j, i);
      }
      if s.cur.Some? {
        assert LeastOf(k.procs, s.cur.value, i);
      }
    }
  }

  // --- proportional share -------------------------------------------------------------

  /** Process i stays active, at priority v, at every point of the run. */
  predicate Steady(s: State, run: seq<Step>, i: nat, v: int)
    requires IsRun(s, run)
    decreases |run|
  {
    ActiveAt(s.procs, i) && s.procs[i].priority == v && (run == [] || Steady(Apply(s, run[0]), run[1..], i, v))
  }

  /** How many timer ticks of the run are charged to process i. */
  function Ticks(s: State, run: seq<Step>, i: nat): nat
    requires IsRun(s, run)
    decreases |run|
  {
    if run == [] then 0
    else (if run[0].Tick? && s.cur == Some(i) then 1 else 0) + Ticks(Apply(s, run[0]), run[1..], i)
  }

  lemma {:induction false} Charged(s: State, run: seq<Step>, i: nat, v: int)
    requires Fair(s) && IsRun(s, run) && Steady(s, run, i, v)
    ensures ActiveAt(After(s, run).procs, i)
    ensures After(s, run).procs[i].accumulator == s.procs[i].accumulator + Ticks(s, run, i) * v
    decreases |run|
  {
    if run != [] {
      StepFair(s, run[0]);
      OneCharge(s, run[0], i, v);
      Charged(Apply(s, run[0]), run[1..], i, v);
    }
  }

  lemma OneCharge(s: State, step: Step, i: nat, v: int)
    requires Fair(s) && Enabled(s, step) && ActiveAt(s.procs, i) && s.procs[i].priority == v
    requires ActiveAt(Apply(s, step).procs, i)
    ensures Apply(s, step).procs[i].accumulator
            == s.procs[i].accumulator + if step.Tick? && s.cur == Some(i) then v else 0
  {
    hide MinAcc, LeastSeen;
    if step.ForkRun? {
      assert ProcOk(s.procs, s.cur.value);
    }
  }

  /** Two processes that stay active with fixed priorities get CPU in inverse proportion to them,
      within 20 units of charge however long the run. */
  lemma ProportionalShare(s: State, run: seq<Step>, i: nat, a: int, j: nat, b: int)
    requires Fair(s) && IsRun(s, run) && Steady(s, run, i, a) && Steady(s, run, j, b)
    ensures -20 <= Ticks(s, run, i) * a - Ticks(s, run, j) * b <= 20
  {
    Charged(s, run, i, a);
    Charged(s, run, j, b);
    RunFair(s, run);
    var f := After(s, run);
    assert Near(s.procs, i, j) && Near(s.procs, j, i) && Near(f.procs, i, j) && Near(f.procs, j, i);
  }

  // --- bounded wait ------------------------------------------------------------------------

  /** The steps of a segment that nobody joins; a dispatch in it ends in a charged tick, a sleep, an exit or
      an uncharged yield from the kernel. */
  predicate Closed(step: Step) {
    !step.Wakeup? && !step.ForkAlloc? && !step.ForkFail? && !step.ForkRun?
  }

  predicate IsSegment(run: seq<Step>) {
    forall k: nat | k < |run| :: Closed(run[k])
  }

  function Yields(run: seq<Step>): nat {
    if run == [] then 0 else (if run[0].KernelYield? then 1 else 0) + Yields(run[1..])
  }

  function Dispatches(run: seq<Step>): nat {
    if run == [] then 0 else (if run[0].Dispatch? then 1 else 0) + Dispatches(run[1..])
  }

  function ActiveCount(procs: seq<Proc>): nat {
    if procs == [] then 0 else ActiveCount(procs[..|procs| - 1]) + if Active(procs[|procs| - 1]) then 1 else 0
  }

  /** How many dispatches of j may still come before i, by the lexicographic order of the scan. */
  function Gap(procs: seq<Proc>, i: nat, j: nat): nat
    requires i < |procs| && j < |procs|
  {
    var d := procs[i].accumulator - procs[j].accumulator + if j < i then 1 else 0;
    if j == i || !Active(procs[j]) || d < 0 then 0 else d
  }

  /** The dispatch of a running process has been counted already. */
  function Owed(s: State, i: nat, j: nat): nat
    requires i < |s.procs| && j < |s.procs|
  {
    var g := Gap(s.procs, i, j);
    if s.cur == Some(j) && g > 0 then g - 1 else g
  }

  function Debt(s: State, i: nat, k: nat): nat
    requires i < |s.procs| && k <= |s.procs|
  {
    if k == 0 then 0 else Debt(s, i, k - 1) + Owed(s, i, k - 1)
  }

  lemma {:induction false} DebtChange(s: State, s': State, i: nat, n: nat, paid: int, k: nat)
    requires i < |s.procs| == |s'.procs| && k <= |s.procs| && n < |s.procs|
    requires forall j: nat | j < |s.procs| && j != n :: Owed(s', i, j) == Owed(s, i, j)
    requires Owed(s', i, n) + paid <= Owed(s, i, n)
    ensures Debt(s', i, k) + (if n < k then paid else 0) <= Debt(s, i, k)
  {
    if k > 0 {
      DebtChange(s, s', i, n, paid, k - 1);
    }
  }

  /** Each dispatch of another process is paid for out of the debt, which only an uncharged yield raises,
      and by one. */
  lemma StepPays(s: State, i: nat, step: Step)
    requires Fair(s) && Enabled(s, step) && Closed(step) && step != Dispatch(i)
    requires i < |s.procs| && s.procs[i].state.Runnable?
    ensures var s' := Apply(s, step);
            && |s'.procs| == |s.procs| && s'.procs[i] == s.procs[i]
            && Debt(s', i, |s.procs|) + (if step.Dispatch? then 1 else 0)
               <= Debt(s, i, |s.procs|) + if step.KernelYield? then 1 else 0
  {
    var s' := Apply(s, step);
    var n := if step.Dispatch? then step.i else if step.Reap? then step.child else s.cur.value;
    assert ProcOk(s.procs, n);
    if step.Dispatch? {
      assert Before(s.procs, n, i);
    }
    DebtChange(s, s', i, n, if step.Dispatch? then 1 else if step.KernelYield? then -1 else 0, |s.procs|);
  }

  lemma {:induction false} RunPays(s: State, i: nat, run: seq<Step>)
    requires Fair(s) && IsRun(s, run) && IsSegment(run) && Dispatch(i) !in run
    requires i < |s.procs| && s.procs[i].state.Runnable?
    ensures Dispatches(run) <= Debt(s, i, |s.procs|) + Yields(run)
    decreases |run|
  {
    if run != [] {
      StepPays(s, i, run[0]);
      StepFair(s, run[0]);
      assert forall k: nat | k < |run[1..]| :: run[1..][k] == run[k + 1];
      RunPays(Apply(s, run[0]), i, run[1..]);
    }
  }

  lemma {:induction false} DebtBound(s: State, i: nat, k: nat)
    requires Fair(s) && i < |s.procs| && s.procs[i].state.Runnable? && k <= |s.procs|
    ensures Debt(s, i, k) <= 11 * (ActiveCount(s.procs[..k]) - if i < k then 1 else 0)
  {
    if k > 0 {
      DebtBound(s, i, k - 1);
      assert s.procs[..k][..k - 1] == s.procs[..k - 1];
      assert Near(s.procs, i, k - 1);
    }
  }

  /** A runnable process among n active ones is dispatched before the others have been dispatched more than
      11 * (n - 1) times, and once more for each yield that was not charged. */
  lemma WaitWithYields(s: State, i: nat, run: seq<Step>)
    requires Fair(s) && IsRun(s, run) && IsSegment(run)
    requires i < |s.procs| && s.procs[i].state.Runnable?
    ensures Dispatches(run) > 11 * (ActiveCount(s.procs) - 1) + Yields(run) ==> Dispatch(i) in run
  {
    if Dispatch(i) !in run {
      RunPays(s, i, run);
      DebtBound(s, i, |s.procs|);
      assert s.procs[..|s.procs|] == s.procs;
    }
  }

  lemma {:induction false} NoYields(run: seq<Step>)
    requires KernelYield !in run
    ensures Yields(run) == 0
    decreases |run|
  {
    if run != [] {
      NoYields(run[1..]);
    }
  }

  /** Where every dispatch ends in a charged tick, a sleep or an exit, the wait is bounded outright. */
  lemma BoundedWait(s: State, i: nat, run: seq<Step>)
    requires Fair(s) && IsRun(s, run) && IsSegment(run) && KernelYield !in run
    requires i < |s.procs| && s.procs[i].state.Runnable?
    ensures Dispatches(run) > 11 * (ActiveCount(s.procs) - 1) ==> Dispatch(i) in run
  {
    NoYields(run);
    WaitWithYields(s, i, run);
  }

  /** And the scheduler never idles while someone is runnable. */
  lemma SomeoneBest(procs: seq<Proc>, i: nat)
    requires i < |procs| && procs[i].state.Runnable?
    ensures exists best: nat :: IsBest(procs, best)
  {
    var best: nat := i;
    for k := 0 to |procs|
      invariant best < |procs| && procs[best].state.Runnable?
      invariant forall j: nat | j < k && procs[j].state.Runnable? :: Before(procs, best, j)
    {
      if procs[k].state.Runnable? && !Before(procs, best, k) {
        best := k;
      }
    }
    assert IsBest(procs, best);
  }

  // --- runs from the first process on, to states in which a bound fails --------------------------

  /** The table after init has forked once: two processes at priority 5 and accumulator 0. */
  const FORKED: seq<Step> := [Dispatch(0), ForkAlloc(1), ForkRun, KernelYield]

  function Boot(): State {
    State([Proc(Runnable, 0, 5, 0, None), Proc(Unused, 0, 0, 0, None)], None)
  }

  function Pair(): State {
    State([Proc(Runnable, 0, 5, 0, None), Proc(Runnable, 0, 5, 0, None)], None)
  }

  lemma Forked()
    ensures Initial(Boot()) && IsRun(Boot(), FORKED) && After(Boot(), FORKED) == Pair()
  {
    var s0 := Boot();
    assert IsBest(s0.procs, 0);
    var s1 := Apply(s0, Dispatch(0));
    assert s1 == State([Proc(Running, 0, 5, 0, None), Proc(Unused, 0, 0, 0, None)], Some(0));
    MinOf(s1.procs, 1, 0, 0);
    var s2 := Apply(s1, ForkAlloc(1));
    assert s2 == State([Proc(Running, 0, 5, 0, Some(1)), Proc(Used, 0, 5, 0, None)], Some(0));
    var s3 := Apply(s2, ForkRun);
    assert s3 == State([Proc(Running, 0, 5, 0, None), Proc(Runnable, 0, 5, 0, None)], Some(0));
    assert Apply(s3, KernelYield) == Pair();
    assert FORKED[1..] == [ForkAlloc(1), ForkRun, KernelYield] && FORKED[1..][1..] == [ForkRun, KernelYield];
    assert FORKED[1..][1..][1..] == [KernelYield] && FORKED[1..][1..][1..][1..] == [];
  }

  lemma MinOf(procs: seq<Proc>, except: nat, i: nat, m: int)
    requires NonNegative(procs) && i != except && ActiveAt(procs, i) && procs[i].accumulator == m
    requires forall j: nat | j != except && ActiveAt(procs, j) :: m <= procs[j].accumulator
    ensures MinAcc(procs, except) == m
  {
    MinAccIsMin(procs, except, m);
  }

  /** The run in which process 0 is dispatched and yields from the kernel k times over. */
  function KernelLoop(k: nat): seq<Step> {
    if k == 0 then [] else [Dispatch(0), KernelYield] + KernelLoop(k - 1)
  }

  lemma {:induction false} LoopRuns(k: nat)
    ensures IsRun(Pair(), KernelLoop(k)) && Dispatch(1) !in KernelLoop(k) && IsSegment(KernelLoop(k))
    ensures Dispatches(KernelLoop(k)) == k == Yields(KernelLoop(k))
  {
    if k > 0 {
      LoopRuns(k - 1);
      var s, run := Pair(), KernelLoop(k);
      assert run[1..] == [KernelYield] + KernelLoop(k - 1);
      assert run[1..][1..] == KernelLoop(k - 1);
      assert IsBest(s.procs, 0);
      var r := Apply(s, Dispatch(0));
      assert Apply(r, KernelYield) == s;
      assert IsRun(r, run[1..]);
    }
  }

  /** Uncharged yields really do add to the wait: after booting and forking, process 1 can wait through any
      number of dispatches of process 0. */
  lemma KernelYieldsStarve(k: nat)
    ensures Initial(Boot()) && IsRun(Boot(), FORKED) && IsRun(After(Boot(), FORKED), KernelLoop(k))
    ensures Dispatch(1) !in KernelLoop(k) && Dispatches(KernelLoop(k)) == k == Yields(KernelLoop(k))
  {
    Forked();
    LoopRuns(k);
  }

  /** Process 0 asleep since the start, and process 1 with the given accumulator. */
  function OneAwake(acc: int): State {
    State([Proc(Sleeping, 0, 5, 7, None), Proc(Runnable, acc, 5, 0, None)], None)
  }

  /** Process 1 is dispatched and charged k times. */
  function Charges(k: nat): seq<Step> {
    if k == 0 then [] else [Dispatch(1), Tick] + Charges(k - 1)
  }

  lemma {:induction false} ChargesRun(acc: int, k: nat)
    ensures IsRun(OneAwake(acc), Charges(k)) && After(OneAwake(acc), Charges(k)) == OneAwake(acc + 5 * k)
    decreases k
  {
    if k > 0 {
      var s := OneAwake(acc);
      assert IsBest(s.procs, 1);
      assert Apply(Apply(s, Dispatch(1)), Tick) == OneAwake(acc + 5);
      ChargesRun(acc + 5, k - 1);
      TwoSteps(s, Dispatch(1), Tick, Charges(k - 1));
    }
  }

  lemma TwoSteps(s: State, a: Step, b: Step, rest: seq<Step>)
    requires Enabled(s, a) && Enabled(Apply(s, a), b) && IsRun(Apply(Apply(s, a), b), rest)
    ensures var run := [a, b] + rest; IsRun(s, run) && After(s, run) == After(Apply(Apply(s, a), b), rest)
  {
    var run := [a, b] + rest;
    assert run[1..] == [b] + rest && run[1..][1..] == rest;
    assert IsRun(Apply(s, a), run[1..]);
  }

  /** Process 0 goes to sleep, and process 1 runs alone for k charges. */
  function SleepLong(k: nat): seq<Step> {
    [Dispatch(0), Sleep(7)] + Charges(k)
  }

  /** Who is killed in its sleep can come back any distance below the others: after booting and forking, one
      process sleeps while the other is charged k times, and kill leaves them 5 * k apart. */
  lemma KillBreaksSpread(k: nat)
    requires k > 2
    ensures Initial(Boot()) && IsRun(Boot(), FORKED) && IsRun(After(Boot(), FORKED), SleepLong(k))
    ensures After(After(Boot(), FORKED), SleepLong(k)) == OneAwake(5 * k)
    ensures Fair(OneAwake(5 * k)) && !Fair(Killed(OneAwake(5 * k), 0))
  {
    Forked();
    var s := Pair();
    assert IsBest(s.procs, 0);
    assert Apply(Apply(s, Dispatch(0)), Sleep(7)) == OneAwake(0);
    ChargesRun(0, k);
    TwoSteps(s, Dispatch(0), Sleep(7), Charges(k));
    InitialFair(Boot());
    RunFair(Boot(), FORKED);
    RunFair(s, SleepLong(k));
    assert !Near(Killed(OneAwake(5 * k), 0).procs, 1, 0);
  }
}
