/** The pipeline cannot deadlock, and every step but an idle poll brings it nearer its end. */
module PipelineProgress {
  import opened Pipeline
  import opened PipelineFlow

  predicate InputReady(s: State, p: nat) {
    p < |s.inputs| && s.inputs[p].readSem > 0
  }

  predicate AllDone(s: State) {
    forall p: nat | p < |s.isDone| :: s.isDone[p]
  }

  ghost predicate NothingToFind(s: State) {
    !AllDone(s) && forall p: nat :: !InputReady(s, p)
  }

  predicate IsPoll(d: DispatcherPc, step: Step) {
    step.Skip? || step.Engage? || step.TryFail? || (step.NextPass? && d.Look? && !d.allDone)
  }

  /** A step of the dispatcher's loop while no message can be had and not all producers are done. */
  ghost predicate IdlePoll(s: State, step: Step) {
    IsPoll(s.dispatcher, step) && NothingToFind(s)
  }

  ghost predicate CanMove(s: State) {
    exists step: Step :: Enabled(s, step) && !IdlePoll(s, step)
  }

  // --- no deadlock -----------------------------------------------------------------------

  predicate ScreenWaits(s: State) {
    s.screen.Blank? && s.output.readSem == 0
  }

  predicate EditorWaits(s: State, c: nat) {
    c < |s.middle| == |s.editors| && s.editors[c].Idle? && s.middle[c].readSem == 0
  }

  lemma MovesBy(s: State, step: Step)
    requires Enabled(s, step) && !IsPoll(s.dispatcher, step)
    ensures CanMove(s)
  {
    assert !IdlePoll(s, step);
  }

  lemma ScreenMoves(s: State)
    requires Sound(s) && !s.screen.Over?
    ensures CanMove(s) || ScreenWaits(s)
  {
    hide InputOk, ProducerOk, MiddleOk, NothingToFind;
    var step := match s.screen
      case Fetching => ScreenTake
      case Freeing(_) => ScreenFree
      case Showing(_) => ScreenShow
      case _ => ScreenEnter;
    assert ScreenWaits(s) || Enabled(s, step);
    assert !IdlePoll(s, step);
  }

  /** With the screen waiting, its queue has room unless some co-editor is already at it. */
  lemma HolderMoves(s: State, c: nat)
    requires Sound(s) && c < CATEGORIES && ScreenWaits(s) && s.editors[c].Holding?
    ensures CanMove(s)
  {
    hide InputOk, ProducerOk, MiddleOk, NothingToFind, CanMove;
    var step := if s.editors[0].Putting? then EditorInsert(0) else if s.editors[1].Putting? then EditorInsert(1)
                else if s.editors[2].Putting? then EditorInsert(2) else if s.editors[0].Posting? then EditorAnnounce(0)
                else if s.editors[1].Posting? then EditorAnnounce(1) else if s.editors[2].Posting? then EditorAnnounce(2)
                else EditorAdmit(c);
    MovesBy(s, step);
  }

  lemma EditorMoves(s: State, c: nat)
    requires Sound(s) && c < CATEGORIES && ScreenWaits(s)
    ensures CanMove(s) || s.editors[c].Stopped? || EditorWaits(s, c)
  {
    hide InputOk, ProducerOk, OutputOk, NothingToFind, CanMove;
    assert MiddleOk(s.middle[c], s.dispatcher, s.editors[c], c);
    var step := match s.editors[c]
      case Taking => EditorTake(c)
      case Releasing(_) => EditorFree(c)
      case Putting(_) => EditorInsert(c)
      case Posting(_) => EditorAnnounce(c)
      case _ => EditorEnter(c);
    if s.editors[c].Holding? {
      HolderMoves(s, c);
    } else if !s.editors[c].Stopped? && !EditorWaits(s, c) {
      MovesBy(s, step);
    }
  }

  /** With the screen waiting and no co-editor able to move, some co-editor waits for a message. */
  lemma SomeEditorWaits(s: State)
    requires Sound(s) && ScreenWaits(s) && !CanMove(s)
    ensures exists c: nat :: c < CATEGORIES && EditorWaits(s, c)
    ensures forall c: nat | c < CATEGORIES :: s.editors[c].Stopped? || EditorWaits(s, c)
  {
    hide InputOk, ProducerOk, NothingToFind, MiddleOk, CanMove;
    EditorMoves(s, 0);
    EditorMoves(s, 1);
    EditorMoves(s, 2);
    assert EditorWaits(s, 0) || EditorWaits(s, 1) || EditorWaits(s, 2);
    forall c: nat | c < CATEGORIES
      ensures s.editors[c].Stopped? || EditorWaits(s, c)
    {
      EditorMoves(s, c);
    }
  }

  /** A waiting co-editor's queue is empty, so there is room in it. */
  lemma RoomInMiddle(s: State, c: nat)
    requires Sound(s) && c < CATEGORIES && EditorWaits(s, c) && !PostingTo(s.dispatcher, c) && !PuttingTo(s.dispatcher, c)
    ensures s.middle[c].items == [] && s.middle[c].writeSem > 0 && !ClosedTo(s.dispatcher, c)
  {
    assert MiddleOk(s.middle[c], s.dispatcher, s.editors[c], c);
  }

  /** A co-editor stops only after its DONE. */
  lemma StoppedClosed(s: State, c: nat)
    requires Sound(s) && c < CATEGORIES && s.editors[c].Stopped?
    ensures ClosedTo(s.dispatcher, c)
  {
    assert MiddleOk(s.middle[c], s.dispatcher, s.editors[c], c);
  }

  /** The dispatcher, having something to pass on. */
  lemma GiverMoves(s: State)
    requires Sound(s) && ScreenWaits(s) && !s.dispatcher.Look? && !s.dispatcher.Try?
    ensures CanMove(s)
  {
    hide ProducerOk, MiddleOk, OutputOk, NothingToFind, CanMove;
    if !CanMove(s) {
      SomeEditorWaits(s);
      var d := s.dispatcher;
      if d.TakeFrom? || d.Release? {
        assert InputOk(s.inputs[d.i], s.producers[d.i], d, s.isDone[d.i], d.i);
      }
      var step := match d
        case TakeFrom(_) => TakeOne
        case Release(_, _) => FreeSlot
        case GiveWait(_, _) => GiveAdmit
        case GivePut(_, _) => GiveInsert
        case GivePost(_, _) => GiveAnnounce
        case CloseWait(_) => CloseAdmit
        case ClosePut(_) => CloseInsert
        case _ => CloseAnnounce;
      if d.GiveWait? || d.CloseWait? {
        var c := if d.GiveWait? then d.msg.category else d.c;
        if s.editors[c].Stopped? {
          StoppedClosed(s, c);
        } else {
          RoomInMiddle(s, c);
        }
      }
      if d.Closed? {
        var c: nat :| c < CATEGORIES && EditorWaits(s, c);
        RoomInMiddle(s, c);
      }
      MovesBy(s, step);
    }
  }

  /** A producer that is not done, while the dispatcher has nothing of it in hand. */
  lemma ProducerMoves(s: State, p: nat)
    requires Sound(s) && p < |s.producers| && !s.isDone[p] && !InputReady(s, p)
    requires s.dispatcher.Look? || s.dispatcher.Try?
    ensures CanMove(s)
  {
    hide ProducerOk, MiddleOk, OutputOk, NothingToFind, CanMove;
    var r := s.producers[p];
    assert InputOk(s.inputs[p], r, s.dispatcher, s.isDone[p], p);
    var step := match r.pc
      case Ready => if r.left > 0 then Make(p, 0) else MakeDone(p)
      case Want(_) => Admit(p)
      case Has(_) => Insert(p)
      case _ => Announce(p);
    MovesBy(s, step);
  }

  /** The dispatcher in its loop, with something to find. */
  lemma LookerMoves(s: State)
    requires Sound(s) && (s.dispatcher.Look? || s.dispatcher.Try?) && !NothingToFind(s)
    ensures CanMove(s)
  {
    hide InputOk, ProducerOk, MiddleOk, OutputOk, NothingToFind;
    var d := s.dispatcher;
    var step := if d.Try? then (if s.inputs[d.i].readSem > 0 then TryTake else TryFail)
                else if d.i == |s.producers| then NextPass
                else if s.isDone[d.i] && IsBufferEmpty(s.inputs[d.i]) then Skip else Engage;
    assert Enabled(s, step) && !IdlePoll(s, step);
  }

  /** Until the screen manager has finished, some thread can take a step that is not an idle poll. */
  lemma NoDeadlock(s: State)
    requires Sound(s) && !s.screen.Over?
    ensures CanMove(s)
  {
    hide InputOk, ProducerOk, MiddleOk, OutputOk, NothingToFind, CanMove;
    ScreenMoves(s);
    if ScreenWaits(s) {
      if !s.dispatcher.Look? && !s.dispatcher.Try? {
        GiverMoves(s);
      } else if !NothingToFind(s) {
        LookerMoves(s);
      } else {
        var p := NotDone(s);
        ProducerMoves(s, p);
      }
    }
  }

  lemma NotDone(s: State) returns (p: nat)
    requires NothingToFind(s)
    ensures p < |s.isDone| && !s.isDone[p] && !InputReady(s, p)
  {
    p :| p < |s.isDone| && !s.isDone[p];
  }

  // --- the remaining work ----------------------------------------------------------------

  /** Steps a producer has before it, not counting what others do with its messages. */
  function ProducerWork(r: Producer): nat {
    match r.pc
    case Ready => r.left * 20 + 20
    case Want(m) => if m.Done? then 19 else r.left * 20 + 39
    case Has(m) => if m.Done? then 18 else r.left * 20 + 38
    case Post(m) => if m.Done? then 1 else r.left * 20 + 21
    case Finished => 0
  }

  function DispatcherWork(d: DispatcherPc): int {
    match d
    case Look(_, _) => 40
    case Try(_) => 40
    case TakeFrom(_) => 39
    case Release(_, _) => 54
    case GiveWait(_, _) => 53
    case GivePut(_, _) => 52
    case GivePost(_, _) => 41
    case CloseWait(c) => (CATEGORIES - c) * 13
    case ClosePut(c) => (CATEGORIES - c) * 13 - 1
    case ClosePost(c) => (CATEGORIES - 1 - c) * 13 + 1
    case Closed => 0
  }

  function EditorWork(e: EditorPc): int {
    match e
    case Idle => 0
    case Taking => -1
    case Releasing(_) => 8
    case Holding(_) => 7
    case Putting(_) => 6
    case Posting(_) => 1
    case Stopped => 0
  }

  function ScreenWork(pc: ScreenPc): int {
    match pc
    case Blank => 0
    case Fetching => -1
    case Freeing(_) => 2
    case Showing(_) => 1
    case Over => 0
  }

  function InputsWork(producers: seq<Producer>, inputs: seq<Queue>): nat
    requires |producers| == |inputs|
  {
    if producers == [] then 0
    else ProducerWork(producers[0]) + 16 * |inputs[0].items| + InputsWork(producers[1..], inputs[1..])
  }

  function MiddleWork(s: State, c: nat): int
    requires c < |s.middle| && c < |s.editors|
  {
    10 * |s.middle[c].items| + EditorWork(s.editors[c])
  }

  function Work(s: State): int
    requires Formed(s)
  {
    InputsWork(s.producers, s.inputs) + DispatcherWork(s.dispatcher)
    + MiddleWork(s, 0) + MiddleWork(s, 1) + MiddleWork(s, 2)
    + 4 * |s.output.items| + ScreenWork(s.screen)
  }

  lemma {:induction false} InputsUpdate(producers: seq<Producer>, inputs: seq<Queue>, p: nat, r: Producer, q: Queue)
    requires |producers| == |inputs| && p < |producers|
    ensures InputsWork(producers[p := r], inputs[p := q])
            == InputsWork(producers, inputs) - ProducerWork(producers[p]) - 16 * |inputs[p].items| + ProducerWork(r) + 16 * |q.items|
    decreases |producers|
  {
    if p > 0 {
      assert producers[p := r][1..] == producers[1..][p - 1 := r];
      assert inputs[p := q][1..] == inputs[1..][p - 1 := q];
      InputsUpdate(producers[1..], inputs[1..], p - 1, r, q);
    } else {
      assert producers[0 := r][1..] == producers[1..] && inputs[0 := q][1..] == inputs[1..];
    }
  }

  lemma WorkNonNegative(s: State)
    requires Sound(s)
    ensures Work(s) >= 0
  {
    hide InputOk, ProducerOk;
    forall c: nat | c < CATEGORIES
      ensures MiddleWork(s, c) >= 0
    {
      assert MiddleOk(s.middle[c], s.dispatcher, s.editors[c], c);
    }
  }

  lemma ProducerWorks(s: State, step: Step)
    requires Sound(s) && Enabled(s, step) && ByProducer(step)
    ensures Work(Apply(s, step)) < Work(s)
  {
    hide InputOk, DispatcherOk, MiddleOk, OutputOk, InputsWork;
    var f, p := Apply(s, step), step.p;
    InputsUpdate(s.producers, s.inputs, p, f.producers[p], f.inputs[p]);
    assert f.producers == s.producers[p := f.producers[p]] && f.inputs == s.inputs[p := f.inputs[p]];
    assert ProducerOk(s.producers[p], p);
  }

  lemma LoopWorks(s: State, step: Step)
    requires Sound(s) && Enabled(s, step) && ByLoop(step)
    ensures Work(Apply(s, step)) + (if IsPoll(s.dispatcher, step) then 0 else 1) <= Work(s)
  {
    hide InputOk, ProducerOk, MiddleOk, OutputOk, InputsWork;
    var f, d := Apply(s, step), s.dispatcher;
    if d.i < |s.producers| {
      InputsUpdate(s.producers, s.inputs, d.i, f.producers[d.i], f.inputs[d.i]);
      assert f.producers == s.producers[d.i := f.producers[d.i]] && f.inputs == s.inputs[d.i := f.inputs[d.i]];
    }
  }

  lemma GiverWorks(s: State, step: Step)
    requires Sound(s) && Enabled(s, step) && ByGiving(step)
    ensures Work(Apply(s, step)) < Work(s)
  {
    hide InputOk, ProducerOk, MiddleOk, OutputOk, InputsWork;
  }

  lemma CloserWorks(s: State, step: Step)
    requires Sound(s) && Enabled(s, step) && ByClosing(step)
    ensures Work(Apply(s, step)) < Work(s)
  {
    hide InputOk, ProducerOk, MiddleOk, OutputOk, InputsWork;
  }

  lemma TakerWorks(s: State, step: Step)
    requires Sound(s) && Enabled(s, step) && (step.EditorEnter? || step.EditorTake? || step.EditorFree?)
    ensures Work(Apply(s, step)) < Work(s)
  {
    hide InputOk, ProducerOk, MiddleOk, OutputOk, InputsWork;
  }

  lemma PasserWorks(s: State, step: Step)
    requires Sound(s) && Enabled(s, step) && (step.EditorAdmit? || step.EditorInsert? || step.EditorAnnounce?)
    ensures Work(Apply(s, step)) < Work(s)
  {
    hide InputOk, ProducerOk, MiddleOk, OutputOk, InputsWork;
  }

  lemma ScreenWorks(s: State, step: Step)
    requires Sound(s) && Enabled(s, step) && ByScreen(step)
    ensures Work(Apply(s, step)) < Work(s)
  {
    hide InputOk, ProducerOk, MiddleOk, OutputOk, InputsWork;
  }

  /** Every step but a poll does some of the remaining work, and a poll undoes none. */
  lemma StepWorks(s: State, step: Step)
    requires Sound(s) && Enabled(s, step)
    ensures Work(Apply(s, step)) + (if IsPoll(s.dispatcher, step) then 0 else 1) <= Work(s)
  {
    hide InputOk, ProducerOk, MiddleOk, OutputOk, Work, Apply;
    if ByProducer(step) {
      ProducerWorks(s, step);
    } else if ByLoop(step) {
      LoopWorks(s, step);
    } else if step.EditorEnter? || step.EditorTake? || step.EditorFree? {
      TakerWorks(s, step);
    } else if ByEditor(step) {
      PasserWorks(s, step);
    } else if ByClosing(step) {
      CloserWorks(s, step);
    } else if ByScreen(step) {
      ScreenWorks(s, step);
    } else {
      GiverWorks(s, step);
    }
  }

  // --- polls that lead somewhere ------------------------------------------------------------

  /** The first producer at or after k whose buffer has a message to take, or |inputs|. */
  function FirstReady(inputs: seq<Queue>, k: nat): (r: nat)
    requires k <= |inputs|
    ensures k <= r <= |inputs|
    ensures r < |inputs| ==> inputs[r].readSem > 0
    ensures forall j: nat | k <= j < r :: inputs[j].readSem == 0
    decreases |inputs| - k
  {
    if k == |inputs| || inputs[k].readSem > 0 then k else FirstReady(inputs, k + 1)
  }

  /** Polls before the dispatcher takes a message, or before it leaves its loop. */
  function PollDistance(d: DispatcherPc, inputs: seq<Queue>): int {
    var n := |inputs|;
    var j := FirstReady(inputs, 0);
    if d.Look? || d.Try? then
      var at := if d.Look? then 2 * d.i else 2 * d.i + 1;
      if j < n then (if at <= 2 * j + 1 then 2 * j + 1 - at else 2 * n + 1 - at + 2 * j + 1)
      else 2 * n - at + if d.Look? && d.allDone then 0 else 2 * n + 1
    else 0
  }

  lemma DistanceNonNegative(s: State)
    requires Sound(s)
    ensures PollDistance(s.dispatcher, s.inputs) >= 0
  {
  }

  /** Where a poll leaves the dispatcher. */
  lemma PollTo(s: State, step: Step)
    requires Enabled(s, step) && IsPoll(s.dispatcher, step)
    ensures var d, f := s.dispatcher, Apply(s, step);
            && f.inputs == s.inputs
            && (d.Look? || d.Try?)
            && f.dispatcher == (if d.Try? then Look(d.i + 1, false)
                                else if d.i == |s.inputs| then Look(0, true)
                                else if s.isDone[d.i] && IsBufferEmpty(s.inputs[d.i]) then Look(d.i + 1, d.allDone)
                                else Try(d.i))
            && (d.Try? ==> s.inputs[d.i].readSem == 0)
            && (d.Look? && d.i == |s.inputs| ==> !d.allDone)
  {
  }

  /** A poll that is not idle comes nearer to a message, or to the way out. */
  lemma PollAdvances(s: State, step: Step)
    requires Sound(s) && Enabled(s, step) && IsPoll(s.dispatcher, step) && !NothingToFind(s)
    ensures var f := Apply(s, step); PollDistance(f.dispatcher, f.inputs) < PollDistance(s.dispatcher, s.inputs)
  {
    hide ProducerOk, MiddleOk, OutputOk, DoneLast, AllFrom, EndsDone, SentDone, Apply, Enabled;
    PollTo(s, step);
    var d, j := s.dispatcher, FirstReady(s.inputs, 0);
    if j < |s.inputs| {
      assert InputOk(s.inputs[j], s.producers[j], d, s.isDone[j], j);
    }
    if d.i < |s.inputs| {
      assert InputOk(s.inputs[d.i], s.producers[d.i], d, s.isDone[d.i], d.i);
    }
  }

  /** Every step that is not an idle poll decreases the pair (Work, PollDistance), whose members are
      never negative; an idle poll does no harm to the first. */
  lemma Progress(s: State, step: Step)
    requires Sound(s) && Enabled(s, step)
    ensures Sound(Apply(s, step)) && Work(Apply(s, step)) >= 0
    ensures var f := Apply(s, step);
            && Work(f) <= Work(s)
            && PollDistance(f.dispatcher, f.inputs) >= 0
            && (IdlePoll(s, step) || Work(f) < Work(s) || PollDistance(f.dispatcher, f.inputs) < PollDistance(s.dispatcher, s.inputs))
  {
    hide InputOk, ProducerOk, MiddleOk, OutputOk, Work, PollDistance, Apply;
    StepSound(s, step);
    StepWorks(s, step);
    WorkNonNegative(Apply(s, step));
    DistanceNonNegative(Apply(s, step));
    if IsPoll(s.dispatcher, step) && !IdlePoll(s, step) {
      PollAdvances(s, step);
    }
  }

  // --- whole runs -----------------------------------------------------------------------

  /** The steps of a run that are not polls. */
  function Steps(s: State, run: seq<Step>): nat
    requires IsRun(s, run)
    decreases |run|
  {
    if run == [] then 0 else (if IsPoll(s.dispatcher, run[0]) then 0 else 1) + Steps(Apply(s, run[0]), run[1..])
  }

  lemma {:induction false} RunWorks(s: State, run: seq<Step>)
    requires Sound(s) && IsRun(s, run)
    ensures Steps(s, run) <= Work(s)
    decreases |run|
  {
    if run == [] {
      WorkNonNegative(s);
    } else {
      StepSound(s, run[0]);
      StepWorks(s, run[0]);
      RunWorks(Apply(s, run[0]), run[1..]);
    }
  }

  function Messages(producers: seq<Producer>): nat {
    if producers == [] then 0 else producers[0].total + Messages(producers[1..])
  }

  lemma {:induction false} FirstWork(producers: seq<Producer>, inputs: seq<Queue>)
    requires |producers| == |inputs|
    requires forall p: nat | p < |producers| :: producers[p].pc.Ready? && producers[p].left == producers[p].total && inputs[p].items == []
    ensures InputsWork(producers, inputs) == 20 * (Messages(producers) + |producers|)
    decreases |producers|
  {
    if producers != [] {
      FirstWork(producers[1..], inputs[1..]);
    }
  }

  /** Deadlock freedom and termination: in every reachable state before the end some thread has a step
      that is not an idle poll, and a run makes at most 20 steps for each message and producer, and 40
      more, apart from polls. */
  lemma RunProgress(s: State, run: seq<Step>)
    requires Initial(s) && IsRun(s, run)
    ensures !After(s, run).screen.Over? ==> CanMove(After(s, run))
    ensures Steps(s, run) <= 20 * (Messages(s.producers) + |s.producers|) + 40
  {
    hide Sound, CanMove;
    InitialGood(s);
    RunGood(s, run);
    RunWorks(s, run);
    FirstWork(s.producers, s.inputs);
    if !After(s, run).screen.Over? {
      NoDeadlock(After(s, run));
    }
  }
}
