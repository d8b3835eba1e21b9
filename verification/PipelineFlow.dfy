/** Nothing is lost, doubled or reordered on the way from a producer to the screen. */
module PipelineFlow {
  import opened Pipeline

  /** The messages of producer p in category c. */
  function Of(ms: seq<Msg>, p: nat, c: nat): seq<Msg> {
    if ms == [] then []
    else (if ms[0].Item? && ms[0].producer == p && ms[0].category == c then [ms[0]] else []) + Of(ms[1..], p, c)
  }

  function Numbers(p: nat, c: nat, n: nat): seq<Msg> {
    seq(n, (k: int) requires 0 <= k < n => Item(p, c, k))
  }

  lemma {:induction false} OfConcat(a: seq<Msg>, b: seq<Msg>, p: nat, c: nat)
    ensures Of(a + b, p, c) == Of(a, p, c) + Of(b, p, c)
    decreases |a|
  {
    if a == [] {
      assert a + b == b;
    } else {
      assert (a + b)[1..] == a[1..] + b;
      OfConcat(a[1..], b, p, c);
    }
  }

  lemma OfOne(m: Msg, p: nat, c: nat)
    ensures Of([m], p, c) == if m.Item? && m.producer == p && m.category == c then [m] else []
  {
    assert [m][1..] == [];
  }

  // --- the path, from the screen back to the producer -----------------------------------

  function ScreenHand(pc: ScreenPc): seq<Msg> {
    if pc.Freeing? || pc.Showing? then [pc.msg] else []
  }

  function EditorHand(e: EditorPc): seq<Msg> {
    if e.Releasing? || e.Holding? || e.Putting? then [e.msg] else []
  }

  function DispatcherHand(d: DispatcherPc): seq<Msg> {
    if d.Release? || d.GiveWait? || d.GivePut? then [d.msg] else []
  }

  function ProducerHand(pc: ProducerPc): seq<Msg> {
    if pc.Want? || pc.Has? then [pc.msg] else []
  }

  function Down(s: State): seq<Msg> {
    s.printed + ScreenHand(s.screen) + s.output.items
  }

  function Mid(q: Queue, e: EditorPc): seq<Msg> {
    EditorHand(e) + q.items
  }

  function Up(d: DispatcherPc, q: Queue, pc: ProducerPc): seq<Msg> {
    DispatcherHand(d) + q.items + ProducerHand(pc)
  }

  predicate Within(s: State, p: nat, c: nat) {
    Formed(s) && p < |s.producers| && c < CATEGORIES
  }

  function UpOf(s: State, p: nat, c: nat): seq<Msg>
    requires Within(s, p, c)
  {
    Of(Up(s.dispatcher, s.inputs[p], s.producers[p].pc), p, c)
  }

  function MidOf(s: State, p: nat, c: nat): seq<Msg>
    requires Within(s, p, c)
  {
    Of(Mid(s.middle[c], s.editors[c]), p, c)
  }

  function DownOf(s: State, p: nat, c: nat): seq<Msg> {
    Of(Down(s), p, c)
  }

  /** Everything producer p has made in category c is on the path, once and in order. */
  predicate Conserved(s: State, p: nat, c: nat)
    requires Within(s, p, c)
  {
    DownOf(s, p, c) + MidOf(s, p, c) + UpOf(s, p, c) == Numbers(p, c, s.producers[p].counts[c])
  }

  /** What a step takes off the front of the producer's part and adds to the co-editor's. */
  function Given(s: State, step: Step, p: nat, c: nat): seq<Msg>
    requires Enabled(s, step)
  {
    if step.GiveInsert? then Of([s.dispatcher.msg], p, c) else []
  }

  /** What a step takes off the front of the co-editor's part and adds to the screen's. */
  function Edited(s: State, step: Step, p: nat, c: nat): seq<Msg>
    requires Enabled(s, step)
  {
    if step.EditorInsert? then Of([s.editors[step.c].msg], p, c) else []
  }

  function Made(s: State, step: Step, p: nat, c: nat): seq<Msg>
    requires Enabled(s, step) && p < |s.producers| && c < CATEGORIES
  {
    if step == Make(p, c) then [Item(p, c, s.producers[p].counts[c])] else []
  }

  lemma StepDown(s: State, step: Step, p: nat, c: nat)
    requires Sound(s) && Enabled(s, step)
    ensures DownOf(Apply(s, step), p, c) == DownOf(s, p, c) + Edited(s, step, p, c)
  {
    hide InputOk, ProducerOk, MiddleOk, OutputOk, DispatcherOk, Of;
    var f := Apply(s, step);
    if step.EditorInsert? {
      var m := s.editors[step.c].msg;
      assert Down(f) == Down(s) + [m];
      OfConcat(Down(s), [m], p, c);
    } else if step.ScreenTake? {
      assert s.output.items == [s.output.items[0]] + s.output.items[1..];
      assert Down(f) == Down(s);
    } else if step.ScreenShow? {
      ShowDown(s, p, c);
    } else {
      assert Down(f) == Down(s);
    }
  }

  lemma ShowDown(s: State, p: nat, c: nat)
    requires Enabled(s, ScreenShow)
    ensures DownOf(Apply(s, ScreenShow), p, c) == DownOf(s, p, c)
  {
    hide Of;
    var f, m, rest := Apply(s, ScreenShow), s.screen.msg, s.output.items;
    assert Down(s) == s.printed + ([m] + rest);
    OfConcat(s.printed, [m] + rest, p, c);
    OfConcat([m], rest, p, c);
    OfConcat(s.printed, [m], p, c);
    OfConcat(s.printed + [m], rest, p, c);
    OfConcat(s.printed, rest, p, c);
    OfOne(m, p, c);
    assert Down(f) == if m.Item? || s.doneCount + 1 == CATEGORIES then (s.printed + [m]) + rest else s.printed + rest;
  }

  lemma GiveMid(s: State, p: nat, c: nat)
    requires Sound(s) && Enabled(s, GiveInsert) && Within(s, p, c)
    ensures var f := Apply(s, GiveInsert);
            Within(f, p, c) && MidOf(f, p, c) == MidOf(s, p, c) + Given(s, GiveInsert, p, c)
  {
    hide InputOk, ProducerOk, MiddleOk, OutputOk, DispatcherOk, Of;
    var f, m := Apply(s, GiveInsert), s.dispatcher.msg;
    OfOne(m, p, c);
    if m.category == c {
      var now := Mid(s.middle[c], s.editors[c]);
      assert Mid(f.middle[c], f.editors[c]) == now + [m];
      OfConcat(now, [m], p, c);
    }
  }

  lemma CloseMid(s: State, p: nat, c: nat)
    requires Sound(s) && Enabled(s, CloseInsert) && Within(s, p, c)
    ensures var f := Apply(s, CloseInsert); Within(f, p, c) && MidOf(f, p, c) == MidOf(s, p, c)
  {
    hide InputOk, ProducerOk, MiddleOk, OutputOk, DispatcherOk, Of;
    var f := Apply(s, CloseInsert);
    if s.dispatcher.c == c {
      var now := Mid(s.middle[c], s.editors[c]);
      assert Mid(f.middle[c], f.editors[c]) == now + [Done];
      OfConcat(now, [Done], p, c);
      OfOne(Done, p, c);
    }
  }

  lemma EditMid(s: State, p: nat, c: nat, x: nat)
    requires Sound(s) && Enabled(s, EditorInsert(x)) && Within(s, p, c)
    ensures var f := Apply(s, EditorInsert(x));
            Within(f, p, c) && Edited(s, EditorInsert(x), p, c) + MidOf(f, p, c) == MidOf(s, p, c)
  {
    hide InputOk, ProducerOk, OutputOk, DispatcherOk, Of;
    var f, m := Apply(s, EditorInsert(x)), s.editors[x].msg;
    OfOne(m, p, c);
    assert MiddleOk(s.middle[x], s.dispatcher, s.editors[x], x);
    if x == c {
      var later := Mid(f.middle[c], f.editors[c]);
      assert Mid(s.middle[c], s.editors[c]) == [m] + later;
      OfConcat([m], later, p, c);
    }
  }

  lemma QuietMid(s: State, step: Step, c: nat)
    requires Enabled(s, step) && Formed(Apply(s, step)) && c < CATEGORIES
    requires !step.GiveInsert? && !step.CloseInsert? && !step.EditorInsert?
    ensures var f := Apply(s, step); Mid(f.middle[c], f.editors[c]) == Mid(s.middle[c], s.editors[c])
  {
    var f := Apply(s, step);
    if step == EditorTake(c) {
      assert s.middle[c].items == [s.middle[c].items[0]] + s.middle[c].items[1..];
      assert Mid(f.middle[c], f.editors[c]) == Mid(s.middle[c], s.editors[c]);
    }
  }

  lemma StepMid(s: State, step: Step, p: nat, c: nat)
    requires Sound(s) && Enabled(s, step) && Within(s, p, c) && Within(Apply(s, step), p, c)
    ensures Edited(s, step, p, c) + MidOf(Apply(s, step), p, c) == MidOf(s, p, c) + Given(s, step, p, c)
  {
    hide InputOk, ProducerOk, MiddleOk, OutputOk, DispatcherOk, Of, Mid, Apply, Enabled;
    if step.GiveInsert? {
      GiveMid(s, p, c);
    } else if step.CloseInsert? {
      CloseMid(s, p, c);
    } else if step.EditorInsert? {
      EditMid(s, p, c, step.c);
    } else {
      QuietMid(s, step, c);
    }
  }

  lemma MakeUp(s: State, step: Step, p: nat, c: nat)
    requires Sound(s) && Enabled(s, step) && Within(s, p, c) && (step.Make? || step.MakeDone?) && step.p == p
    ensures var f := Apply(s, step); Within(f, p, c) && UpOf(f, p, c) == UpOf(s, p, c) + Made(s, step, p, c)
  {
    hide ProducerOk, MiddleOk, OutputOk, DispatcherOk, InputOk, Of;
    var f, now := Apply(s, step), Up(s.dispatcher, s.inputs[p], s.producers[p].pc);
    var m := f.producers[p].pc.msg;
    assert Up(f.dispatcher, f.inputs[p], f.producers[p].pc) == now + [m];
    OfConcat(now, [m], p, c);
    OfOne(m, p, c);
  }

  lemma TakeUp(s: State, p: nat, c: nat)
    requires Sound(s) && Enabled(s, TakeOne) && Within(s, p, c)
    ensures var f := Apply(s, TakeOne); Within(f, p, c) && UpOf(f, p, c) == UpOf(s, p, c)
  {
    hide ProducerOk, MiddleOk, OutputOk, DispatcherOk, Of;
    var f, d := Apply(s, TakeOne), s.dispatcher;
    var now, later := Up(d, s.inputs[p], s.producers[p].pc), Up(f.dispatcher, f.inputs[p], f.producers[p].pc);
    var m, rest := s.inputs[d.i].items[0], s.inputs[d.i].items[1..];
    assert InputOk(s.inputs[d.i], s.producers[d.i], d, s.isDone[d.i], d.i);
    assert s.inputs[d.i].items == [m] + rest;
    if d.i == p {
      assert later == now;
    } else {
      assert later == [m] + now;
      OfConcat([m], now, p, c);
      OfOne(m, p, c);
    }
  }

  lemma DropUp(s: State, step: Step, p: nat, c: nat)
    requires Sound(s) && Enabled(s, step) && Within(s, p, c) && (step.GiveInsert? || (step.FreeSlot? && s.dispatcher.msg.Done?))
    ensures var f := Apply(s, step); Within(f, p, c) && Given(s, step, p, c) + UpOf(f, p, c) == UpOf(s, p, c)
  {
    hide ProducerOk, MiddleOk, OutputOk, DispatcherOk, InputOk, Of;
    var f, m := Apply(s, step), s.dispatcher.msg;
    var later := Up(f.dispatcher, f.inputs[p], f.producers[p].pc);
    assert Up(s.dispatcher, s.inputs[p], s.producers[p].pc) == [m] + later;
    OfConcat([m], later, p, c);
    OfOne(m, p, c);
  }

  lemma QuietUp(s: State, step: Step, p: nat)
    requires Enabled(s, step) && Formed(Apply(s, step)) && p < |s.producers| == |Apply(s, step).producers|
    requires !((step.Make? || step.MakeDone?) && step.p == p) && !step.TakeOne? && !step.GiveInsert?
    requires !(step.FreeSlot? && s.dispatcher.msg.Done?)
    ensures var f := Apply(s, step);
            Up(f.dispatcher, f.inputs[p], f.producers[p].pc) == Up(s.dispatcher, s.inputs[p], s.producers[p].pc)
  {
    var f := Apply(s, step);
    if step == Insert(p) {
      assert Up(f.dispatcher, f.inputs[p], f.producers[p].pc) == Up(s.dispatcher, s.inputs[p], s.producers[p].pc);
    }
  }

  lemma StepUp(s: State, step: Step, p: nat, c: nat)
    requires Sound(s) && Enabled(s, step) && Within(s, p, c) && Within(Apply(s, step), p, c)
    requires |s.producers| == |Apply(s, step).producers|
    ensures Given(s, step, p, c) + UpOf(Apply(s, step), p, c) == UpOf(s, p, c) + Made(s, step, p, c)
  {
    hide ProducerOk, MiddleOk, OutputOk, DispatcherOk, InputOk, Of, Up, Apply;
    if (step.Make? || step.MakeDone?) && step.p == p {
      MakeUp(s, step, p, c);
    } else if step.TakeOne? {
      TakeUp(s, p, c);
    } else if step.GiveInsert? || (step.FreeSlot? && s.dispatcher.msg.Done?) {
      DropUp(s, step, p, c);
    } else {
      QuietUp(s, step, p);
    }
  }

  lemma StepConserved(s: State, step: Step, p: nat, c: nat)
    requires Sound(s) && Enabled(s, step) && Within(s, p, c) && Conserved(s, p, c)
    ensures Within(Apply(s, step), p, c) && Conserved(Apply(s, step), p, c)
  {
    StepDown(s, step, p, c);
    StepMid(s, step, p, c);
    StepUp(s, step, p, c);
    hide InputOk, ProducerOk, MiddleOk, OutputOk, DispatcherOk, Of, DownOf, MidOf, UpOf, Given, Edited;
    var f := Apply(s, step);
    Shift(DownOf(s, p, c), MidOf(s, p, c), UpOf(s, p, c), DownOf(f, p, c), MidOf(f, p, c), UpOf(f, p, c),
          Edited(s, step, p, c), Given(s, step, p, c), Made(s, step, p, c));
    CountMade(s, step, p, c);
  }

  lemma CountMade(s: State, step: Step, p: nat, c: nat)
    requires Enabled(s, step) && Within(s, p, c) && Within(Apply(s, step), p, c)
    ensures Numbers(p, c, Apply(s, step).producers[p].counts[c]) == Numbers(p, c, s.producers[p].counts[c]) + Made(s, step, p, c)
  {
  }

  lemma Shift<T>(a: seq<T>, b: seq<T>, c: seq<T>, a': seq<T>, b': seq<T>, c': seq<T>, x: seq<T>, y: seq<T>, z: seq<T>)
    requires a' == a + x && x + b' == b + y && y + c' == c + z
    ensures a' + b' + c' == a + b + c + z
  {
    calc {
      a' + b' + c';
      a + (x + b') + c';
      a + (b + y) + c';
      a + b + (y + c');
      a + b + (c + z);
      a + b + c + z;
    }
  }

  // --- what is printed -------------------------------------------------------------------

  predicate Known(m: Msg, n: nat) {
    m.Item? ==> m.producer < n && m.category < CATEGORIES
  }

  predicate AllKnown(ms: seq<Msg>, n: nat) {
    forall k: nat | k < |ms| :: Known(ms[k], n)
  }

  /** No message on the path is anyone else's, and the only DONE printed is the last line. */
  ghost predicate PrintOk(s: State) {
    && |s.middle| == |s.editors| == CATEGORIES
    && AllKnown(Down(s), |s.producers|) && AllKnown(DispatcherHand(s.dispatcher), |s.producers|)
    && (forall c: nat | c < CATEGORIES :: AllKnown(Mid(s.middle[c], s.editors[c]), |s.producers|))
    && Dones(s.printed) == One(s.screen.Over?)
    && (s.screen.Over? ==> EndsDone(s.printed))
  }

  lemma KnownConcat(a: seq<Msg>, b: seq<Msg>, n: nat)
    ensures AllKnown(a + b, n) <==> AllKnown(a, n) && AllKnown(b, n)
  {
    forall k: nat | k < |b|
      ensures (a + b)[|a| + k] == b[k]
    {
    }
    if AllKnown(a + b, n) {
      forall k: nat | k < |a|
        ensures Known(a[k], n)
      {
        assert (a + b)[k] == a[k];
      }
      forall k: nat | k < |b|
        ensures Known(b[k], n)
      {
        assert Known((a + b)[|a| + k], n);
      }
    }
  }

  lemma ShowKnown(s: State)
    requires Enabled(s, ScreenShow) && AllKnown(Down(s), |s.producers|)
    ensures AllKnown(Down(Apply(s, ScreenShow)), |s.producers|)
  {
    hide AllKnown;
    var f, n, m, rest := Apply(s, ScreenShow), |s.producers|, s.screen.msg, s.output.items;
    assert Down(s) == (s.printed + [m]) + rest;
    KnownConcat(s.printed + [m], rest, n);
    KnownConcat(s.printed, [m], n);
    KnownConcat(s.printed, rest, n);
    assert Down(f) == if m.Item? || s.doneCount + 1 == CATEGORIES then (s.printed + [m]) + rest else s.printed + rest;
  }

  lemma DownKnown(s: State, step: Step)
    requires Sound(s) && Enabled(s, step) && PrintOk(s)
    ensures AllKnown(Down(Apply(s, step)), |s.producers|)
  {
    hide InputOk, ProducerOk, MiddleOk, OutputOk, DispatcherOk, AllKnown, Dones, EndsDone;
    var f, n := Apply(s, step), |s.producers|;
    if step.EditorInsert? {
      var m := s.editors[step.c].msg;
      assert Down(f) == Down(s) + [m];
      assert Mid(s.middle[step.c], s.editors[step.c]) == [m] + s.middle[step.c].items;
      KnownConcat([m], s.middle[step.c].items, n);
      KnownConcat(Down(s), [m], n);
    } else if step.ScreenTake? {
      assert s.output.items == [s.output.items[0]] + s.output.items[1..];
      assert Down(f) == Down(s);
    } else if step.ScreenShow? {
      ShowKnown(s);
    } else {
      assert Down(f) == Down(s);
    }
  }

  lemma MidKnown(s: State, step: Step, c: nat)
    requires Sound(s) && Enabled(s, step) && PrintOk(s) && c < CATEGORIES && Formed(Apply(s, step))
    ensures var f := Apply(s, step); AllKnown(Mid(f.middle[c], f.editors[c]), |s.producers|)
  {
    hide InputOk, ProducerOk, MiddleOk, OutputOk, DispatcherOk, AllKnown;
    var f, n := Apply(s, step), |s.producers|;
    var now, later := Mid(s.middle[c], s.editors[c]), Mid(f.middle[c], f.editors[c]);
    if step.GiveInsert? && s.dispatcher.msg.category == c {
      assert later == now + [s.dispatcher.msg];
      KnownConcat(now, [s.dispatcher.msg], n);
    } else if step.CloseInsert? && s.dispatcher.c == c {
      assert later == now + [Done];
      KnownConcat(now, [Done], n);
      assert AllKnown([Done], n) by {
        DoneKnown(n);
      }
    } else if step == EditorInsert(c) {
      assert now == [s.editors[c].msg] + later;
      KnownConcat([s.editors[c].msg], later, n);
    } else if !step.GiveInsert? && !step.CloseInsert? && !step.EditorInsert? {
      QuietMid(s, step, c);
    } else {
      assert later == now;
    }
  }

  lemma DoneKnown(n: nat)
    ensures AllKnown([Done], n)
  {
  }

  lemma TakenKnown(s: State)
    requires Sound(s) && Enabled(s, TakeOne)
    ensures var i := s.dispatcher.i; i < |s.inputs| && s.inputs[i].items != [] && Known(s.inputs[i].items[0], |s.producers|)
  {
    hide ProducerOk, MiddleOk, OutputOk, Balanced, DoneLast, EndsDone;
    var i := s.dispatcher.i;
    assert InputOk(s.inputs[i], s.producers[i], s.dispatcher, s.isDone[i], i);
  }

  lemma HandKnown(s: State, step: Step)
    requires Sound(s) && Enabled(s, step) && PrintOk(s)
    ensures AllKnown(DispatcherHand(Apply(s, step).dispatcher), |s.producers|)
  {
    hide InputOk, ProducerOk, MiddleOk, OutputOk, DispatcherOk, Down, Mid, Dones, EndsDone;
    if step.TakeOne? {
      TakenKnown(s);
    }
  }

  /** One DONE is printed, by the last message shown. */
  lemma DonesPrinted(s: State, step: Step)
    requires Sound(s) && Enabled(s, step) && PrintOk(s)
    ensures var f := Apply(s, step); Dones(f.printed) == One(f.screen.Over?) && (f.screen.Over? ==> EndsDone(f.printed))
  {
    hide InputOk, ProducerOk, MiddleOk, DispatcherOk, AllKnown, Down, Mid;
    if step.ScreenShow? {
      DonesPush(s.printed, s.screen.msg);
    }
  }

  lemma StepPrint(s: State, step: Step)
    requires Sound(s) && Enabled(s, step) && PrintOk(s)
    ensures PrintOk(Apply(s, step))
  {
    hide Sound, Enabled, Apply, AllKnown, Down, Mid, Dones, EndsDone;
    DownKnown(s, step);
    HandKnown(s, step);
    DonesPrinted(s, step);
    var f := Apply(s, step);
    forall c: nat | c < CATEGORIES
      ensures AllKnown(Mid(f.middle[c], f.editors[c]), |s.producers|)
    {
      MidKnown(s, step, c);
    }
  }

  // --- whole runs --------------------------------------------------------------------------

  predicate Fresh(q: Queue) {
    q.size > 0 && q.items == [] && q.readSem == 0 && q.writeSem == q.size
  }

  /** initBuffer has been called for every buffer, and no thread has moved. */
  predicate Initial(s: State) {
    && Formed(s) && s.dispatcher == Look(0, true) && Fresh(s.output) && s.screen == Blank && s.doneCount == 0 && s.printed == []
    && (forall p: nat | p < |s.producers| ::
          s.producers[p] == Producer(Ready, s.producers[p].total, [0, 0, 0], s.producers[p].total) && Fresh(s.inputs[p]) && !s.isDone[p])
    && (forall c: nat | c < CATEGORIES :: Fresh(s.middle[c]) && s.editors[c] == Idle)
  }

  ghost predicate Good(s: State) {
    && Sound(s) && PrintOk(s)
    && forall p: nat, c: nat | Within(s, p, c) :: Conserved(s, p, c)
  }

  lemma InitialGood(s: State)
    requires Initial(s)
    ensures Good(s)
  {
    forall p: nat, c: nat | Within(s, p, c)
      ensures Conserved(s, p, c)
    {
      assert s.producers[p].counts == [0, 0, 0];
    }
    forall p: nat | p < |s.producers|
      ensures ProducerOk(s.producers[p], p) && InputOk(s.inputs[p], s.producers[p], s.dispatcher, s.isDone[p], p)
    {
    }
  }

  lemma StepGood(s: State, step: Step)
    requires Good(s) && Enabled(s, step)
    ensures Good(Apply(s, step))
  {
    hide Sound, PrintOk, Conserved, Apply, Enabled;
    StepSound(s, step);
    StepPrint(s, step);
    SameProducers(s, step);
    forall p: nat, c: nat | Within(Apply(s, step), p, c)
      ensures Conserved(Apply(s, step), p, c)
    {
      StepConserved(s, step, p, c);
    }
  }

  lemma SameProducers(s: State, step: Step)
    requires Sound(s) && Enabled(s, step)
    ensures forall p: nat, c: nat :: Within(Apply(s, step), p, c) ==> Within(s, p, c)
  {
  }

  predicate IsRun(s: State, run: seq<Step>)
    decreases |run|
  {
    run == [] || (Enabled(s, run[0]) && IsRun(Apply(s, run[0]), run[1..]))
  }

  function After(s: State, run: seq<Step>): State
    requires IsRun(s, run)
    decreases |run|
  {
    if run == [] then s else After(Apply(s, run[0]), run[1..])
  }

  lemma {:induction false} RunGood(s: State, run: seq<Step>)
    requires Good(s) && IsRun(s, run)
    ensures Good(After(s, run))
    decreases |run|
  {
    if run != [] {
      StepGood(s, run[0]);
      RunGood(Apply(s, run[0]), run[1..]);
    }
  }

  lemma {:induction false} RunTotals(s: State, run: seq<Step>)
    requires Good(s) && IsRun(s, run)
    ensures var f := After(s, run);
            |f.producers| == |s.producers| && forall p: nat | p < |s.producers| :: f.producers[p].total == s.producers[p].total
    decreases |run|
  {
    if run != [] {
      StepGood(s, run[0]);
      StepTotals(s, run[0]);
      RunTotals(Apply(s, run[0]), run[1..]);
    }
  }

  lemma StepTotals(s: State, step: Step)
    requires Sound(s) && Enabled(s, step)
    ensures var f := Apply(s, step);
            |f.producers| == |s.producers| && forall p: nat | p < |s.producers| :: f.producers[p].total == s.producers[p].total
  {
    hide InputOk, ProducerOk, MiddleOk, OutputOk, DispatcherOk;
  }

  /** When the screen manager is over, the whole path is empty. */
  lemma AllDelivered(s: State, p: nat, c: nat)
    requires Sound(s) && Within(s, p, c) && s.screen.Over?
    ensures s.producers[p].pc.Finished? && s.producers[p].left == 0
    ensures Mid(s.middle[c], s.editors[c]) == [] && Up(s.dispatcher, s.inputs[p], s.producers[p].pc) == []
    ensures Down(s) == s.printed
  {
    if EndsDone(s.output.items) {
      DonesSome(s.output.items, |s.output.items| - 1);
    }
    assert MiddleOk(s.middle[c], s.dispatcher, s.editors[c], c);
    assert MiddleOk(s.middle[2], s.dispatcher, s.editors[2], 2);
    assert c == 0 || c == 1 || c == 2;
    assert Forwarded(s.editors[c]);
    assert s.isDone[p];
    assert InputOk(s.inputs[p], s.producers[p], s.dispatcher, s.isDone[p], p);
    assert ProducerOk(s.producers[p], p);
  }

  /** End to end: when the screen manager finishes, every producer has made its messages, for each
      producer and category the numbers 0, 1, .. have been printed once each and in order, nothing
      else has, and the one DONE is the last line. */
  lemma PipelineTheorem(s: State, run: seq<Step>)
    requires Initial(s) && IsRun(s, run) && After(s, run).screen.Over?
    ensures var f := After(s, run);
            && |f.producers| == |s.producers|
            && (forall p: nat, c: nat | p < |s.producers| && c < CATEGORIES ::
                  && |f.producers[p].counts| == CATEGORIES
                  && Of(f.printed, p, c) == Numbers(p, c, f.producers[p].counts[c])
                  && f.producers[p].counts[0] + f.producers[p].counts[1] + f.producers[p].counts[2] == s.producers[p].total)
            && (forall k: nat | k < |f.printed| :: Known(f.printed[k], |f.producers|))
            && (forall k: nat | k < |f.printed| :: f.printed[k].Done? <==> k == |f.printed| - 1)
  {
    InitialGood(s);
    RunGood(s, run);
    RunTotals(s, run);
    var f := After(s, run);
    forall p: nat, c: nat | p < |s.producers| && c < CATEGORIES
      ensures |f.producers[p].counts| == CATEGORIES
      ensures Of(f.printed, p, c) == Numbers(p, c, f.producers[p].counts[c])
      ensures f.producers[p].counts[0] + f.producers[p].counts[1] + f.producers[p].counts[2] == s.producers[p].total
    {
      assert Within(f, p, c);
      AllDelivered(f, p, c);
      assert Conserved(f, p, c);
      assert ProducerOk(f.producers[p], p);
    }
    forall k: nat | k < |f.printed|
      ensures Known(f.printed[k], |f.producers|)
    {
      assert Known(Down(f)[k], |f.producers|);
    }
    assert f.printed[|f.printed| - 1].Done?;
    LoneDone(f.printed);
  }

  /** One DONE, and it is last. */
  lemma {:induction false} LoneDone(ms: seq<Msg>)
    requires Dones(ms) == 1 && EndsDone(ms)
    ensures forall k: nat | k < |ms| :: ms[k].Done? <==> k == |ms| - 1
    decreases |ms|
  {
    if |ms| > 1 {
      if ms[0].Done? {
        DonesSome(ms[1..], |ms| - 2);
      }
      LoneDone(ms[1..]);
      forall k: nat | k < |ms|
        ensures ms[k].Done? <==> k == |ms| - 1
      {
        if k > 0 {
          assert ms[k] == ms[1..][k - 1];
        }
      }
    }
  }

  /** The dispatcher's exit test is exact: on a buffer whose isDone is set, head == tail means empty,
      though a full ring passes that test as well, and nothing more will come. */
  lemma ExitTestExact(s: State, run: seq<Step>, p: nat)
    requires Initial(s) && IsRun(s, run) && p < |After(s, run).producers|
    ensures var f := After(s, run);
            && |f.inputs| == |f.isDone| == |f.producers|
            && (f.isDone[p] && IsBufferEmpty(f.inputs[p]) <==> f.inputs[p].items == [] && f.producers[p].pc.Finished? && f.dispatcher != Release(p, Done))
  {
    InitialGood(s);
    RunGood(s, run);
    var f := After(s, run);
    assert InputOk(f.inputs[p], f.producers[p], f.dispatcher, f.isDone[p], p);
  }
}
