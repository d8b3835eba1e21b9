/** Producers, dispatcher, co-editors and screen manager, interleaved at every semaphore and buffer access. */
module Pipeline {
  const CATEGORIES: nat := 3

  /** How many messages of each category a producer has made. */
  type Counts = c: seq<nat> | |c| == 3 witness [0, 0, 0]

  datatype Msg = Done | Item(producer: nat, category: nat, number: nat)

  /** A bounded buffer as its unread messages; head == tail says that it is empty or full. */
  datatype Queue = Queue(items: seq<Msg>, readSem: nat, writeSem: nat, size: nat)

  /** Ready: about to make a message; Want, Has: before and after sem_wait; Post: before sem_post. */
  datatype ProducerPc = Ready | Want(msg: Msg) | Has(msg: Msg) | Post(msg: Msg) | Finished
  datatype Producer = Producer(pc: ProducerPc, left: nat, counts: Counts, total: nat)

  /** Look, Try: the loop over producers at i; TakeFrom to Give: a message on its way through;
      Close: the three DONEs. Wait, Put and Post are the phases of insertToBuffer. */
  datatype DispatcherPc =
    | Look(i: nat, allDone: bool) | Try(i: nat) | TakeFrom(i: nat) | Release(i: nat, msg: Msg)
    | GiveWait(i: nat, msg: Msg) | GivePut(i: nat, msg: Msg) | GivePost(i: nat, msg: Msg)
    | CloseWait(c: nat) | ClosePut(c: nat) | ClosePost(c: nat) | Closed

  datatype EditorPc = Idle | Taking | Releasing(msg: Msg) | Holding(msg: Msg) | Putting(msg: Msg) | Posting(msg: Msg) | Stopped

  datatype ScreenPc = Blank | Fetching | Freeing(msg: Msg) | Showing(msg: Msg) | Over

  datatype State = State(producers: seq<Producer>, inputs: seq<Queue>, isDone: seq<bool>, dispatcher: DispatcherPc,
                         middle: seq<Queue>, editors: seq<EditorPc>, output: Queue,
                         screen: ScreenPc, doneCount: nat, printed: seq<Msg>)

  datatype Step =
    | Make(p: nat, category: nat) | MakeDone(p: nat) | Admit(p: nat) | Insert(p: nat) | Announce(p: nat)
    | Skip | Engage | TryTake | TryFail | TakeOne | FreeSlot | GiveAdmit | GiveInsert | GiveAnnounce | NextPass
    | CloseAdmit | CloseInsert | CloseAnnounce
    | EditorEnter(c: nat) | EditorTake(c: nat) | EditorFree(c: nat) | EditorAdmit(c: nat) | EditorInsert(c: nat) | EditorAnnounce(c: nat)
    | ScreenEnter | ScreenTake | ScreenFree | ScreenShow

  // --- semaphores and queue accesses ---------------------------------------------------

  function WaitWrite(q: Queue): Queue
    requires q.writeSem > 0
  {
    q.(writeSem := q.writeSem - 1)
  }

  function Push(q: Queue, m: Msg): Queue {
    q.(items := q.items + [m])
  }

  function PostRead(q: Queue): Queue {
    q.(readSem := q.readSem + 1)
  }

  function WaitRead(q: Queue): Queue
    requires q.readSem > 0
  {
    q.(readSem := q.readSem - 1)
  }

  function Pop(q: Queue): Queue
    requires q.items != []
  {
    q.(items := q.items[1..])
  }

  function PostWrite(q: Queue): Queue {
    q.(writeSem := q.writeSem + 1)
  }

  /** isBufferEmpty: head == tail, which a full ring satisfies too. */
  predicate IsBufferEmpty(q: Queue) {
    q.items == [] || |q.items| == q.size
  }

  // --- the transition system ---------------------------------------------------------------

  predicate Formed(s: State) {
    |s.inputs| == |s.producers| == |s.isDone| && |s.middle| == |s.editors| == CATEGORIES
  }

  predicate InRange(d: DispatcherPc, n: nat) {
    match d
    case Look(i, _) => i <= n
    case Try(i) => i < n
    case TakeFrom(i) => i < n
    case Release(i, m) => i < n
    case GiveWait(i, m) => i < n && m.Item? && m.category < CATEGORIES
    case GivePut(i, m) => i < n && m.Item? && m.category < CATEGORIES
    case GivePost(i, m) => i < n && m.Item? && m.category < CATEGORIES
    case CloseWait(c) => c < CATEGORIES
    case ClosePut(c) => c < CATEGORIES
    case ClosePost(c) => c < CATEGORIES
    case Closed => true
  }

  predicate Enabled(s: State, step: Step) {
    Formed(s) && InRange(s.dispatcher, |s.producers|) &&
    var d, n := s.dispatcher, |s.producers|;
    match step
    case Make(p, c) => p < n && s.producers[p].pc.Ready? && s.producers[p].left > 0 && c < CATEGORIES
    case MakeDone(p) => p < n && s.producers[p].pc.Ready? && s.producers[p].left == 0
    case Admit(p) => p < n && s.producers[p].pc.Want? && s.inputs[p].writeSem > 0
    case Insert(p) => p < n && s.producers[p].pc.Has?
    case Announce(p) => p < n && s.producers[p].pc.Post?
    case Skip => d.Look? && d.i < n && s.isDone[d.i] && IsBufferEmpty(s.inputs[d.i])
    case Engage => d.Look? && d.i < n && !(s.isDone[d.i] && IsBufferEmpty(s.inputs[d.i]))
    case TryTake => d.Try? && s.inputs[d.i].readSem > 0
    case TryFail => d.Try? && s.inputs[d.i].readSem == 0
    case TakeOne => d.TakeFrom? && s.inputs[d.i].items != []
    case FreeSlot => d.Release? && (d.msg.Item? ==> d.msg.category < CATEGORIES)
    case GiveAdmit => d.GiveWait? && s.middle[d.msg.category].writeSem > 0
    case GiveInsert => d.GivePut?
    case GiveAnnounce => d.GivePost?
    case NextPass => d.Look? && d.i == n
    case CloseAdmit => d.CloseWait? && s.middle[d.c].writeSem > 0
    case CloseInsert => d.ClosePut?
    case CloseAnnounce => d.ClosePost?
    case EditorEnter(c) => c < CATEGORIES && s.editors[c].Idle? && s.middle[c].readSem > 0
    case EditorTake(c) => c < CATEGORIES && s.editors[c].Taking? && s.middle[c].items != []
    case EditorFree(c) => c < CATEGORIES && s.editors[c].Releasing?
    case EditorAdmit(c) => c < CATEGORIES && s.editors[c].Holding? && s.output.writeSem > 0
    case EditorInsert(c) => c < CATEGORIES && s.editors[c].Putting?
    case EditorAnnounce(c) => c < CATEGORIES && s.editors[c].Posting?
    case ScreenEnter => s.screen.Blank? && s.output.readSem > 0
    case ScreenTake => s.screen.Fetching? && s.output.items != []
    case ScreenFree => s.screen.Freeing?
    case ScreenShow => s.screen.Showing?
  }

  function SetProducer(s: State, p: nat, pc: ProducerPc): (r: State)
    requires p < |s.producers|
    ensures |r.producers| == |s.producers| && (Formed(s) ==> Formed(r))
  {
    s.(producers := s.producers[p := s.producers[p].(pc := pc)])
  }

  function SetInput(s: State, p: nat, q: Queue): (r: State)
    requires p < |s.inputs|
    ensures r.producers == s.producers && (Formed(s) ==> Formed(r))
  {
    s.(inputs := s.inputs[p := q])
  }

  function SetMiddle(s: State, c: nat, q: Queue): (r: State)
    requires c < |s.middle|
    ensures r.producers == s.producers && (Formed(s) ==> Formed(r))
  {
    s.(middle := s.middle[c := q])
  }

  function SetEditor(s: State, c: nat, e: EditorPc): (r: State)
    requires c < |s.editors|
    ensures r.producers == s.producers && (Formed(s) ==> Formed(r))
  {
    s.(editors := s.editors[c := e])
  }

  /** A producer with its next message of a category in hand. */
  function MakeNext(r: Producer, p: nat, c: nat): Producer
    requires r.left > 0 && c < CATEGORIES
  {
    r.(pc := Want(Item(p, c, r.counts[c])), left := r.left - 1, counts := r.counts[c := r.counts[c] + 1])
  }

  /** The dispatcher goes on with the message it took from input i. */
  function Classify(s: State, i: nat, m: Msg): (r: State)
    requires i < |s.isDone|
    ensures r.producers == s.producers && (Formed(s) ==> Formed(r))
  {
    if m.Done? then s.(isDone := s.isDone[i := true], dispatcher := Look(i + 1, false))
    else s.(dispatcher := GiveWait(i, m))
  }

  /** The screen manager prints a message, or counts a DONE and prints one for the last. */
  function Show(s: State, m: Msg): (r: State)
    ensures r.producers == s.producers && (Formed(s) ==> Formed(r))
  {
    if m.Item? then s.(screen := Blank, printed := s.printed + [m])
    else if s.doneCount + 1 == CATEGORIES then s.(doneCount := s.doneCount + 1, screen := Over, printed := s.printed + [Done])
    else s.(doneCount := s.doneCount + 1, screen := Blank)
  }

  predicate ByProducer(step: Step) {
    step.Make? || step.MakeDone? || step.Admit? || step.Insert? || step.Announce?
  }

  /** The dispatcher's loop over the producers, up to the message it takes. */
  predicate ByLoop(step: Step) {
    step.Skip? || step.Engage? || step.TryTake? || step.TryFail? || step.TakeOne? || step.FreeSlot? || step.NextPass?
  }

  predicate ByGiving(step: Step) {
    step.GiveAdmit? || step.GiveInsert? || step.GiveAnnounce?
  }

  predicate ByClosing(step: Step) {
    step.CloseAdmit? || step.CloseInsert? || step.CloseAnnounce?
  }

  predicate ByEditor(step: Step) {
    step.EditorEnter? || step.EditorTake? || step.EditorFree? || step.EditorAdmit? || step.EditorInsert? || step.EditorAnnounce?
  }

  predicate ByScreen(step: Step) {
    step.ScreenEnter? || step.ScreenTake? || step.ScreenFree? || step.ScreenShow?
  }

  predicate ByDispatcher(step: Step) {
    ByLoop(step) || ByGiving(step) || ByClosing(step)
  }

  function DispatcherMoves(s: State, step: Step): (r: State)
    requires Enabled(s, step) && ByDispatcher(step)
    ensures Formed(r) && |r.producers| == |s.producers|
  {
    var d := s.dispatcher;
    match step
    case Skip => s.(dispatcher := Look(d.i + 1, d.allDone))
    case Engage => s.(dispatcher := Try(d.i))
    case TryTake => SetInput(s, d.i, WaitRead(s.inputs[d.i])).(dispatcher := TakeFrom(d.i))
    case TryFail => s.(dispatcher := Look(d.i + 1, false))
    case TakeOne => SetInput(s, d.i, Pop(s.inputs[d.i])).(dispatcher := Release(d.i, s.inputs[d.i].items[0]))
    case FreeSlot => Classify(SetInput(s, d.i, PostWrite(s.inputs[d.i])), d.i, d.msg)
    case NextPass => s.(dispatcher := if d.allDone then CloseWait(0) else Look(0, true))
    case GiveAdmit => SetMiddle(s, d.msg.category, WaitWrite(s.middle[d.msg.category])).(dispatcher := GivePut(d.i, d.msg))
    case GiveInsert => SetMiddle(s, d.msg.category, Push(s.middle[d.msg.category], d.msg)).(dispatcher := GivePost(d.i, d.msg))
    case GiveAnnounce => SetMiddle(s, d.msg.category, PostRead(s.middle[d.msg.category])).(dispatcher := Look(d.i + 1, false))
    case CloseAdmit => SetMiddle(s, d.c, WaitWrite(s.middle[d.c])).(dispatcher := ClosePut(d.c))
    case CloseInsert => SetMiddle(s, d.c, Push(s.middle[d.c], Done)).(dispatcher := ClosePost(d.c))
    case CloseAnnounce =>
      SetMiddle(s, d.c, PostRead(s.middle[d.c])).(dispatcher := if d.c + 1 < CATEGORIES then CloseWait(d.c + 1) else Closed)
  }

  function Apply(s: State, step: Step): (r: State)
    requires Enabled(s, step)
    ensures Formed(r) && |r.producers| == |s.producers|
  {
    match step
    case Make(p, c) => s.(producers := s.producers[p := MakeNext(s.producers[p], p, c)])
    case MakeDone(p) => SetProducer(s, p, Want(Done))
    case Admit(p) => SetProducer(SetInput(s, p, WaitWrite(s.inputs[p])), p, Has(s.producers[p].pc.msg))
    case Insert(p) => SetProducer(SetInput(s, p, Push(s.inputs[p], s.producers[p].pc.msg)), p, Post(s.producers[p].pc.msg))
    case Announce(p) =>
      SetProducer(SetInput(s, p, PostRead(s.inputs[p])), p, if s.producers[p].pc.msg.Done? then Finished else Ready)
    case EditorEnter(c) => SetEditor(SetMiddle(s, c, WaitRead(s.middle[c])), c, Taking)
    case EditorTake(c) => SetEditor(SetMiddle(s, c, Pop(s.middle[c])), c, Releasing(s.middle[c].items[0]))
    case EditorFree(c) => SetEditor(SetMiddle(s, c, PostWrite(s.middle[c])), c, Holding(s.editors[c].msg))
    case EditorAdmit(c) => SetEditor(s, c, Putting(s.editors[c].msg)).(output := WaitWrite(s.output))
    case EditorInsert(c) => SetEditor(s, c, Posting(s.editors[c].msg)).(output := Push(s.output, s.editors[c].msg))
    case EditorAnnounce(c) =>
      SetEditor(s, c, if s.editors[c].msg.Done? then Stopped else Idle).(output := PostRead(s.output))
    case ScreenEnter => s.(output := WaitRead(s.output), screen := Fetching)
    case ScreenTake => s.(output := Pop(s.output), screen := Freeing(s.output.items[0]))
    case ScreenFree => s.(output := PostWrite(s.output), screen := Showing(s.screen.msg))
    case ScreenShow => Show(s, s.screen.msg)
    case _ => DispatcherMoves(s, step)
  }

  function One(b: bool): nat {
    if b then 1 else 0
  }

  // --- producers to dispatcher ---------------------------------------------------------

  /** The semaphores of a queue account for every operation in flight on it. */
  predicate Balanced(q: Queue, putting: nat, posting: nat, taking: nat, freeing: nat) {
    && q.size > 0
    && q.writeSem + putting + |q.items| + freeing == q.size
    && q.readSem + taking + posting == |q.items|
  }

  /** DONE stands at most once in the queue, and last. */
  predicate DoneLast(items: seq<Msg>) {
    forall k: nat | k < |items| && items[k].Done? :: k == |items| - 1
  }

  predicate EndsDone(items: seq<Msg>) {
    items != [] && items[|items| - 1].Done?
  }

  /** The producer has put its DONE in the queue. */
  predicate SentDone(pc: ProducerPc) {
    pc.Finished? || (pc.Post? && pc.msg.Done?)
  }

  predicate FromProducer(m: Msg, p: nat) {
    m.Item? ==> m.producer == p && m.category < CATEGORIES
  }

  predicate AllFrom(items: seq<Msg>, p: nat) {
    forall k: nat | k < |items| :: FromProducer(items[k], p)
  }

  predicate ProducerOk(r: Producer, p: nat) {
    && r.counts[0] + r.counts[1] + r.counts[2] + r.left == r.total
    && (r.pc.Want? || r.pc.Has? || r.pc.Post? ==> FromProducer(r.pc.msg, p) && (r.pc.msg.Done? ==> r.left == 0))
    && (r.pc.Finished? ==> r.left == 0)
  }

  predicate InputOk(q: Queue, r: Producer, d: DispatcherPc, isDone: bool, p: nat) {
    && Balanced(q, One(r.pc.Has?), One(r.pc.Post?), One(d == TakeFrom(p)), One(d.Release? && d.i == p))
    && AllFrom(q.items, p)
    && DoneLast(q.items)
    && (d.Release? && d.i == p ==> FromProducer(d.msg, p))
    && (isDone || d == Release(p, Done) ==> q.items == [] && r.pc.Finished?)
    && !(isDone && d == Release(p, Done))
    && (SentDone(r.pc) <==> isDone || d == Release(p, Done) || EndsDone(q.items))
  }

  /** What the dispatcher has found out so far. */
  predicate DispatcherOk(d: DispatcherPc, isDone: seq<bool>) {
    && InRange(d, |isDone|)
    && (d.Look? && d.allDone ==> forall k: nat | k < d.i :: isDone[k])
    && (d.Try? || d.TakeFrom? || d.Release? ==> !isDone[d.i])
    && (d.GiveWait? || d.GivePut? || d.GivePost? ==> d.msg.producer == d.i)
    && (d.CloseWait? || d.ClosePut? || d.ClosePost? || d.Closed? ==> forall k: nat | k < |isDone| :: isDone[k])
  }

  // --- dispatcher to co-editors ---------------------------------------------------------

  predicate PuttingTo(d: DispatcherPc, c: nat) {
    (d.GivePut? && d.msg.Item? && d.msg.category == c) || d == ClosePut(c)
  }

  predicate PostingTo(d: DispatcherPc, c: nat) {
    (d.GivePost? && d.msg.Item? && d.msg.category == c) || d == ClosePost(c)
  }

  /** The dispatcher has put the DONE for category c in its queue. */
  predicate ClosedTo(d: DispatcherPc, c: nat) {
    d.Closed? || ((d.CloseWait? || d.ClosePut? || d.ClosePost?) && d.c > c) || d == ClosePost(c)
  }

  predicate HasMsg(e: EditorPc) {
    e.Releasing? || e.Holding? || e.Putting? || e.Posting?
  }

  predicate GotDone(e: EditorPc) {
    e.Stopped? || (HasMsg(e) && e.msg.Done?)
  }

  predicate OfCategory(m: Msg, c: nat) {
    m.Item? ==> m.category == c
  }

  predicate AllOf(items: seq<Msg>, c: nat) {
    forall k: nat | k < |items| :: OfCategory(items[k], c)
  }

  predicate MiddleOk(q: Queue, d: DispatcherPc, e: EditorPc, c: nat) {
    && Balanced(q, One(PuttingTo(d, c)), One(PostingTo(d, c)), One(e.Taking?), One(e.Releasing?))
    && AllOf(q.items, c)
    && DoneLast(q.items)
    && (HasMsg(e) ==> OfCategory(e.msg, c))
    && (GotDone(e) ==> q.items == [])
    && (ClosedTo(d, c) <==> GotDone(e) || EndsDone(q.items))
  }

  // --- co-editors to screen -------------------------------------------------------------

  /** The co-editor has put its DONE in the screen's queue. */
  predicate Forwarded(e: EditorPc) {
    e.Stopped? || (e.Posting? && e.msg.Done?)
  }

  function Dones(items: seq<Msg>): nat {
    if items == [] then 0 else One(items[0].Done?) + Dones(items[1..])
  }

  predicate ShowingDone(pc: ScreenPc) {
    (pc.Freeing? || pc.Showing?) && pc.msg.Done?
  }

  predicate OutputOk(q: Queue, e0: EditorPc, e1: EditorPc, e2: EditorPc, pc: ScreenPc, doneCount: nat) {
    var forwarded := One(Forwarded(e0)) + One(Forwarded(e1)) + One(Forwarded(e2));
    && Balanced(q, One(e0.Putting?) + One(e1.Putting?) + One(e2.Putting?), One(e0.Posting?) + One(e1.Posting?) + One(e2.Posting?),
                One(pc.Fetching?), One(pc.Freeing?))
    && doneCount + Dones(q.items) + One(ShowingDone(pc)) == forwarded
    && (forwarded == CATEGORIES ==> q.items == [] || EndsDone(q.items))
    && (doneCount == CATEGORIES <==> pc.Over?)
  }

  ghost predicate Sound(s: State) {
    && Formed(s)
    && DispatcherOk(s.dispatcher, s.isDone)
    && (forall p: nat | p < |s.producers| :: ProducerOk(s.producers[p], p))
    && (forall p: nat | p < |s.producers| :: InputOk(s.inputs[p], s.producers[p], s.dispatcher, s.isDone[p], p))
    && (forall c: nat | c < CATEGORIES :: MiddleOk(s.middle[c], s.dispatcher, s.editors[c], c))
    && OutputOk(s.output, s.editors[0], s.editors[1], s.editors[2], s.screen, s.doneCount)
  }

  lemma DonesPush(items: seq<Msg>, m: Msg)
    ensures Dones(items + [m]) == Dones(items) + One(m.Done?)
    decreases |items|
  {
    if items == [] {
      assert items + [m] == [m];
    } else {
      assert (items + [m])[1..] == items[1..] + [m];
      DonesPush(items[1..], m);
    }
  }

  lemma DonesSome(items: seq<Msg>, k: nat)
    requires k < |items| && items[k].Done?
    ensures Dones(items) > 0
    decreases |items|
  {
    if k > 0 {
      DonesSome(items[1..], k - 1);
    }
  }

  /** Appending to a queue that does not end in DONE. */
  lemma PushFacts(items: seq<Msg>, m: Msg, x: nat)
    requires DoneLast(items) && !EndsDone(items)
    ensures DoneLast(items + [m]) && (EndsDone(items + [m]) <==> m.Done?)
    ensures AllFrom(items, x) && FromProducer(m, x) ==> AllFrom(items + [m], x)
    ensures AllOf(items, x) && OfCategory(m, x) ==> AllOf(items + [m], x)
  {
  }

  lemma PopFacts(items: seq<Msg>, x: nat)
    requires DoneLast(items) && items != []
    ensures DoneLast(items[1..]) && (items[0].Done? <==> EndsDone(items) && |items| == 1)
    ensures EndsDone(items[1..]) <==> EndsDone(items) && |items| > 1
    ensures AllFrom(items, x) ==> AllFrom(items[1..], x) && FromProducer(items[0], x)
    ensures AllOf(items, x) ==> AllOf(items[1..], x) && OfCategory(items[0], x)
  {
  }

  // --- every step keeps it -------------------------------------------------------------

  predicate Produces(step: Step, p: nat) {
    ByProducer(step) && step.p == p
  }

  predicate Edits(step: Step, c: nat) {
    ByEditor(step) && step.c == c
  }

  lemma LoopDispatcher(s: State, step: Step)
    requires Sound(s) && Enabled(s, step) && ByLoop(step)
    ensures DispatcherOk(Apply(s, step).dispatcher, Apply(s, step).isDone)
  {
    hide ProducerOk, MiddleOk, OutputOk;
    var d := s.dispatcher;
    if d.Look? && d.i < |s.isDone| {
      assert InputOk(s.inputs[d.i], s.producers[d.i], d, s.isDone[d.i], d.i);
    }
    if d.TakeFrom? || d.Release? {
      assert InputOk(s.inputs[d.i], s.producers[d.i], d, s.isDone[d.i], d.i);
    }
  }

  lemma OtherDispatcher(s: State, step: Step)
    requires Sound(s) && Enabled(s, step) && !ByLoop(step)
    ensures DispatcherOk(Apply(s, step).dispatcher, Apply(s, step).isDone)
  {
    hide ProducerOk, InputOk, MiddleOk, OutputOk;
  }

  lemma StepProducer(s: State, step: Step, p: nat)
    requires Sound(s) && Enabled(s, step) && p < |s.producers|
    ensures ProducerOk(Apply(s, step).producers[p], p)
  {
    hide DispatcherOk, InputOk, MiddleOk, OutputOk;
    assert ProducerOk(s.producers[p], p);
  }

  lemma ProducerInput(s: State, step: Step, p: nat)
    requires Sound(s) && Enabled(s, step) && Produces(step, p) && p < |s.producers|
    ensures var f := Apply(s, step); InputOk(f.inputs[p], f.producers[p], f.dispatcher, f.isDone[p], p)
  {
    hide DoneLast, EndsDone, AllFrom, AllOf, MiddleOk, OutputOk;
    assert InputOk(s.inputs[p], s.producers[p], s.dispatcher, s.isDone[p], p);
    assert ProducerOk(s.producers[p], p);
    if step == Insert(p) {
      PushFacts(s.inputs[p].items, s.producers[p].pc.msg, p);
    }
  }

  lemma LoopInput(s: State, step: Step, p: nat)
    requires Sound(s) && Enabled(s, step) && ByLoop(step) && p < |s.producers|
    ensures var f := Apply(s, step); InputOk(f.inputs[p], f.producers[p], f.dispatcher, f.isDone[p], p)
  {
    hide DoneLast, EndsDone, AllFrom, AllOf, MiddleOk, OutputOk, ProducerOk;
    assert InputOk(s.inputs[p], s.producers[p], s.dispatcher, s.isDone[p], p);
    assert ProducerOk(s.producers[p], p);
    if step.TakeOne? && s.dispatcher.i == p {
      PopFacts(s.inputs[p].items, p);
    }
  }

  predicate SameForInput(d: DispatcherPc, d': DispatcherPc, p: nat) {
    d' == d || (d != TakeFrom(p) && d' != TakeFrom(p) && !(d.Release? && d.i == p) && !(d'.Release? && d'.i == p))
  }

  lemma InputFrame(q: Queue, r: Producer, d: DispatcherPc, d': DispatcherPc, isDone: bool, p: nat)
    requires InputOk(q, r, d, isDone, p) && SameForInput(d, d', p)
    ensures InputOk(q, r, d', isDone, p)
  {
  }

  lemma OtherInput(s: State, step: Step, p: nat)
    requires Sound(s) && Enabled(s, step) && !Produces(step, p) && !ByLoop(step) && p < |s.producers|
    ensures var f := Apply(s, step); InputOk(f.inputs[p], f.producers[p], f.dispatcher, f.isDone[p], p)
  {
    hide InputOk, ProducerOk, MiddleOk, OutputOk, DispatcherOk;
    InputFrame(s.inputs[p], s.producers[p], s.dispatcher, Apply(s, step).dispatcher, s.isDone[p], p);
  }

  lemma GivingMiddle(s: State, step: Step, c: nat)
    requires Sound(s) && Enabled(s, step) && ByGiving(step) && c < CATEGORIES
    ensures var f := Apply(s, step); MiddleOk(f.middle[c], f.dispatcher, f.editors[c], c)
  {
    hide GotDone, DispatcherOk, DoneLast, EndsDone, AllFrom, AllOf, InputOk, ProducerOk, OutputOk;
    assert MiddleOk(s.middle[c], s.dispatcher, s.editors[c], c);
    if step.GiveInsert? && s.dispatcher.msg.category == c {
      PushFacts(s.middle[c].items, s.dispatcher.msg, c);
    }
  }

  lemma ClosingMiddle(s: State, step: Step, c: nat)
    requires Sound(s) && Enabled(s, step) && ByClosing(step) && c < CATEGORIES
    ensures var f := Apply(s, step); MiddleOk(f.middle[c], f.dispatcher, f.editors[c], c)
  {
    hide GotDone, DispatcherOk, DoneLast, EndsDone, AllFrom, AllOf, InputOk, ProducerOk, OutputOk;
    assert MiddleOk(s.middle[c], s.dispatcher, s.editors[c], c);
    if step.CloseInsert? && s.dispatcher.c == c {
      PushFacts(s.middle[c].items, Done, c);
    }
  }

  lemma EditorMiddle(s: State, step: Step, c: nat)
    requires Sound(s) && Enabled(s, step) && Edits(step, c) && c < CATEGORIES
    ensures var f := Apply(s, step); MiddleOk(f.middle[c], f.dispatcher, f.editors[c], c)
  {
    hide PuttingTo, PostingTo, ClosedTo, DispatcherOk, DoneLast, EndsDone, AllFrom, AllOf, InputOk, ProducerOk, OutputOk;
    assert MiddleOk(s.middle[c], s.dispatcher, s.editors[c], c);
    if step == EditorTake(c) {
      PopFacts(s.middle[c].items, c);
    }
  }

  predicate SameForMiddle(d: DispatcherPc, d': DispatcherPc, c: nat) {
    (PuttingTo(d', c) <==> PuttingTo(d, c)) && (PostingTo(d', c) <==> PostingTo(d, c)) && (ClosedTo(d', c) <==> ClosedTo(d, c))
  }

  lemma MiddleFrame(q: Queue, d: DispatcherPc, d': DispatcherPc, e: EditorPc, c: nat)
    requires MiddleOk(q, d, e, c) && SameForMiddle(d, d', c)
    ensures MiddleOk(q, d', e, c)
  {
  }

  lemma OtherMiddle(s: State, step: Step, c: nat)
    requires Sound(s) && Enabled(s, step) && !ByGiving(step) && !ByClosing(step) && !Edits(step, c) && c < CATEGORIES
    ensures var f := Apply(s, step); MiddleOk(f.middle[c], f.dispatcher, f.editors[c], c)
  {
    hide InputOk, ProducerOk, MiddleOk, OutputOk, DispatcherOk;
    MiddleFrame(s.middle[c], s.dispatcher, Apply(s, step).dispatcher, s.editors[c], c);
  }

  lemma InsertOutput(s: State, step: Step)
    requires Sound(s) && Enabled(s, step) && step.EditorInsert?
    ensures var f := Apply(s, step); OutputOk(f.output, f.editors[0], f.editors[1], f.editors[2], f.screen, f.doneCount)
  {
    hide InputOk, ProducerOk, DispatcherOk, MiddleOk;
    DonesPush(s.output.items, s.editors[step.c].msg);
  }

  lemma EditorOutput(s: State, step: Step)
    requires Sound(s) && Enabled(s, step) && (step.EditorAdmit? || step.EditorAnnounce?)
    ensures var f := Apply(s, step); OutputOk(f.output, f.editors[0], f.editors[1], f.editors[2], f.screen, f.doneCount)
  {
    hide InputOk, ProducerOk, DispatcherOk, MiddleOk;
  }

  lemma ScreenOutput(s: State, step: Step)
    requires Sound(s) && Enabled(s, step) && ByScreen(step)
    ensures var f := Apply(s, step); OutputOk(f.output, f.editors[0], f.editors[1], f.editors[2], f.screen, f.doneCount)
  {
    hide Forwarded, InputOk, ProducerOk, DispatcherOk, MiddleOk;
  }

  lemma OtherOutput(s: State, step: Step)
    requires Sound(s) && Enabled(s, step) && !step.EditorInsert? && !step.EditorAdmit? && !step.EditorAnnounce? && !ByScreen(step)
    ensures var f := Apply(s, step); OutputOk(f.output, f.editors[0], f.editors[1], f.editors[2], f.screen, f.doneCount)
  {
    hide InputOk, ProducerOk, DispatcherOk, MiddleOk;
  }

  lemma StepSound(s: State, step: Step)
    requires Sound(s) && Enabled(s, step)
    ensures Sound(Apply(s, step))
  {
    hide InputOk, ProducerOk, MiddleOk, OutputOk, DispatcherOk, Apply, Enabled;
    var f := Apply(s, step);
    if ByLoop(step) {
      LoopDispatcher(s, step);
    } else {
      OtherDispatcher(s, step);
    }
    forall p: nat | p < |f.producers|
      ensures ProducerOk(f.producers[p], p) && InputOk(f.inputs[p], f.producers[p], f.dispatcher, f.isDone[p], p)
    {
      StepProducer(s, step, p);
      if Produces(step, p) {
        ProducerInput(s, step, p);
      } else if ByLoop(step) {
        LoopInput(s, step, p);
      } else {
        OtherInput(s, step, p);
      }
    }
    forall c: nat | c < CATEGORIES
      ensures MiddleOk(f.middle[c], f.dispatcher, f.editors[c], c)
    {
      if ByGiving(step) {
        GivingMiddle(s, step, c);
      } else if ByClosing(step) {
        ClosingMiddle(s, step, c);
      } else if Edits(step, c) {
        EditorMiddle(s, step, c);
      } else {
        OtherMiddle(s, step, c);
      }
    }
    if step.EditorInsert? {
      InsertOutput(s, step);
    } else if step.EditorAdmit? || step.EditorAnnounce? {
      EditorOutput(s, step);
    } else if ByScreen(step) {
      ScreenOutput(s, step);
    } else {
      OtherOutput(s, step);
    }
  }
}
