/** The goroutine that owns the library state, the callers of `View` and `Update`, and the callers
    of `Close`, as a state machine: one step is one lock operation, one rendezvous on a channel,
    or one piece of work of the loop. Any interleaving of the steps is a run. */
module OwnerLoop {
  import opened Prelude
  import opened Library
  import opened FeedImport
  import Runs
  import Sorting

  // ----- What an operation does to the state it is given -----

  datatype Answer = Success | Failure(error: Error) | PanicReported

  /** How a callback ends: normally, with an error, by an abort of the transaction, by a panic. */
  datatype Ending = Completed(result: State) | Failed(error: Error) | Aborted(error: Error) | Panicked

  datatype Request = View(read: State -> Answer) | Update(write: State -> Ending)

  /** `runMemoryRepositoryOp` around the two callers of `do`: only a completed update is published. */
  function Perform(request: Request, s: State): (r: (State, Answer)) {
    match request
    case View(read) => (s, read(s))
    case Update(write) =>
      match write(s)
      case Completed(s') => (s', Success)
      case Failed(e) => (s, Failure(e))
      case Aborted(e) => (s, Failure(e))
      case Panicked => (s, PanicReported)
  }

  /** The requests of the callers in `order`, performed one after the other. */
  function Sequential(requests: nat -> Request, start: State, order: seq<nat>): (s: State) {
    if order == [] then start
    else Perform(requests(order[|order| - 1]), Sequential(requests, start, order[..|order| - 1])).0
  }

  /** What the k-th caller in `order` is told by that sequential execution. */
  function SequentialAnswer(requests: nat -> Request, start: State, order: seq<nat>, k: nat): (a: Answer)
    requires k < |order|
  {
    Perform(requests(order[k]), Sequential(requests, start, order[..k])).1
  }

  // ----- Threads -----

  datatype Outcome = Answered(answer: Answer) | RefusedClosed | ContextDone

  /** Where a caller of `do` stands; from `Locked` to `Cancelled` it holds the read lock. */
  datatype Caller = Arriving | Locked | Refused | Offering | Handed | Cancelled | Awaiting | Returned(outcome: Outcome)

  /** Where a caller of `Close` stands. The one that won `closeOnce` goes from `Announcing` to
      `AwaitingDone`, holding the write lock in `Setting` and `Releasing`; the others stand by
      until it is through and then wait for `closed`. */
  datatype Closer =
    Entering | Announcing | Draining | Setting | Releasing | Stopping | AwaitingDone | Standing | Late | Finished

  datatype Loop = Selecting | Running(caller: nat) | Answering(caller: nat, answer: Answer)
    | Closing(closer: nat) | Signalling(closer: nat) | Stopped

  datatype Once = Unused | Taken(closer: nat) | Used

  /** `replies` are the buffered `done` channels of the callers. `accepted` and `ran` are history:
      the callers whose operation the loop received, and those it has run. */
  datatype World = World(
    callers: seq<Caller>, closers: seq<Closer>, loop: Loop, closing: bool, once: Once,
    closedChannel: bool, doneChannel: bool, replies: map<nat, Answer>, store: State,
    accepted: seq<nat>, ran: seq<nat>)

  function Initial(start: State, callers: nat, closers: nat): (w: World) {
    World(seq(callers, _ => Arriving), seq(closers, _ => Entering), Selecting, false, Unused,
          false, false, map[], start, [], [])
  }

  predicate HoldsRead(c: Caller) {
    c.Locked? || c.Refused? || c.Offering? || c.Handed? || c.Cancelled?
  }

  /** A writer that waits for the lock already keeps new readers out. */
  predicate BlocksReaders(c: Closer) {
    c.Draining? || c.Setting? || c.Releasing?
  }

  predicate ReadersOut(w: World) {
    forall i | 0 <= i < |w.callers| :: !HoldsRead(w.callers[i])
  }

  predicate WriterIn(w: World) {
    exists k | 0 <= k < |w.closers| :: BlocksReaders(w.closers[k])
  }

  // ----- Steps -----

  datatype Event =
    | ReadLock(i: nat)     // repo.mu.RLock
    | TestClosing(i: nat)  // if repo.closing
    | Hand(i: nat)         // repo.ops <- op meets op := <-repo.ops
    | Cancel(i: nat)       // <-ctx.Done
    | ReadUnlock(i: nat)   // repo.mu.RUnlock, and the return of a refused or cancelled caller
    | Receive(i: nat)      // <-op.done
    | RunOp                // runMemoryRepositoryOp
    | Reply                // op.done <- err
    | TakeStop(k: nat)     // repo.stop <- done meets done := <-repo.stop
    | CloseClosed          // close(repo.closed)
    | CloseDone            // close(done)
    | EnterOnce(k: nat)    // repo.closeOnce.Do
    | AskLock(k: nat)      // repo.mu.Lock, waiting
    | GetLock(k: nat)      // repo.mu.Lock, granted
    | SetClosing(k: nat)   // repo.closing = true
    | WriteUnlock(k: nat)  // repo.mu.Unlock
    | SeeDone(k: nat)      // <-done, and closeOnce is used up
    | LeaveOnce(k: nat)    // repo.closeOnce.Do returns to the others
    | SeeClosed(k: nat)    // <-repo.closed

  predicate ByCloser(e: Event) {
    || e.TakeStop? || e.EnterOnce? || e.AskLock? || e.GetLock? || e.SetClosing? || e.WriteUnlock? || e.SeeDone?
    || e.LeaveOnce? || e.SeeClosed?
  }

  /** The steps of the closer that won `closeOnce`, up to its rendezvous with the loop. */
  predicate ByElected(e: Event) {
    e.TakeStop? || e.AskLock? || e.GetLock? || e.SetClosing? || e.WriteUnlock?
  }

  predicate Enabled(w: World, e: Event) {
    match e
    case ReadLock(i) => i < |w.callers| && w.callers[i].Arriving? && !WriterIn(w)
    case TestClosing(i) => i < |w.callers| && w.callers[i].Locked?
    case Hand(i) => i < |w.callers| && w.callers[i].Offering? && w.loop.Selecting?
    case Cancel(i) => i < |w.callers| && w.callers[i].Offering?
    case ReadUnlock(i) => i < |w.callers| && (w.callers[i].Refused? || w.callers[i].Handed? || w.callers[i].Cancelled?)
    case Receive(i) => i < |w.callers| && w.callers[i].Awaiting? && i in w.replies
    case RunOp => w.loop.Running?
    case Reply => w.loop.Answering?
    case TakeStop(k) => k < |w.closers| && w.closers[k].Stopping? && w.loop.Selecting?
    case CloseClosed => w.loop.Closing?
    case CloseDone => w.loop.Signalling?
    case EnterOnce(k) => k < |w.closers| && w.closers[k].Entering?
    case AskLock(k) => k < |w.closers| && w.closers[k].Announcing?
    case GetLock(k) => k < |w.closers| && w.closers[k].Draining? && ReadersOut(w)
    case SetClosing(k) => k < |w.closers| && w.closers[k].Setting?
    case WriteUnlock(k) => k < |w.closers| && w.closers[k].Releasing?
    case SeeDone(k) => k < |w.closers| && w.closers[k].AwaitingDone? && w.doneChannel
    case LeaveOnce(k) => k < |w.closers| && w.closers[k].Standing? && w.once.Used?
    case SeeClosed(k) => k < |w.closers| && w.closers[k].Late? && w.closedChannel
  }

  function Moved(w: World, i: nat, c: Caller): (w': World)
    requires i < |w.callers|
  {
    w.(callers := w.callers[i := c])
  }

  function CloserMoved(w: World, k: nat, c: Closer): (w': World)
    requires k < |w.closers|
  {
    w.(closers := w.closers[k := c])
  }

  function Unlocked(c: Caller): (c': Caller) {
    if c.Handed? then Awaiting else if c.Refused? then Returned(RefusedClosed) else Returned(ContextDone)
  }

  function Next(requests: nat -> Request, w: World, e: Event): (w': World)
    requires Enabled(w, e)
  {
    match e
    case ReadLock(i) => Moved(w, i, Locked)
    case TestClosing(i) => Moved(w, i, if w.closing then Refused else Offering)
    case Hand(i) => Moved(w, i, Handed).(loop := Running(i), accepted := w.accepted + [i])
    case Cancel(i) => Moved(w, i, Cancelled)
    case ReadUnlock(i) => Moved(w, i, Unlocked(w.callers[i]))
    case Receive(i) => Moved(w, i, Returned(Answered(w.replies[i]))).(replies := w.replies - {i})
    case RunOp =>
      var (s, a) := Perform(requests(w.loop.caller), w.store);
      w.(loop := Answering(w.loop.caller, a), store := s, ran := w.ran + [w.loop.caller])
    case Reply => w.(loop := Selecting, replies := w.replies[w.loop.caller := w.loop.answer])
    case TakeStop(k) => CloserMoved(w, k, AwaitingDone).(loop := Closing(k))
    case CloseClosed => w.(loop := Signalling(w.loop.closer), closedChannel := true)
    case CloseDone => w.(loop := Stopped, doneChannel := true)
    case EnterOnce(k) =>
      if w.once.Unused? then CloserMoved(w, k, Announcing).(once := Taken(k))
      else CloserMoved(w, k, if w.once.Taken? then Standing else Late)
    case AskLock(k) => CloserMoved(w, k, Draining)
    case GetLock(k) => CloserMoved(w, k, Setting)
    case SetClosing(k) => CloserMoved(w, k, Releasing).(closing := true)
    case WriteUnlock(k) => CloserMoved(w, k, Stopping)
    case SeeDone(k) => CloserMoved(w, k, Finished).(once := Used)
    case LeaveOnce(k) => CloserMoved(w, k, Late)
    case SeeClosed(k) => CloserMoved(w, k, Finished)
  }

  /** The world after a list of events, if each is enabled in turn. */
  function After(requests: nat -> Request, w: World, events: seq<Event>): (r: Option<World>) {
    if events == [] then Some(w)
    else match After(requests, w, events[..|events| - 1])
      case None => None
      case Some(before) =>
        var e := events[|events| - 1];
        if Enabled(before, e) then Some(Next(requests, before, e)) else None
  }

  // ----- The invariant -----

  predicate InStop(l: Loop) {
    l.Closing? || l.Signalling? || l.Stopped?
  }

  predicate Served(c: Caller) {
    c.Handed? || c.Awaiting? || (c.Returned? && c.outcome.Answered?)
  }

  predicate Works(l: Loop, i: nat) {
    (l.Running? || l.Answering?) && l.caller == i
  }

  predicate WriteLocked(w: World) {
    w.once.Taken? && w.once.closer < |w.closers|
        && (w.closers[w.once.closer].Setting? || w.closers[w.once.closer].Releasing?)
  }

  /** An operation is accepted exactly if its caller got past the rendezvous; its reply is waiting
      exactly from the end of the loop's work until the caller takes it. */
  ghost predicate Accounted(w: World, i: nat) {
    i < |w.callers| ==>
      && (i in w.accepted <==> Served(w.callers[i]))
      && (Works(w.loop, i) ==> w.callers[i].Handed? || w.callers[i].Awaiting?)
      && (i in w.replies <==> (w.callers[i].Handed? || w.callers[i].Awaiting?) && !Works(w.loop, i))
  }

  /** While the write lock is held no caller holds the read lock; once `closing` is set no caller
      offers an operation. */
  ghost predicate ShutOut(w: World, i: nat) {
    i < |w.callers| ==>
      && (w.closing ==> !w.callers[i].Offering? && !w.callers[i].Handed? && !w.callers[i].Cancelled?)
      && (WriteLocked(w) ==> !HoldsRead(w.callers[i]))
  }

  ghost predicate CallerOK(w: World, i: nat) {
    Accounted(w, i) && ShutOut(w, i)
  }

  predicate Elected(c: Closer) {
    c.Announcing? || c.Draining? || c.Setting? || c.Releasing? || c.Stopping? || c.AwaitingDone?
  }

  ghost predicate CloserOK(w: World, k: nat) {
    k < |w.closers| ==>
      && (Elected(w.closers[k]) <==> w.once == Taken(k))
      && (w.closers[k].Standing? ==> !w.once.Unused?)
      && (w.closers[k].Late? || w.closers[k].Finished? ==> w.once.Used?)
  }

  ghost predicate StopOK(w: World) {
    && (match w.once
        case Unused => !w.closing && !InStop(w.loop)
        case Taken(k) =>
          && k < |w.closers|
          && (w.closing <==> w.closers[k].Releasing? || w.closers[k].Stopping? || w.closers[k].AwaitingDone?)
          && (w.closers[k].AwaitingDone? <==> InStop(w.loop))
        case Used => w.closing && w.loop.Stopped?)
    && (w.closedChannel <==> w.loop.Signalling? || w.loop.Stopped?)
    && (w.doneChannel <==> w.loop.Stopped?)
  }

  /** Whatever caller `i` is told, or is about to be told, is `a`. */
  ghost predicate IsTold(w: World, i: nat, a: Answer) {
    && (i in w.replies ==> w.replies[i] == a)
    && (i < |w.callers| && w.callers[i].Returned? && w.callers[i].outcome.Answered? ==>
          w.callers[i].outcome.answer == a)
    && (w.loop.Answering? && w.loop.caller == i ==> w.loop.answer == a)
  }

  ghost predicate AnswerOK(requests: nat -> Request, start: State, w: World, k: nat) {
    k < |w.ran| && k < |w.accepted| ==> IsTold(w, w.accepted[k], SequentialAnswer(requests, start, w.accepted, k))
  }

  ghost predicate OrderOK(requests: nat -> Request, start: State, w: World) {
    && (forall k | 0 <= k < |w.accepted| :: w.accepted[k] < |w.callers|)
    && Sorting.Distinct(w.accepted)
    && (w.loop.Running? || w.loop.Answering? ==> w.accepted != [] && w.accepted[|w.accepted| - 1] == w.loop.caller)
    && w.ran == (if w.loop.Running? then w.accepted[..|w.accepted| - 1] else w.accepted)
    && w.store == Sequential(requests, start, w.ran)
  }

  datatype Part = CallersPart | ClosersPart | StopPart | OrderPart | AnswersPart

  ghost predicate Sound(requests: nat -> Request, start: State, w: World, part: Part) {
    match part
    case CallersPart => forall i: nat :: CallerOK(w, i)
    case ClosersPart => forall k: nat :: CloserOK(w, k)
    case StopPart => StopOK(w)
    case OrderPart => OrderOK(requests, start, w)
    case AnswersPart => forall k: nat :: AnswerOK(requests, start, w, k)
  }

  ghost predicate LoopInv(requests: nat -> Request, start: State, w: World) {
    forall part: Part :: Sound(requests, start, w, part)
  }

  lemma InitialInv(requests: nat -> Request, start: State, callers: nat, closers: nat)
    ensures LoopInv(requests, start, Initial(start, callers, closers))
  {
    var w := Initial(start, callers, closers);
    forall part: Part ensures Sound(requests, start, w, part) {
      if part.CallersPart? {
        forall i: nat ensures CallerOK(w, i) {
        }
      } else if part.ClosersPart? {
        forall k: nat ensures CloserOK(w, k) {
        }
      }
    }
  }

  lemma Unpacked(requests: nat -> Request, start: State, w: World)
    requires LoopInv(requests, start, w)
    ensures forall i: nat :: CallerOK(w, i)
    ensures forall k: nat :: CloserOK(w, k)
    ensures StopOK(w)
    ensures OrderOK(requests, start, w)
    ensures forall k: nat :: AnswerOK(requests, start, w, k)
  {
    assert Sound(requests, start, w, CallersPart);
    assert Sound(requests, start, w, ClosersPart);
    assert Sound(requests, start, w, StopPart);
    assert Sound(requests, start, w, OrderPart);
    assert Sound(requests, start, w, AnswersPart);
  }

  /** A closer's step is judged by what the invariant says of that closer and of the elected one. */
  lemma ClosersOf(w: World, e: Event)
    requires forall k: nat :: CloserOK(w, k)
    ensures w.once.Taken? ==> CloserOK(w, w.once.closer)
    ensures ByCloser(e) ==> CloserOK(w, e.k)
  {
  }

  /** The loop's and the callers' own events, as far as caller `i` is concerned. */
  lemma StaysAccountedByOthers(requests: nat -> Request, w: World, e: Event, i: nat, w': World)
    requires Accounted(w, i) && Enabled(w, e) && !ByCloser(e) && w' == Next(requests, w, e)
    requires w.loop.Running? || w.loop.Answering? ==> w.loop.caller < |w.callers|
    ensures Accounted(w', i)
  {
    if e.Hand? {
      assert i in w.accepted + [e.i] <==> i in w.accepted || i == e.i;
    }
  }

  lemma StaysAccountedByCloser(requests: nat -> Request, w: World, e: Event, i: nat, w': World)
    requires Accounted(w, i) && Enabled(w, e) && ByCloser(e) && w' == Next(requests, w, e)
    ensures Accounted(w', i)
  {
  }

  lemma StaysAccounted(requests: nat -> Request, w: World, e: Event, i: nat)
    requires Accounted(w, i) && Enabled(w, e)
    requires w.loop.Running? || w.loop.Answering? ==> w.loop.caller < |w.callers|
    ensures Accounted(Next(requests, w, e), i)
  {
    if ByCloser(e) {
      StaysAccountedByCloser(requests, w, e, i, Next(requests, w, e));
    } else {
      StaysAccountedByOthers(requests, w, e, i, Next(requests, w, e));
    }
  }

  lemma StaysShutOut(requests: nat -> Request, w: World, e: Event, i: nat)
    requires ShutOut(w, i) && StopOK(w) && Enabled(w, e) && forall k: nat :: CloserOK(w, k)
    requires WriteLocked(w) ==> WriterIn(w)
    ensures ShutOut(Next(requests, w, e), i)
  {
    ClosersOf(w, e);
    if i < |w.callers| {
      assert e.GetLock? ==> !HoldsRead(w.callers[i]);
    }
  }

  lemma CallersStay(requests: nat -> Request, start: State, w: World, e: Event)
    requires LoopInv(requests, start, w) && Enabled(w, e)
    ensures forall i: nat :: CallerOK(Next(requests, w, e), i)
  {
    Unpacked(requests, start, w);
    if WriteLocked(w) {
      assert BlocksReaders(w.closers[w.once.closer]);
    }
    forall i: nat ensures CallerOK(Next(requests, w, e), i) {
      assert CallerOK(w, i);
      StaysAccounted(requests, w, e, i);
      StaysShutOut(requests, w, e, i);
    }
  }

  lemma CloserStays(requests: nat -> Request, w: World, e: Event, k: nat)
    requires Enabled(w, e) && CloserOK(w, k) && StopOK(w) && (ByCloser(e) ==> CloserOK(w, e.k))
    ensures CloserOK(Next(requests, w, e), k)
  {
  }

  lemma ClosersStay(requests: nat -> Request, start: State, w: World, e: Event)
    requires LoopInv(requests, start, w) && Enabled(w, e)
    ensures forall k: nat :: CloserOK(Next(requests, w, e), k)
  {
    Unpacked(requests, start, w);
    ClosersOf(w, e);
    forall k: nat ensures CloserOK(Next(requests, w, e), k) {
      assert CloserOK(w, k);
      CloserStays(requests, w, e, k);
    }
  }

  lemma StopStaysByCloser(requests: nat -> Request, w: World, e: Event)
    requires StopOK(w) && Enabled(w, e) && ByCloser(e) && CloserOK(w, e.k)
    requires w.once.Taken? ==> CloserOK(w, w.once.closer)
    ensures StopOK(Next(requests, w, e))
  {
  }

  lemma StopStays(requests: nat -> Request, start: State, w: World, e: Event)
    requires LoopInv(requests, start, w) && Enabled(w, e)
    ensures StopOK(Next(requests, w, e))
  {
    Unpacked(requests, start, w);
    ClosersOf(w, e);
    if ByCloser(e) {
      StopStaysByCloser(requests, w, e);
    }
  }

  lemma StaysDistinct(accepted: seq<nat>, i: nat)
    requires Sorting.Distinct(accepted) && i !in accepted
    ensures Sorting.Distinct(accepted + [i]) && (accepted + [i])[..|accepted|] == accepted
  {
    assert forall k | 0 <= k < |accepted| :: accepted[k] in accepted;
  }

  /** What receiving an operation does to the order. */
  lemma HandedNext(requests: nat -> Request, w: World, i: nat, w': World)
    requires CallerOK(w, i) && Enabled(w, Hand(i)) && w' == Next(requests, w, Hand(i))
    ensures i !in w.accepted && w'.accepted == w.accepted + [i] && w'.loop == Running(i)
            && i < |w.callers| == |w'.callers|
    ensures w'.ran == w.ran && w'.store == w.store && w.loop.Selecting?
  {
  }

  lemma HandedOrder(requests: nat -> Request, start: State, w: World, i: nat, w': World)
    requires OrderOK(requests, start, w) && CallerOK(w, i) && Enabled(w, Hand(i)) && w' == Next(requests, w, Hand(i))
    ensures OrderOK(requests, start, w')
  {
    HandedNext(requests, w, i, w');
    StaysDistinct(w.accepted, i);
  }

  lemma RunOrder(requests: nat -> Request, start: State, w: World)
    requires OrderOK(requests, start, w) && Enabled(w, RunOp)
    ensures OrderOK(requests, start, Next(requests, w, RunOp))
  {
    var ran := w.ran + [w.loop.caller];
    assert ran == w.accepted;
    assert ran[..|ran| - 1] == w.ran;
  }

  lemma ElectedLeavesHistory(requests: nat -> Request, w: World, e: Event, w': World)
    requires Enabled(w, e) && ByElected(e) && w' == Next(requests, w, e)
    ensures w'.accepted == w.accepted && w'.ran == w.ran && w'.store == w.store && |w'.callers| == |w.callers|
    ensures (w'.loop.Running? <==> w.loop.Running?) && (w'.loop.Running? || w'.loop.Answering? ==> w'.loop == w.loop)
  {
  }

  lemma WaitingLeavesHistory(requests: nat -> Request, w: World, e: Event, w': World)
    requires Enabled(w, e) && ByCloser(e) && !ByElected(e) && w' == Next(requests, w, e)
    ensures w'.accepted == w.accepted && w'.ran == w.ran && w'.store == w.store && |w'.callers| == |w.callers|
    ensures w'.loop == w.loop
  {
  }

  lemma OtherLeavesHistory(requests: nat -> Request, w: World, e: Event, w': World)
    requires Enabled(w, e) && !ByCloser(e) && !e.Hand? && !e.RunOp? && w' == Next(requests, w, e)
    ensures w'.accepted == w.accepted && w'.ran == w.ran && w'.store == w.store && |w'.callers| == |w.callers|
    ensures (w'.loop.Running? <==> w.loop.Running?) && (w'.loop.Running? || w'.loop.Answering? ==> w'.loop == w.loop)
  {
  }

  /** The events besides these two change neither the history nor the library, nor whether the loop
      has an operation in hand. */
  lemma LeavesHistory(requests: nat -> Request, w: World, e: Event, w': World)
    requires Enabled(w, e) && !e.Hand? && !e.RunOp? && w' == Next(requests, w, e)
    ensures w'.accepted == w.accepted && w'.ran == w.ran && w'.store == w.store && |w'.callers| == |w.callers|
    ensures (w'.loop.Running? <==> w.loop.Running?) && (w'.loop.Running? || w'.loop.Answering? ==> w'.loop == w.loop)
  {
    if ByElected(e) {
      ElectedLeavesHistory(requests, w, e, w');
    } else if ByCloser(e) {
      WaitingLeavesHistory(requests, w, e, w');
    } else {
      OtherLeavesHistory(requests, w, e, w');
    }
  }

  lemma SameOrder(requests: nat -> Request, start: State, w: World, w': World)
    requires OrderOK(requests, start, w)
    requires w'.accepted == w.accepted && w'.ran == w.ran && w'.store == w.store && |w'.callers| == |w.callers|
    requires (w'.loop.Running? <==> w.loop.Running?) && (w'.loop.Running? || w'.loop.Answering? ==> w'.loop == w.loop)
    ensures OrderOK(requests, start, w')
  {
  }

  lemma OrderStays(requests: nat -> Request, start: State, w: World, e: Event)
    requires OrderOK(requests, start, w) && (e.Hand? ==> CallerOK(w, e.i)) && Enabled(w, e)
    ensures OrderOK(requests, start, Next(requests, w, e))
  {
    if e.Hand? {
      HandedOrder(requests, start, w, e.i, Next(requests, w, e));
    } else if e.RunOp? {
      RunOrder(requests, start, w);
    } else {
      LeavesHistory(requests, w, e, Next(requests, w, e));
      SameOrder(requests, start, w, Next(requests, w, e));
    }
  }

  lemma StaysTold(requests: nat -> Request, w: World, e: Event, i: nat, a: Answer)
    requires Enabled(w, e) && IsTold(w, i, a) && (e.RunOp? ==> w.loop.caller != i)
    ensures IsTold(Next(requests, w, e), i, a)
  {
  }

  lemma NewlyTold(requests: nat -> Request, w: World)
    requires Enabled(w, RunOp) && w.loop.caller < |w.callers| && Accounted(w, w.loop.caller)
    ensures IsTold(Next(requests, w, RunOp), w.loop.caller, Perform(requests(w.loop.caller), w.store).1)
  {
  }

  lemma SameExpectation(requests: nat -> Request, start: State, before: seq<nat>, after: seq<nat>, k: nat)
    requires k < |before| && before <= after
    ensures after[k] == before[k] && SequentialAnswer(requests, start, after, k)
            == SequentialAnswer(requests, start, before, k)
  {
    assert after[..k] == before[..k];
  }

  lemma HistoryGrows(requests: nat -> Request, w: World, e: Event)
    requires Enabled(w, e)
    ensures w.accepted <= Next(requests, w, e).accepted
    ensures Next(requests, w, e).ran == if e.RunOp? then w.ran + [w.loop.caller] else w.ran
  {
  }

  lemma AnswerAtRun(requests: nat -> Request, start: State, w: World)
    requires OrderOK(requests, start, w) && Enabled(w, RunOp) && Accounted(w, w.loop.caller)
    ensures w.accepted != [] && AnswerOK(requests, start, Next(requests, w, RunOp), |w.ran|)
  {
    NewlyTold(requests, w);
    assert w.accepted[..|w.ran|] == w.ran;
  }

  lemma AnswerStays(requests: nat -> Request, start: State, w: World, e: Event, k: nat)
    requires OrderOK(requests, start, w) && Enabled(w, e) && AnswerOK(requests, start, w, k)
    requires k < |w.accepted| && Accounted(w, w.accepted[k])
    ensures AnswerOK(requests, start, Next(requests, w, e), k)
  {
    HistoryGrows(requests, w, e);
    SameExpectation(requests, start, w.accepted, Next(requests, w, e).accepted, k);
    if k < |w.ran| {
      StaysTold(requests, w, e, w.accepted[k], SequentialAnswer(requests, start, w.accepted, k));
    } else if e.RunOp? {
      AnswerAtRun(requests, start, w);
    }
  }

  lemma AnswersStay(requests: nat -> Request, start: State, w: World, e: Event)
    requires LoopInv(requests, start, w) && Enabled(w, e)
    ensures forall k: nat :: AnswerOK(requests, start, Next(requests, w, e), k)
  {
    Unpacked(requests, start, w);
    var w' := Next(requests, w, e);
    forall k: nat ensures AnswerOK(requests, start, w', k) {
      assert AnswerOK(requests, start, w, k);
      if k < |w.accepted| {
        assert CallerOK(w, w.accepted[k]);
        AnswerStays(requests, start, w, e, k);
      } else {
        assert |w'.ran| <= |w.accepted|;
      }
    }
  }

  lemma OrderIsKept(requests: nat -> Request, start: State, w: World, e: Event)
    requires LoopInv(requests, start, w) && Enabled(w, e)
    ensures OrderOK(requests, start, Next(requests, w, e))
  {
    assert Sound(requests, start, w, OrderPart) && Sound(requests, start, w, CallersPart);
    OrderStays(requests, start, w, e);
  }

  lemma EventKeepsInv(requests: nat -> Request, start: State, w: World, e: Event)
    requires LoopInv(requests, start, w) && Enabled(w, e)
    ensures LoopInv(requests, start, Next(requests, w, e))
  {
    CallersStay(requests, start, w, e);
    ClosersStay(requests, start, w, e);
    StopStays(requests, start, w, e);
    OrderIsKept(requests, start, w, e);
    AnswersStay(requests, start, w, e);
    forall part: Part ensures Sound(requests, start, Next(requests, w, e), part) {
    }
  }

  lemma {:induction false} RunKeepsInv(requests: nat -> Request, start: State, callers: nat, closers: nat,
                                       events: seq<Event>)
    requires After(requests, Initial(start, callers, closers), events).Some?
    ensures LoopInv(requests, start, After(requests, Initial(start, callers, closers), events).value)
    ensures |After(requests, Initial(start, callers, closers), events).value.callers| == callers
  {
    if events == [] {
      InitialInv(requests, start, callers, closers);
    } else {
      var front := events[..|events| - 1];
      RunKeepsInv(requests, start, callers, closers, front);
      EventKeepsInv(requests, start, After(requests, Initial(start, callers, closers), front).value,
                    events[|events| - 1]);
    }
  }

  // ----- Exactly once, in one order -----

  /** In every reachable world the operations received so far were received once each; those run
      are a prefix; the library is what running them one after the other gives; and a caller that
      returned an answer was received, and told exactly what that sequential run tells it, while a
      caller that returned otherwise was never received. */
  lemma RunsInOrder(requests: nat -> Request, start: State, callers: nat, closers: nat, events: seq<Event>,
                        w: World)
    requires After(requests, Initial(start, callers, closers), events) == Some(w)
    ensures Sorting.Distinct(w.accepted) && w.ran <= w.accepted && |w.accepted| <= |w.ran| + 1
    ensures w.store == Sequential(requests, start, w.ran) && |w.callers| == callers
    ensures forall i: nat | i < |w.callers| && w.callers[i].Returned? ::
              match w.callers[i].outcome
              case Answered(a) => exists k: nat ::
                k < |w.ran| && w.ran[k] == i && a == SequentialAnswer(requests, start, w.ran, k)
              case _ => i !in w.accepted
  {
    RunKeepsInv(requests, start, callers, closers, events);
    Unpacked(requests, start, w);
    forall i: nat | i < |w.callers| && w.callers[i].Returned? && w.callers[i].outcome.Answered?
      ensures exists k: nat ::
                && k < |w.ran| && w.ran[k] == i
                && w.callers[i].outcome.answer == SequentialAnswer(requests, start, w.ran, k)
    {
      assert CallerOK(w, i);
      var k: nat :| k < |w.accepted| && w.accepted[k] == i;
      assert AnswerOK(requests, start, w, k);
      assert k < |w.ran| && w.ran[..k] == w.accepted[..k];
    }
    forall i: nat | i < |w.callers| && w.callers[i].Returned? && !w.callers[i].outcome.Answered?
      ensures i !in w.accepted
    {
      assert CallerOK(w, i);
    }
  }

  /** Once `closing` is set, in particular once the loop has taken `stop`, nothing more is accepted. */
  lemma {:induction false} NoneAcceptedAfterClosing(requests: nat -> Request, start: State, w: World,
                                                    events: seq<Event>, w': World)
    requires LoopInv(requests, start, w) && (w.closing || InStop(w.loop))
    requires After(requests, w, events) == Some(w')
    ensures w'.accepted == w.accepted && w'.closing && LoopInv(requests, start, w')
  {
    if events == [] {
      Unpacked(requests, start, w);
    } else {
      var front, e := events[..|events| - 1], events[|events| - 1];
      var before := After(requests, w, front).value;
      NoneAcceptedAfterClosing(requests, start, w, front, before);
      EventKeepsInv(requests, start, before, e);
      Unpacked(requests, start, before);
      if e.Hand? {
        assert CallerOK(before, e.i);
      }
    }
  }

  // ----- Every run ends, and only when everybody is served -----

  function CallerRank(c: Caller): (r: nat) {
    match c
    case Arriving => 8 case Locked => 7 case Offering => 6 case Handed => 2 case Awaiting => 1
    case Refused => 1 case Cancelled => 1 case Returned(_) => 0
  }

  function CloserRank(c: Closer): (r: nat) {
    match c
    case Entering => 10 case Announcing => 9 case Draining => 8 case Setting => 7 case Releasing => 6 case Stopping => 5
    case Standing => 3 case AwaitingDone => 2 case Late => 1 case Finished => 0
  }

  function LoopRank(l: Loop): (r: nat) {
    match l
    case Running(_) => 2 case Answering(_, _) => 1 case Closing(_) => 2 case Signalling(_) => 1
    case _ => 0
  }

  function Sum<T>(rank: T -> nat, s: seq<T>): (n: nat) {
    if s == [] then 0 else Sum(rank, s[..|s| - 1]) + rank(s[|s| - 1])
  }

  lemma {:induction false} SumUpdated<T>(rank: T -> nat, s: seq<T>, k: nat, x: T)
    requires k < |s|
    ensures Sum(rank, s[k := x]) + rank(s[k]) == Sum(rank, s) + rank(x)
  {
    var front := s[..|s| - 1];
    if k == |front| {
      assert s[k := x][..|s| - 1] == front;
    } else {
      SumUpdated(rank, front, k, x);
      assert s[k := x][..|s| - 1] == front[k := x];
    }
  }

  lemma {:induction false} SumConstant<T>(rank: T -> nat, s: seq<T>, x: T)
    requires forall k | 0 <= k < |s| :: s[k] == x
    ensures Sum(rank, s) == rank(x) * |s|
  {
    if s != [] {
      SumConstant(rank, s[..|s| - 1], x);
    }
  }

  /** The steps that can still be taken at most. */
  function Measure(w: World): (n: nat) {
    Sum(CallerRank, w.callers) + Sum(CloserRank, w.closers) + LoopRank(w.loop)
  }

  predicate ByCaller(e: Event) {
    e.ReadLock? || e.TestClosing? || e.Hand? || e.Cancel? || e.ReadUnlock? || e.Receive?
  }

  lemma CallerDecreasesMeasure(requests: nat -> Request, w: World, e: Event)
    requires Enabled(w, e) && ByCaller(e)
    ensures Measure(Next(requests, w, e)) < Measure(w)
  {
    var w' := Next(requests, w, e);
    SumUpdated(CallerRank, w.callers, e.i, w'.callers[e.i]);
    assert w'.callers == w.callers[e.i := w'.callers[e.i]] && w'.closers == w.closers;
    assert CallerRank(w'.callers[e.i]) + LoopRank(w'.loop) < CallerRank(w.callers[e.i]) + LoopRank(w.loop);
  }

  lemma ElectedSteps(requests: nat -> Request, w: World, e: Event, w': World)
    requires Enabled(w, e) && ByElected(e) && w' == Next(requests, w, e)
    ensures w'.callers == w.callers && |w'.closers| == |w.closers| && w'.closers == w.closers[e.k := w'.closers[e.k]]
    ensures CloserRank(w'.closers[e.k]) + LoopRank(w'.loop) < CloserRank(w.closers[e.k]) + LoopRank(w.loop)
  {
  }

  lemma WaitingSteps(requests: nat -> Request, w: World, e: Event, w': World)
    requires Enabled(w, e) && ByCloser(e) && !ByElected(e) && w' == Next(requests, w, e)
    ensures w'.callers == w.callers && |w'.closers| == |w.closers| && w'.closers == w.closers[e.k := w'.closers[e.k]]
    ensures CloserRank(w'.closers[e.k]) + LoopRank(w'.loop) < CloserRank(w.closers[e.k]) + LoopRank(w.loop)
  {
  }

  lemma CloserSteps(requests: nat -> Request, w: World, e: Event)
    requires Enabled(w, e) && ByCloser(e)
    ensures var w' := Next(requests, w, e);
            && w'.callers == w.callers && |w'.closers| == |w.closers| && w'.closers == w.closers[e.k := w'.closers[e.k]]
            && CloserRank(w'.closers[e.k]) + LoopRank(w'.loop) < CloserRank(w.closers[e.k]) + LoopRank(w.loop)
  {
    if ByElected(e) {
      ElectedSteps(requests, w, e, Next(requests, w, e));
    } else {
      WaitingSteps(requests, w, e, Next(requests, w, e));
    }
  }

  lemma CloserDecreasesMeasure(requests: nat -> Request, w: World, e: Event)
    requires Enabled(w, e) && ByCloser(e)
    ensures Measure(Next(requests, w, e)) < Measure(w)
  {
    var w' := Next(requests, w, e);
    CloserSteps(requests, w, e);
    SumUpdated(CloserRank, w.closers, e.k, w'.closers[e.k]);
  }

  lemma EventDecreasesMeasure(requests: nat -> Request, w: World, e: Event)
    requires Enabled(w, e)
    ensures Measure(Next(requests, w, e)) < Measure(w)
  {
    if ByCloser(e) {
      CloserDecreasesMeasure(requests, w, e);
    } else if ByCaller(e) {
      CallerDecreasesMeasure(requests, w, e);
    }
  }

  /** No interleaving is longer than eight steps a caller and ten a closer. */
  lemma {:induction false} RunsAreBounded(requests: nat -> Request, start: State, callers: nat, closers: nat,
                                          events: seq<Event>, w: World)
    requires After(requests, Initial(start, callers, closers), events) == Some(w)
    ensures |events| + Measure(w) <= 8 * callers + 10 * closers
  {
    if events == [] {
      SumConstant(CallerRank, w.callers, Arriving);
      SumConstant(CloserRank, w.closers, Entering);
    } else {
      var front := events[..|events| - 1];
      var before := After(requests, Initial(start, callers, closers), front).value;
      RunsAreBounded(requests, start, callers, closers, front, before);
      EventDecreasesMeasure(requests, before, events[|events| - 1]);
    }
  }

  /** Every caller has returned, every `Close` has returned, and the loop is idle or gone. */
  ghost predicate AllServed(w: World) {
    && (forall i | 0 <= i < |w.callers| :: w.callers[i].Returned?)
    && (forall k | 0 <= k < |w.closers| :: w.closers[k].Finished?)
    && (w.loop.Selecting? || w.loop.Stopped?)
    && (w.closers != [] ==> w.loop.Stopped?)
  }

  /** A caller past the lock can move, unless it waits for a loop that is at work. */
  lemma CallerMoves(requests: nat -> Request, start: State, w: World, i: nat) returns (e: Event)
    requires LoopInv(requests, start, w) && i < |w.callers| && !w.callers[i].Arriving? && !w.callers[i].Returned?
    requires w.loop.Selecting? || w.loop.Stopped?
    ensures Enabled(w, e) && !e.Cancel?
  {
    Unpacked(requests, start, w);
    assert CallerOK(w, i);
    match w.callers[i] {
      case Locked => e := TestClosing(i);
      case Offering => e := Hand(i);
      case Awaiting => e := Receive(i);
      case _ => e := ReadUnlock(i);
    }
  }

  lemma CloserMoves(requests: nat -> Request, start: State, w: World, k: nat) returns (e: Event)
    requires LoopInv(requests, start, w) && k < |w.closers| && !w.closers[k].Finished?
    requires w.loop.Selecting? || w.loop.Stopped?
    requires w.closers[k].Standing? ==> w.once.Used?
    ensures Enabled(w, e) && !e.Cancel?
  {
    Unpacked(requests, start, w);
    assert CloserOK(w, k);
    match w.closers[k] {
      case Entering => e := EnterOnce(k);
      case Announcing => e := AskLock(k);
      case Draining =>
        if i :| 0 <= i < |w.callers| && HoldsRead(w.callers[i]) {
          e := CallerMoves(requests, start, w, i);
        } else {
          e := GetLock(k);
        }
      case Setting => e := SetClosing(k);
      case Releasing => e := WriteUnlock(k);
      case Stopping => e := TakeStop(k);
      case AwaitingDone => e := SeeDone(k);
      case Standing => e := LeaveOnce(k);
      case Late => e := SeeClosed(k);
    }
  }

  /** No deadlock: until everybody is served some step is possible that needs no cancellation. */
  lemma SomeoneMoves(requests: nat -> Request, start: State, w: World) returns (e: Event)
    requires LoopInv(requests, start, w) && !AllServed(w)
    ensures Enabled(w, e) && !e.Cancel?
  {
    match w.loop {
      case Running(_) => e := RunOp;
      case Answering(_, _) => e := Reply;
      case Closing(_) => e := CloseClosed;
      case Signalling(_) => e := CloseDone;
      case _ => e := ThreadMoves(requests, start, w);
    }
  }

  lemma ThreadMoves(requests: nat -> Request, start: State, w: World) returns (e: Event)
    requires LoopInv(requests, start, w) && !AllServed(w) && (w.loop.Selecting? || w.loop.Stopped?)
    ensures Enabled(w, e) && !e.Cancel?
  {
    Unpacked(requests, start, w);
    if i :| 0 <= i < |w.callers| && !w.callers[i].Returned? && !w.callers[i].Arriving? {
      e := CallerMoves(requests, start, w, i);
    } else if k :| 0 <= k < |w.closers| && !w.closers[k].Finished? && !w.closers[k].Standing? {
      e := CloserMoves(requests, start, w, k);
    } else if i :| 0 <= i < |w.callers| && w.callers[i].Arriving? {
      e := ReadLock(i);
    } else {
      e := LastMoves(requests, start, w);
    }
  }

  /** With all callers returned and all closers through or standing by, `closeOnce` is used up. */
  lemma LastMoves(requests: nat -> Request, start: State, w: World) returns (e: Event)
    requires LoopInv(requests, start, w) && !AllServed(w) && (w.loop.Selecting? || w.loop.Stopped?)
    requires forall i | 0 <= i < |w.callers| :: w.callers[i].Returned?
    requires forall k | 0 <= k < |w.closers| :: w.closers[k].Finished? || w.closers[k].Standing?
    ensures Enabled(w, e) && !e.Cancel?
  {
    Unpacked(requests, start, w);
    assert CloserOK(w, if w.once.Taken? then w.once.closer else 0);
    assert CloserOK(w, 0);
    if k :| 0 <= k < |w.closers| && w.closers[k].Standing? {
      e := CloserMoves(requests, start, w, k);
    }
  }

  /** A run that cannot go on, cancellations aside, has served everybody. */
  lemma StuckMeansServed(requests: nat -> Request, start: State, callers: nat, closers: nat, events: seq<Event>,
                         w: World)
    requires After(requests, Initial(start, callers, closers), events) == Some(w)
    requires forall e | Enabled(w, e) :: e.Cancel?
    ensures AllServed(w)
  {
    RunKeepsInv(requests, start, callers, closers, events);
    if !AllServed(w) {
      var e := SomeoneMoves(requests, start, w);
    }
  }

  /** What an operation on library `s` leaves behind and what its caller is told: a view reads; an
      update is published exactly if it completes, and otherwise leaves the library as it was and its
      own error, the error of the abort, or the report of the panic to the caller. */
  ghost predicate Serves(request: Request, s: State, s': State, a: Answer) {
    match request
    case View(read) => s' == s && a == read(s)
    case Update(write) =>
      match write(s)
      case Completed(result) => s' == result && a == Success
      case Failed(e) => s' == s && a == Failure(e)
      case Aborted(e) => s' == s && a == Failure(e)
      case Panicked => s' == s && a == PanicReported
  }

  /** The libraries before, between and after the operations in `order`. */
  ghost function Stages(requests: nat -> Request, start: State, order: seq<nat>): (stages: seq<State>)
    ensures |stages| == |order| + 1
  {
    seq(|order| + 1, k requires 0 <= k <= |order| => Sequential(requests, start, order[..k]))
  }

  lemma StageServes(requests: nat -> Request, start: State, order: seq<nat>, k: nat)
    requires k < |order|
    ensures var stages := Stages(requests, start, order);
            Serves(requests(order[k]), stages[k], stages[k + 1], SequentialAnswer(requests, start, order, k))
  {
    assert order[..k + 1][..k] == order[..k];
  }

  /** In every interleaving each operation is accepted once and run once, in the order of acceptance, and
      the library goes through stages, one operation after the other; each caller that returned an answer was
      told what its own operation came to on the stage it met, and a caller that returned otherwise was never
      accepted. */
  lemma RunsOnceInOrder(requests: nat -> Request, start: State, callers: nat, closers: nat, events: seq<Event>,
                        w: World) returns (stages: seq<State>, answers: seq<Answer>)
    requires After(requests, Initial(start, callers, closers), events) == Some(w)
    ensures Sorting.Distinct(w.accepted) && w.ran <= w.accepted && |w.accepted| <= |w.ran| + 1
    ensures |stages| == |w.ran| + 1 && |answers| == |w.ran| && stages[0] == start && stages[|w.ran|] == w.store
    ensures forall k | 0 <= k < |w.ran| :: Serves(requests(w.ran[k]), stages[k], stages[k + 1], answers[k])
    ensures forall i: nat | i < |w.callers| && w.callers[i].Returned? && w.callers[i].outcome.Answered? ::
              exists k :: 0 <= k < |w.ran| && w.ran[k] == i && w.callers[i].outcome.answer == answers[k]
    ensures forall i: nat | i < |w.callers| && w.callers[i].Returned? && !w.callers[i].outcome.Answered? ::
              i !in w.accepted
  {
    RunsInOrder(requests, start, callers, closers, events, w);
    stages := Stages(requests, start, w.ran);
    answers := seq(|w.ran|, k requires 0 <= k < |w.ran| => SequentialAnswer(requests, start, w.ran, k));
    assert w.ran[..|w.ran|] == w.ran;
    forall k | 0 <= k < |w.ran| ensures Serves(requests(w.ran[k]), stages[k], stages[k + 1], answers[k]) {
      StageServes(requests, start, w.ran, k);
    }
  }

  // ----- The service behind the loop -----

  /** What the callers ask for: a service call, or a look at the library. */
  datatype Work = Change(call: Runs.Call) | Look(read: State -> Answer)

  /** A service call is the callback of an update. */
  ghost function WorkRequest(work: Work): (r: Request) {
    match work
    case Look(read) => View(read)
    case Change(call) =>
      Update((s: State) =>
        if KeyedDocuments(s.docs) then
          match Runs.Apply(call, s) case Ok(s') => Completed(s') case Err(e) => Failed(e)
        else Panicked)
  }

  /** The service calls among the work of the callers in `order`. */
  ghost function CallsAmong(works: nat -> Work, order: seq<nat>): (calls: seq<Runs.Call>) {
    if order == [] then []
    else
      var last := works(order[|order| - 1]);
      CallsAmong(works, order[..|order| - 1]) + if last.Change? then [last.call] else []
  }

  /** The library made by the calls among the work of the callers in `order`. */
  ghost function MadeBy(works: nat -> Work, order: seq<nat>): (s: State) {
    Runs.Run(CallsAmong(works, order))
  }

  lemma {:induction false} SequentialIsRun(works: nat -> Work, requests: nat -> Request, order: seq<nat>)
    requires forall i :: requests(i) == WorkRequest(works(i))
    ensures Sequential(requests, EMPTY, order) == MadeBy(works, order)
  {
    if order != [] {
      var front, last := order[..|order| - 1], works(order[|order| - 1]);
      SequentialIsRun(works, requests, front);
      if last.Change? {
        assert CallsAmong(works, order) == CallsAmong(works, front) + [last.call];
        assert (CallsAmong(works, front) + [last.call])[..|CallsAmong(works, front)|] == CallsAmong(works, front);
      } else {
        assert CallsAmong(works, order) == CallsAmong(works, front);
      }
    }
  }

  /** Whatever the interleaving of concurrent service calls, views, cancellations and closes, the library
      is one that a single-threaded run reaches, so it satisfies the invariant of every run. */
  lemma ConcurrentCallsAreARun(works: nat -> Work, requests: nat -> Request, callers: nat, closers: nat,
                               events: seq<Event>, w: World)
    requires forall i :: requests(i) == WorkRequest(works(i))
    requires After(requests, Initial(EMPTY, callers, closers), events) == Some(w)
    ensures w.store == MadeBy(works, w.ran) && Inv(w.store)
  {
    RunsInOrder(requests, EMPTY, callers, closers, events, w);
    SequentialIsRun(works, requests, w.ran);
  }

  /** What the work comes to on library `s`: a failed call is answered with its own error, and only a
      failed call is; a look is answered with what it reads. */
  ghost predicate Truthful(work: Work, s: State, a: Answer) {
    KeyedDocuments(s.docs) &&
    match work
    case Look(read) => a == read(s)
    case Change(call) =>
      match Runs.Apply(call, s) case Ok(_) => a == Success case Err(e) => a == Failure(e)
  }

  lemma ServedTruthfully(work: Work, s: State, s': State, a: Answer)
    requires KeyedDocuments(s.docs) && Serves(WorkRequest(work), s, s', a)
    ensures Truthful(work, s, a)
  {
  }

  lemma AnswerIsTruthful(works: nat -> Work, requests: nat -> Request, order: seq<nat>, k: nat)
    requires k < |order| && forall j :: requests(j) == WorkRequest(works(j))
    ensures Truthful(works(order[k]), MadeBy(works, order[..k]), SequentialAnswer(requests, EMPTY, order, k))
  {
    StageServes(requests, EMPTY, order, k);
    SequentialIsRun(works, requests, order[..k]);
    var stages := Stages(requests, EMPTY, order);
    ServedTruthfully(works(order[k]), stages[k], stages[k + 1], SequentialAnswer(requests, EMPTY, order, k));
  }

  /** Every caller that got an answer was told the truth about the library that the calls accepted
      before its own had made: a view what it reads there, a service call its error if it fails there,
      and success otherwise. */
  lemma CallersAreToldTheTruth(works: nat -> Work, requests: nat -> Request, callers: nat, closers: nat,
                               events: seq<Event>, w: World, i: nat) returns (k: nat)
    requires forall j :: requests(j) == WorkRequest(works(j))
    requires After(requests, Initial(EMPTY, callers, closers), events) == Some(w)
    requires i < |w.callers| && w.callers[i].Returned? && w.callers[i].outcome.Answered?
    ensures k < |w.accepted| && w.accepted[k] == i
    ensures Truthful(works(i), MadeBy(works, w.accepted[..k]), w.callers[i].outcome.answer)
  {
    RunsInOrder(requests, EMPTY, callers, closers, events, w);
    k :| k < |w.ran| && w.ran[k] == i && w.callers[i].outcome.answer == SequentialAnswer(requests, EMPTY, w.ran, k);
    AnswerIsTruthful(works, requests, w.ran, k);
    assert w.accepted[..k] == w.ran[..k];
  }
}
