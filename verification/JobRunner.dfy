/** The job runner over the job table, as a state machine: enqueues from anywhere, one runner that
    claims, runs and settles jobs one at a time, transitions that fail, crashes at any moment, and
    recovery before the next start. */
module JobRunner {
  import opened Prelude
  import opened JobQueue
  import Sorting
  import Text

  // ----- What a handler does -----

  datatype WorkerEvent = Succeeded | Erred | Canceled | PanickedWith

  /** `failed`. */
  predicate HasFailed(event: WorkerEvent) {
    !event.Succeeded?
  }

  /** `safeMessage`. */
  function SafeMessage(event: WorkerEvent): (message: string) {
    match event
    case PanickedWith => "job worker panicked"
    case Canceled => "job canceled"
    case Erred => "job failed"
    case Succeeded => ""
  }

  const RECOVERY_MESSAGE := "startup recovery"
  const MISSING_HANDLER := "job handler not registered"

  /** The transition `runClaimed` and `recordFailure` ask for. */
  function Decision(job: Job, event: WorkerEvent, maxAttempts: nat): (next: Status) {
    if !HasFailed(event) then Completed
    else if job.attempts < maxAttempts then Queued
    else Failed
  }

  // ----- The state machine -----

  /** Where the runner is: not running; between jobs; about to claim, with a snapshot of the kinds
      that have handlers; with a claimed job whose handler has not begun; in the handler; about to
      record how the handler ended. */
  datatype Phase =
    | Down
    | Idle
    | Ready(kinds: seq<string>)
    | Claimed(job: Job, kinds: seq<string>)
    | Working(job: Job)
    | Settling(job: Job, event: WorkerEvent)

  /** `handlers` are the kinds with a handler. `order` lists the jobs as they were enqueued; `starts`
      counts how often a job's handler began, `lost` how often the runner went down between claiming a
      job and beginning its handler; `succeeded` are the jobs whose handler has ended without a
      failure. */
  datatype World = World(
    jobs: Jobs, counter: nat, handlers: set<string>, phase: Phase, order: seq<string>,
    starts: map<string, nat>, lost: map<string, nat>, claims: nat, succeeded: set<string>)

  const EMPTY := World(map[], 0, {}, Down, [], map[], map[], 0, {})

  datatype Setup = Setup(maxAttempts: nat, stamp: int -> string)

  datatype Event =
    | Enqueue(request: Request, now: int)
    | Register(kind: string)
    | StartUp(now: int)                // RecoverRunning, then Run
    | Snapshot(kinds: seq<string>)     // handlerSnapshot and handlerKinds
    | Claim(id: string, now: int)      // queue.Claim finds this job
    | FindNone                         // it finds none
    | Begin                            // the handler is called
    | FailMissing(now: int)            // there is none, and Fail succeeds
    | End(event: WorkerEvent)          // the handler returns or panics
    | Settle(now: int)                 // Complete, Requeue or Fail succeeds
    | SettleFails                      // it does not; Run returns the error
    | GoDown                           // a crash, Close, or an error from Claim

  function Count(m: map<string, nat>, id: string): (n: nat) {
    if id in m then m[id] else 0
  }

  /** The kinds of the handlers, each once. */
  predicate IsSnapshot(kinds: seq<string>, handlers: set<string>) {
    Sorting.Distinct(kinds) && (forall k | k in kinds :: k in handlers) && (forall k | k in handlers :: k in kinds)
  }

  ghost predicate Enabled(setup: Setup, w: World, e: Event) {
    match e
    case Enqueue(_, _) => true
    case Register(_) => true
    case StartUp(_) => w.phase.Down?
    case Snapshot(kinds) => w.phase.Idle? && IsSnapshot(kinds, w.handlers)
    case Claim(id, _) => w.phase.Ready? && |w.phase.kinds| <= 4 && Oldest(w.jobs, w.phase.kinds, id)
    case FindNone => w.phase.Ready? && forall j | j in w.jobs :: !Claimable(w.jobs[j], w.phase.kinds)
    case Begin => w.phase.Claimed? && w.phase.job.kind in w.phase.kinds
    case FailMissing(now) =>
      && w.phase.Claimed? && w.phase.job.kind !in w.phase.kinds
      && TransitionSpec(w.jobs, w.phase.job.id, Failed, MISSING_HANDLER, now).Done?
    case End(_) => w.phase.Working?
    case Settle(now) =>
      && w.phase.Settling?
      && TransitionSpec(w.jobs, w.phase.job.id, Decision(w.phase.job, w.phase.event, setup.maxAttempts),
                        SafeMessage(w.phase.event), now).Done?
    case SettleFails => w.phase.Settling?
    case GoDown => !w.phase.Down?
  }

  function Enqueued(setup: Setup, w: World, request: Request, now: int): (w': World) {
    match EnqueueSpec(setup.stamp, w.jobs, w.counter, request, now)
    case Refused(_) => w
    case Done(v) => w.(jobs := v.0, counter := v.1, order := if v.2.id in w.jobs then w.order else w.order + [v.2.id])
  }

  ghost function Next(setup: Setup, w: World, e: Event): (w': World)
    requires Enabled(setup, w, e)
  {
    match e
    case Enqueue(request, now) => Enqueued(setup, w, request, now)
    case Register(kind) => if kind == "" then w else w.(handlers := w.handlers + {kind})
    case StartUp(now) => w.(jobs := Recovered(w.jobs, RECOVERY_MESSAGE, now), phase := Idle)
    case Snapshot(kinds) => w.(phase := Ready(kinds))
    case Claim(id, now) =>
      var job := Started(w.jobs[id], now);
      w.(jobs := w.jobs[id := job], phase := Claimed(job, w.phase.kinds), claims := w.claims + 1)
    case FindNone => w.(phase := Idle)
    case Begin =>
      var id := w.phase.job.id;
      w.(phase := Working(w.phase.job), starts := w.starts[id := Count(w.starts, id) + 1])
    case FailMissing(now) =>
      w.(jobs := TransitionSpec(w.jobs, w.phase.job.id, Failed, MISSING_HANDLER, now).value, phase := Idle)
    case End(event) =>
      w.(phase := Settling(w.phase.job, event),
         succeeded := if HasFailed(event) then w.succeeded else w.succeeded + {w.phase.job.id})
    case Settle(now) =>
      var job, event := w.phase.job, w.phase.event;
      w.(jobs := TransitionSpec(w.jobs, job.id, Decision(job, event, setup.maxAttempts), SafeMessage(event), now).value,
         phase := Idle)
    case SettleFails => w.(phase := Down)
    case GoDown =>
      if w.phase.Claimed? then
        var id := w.phase.job.id;
        w.(phase := Down, lost := w.lost[id := Count(w.lost, id) + 1])
      else w.(phase := Down)
  }

  ghost function After(setup: Setup, w: World, events: seq<Event>): (r: Option<World>) {
    if events == [] then Some(w)
    else match After(setup, w, events[..|events| - 1])
      case None => None
      case Some(before) =>
        var e := events[|events| - 1];
        if Enabled(setup, before, e) then Some(Next(setup, before, e)) else None
  }

  lemma OneEventMore(setup: Setup, w: World, events: seq<Event>, before: World, e: Event)
    requires After(setup, w, events) == Some(before) && Enabled(setup, before, e)
    ensures After(setup, w, events + [e]) == Some(Next(setup, before, e))
  {
    assert (events + [e])[..|events|] == events;
  }

  // ----- The invariant -----

  predicate Holds(phase: Phase, id: string) {
    (phase.Claimed? || phase.Working? || phase.Settling?) && phase.job.id == id
  }

  predicate Holding(phase: Phase) {
    phase.Claimed? || phase.Working? || phase.Settling?
  }

  /** Attempts are the handler's starts and the claims that got no further; a queued job has an
      attempt left; while a runner is up, the running job is the one it holds. */
  ghost predicate JobOK(setup: Setup, w: World, id: string) {
    id in w.jobs ==>
      && w.jobs[id].attempts == Count(w.starts, id) + Count(w.lost, id)
         + (if w.phase.Claimed? && w.phase.job.id == id then 1 else 0)
      && w.jobs[id].attempts <= setup.maxAttempts
      && (w.jobs[id].status.Queued? ==> w.jobs[id].attempts < setup.maxAttempts)
      && (w.jobs[id].status.Running? && !w.phase.Down? ==> Holds(w.phase, id))
      && Retried(setup, w, id)
  }

  /** A job fails for good only with its attempts used up, or by a recovery; it is completed only
      after its handler succeeded, and once that happened it is never queued again. */
  ghost predicate Retried(setup: Setup, w: World, id: string)
    requires id in w.jobs
  {
    var job := w.jobs[id];
    && (job.status.Failed? ==> job.attempts == setup.maxAttempts || job.error == Some(RECOVERY_MESSAGE))
    && (job.status.Completed? ==> id in w.succeeded)
    && (id in w.succeeded ==>
          && !job.status.Queued? && (job.status.Failed? ==> job.error == Some(RECOVERY_MESSAGE))
          && !(w.phase.Claimed? && w.phase.job.id == id) && !(w.phase.Working? && w.phase.job.id == id))
    && (w.phase.Settling? && w.phase.job.id == id ==> (id in w.succeeded <==> !HasFailed(w.phase.event)))
  }

  ghost predicate Unknown(w: World, id: string) {
    id !in w.jobs ==> Count(w.starts, id) == 0 && Count(w.lost, id) == 0 && id !in w.succeeded
  }

  ghost predicate PhaseOK(w: World) {
    && (Holding(w.phase) ==>
          w.phase.job.id in w.jobs && w.jobs[w.phase.job.id] == w.phase.job && w.phase.job.status.Running?)
    && (w.phase.Claimed? ==> w.phase.job.kind in w.phase.kinds)
  }

  ghost predicate RunnerInv(setup: Setup, w: World) {
    && QueueInv(w.jobs) && PhaseOK(w)
    && (forall id :: JobOK(setup, w, id))
    && (forall id :: Unknown(w, id))
  }

  lemma EnqueueStep(setup: Setup, w: World, request: Request, now: int)
    requires setup.maxAttempts >= 1 && RunnerInv(setup, w)
    ensures RunnerInv(setup, Enqueued(setup, w, request, now))
  {
    var w' := Enqueued(setup, w, request, now);
    match EnqueueSpec(setup.stamp, w.jobs, w.counter, request, now) {
      case Refused(_) =>
      case Done(v) =>
        EnqueueKeepsInv(setup.stamp, w.jobs, w.counter, request, now, v.0, v.1, v.2);
        forall id ensures JobOK(setup, w', id) && Unknown(w', id) {
          assert JobOK(setup, w, id) && Unknown(w, id);
        }
    }
  }

  lemma SettleStep(setup: Setup, w: World, now: int)
    requires setup.maxAttempts >= 1 && RunnerInv(setup, w) && Enabled(setup, w, Settle(now))
    ensures RunnerInv(setup, Next(setup, w, Settle(now)))
  {
    var w', job, event := Next(setup, w, Settle(now)), w.phase.job, w.phase.event;
    var next := Decision(job, event, setup.maxAttempts);
    TransitionKeepsInv(w.jobs, job.id, next, SafeMessage(event), now, w'.jobs);
    forall id ensures JobOK(setup, w', id) && Unknown(w', id) {
      assert JobOK(setup, w, id) && Unknown(w, id);
    }
  }

  lemma StartUpStep(setup: Setup, w: World, now: int)
    requires setup.maxAttempts >= 1 && RunnerInv(setup, w) && w.phase.Down?
    ensures RunnerInv(setup, Next(setup, w, StartUp(now)))
  {
    var w' := Next(setup, w, StartUp(now));
    RecoverKeepsInv(w.jobs, RECOVERY_MESSAGE, now);
    forall id ensures JobOK(setup, w', id) && Unknown(w', id) {
      assert JobOK(setup, w, id) && Unknown(w, id);
    }
  }

  lemma ClaimStep(setup: Setup, w: World, id: string, now: int)
    requires setup.maxAttempts >= 1 && RunnerInv(setup, w) && Enabled(setup, w, Claim(id, now))
    ensures RunnerInv(setup, Next(setup, w, Claim(id, now)))
  {
    var w' := Next(setup, w, Claim(id, now));
    ClaimKeepsInv(w.jobs, w.phase.kinds, id, now);
    forall j ensures JobOK(setup, w', j) && Unknown(w', j) {
      assert JobOK(setup, w, j) && Unknown(w, j);
    }
  }

  predicate ChangesTable(e: Event) {
    e.Enqueue? || e.StartUp? || e.Claim? || e.FailMissing? || e.Settle?
  }

  lemma QuietStep(setup: Setup, w: World, e: Event)
    requires RunnerInv(setup, w) && Enabled(setup, w, e) && !ChangesTable(e)
    ensures RunnerInv(setup, Next(setup, w, e)) && Next(setup, w, e).jobs == w.jobs
  {
    var w' := Next(setup, w, e);
    forall id ensures JobOK(setup, w', id) && Unknown(w', id) {
      assert JobOK(setup, w, id) && Unknown(w, id);
    }
  }

  lemma StepKeepsInv(setup: Setup, w: World, e: Event)
    requires setup.maxAttempts >= 1 && RunnerInv(setup, w) && Enabled(setup, w, e)
    ensures RunnerInv(setup, Next(setup, w, e))
  {
    match e {
      case Enqueue(request, now) => EnqueueStep(setup, w, request, now);
      case Settle(now) => SettleStep(setup, w, now);
      case StartUp(now) => StartUpStep(setup, w, now);
      case Claim(id, now) => ClaimStep(setup, w, id, now);
      case FailMissing(_) =>
      case _ => QuietStep(setup, w, e);
    }
  }

  lemma {:induction false} RunKeepsInv(setup: Setup, events: seq<Event>, w: World)
    requires setup.maxAttempts >= 1 && After(setup, EMPTY, events) == Some(w)
    ensures RunnerInv(setup, w)
  {
    if events == [] {
      forall i, j ensures OneActive(EMPTY.jobs, i, j) {
      }
    } else {
      var front := events[..|events| - 1];
      var before := After(setup, EMPTY, front).value;
      RunKeepsInv(setup, front, before);
      StepKeepsInv(setup, before, events[|events| - 1]);
    }
  }

  // ----- Results about every run -----

  /** In every run: a job's handler begins at most `maxAttempts` times; `attempts` equals its starts
      unless the runner went down between claim and start; queued jobs have no timestamps of a
      start; no two active jobs ask for the same work; no job is running while the runner is idle. */
  lemma EveryRunIsSound(setup: Setup, events: seq<Event>, w: World, id: string)
    requires setup.maxAttempts >= 1 && After(setup, EMPTY, events) == Some(w) && id in w.jobs
    ensures Count(w.starts, id) <= w.jobs[id].attempts <= setup.maxAttempts
    ensures !w.phase.Claimed? ==> w.jobs[id].attempts == Count(w.starts, id) + Count(w.lost, id)
    ensures w.jobs[id].attempts == Count(w.starts, id) <==>
              Count(w.lost, id) == 0 && !(w.phase.Claimed? && w.phase.job.id == id)
    ensures w.jobs[id].status.Queued? ==> w.jobs[id].startedAt.None? && w.jobs[id].finishedAt.None?
    ensures w.jobs[id].status.Running? && !w.phase.Down? ==> Holds(w.phase, id)
    ensures forall j | j in w.jobs && Active(w.jobs[j]) && Active(w.jobs[id]) && w.jobs[j].kind == w.jobs[id].kind
                       && w.jobs[j].payload == w.jobs[id].payload :: j == id
  {
    RunKeepsInv(setup, events, w);
    assert JobOK(setup, w, id) && WellTimed(w.jobs[id]);
    forall j | j in w.jobs && Active(w.jobs[j]) && Active(w.jobs[id]) && w.jobs[j].kind == w.jobs[id].kind
               && w.jobs[j].payload == w.jobs[id].payload ensures j == id {
      assert OneActive(w.jobs, j, id);
    }
  }

  /** In every run: a job is given up only after `maxAttempts` attempts or by a recovery, is
      completed only after its handler succeeded, and once that happened it is not queued again and
      fails only by a recovery that found it still unrecorded. */
  lemma RetriesAreUsedUp(setup: Setup, events: seq<Event>, w: World, id: string)
    requires setup.maxAttempts >= 1 && After(setup, EMPTY, events) == Some(w) && id in w.jobs
    ensures w.jobs[id].status.Failed? ==>
              w.jobs[id].attempts == setup.maxAttempts || w.jobs[id].error == Some(RECOVERY_MESSAGE)
    ensures w.jobs[id].status.Completed? ==> id in w.succeeded
    ensures id in w.succeeded ==> !w.jobs[id].status.Queued?
    ensures id in w.succeeded && w.jobs[id].status.Failed? ==> w.jobs[id].error == Some("startup recovery")
  {
    RunKeepsInv(setup, events, w);
    assert JobOK(setup, w, id);
  }

  /** What becomes of the row of a job whose handler has ended: completed after a success; after a failure
      queued again while attempts are left, and failed otherwise, either way with the failure's message. */
  predicate IsSettled(before: Job, attempts: nat, event: WorkerEvent, maxAttempts: nat, now: int, row: Job) {
    && row == before.(status := row.status, error := row.error, startedAt := row.startedAt,
                      finishedAt := row.finishedAt, updatedAt := now)
    && match event
       case Succeeded =>
         row.status == Completed && row.error.None? && row.startedAt == before.startedAt && row.finishedAt == Some(now)
       case _ =>
         && row.error == Some(if event == PanickedWith then "job worker panicked"
                              else if event == Canceled then "job canceled" else "job failed")
         && if attempts < maxAttempts
            then row.status == Queued && row.startedAt.None? && row.finishedAt.None?
            else row.status == Failed && row.startedAt == before.startedAt && row.finishedAt == Some(now)
  }

  lemma ChangedIsSettled(before: Job, attempts: nat, job: Job, event: WorkerEvent, maxAttempts: nat, now: int)
    requires attempts == job.attempts
    ensures IsSettled(before, attempts, event, maxAttempts, now,
                      Changed(before, Decision(job, event, maxAttempts), SafeMessage(event), now))
  {
  }

  /** Recording how the handler ended settles the row of its job, and no other. */
  lemma SettleOutcome(setup: Setup, w: World, now: int)
    requires setup.maxAttempts >= 1 && RunnerInv(setup, w) && Enabled(setup, w, Settle(now))
    ensures var (w', job) := (Next(setup, w, Settle(now)), w.phase.job);
            && job.id in w.jobs && w.jobs[job.id] == job && job.id in w'.jobs
            && w'.jobs == w.jobs[job.id := w'.jobs[job.id]]
            && IsSettled(job, job.attempts, w.phase.event, setup.maxAttempts, now, w'.jobs[job.id])
  {
    ChangedIsSettled(w.phase.job, w.phase.job.attempts, w.phase.job, w.phase.event, setup.maxAttempts, now);
  }

  predicate Terminal(job: Job) {
    job.status.Completed? || job.status.Failed?
  }

  /** The runner never leaves completed or failed: such a row stays as it is for good. */
  lemma {:induction false} TerminalForGood(setup: Setup, w: World, events: seq<Event>, w': World, id: string)
    requires setup.maxAttempts >= 1 && RunnerInv(setup, w) && After(setup, w, events) == Some(w')
    requires id in w.jobs && Terminal(w.jobs[id])
    ensures RunnerInv(setup, w') && id in w'.jobs && w'.jobs[id] == w.jobs[id]
  {
    if events != [] {
      var front, e := events[..|events| - 1], events[|events| - 1];
      var before := After(setup, w, front).value;
      TerminalForGood(setup, w, front, before, id);
      StepKeepsInv(setup, before, e);
    }
  }

  /** The branch of `RunOnce` for a missing handler is never taken: in every run the claimed job is of
      a kind in the snapshot, whatever has been registered since. */
  lemma NoHandlerIsMissing(setup: Setup, events: seq<Event>, w: World, now: int)
    requires setup.maxAttempts >= 1 && After(setup, EMPTY, events) == Some(w)
    ensures !Enabled(setup, w, FailMissing(now))
    ensures w.phase.Claimed? ==> Enabled(setup, w, Begin)
  {
    RunKeepsInv(setup, events, w);
  }

  /** A job of its own, queued. */
  const QUEUED_JOB := Job("j", "poll_feed", Queued, "p", None, 0, 1, 1, None, None)

  lemma JobWaits(setup: Setup) returns (events: seq<Event>, w: World)
    ensures After(setup, EMPTY, events) == Some(w)
    ensures w.jobs == map["j" := QUEUED_JOB] && w.phase == Idle && w.handlers == {"poll_feed"} && w.starts == map[]
  {
    var none: seq<Event> := [];
    var first := Enqueue(Request("j", "poll_feed", "p"), 1);
    OneEventMore(setup, EMPTY, none, EMPTY, first);
    var w1 := Next(setup, EMPTY, first);
    OneEventMore(setup, EMPTY, none + [first], w1, Register("poll_feed"));
    var w2 := Next(setup, w1, Register("poll_feed"));
    OneEventMore(setup, EMPTY, none + [first] + [Register("poll_feed")], w2, StartUp(2));
    events, w := none + [first] + [Register("poll_feed")] + [StartUp(2)], Next(setup, w2, StartUp(2));
  }

  lemma JobIsClaimed(setup: Setup, before: World) returns (events: seq<Event>, w: World)
    requires before.jobs == map["j" := QUEUED_JOB] && before.phase == Idle && before.handlers == {"poll_feed"}
    ensures After(setup, before, events) == Some(w)
    ensures w.jobs == map["j" := Started(QUEUED_JOB, 3)] && w.phase == Down && w.starts == before.starts
  {
    var none: seq<Event> := [];
    OneEventMore(setup, before, none, before, Snapshot(["poll_feed"]));
    var ready := Next(setup, before, Snapshot(["poll_feed"]));
    OneEventMore(setup, before, none + [Snapshot(["poll_feed"])], ready, Claim("j", 3));
    var claimed := Next(setup, ready, Claim("j", 3));
    OneEventMore(setup, before, none + [Snapshot(["poll_feed"])] + [Claim("j", 3)], claimed, GoDown);
    events := none + [Snapshot(["poll_feed"])] + [Claim("j", 3)] + [GoDown];
    w := Next(setup, claimed, GoDown);
  }

  lemma {:induction false} AfterBoth(setup: Setup, w: World, front: seq<Event>, back: seq<Event>)
    requires After(setup, w, front).Some?
    ensures After(setup, w, front + back) == After(setup, After(setup, w, front).value, back)
  {
    if back == [] {
      assert front + back == front;
    } else {
      assert (front + back)[..|front + back| - 1] == front + back[..|back| - 1];
      AfterBoth(setup, w, front, back[..|back| - 1]);
    }
  }

  /** Attempts need not equal starts: the runner may go down between the claim and the start. */
  lemma AttemptsExceedStarts(setup: Setup)
    ensures exists events, w :: After(setup, EMPTY, events) == Some(w)
              && "j" in w.jobs && w.jobs["j"].attempts == 1 && Count(w.starts, "j") == 0
  {
    var front, waiting := JobWaits(setup);
    var back, w := JobIsClaimed(setup, waiting);
    AfterBoth(setup, EMPTY, front, back);
    assert After(setup, EMPTY, front + back) == Some(w);
  }

  /** Recording how a handler ended is refused only by a failing database: the job is there, is
      running, and has no active twin. */
  lemma SettleIsPossible(setup: Setup, w: World, now: int)
    requires setup.maxAttempts >= 1 && RunnerInv(setup, w) && w.phase.Settling?
    ensures Enabled(setup, w, Settle(now))
  {
    NoTwinOfActive(w.jobs, w.phase.job.id);
  }

  // ----- How many claims there can be -----

  /** The claims a job can still see. */
  function Remaining(setup: Setup, job: Job): (n: nat) {
    if Active(job) && job.attempts <= setup.maxAttempts then setup.maxAttempts - job.attempts else 0
  }

  function TotalRemaining(setup: Setup, jobs: Jobs, order: seq<string>): (n: nat) {
    if order == [] then 0
    else
      var id := order[|order| - 1];
      TotalRemaining(setup, jobs, order[..|order| - 1]) + if id in jobs then Remaining(setup, jobs[id]) else 0
  }

  ghost predicate Ordered(w: World) {
    && (forall k | 0 <= k < |w.order| :: w.order[k] in w.jobs)
    && (forall i, j | 0 <= i < j < |w.order| :: w.order[i] != w.order[j])
    && (forall id | id in w.jobs :: id in w.order)
  }

  predicate NotMore(setup: Setup, jobs: Jobs, jobs': Jobs, id: string) {
    id in jobs && id in jobs' && Remaining(setup, jobs'[id]) <= Remaining(setup, jobs[id])
  }

  lemma {:induction false} RemainingFalls(setup: Setup, jobs: Jobs, jobs': Jobs, order: seq<string>)
    requires forall k | 0 <= k < |order| :: NotMore(setup, jobs, jobs', order[k])
    ensures TotalRemaining(setup, jobs', order) <= TotalRemaining(setup, jobs, order)
  {
    if order != [] {
      RemainingFalls(setup, jobs, jobs', order[..|order| - 1]);
    }
  }

  lemma {:induction false} RemainingDrops(setup: Setup, jobs: Jobs, jobs': Jobs, order: seq<string>, id: string)
    requires id in order && forall k | 0 <= k < |order| :: NotMore(setup, jobs, jobs', order[k])
    requires id in jobs && id in jobs' && Remaining(setup, jobs'[id]) < Remaining(setup, jobs[id])
    ensures TotalRemaining(setup, jobs', order) < TotalRemaining(setup, jobs, order)
  {
    var front := order[..|order| - 1];
    if id in front {
      RemainingDrops(setup, jobs, jobs', front, id);
    } else {
      assert order == front + [order[|order| - 1]];
      RemainingFalls(setup, jobs, jobs', front);
    }
  }

  predicate AddsNoJob(e: Event) {
    !e.Enqueue?
  }

  lemma NoneHasMore(setup: Setup, w: World, e: Event)
    requires setup.maxAttempts >= 1 && RunnerInv(setup, w) && Enabled(setup, w, e) && AddsNoJob(e)
    ensures Next(setup, w, e).jobs.Keys == w.jobs.Keys
    ensures forall id | id in w.jobs :: NotMore(setup, w.jobs, Next(setup, w, e).jobs, id)
  {
    forall id | id in w.jobs ensures NotMore(setup, w.jobs, Next(setup, w, e).jobs, id) {
      assert JobOK(setup, w, id);
    }
  }

  lemma ClaimSpends(setup: Setup, w: World, e: Event)
    requires setup.maxAttempts >= 1 && RunnerInv(setup, w) && Ordered(w) && Enabled(setup, w, e) && AddsNoJob(e)
    ensures var w' := Next(setup, w, e);
            && Ordered(w') && w'.order == w.order
            && TotalRemaining(setup, w'.jobs, w.order)
               + (w'.claims - w.claims) <= TotalRemaining(setup, w.jobs, w.order)
  {
    var w' := Next(setup, w, e);
    NoneHasMore(setup, w, e);
    if e.Claim? {
      assert JobOK(setup, w, e.id);
      RemainingDrops(setup, w.jobs, w'.jobs, w.order, e.id);
    } else {
      RemainingFalls(setup, w.jobs, w'.jobs, w.order);
    }
  }

  /** Without new jobs the claims from any point on are bounded by the attempts that remain there:
      retries, crashes and recoveries cannot keep the runner busy for ever. */
  lemma {:induction false} ClaimsAreBounded(setup: Setup, w: World, events: seq<Event>, w': World)
    requires setup.maxAttempts >= 1 && RunnerInv(setup, w) && Ordered(w) && After(setup, w, events) == Some(w')
    requires forall e | e in events :: AddsNoJob(e)
    ensures RunnerInv(setup, w') && Ordered(w') && w'.order == w.order
    ensures w'.claims - w.claims + TotalRemaining(setup, w'.jobs, w.order) <= TotalRemaining(setup, w.jobs, w.order)
  {
    if events != [] {
      var front, e := events[..|events| - 1], events[|events| - 1];
      assert events == front + [e];
      var before := After(setup, w, front).value;
      ClaimsAreBounded(setup, w, front, before);
      StepKeepsInv(setup, before, e);
      ClaimSpends(setup, before, e);
    }
  }

  lemma {:induction false} RunsAreOrdered(setup: Setup, events: seq<Event>, w: World)
    requires setup.maxAttempts >= 1 && After(setup, EMPTY, events) == Some(w)
    ensures Ordered(w)
  {
    if events != [] {
      var front, e := events[..|events| - 1], events[|events| - 1];
      var before := After(setup, EMPTY, front).value;
      RunsAreOrdered(setup, front, before);
      RunKeepsInv(setup, front, before);
      if e.Enqueue? {
        EnqueueOrdered(setup, before, e.request, e.now);
      } else {
        ClaimSpends(setup, before, e);
      }
    }
  }

  lemma EnqueueOrdered(setup: Setup, w: World, request: Request, now: int)
    requires QueueInv(w.jobs) && Ordered(w)
    ensures Ordered(Enqueued(setup, w, request, now))
  {
    var w' := Enqueued(setup, w, request, now);
    match EnqueueSpec(setup.stamp, w.jobs, w.counter, request, now) {
      case Refused(_) =>
      case Done(v) =>
        EnqueueKeepsInv(setup.stamp, w.jobs, w.counter, request, now, v.0, v.1, v.2);
        forall id | id in w'.jobs ensures id in w'.order {
          if id in w.jobs {
            assert id in w.order;
          }
        }
        if v.2.id !in w.jobs {
          forall k | 0 <= k < |w.order| ensures w.order[k] != v.2.id {
          }
        }
    }
  }

  /** From any point of any run on, without new jobs, the runner claims at most as often as there are
      attempts left at that point. */
  lemma FurtherClaims(setup: Setup, front: seq<Event>, w: World, events: seq<Event>, w': World)
    requires setup.maxAttempts >= 1 && After(setup, EMPTY, front) == Some(w)
    requires After(setup, w, events) == Some(w') && forall e | e in events :: AddsNoJob(e)
    ensures w'.claims - w.claims <= TotalRemaining(setup, w.jobs, w.order)
    ensures w'.jobs.Keys == w.jobs.Keys && forall id :: id in w.order <==> id in w.jobs
  {
    RunKeepsInv(setup, front, w);
    RunsAreOrdered(setup, front, w);
    ClaimsAreBounded(setup, w, events, w');
  }

  // ----- Asking again -----

  /** A row never vanishes and never changes what it asks for. */
  lemma {:induction false} RowStays(setup: Setup, w: World, events: seq<Event>, w': World, id: string)
    requires setup.maxAttempts >= 1 && RunnerInv(setup, w) && After(setup, w, events) == Some(w') && id in w.jobs
    ensures RunnerInv(setup, w')
    ensures id in w'.jobs && w'.jobs[id].kind == w.jobs[id].kind && w'.jobs[id].payload == w.jobs[id].payload
  {
    if events != [] {
      var front, e := events[..|events| - 1], events[|events| - 1];
      var before := After(setup, w, front).value;
      RowStays(setup, w, front, before, id);
      StepKeepsInv(setup, before, e);
    }
  }

  /** Asking again for a job under its identifier adds nothing and is answered with its row, whatever
      has happened to it meanwhile: at any later point of the run. */
  lemma EnqueueIsIdempotent(setup: Setup, front: seq<Event>, w: World, request: Request, now: int,
                            events: seq<Event>, later: World, again: int)
    requires setup.maxAttempts >= 1 && After(setup, EMPTY, front) == Some(w) && request.id != ""
    requires EnqueueSpec(setup.stamp, w.jobs, w.counter, request, now).Done?
    requires After(setup, Enqueued(setup, w, request, now), events) == Some(later)
    ensures request.id in later.jobs
    ensures EnqueueSpec(setup.stamp, later.jobs, later.counter, request, again)
         == Done((later.jobs, later.counter, later.jobs[request.id]))
    ensures Enqueued(setup, later, request, again) == later
  {
    RunKeepsInv(setup, front, w);
    var v := EnqueueSpec(setup.stamp, w.jobs, w.counter, request, now).value;
    EnqueueKeepsInv(setup.stamp, w.jobs, w.counter, request, now, v.0, v.1, v.2);
    EnqueueStep(setup, w, request, now);
    RowStays(setup, Enqueued(setup, w, request, now), events, later, request.id);
  }

  // ----- The code -----

  lemma NameOrderIsTotal(names: set<string>)
    ensures Sorting.StrictTotal(Text.Before, names)
  {
    forall a, b | a in names && b in names
      ensures !Text.Before(a, a) && (a != b ==> Text.Before(a, b) || Text.Before(b, a))
    {
      Text.BeforeTotal(a, a);
      Text.BeforeTotal(a, b);
    }
    forall a, b, c | a in names && b in names && c in names && Text.Before(a, b) && Text.Before(b, c)
      ensures Text.Before(a, c)
    {
      Text.BeforeTransitive(a, b, c);
    }
  }

  lemma {:induction false} SnapshotSize(kinds: seq<string>, handlers: set<string>)
    requires IsSnapshot(kinds, handlers)
    ensures |kinds| == |handlers|
  {
    if kinds != [] {
      var front, last := kinds[..|kinds| - 1], kinds[|kinds| - 1];
      assert kinds == front + [last];
      SnapshotSize(front, handlers - {last});
    }
  }

  /** `handlerSnapshot` and `handlerKinds`: the keys of the handler map, sorted. A handler is
      represented by the way it will end. */
  method HandlerKinds(handlers: map<string, WorkerEvent>) returns (kinds: seq<string>)
    ensures IsSnapshot(kinds, handlers.Keys) && Sorting.Sorted(Text.Before, kinds)
  {
    var list, rest := [], handlers.Keys;
    while rest != {}
      invariant rest <= handlers.Keys && Sorting.Distinct(list)
      invariant forall k :: k in list <==> k in handlers && k !in rest
      decreases rest
    {
      var k :| k in rest;
      list, rest := list + [k], rest - {k};
    }
    kinds := Sorting.Sort(Text.Before, list);
    NameOrderIsTotal(Sorting.Elements(list));
    Sorting.SortSorted(Text.Before, list, Sorting.Elements(list));
    Sorting.SameMembers(kinds, list);
    Sorting.SortedDistinct(Text.Before, kinds, Sorting.Elements(list));
  }

  /** One more event at the end of a run, and the invariant after it. */
  lemma Step(setup: Setup, w: World, events: seq<Event>, before: World, e: Event)
      returns (longer: seq<Event>, after: World)
    requires setup.maxAttempts >= 1 && After(setup, w, events) == Some(before) && RunnerInv(setup, before)
    requires Enabled(setup, before, e)
    ensures longer == events + [e] && after == Next(setup, before, e)
    ensures After(setup, w, longer) == Some(after) && RunnerInv(setup, after)
  {
    longer, after := events + [e], Next(setup, before, e);
    OneEventMore(setup, w, events, before, e);
    StepKeepsInv(setup, before, e);
  }

  /** The states a claimed job goes through when its handler ends and that is recorded. */
  lemma WorkedOff(setup: Setup, w: World, front: seq<Event>, ready: World, id: string, claimAt: int, event: WorkerEvent)
      returns (events: seq<Event>, settling: World)
    requires setup.maxAttempts >= 1 && After(setup, w, front) == Some(ready) && RunnerInv(setup, ready)
    requires Enabled(setup, ready, Claim(id, claimAt))
    ensures After(setup, w, events) == Some(settling) && RunnerInv(setup, settling)
    ensures settling.phase == Settling(Started(ready.jobs[id], claimAt), event)
    ensures settling.jobs == ready.jobs[id := Started(ready.jobs[id], claimAt)] && settling.claims == ready.claims + 1
  {
    var claimed, working;
    events, claimed := Step(setup, w, front, ready, Claim(id, claimAt));
    events, working := Step(setup, w, events, claimed, Begin);
    events, settling := Step(setup, w, events, working, End(event));
  }

  /** A transition asked of the database, which takes it if `settles` and the table allows it. */
  method Record(queue: Queue, id: string, next: Status, message: string, now: int, settles: bool) returns (failed: bool)
    modifies queue
    ensures failed <==> !settles || TransitionSpec(old(queue.jobs), id, next, message, now).Refused?
    ensures if failed then unchanged(queue)
            else TransitionSpec(old(queue.jobs), id, next, message, now) == Done(queue.jobs)
  {
    if !settles {
      return true;
    }
    var settled := queue.Transition(id, next, message, now);
    return settled.Refused?;
  }

  /** What is to be done with a claimed job: a missing handler fails it. */
  function Verdict(handlers: map<string, WorkerEvent>, job: Job, maxAttempts: nat): (v: (Status, string)) {
    if job.kind !in handlers then (Failed, MISSING_HANDLER)
    else (Decision(job, handlers[job.kind], maxAttempts), SafeMessage(handlers[job.kind]))
  }

  /** `RunOnce` from the claim on, for any job: the missing handler, `runClaimed`, `recordFailure`. */
  method HandleClaimed(queue: Queue, handlers: map<string, WorkerEvent>, job: Job, maxAttempts: nat, now: int,
                       settles: bool)
      returns (failed: bool)
    modifies queue
    ensures var (next, message) := Verdict(handlers, job, maxAttempts);
            && (failed <==> !settles || TransitionSpec(old(queue.jobs), job.id, next, message, now).Refused?)
            && if failed then unchanged(queue)
               else TransitionSpec(old(queue.jobs), job.id, next, message, now) == Done(queue.jobs)
    ensures !failed ==>
              && job.id in old(queue.jobs) && job.id in queue.jobs
              && queue.jobs == old(queue.jobs)[job.id := queue.jobs[job.id]]
              && var row := queue.jobs[job.id];
                 if job.kind in handlers
                 then IsSettled(old(queue.jobs)[job.id], job.attempts, handlers[job.kind], maxAttempts, now, row)
                 else row.status == Failed && row.error == Some("job handler not registered")
                      && row.finishedAt == Some(now)
  {
    if job.id in queue.jobs && job.kind in handlers {
      ChangedIsSettled(queue.jobs[job.id], job.attempts, job, handlers[job.kind], maxAttempts, now);
    }
    if job.kind !in handlers {
      failed := Record(queue, job.id, Failed, MISSING_HANDLER, now, settles);
      return;
    }
    var event := handlers[job.kind];
    if !HasFailed(event) {
      failed := Record(queue, job.id, Completed, "", now, settles);
    } else if job.attempts < maxAttempts {
      failed := Record(queue, job.id, Queued, SafeMessage(event), now, settles);
    } else {
      failed := Record(queue, job.id, Failed, SafeMessage(event), now, settles);
    }
  }

  /** The state machine takes the same way. */
  lemma HandledBySteps(setup: Setup, w: World, front: seq<Event>, settling: World, now: int, failed: bool)
      returns (events: seq<Event>, w': World)
    requires setup.maxAttempts >= 1 && After(setup, w, front) == Some(settling) && RunnerInv(setup, settling)
    requires settling.phase.Settling?
    ensures After(setup, w, events) == Some(w') && RunnerInv(setup, w') && w'.claims == settling.claims
    ensures w'.phase == if failed then Down else Idle
    ensures if failed then w'.jobs == settling.jobs
            else var job, event := settling.phase.job, settling.phase.event;
                 TransitionSpec(settling.jobs, job.id, Decision(job, event, setup.maxAttempts), SafeMessage(event), now)
                 == Done(w'.jobs)
  {
    if failed {
      events, w' := Step(setup, w, front, settling, SettleFails);
    } else {
      SettleIsPossible(setup, settling, now);
      events, w' := Step(setup, w, front, settling, Settle(now));
    }
  }

  /** What a round of the runner made of the table: it claimed the next job `j` that some handler is for,
      and its row is settled as the handler ended, or left running when that could not be recorded. No other
      row changed. */
  ghost predicate RanJob(before: Jobs, after: Jobs, handlers: map<string, WorkerEvent>, maxAttempts: nat,
                         claimAt: int, settleAt: int, failed: bool, j: string)
  {
    && IsNextJob(before, handlers.Keys, j) && j in after && after == before[j := after[j]]
    && exists claimed ::
         && IsStarted(before[j], claimed, claimAt)
         && if failed then after[j] == claimed
            else IsSettled(claimed, before[j].attempts + 1, handlers[before[j].kind], maxAttempts, settleAt, after[j])
  }

  lemma HandledIsRan(before: Jobs, claimed: Jobs, after: Jobs, handlers: map<string, WorkerEvent>, kinds: seq<string>,
                     maxAttempts: nat, claimAt: int, settleAt: int, failed: bool, job: Job)
    requires IsSnapshot(kinds, handlers.Keys) && IsNextJob(before, (set k | k in kinds), job.id)
    requires IsStarted(before[job.id], job, claimAt) && claimed == before[job.id := job]
    requires failed ==> after == claimed
    requires !failed ==> job.id in after && after == claimed[job.id := after[job.id]]
    requires job.kind in handlers
    requires !failed ==> IsSettled(job, job.attempts, handlers[job.kind], maxAttempts, settleAt, after[job.id])
    ensures RanJob(before, after, handlers, maxAttempts, claimAt, settleAt, failed, job.id)
  {
    assert (set k | k in kinds) == handlers.Keys;
  }

  /** `RunOnce` with `runClaimed` and `recordFailure`. `settles` is whether the database takes the
      transition. Of the job it ran, `j`, it says what became of it; the ghost results `events` and `w'`
      are the list of events by which the state machine does the same. */
  method RunOnce(setup: Setup, queue: Queue, handlers: map<string, WorkerEvent>, claimAt: int, settleAt: int,
                 settles: bool,
                 ghost w: World)
      returns (ran: bool, failed: bool, ghost j: string, ghost events: seq<Event>, ghost w': World)
    requires setup.maxAttempts >= 1 && RunnerInv(setup, w)
    requires w.phase.Idle? && w.jobs == queue.jobs && w.handlers == handlers.Keys
    modifies queue
    ensures After(setup, w, events) == Some(w') && w'.jobs == queue.jobs && RunnerInv(setup, w')
    ensures w'.phase == if failed then Down else Idle
    ensures !ran ==> unchanged(queue) && w'.claims == w.claims && (failed <==> |handlers| > 4)
    ensures !ran && !failed ==> forall j | j in queue.jobs ::
            !(queue.jobs[j].status.Queued? && queue.jobs[j].kind in handlers)
    ensures ran ==> (failed <==> !settles) && w'.claims == w.claims + 1
    ensures ran ==> RanJob(old(queue.jobs), queue.jobs, handlers, setup.maxAttempts, claimAt, settleAt, failed, j)
  {
    ran, failed, j, events, w' := false, false, "", [], w;
    if handlers == map[] {
      return;
    }
    var kinds := HandlerKinds(handlers);
    SnapshotSize(kinds, handlers.Keys);
    events, w' := Step(setup, w, [], w, Snapshot(kinds));
    ghost var ready := w';
    var claim := queue.Claim(kinds, claimAt);
    if claim.Refused? {
      failed := true;
      events, w' := Step(setup, w, events, ready, GoDown);
      return;
    }
    if claim.value.None? {
      events, w' := Step(setup, w, events, ready, FindNone);
      return;
    }
    var job := claim.value.value;
    ran, j := true, job.id;
    ghost var claimed := queue.jobs;
    failed := HandleClaimed(queue, handlers, job, setup.maxAttempts, settleAt, settles);
    HandledIsRan(w.jobs, claimed, queue.jobs, handlers, kinds, setup.maxAttempts, claimAt, settleAt, failed, job);
    ghost var settling;
    events, settling := WorkedOff(setup, w, events, ready, job.id, claimAt, handlers[job.kind]);
    SettleIsPossible(setup, settling, settleAt);
    events, w' := HandledBySteps(setup, w, events, settling, settleAt, failed);
  }
}
