/** The job table and the queue operations on it. The two SQL statements whose text decides the
    outcome, claiming and recovering, are modelled as written. */
module JobQueue {
  import opened Prelude
  import Text

  datatype Status = Queued | Running | Completed | Failed

  datatype Job = Job(
    id: string, kind: string, status: Status, payload: string, error: Option<string>, attempts: nat,
    createdAt: int, updatedAt: int, startedAt: Option<int>, finishedAt: Option<int>)

  /** `ActiveDuplicate` is the violation of the unique index on kind and payload of active jobs,
      where it is not mapped to a conflict. */
  datatype JobError = InvalidJob | JobConflict | JobNotFound | InvalidTransition | TooManyKinds | ActiveDuplicate

  datatype JobResult<+T> = Done(value: T) | Refused(error: JobError)

  type Jobs = map<string, Job>

  const KINDS := {"scrape_url", "translate_document", "poll_feed", "extract_upload_text"}

  predicate Active(job: Job) {
    job.status.Queued? || job.status.Running?
  }

  /** Another active job for the same work. */
  predicate ActiveTwin(jobs: Jobs, id: string, kind: string, payload: string) {
    exists j | j in jobs :: j != id && Active(jobs[j]) && jobs[j].kind == kind && jobs[j].payload == payload
  }

  // ----- Enqueue -----

  datatype Request = Request(id: string, kind: string, payload: string)

  function JobID(stamp: int -> string, counter: nat, requested: string, now: int): (id: string) {
    if requested != "" then requested else "job_" + stamp(now) + "_" + Text.Decimal(counter + 1)
  }

  /** `Enqueue`: the row itself, an existing row that asks for the same, or a conflict. */
  function EnqueueSpec(stamp: int -> string, jobs: Jobs, counter: nat, request: Request,
                       now: int): (r: JobResult<(Jobs, nat, Job)>) {
    if request.kind == "" || request.payload == "" || request.kind !in KINDS then Refused(InvalidJob)
    else
      var id, counter' := JobID(stamp, counter, request.id, now), if request.id == "" then counter + 1 else counter;
      if id in jobs then
        if jobs[id].kind != request.kind || jobs[id].payload != request.payload then Refused(JobConflict)
        else Done((jobs, counter', jobs[id]))
      else if ActiveTwin(jobs, id, request.kind, request.payload) then Refused(JobConflict)
      else
        var job := Job(id, request.kind, Queued, request.payload, None, 0, now, now, None, None);
        Done((jobs[id := job], counter', job))
  }

  // ----- Claim -----

  predicate Claimable(job: Job, kinds: seq<string>) {
    job.status.Queued? && job.kind in kinds
  }

  /** The order of the claim statement. */
  predicate Earlier(a: Job, b: Job) {
    a.createdAt < b.createdAt || (a.createdAt == b.createdAt && Text.Before(a.id, b.id))
  }

  ghost predicate Oldest(jobs: Jobs, kinds: seq<string>, id: string) {
    && id in jobs && Claimable(jobs[id], kinds)
    && forall j | j in jobs && j != id && Claimable(jobs[j], kinds) :: Earlier(jobs[id], jobs[j])
  }

  lemma OldestIsUnique(jobs: Jobs, kinds: seq<string>, a: string, b: string)
    requires Keyed(jobs) && Oldest(jobs, kinds, a) && Oldest(jobs, kinds, b)
    ensures a == b
  {
    Text.BeforeTotal(a, b);
  }

  /** The update of the claim statement. */
  function Started(job: Job, now: int): (r: Job) {
    job.(status := Running, error := None, attempts := job.attempts + 1, updatedAt := now,
         startedAt := Some(now), finishedAt := None)
  }

  // ----- Transitions -----

  predicate CanTransition(current: Status, next: Status) {
    match current
    case Queued => next.Running?
    case Running => next.Completed? || next.Failed? || next.Queued?
    case Failed => next.Queued?
    case Completed => false
  }

  function NullString(value: string): (r: Option<string>) {
    if value == "" then None else Some(value)
  }

  /** `transitionParams` and the update they feed. */
  function Changed(job: Job, next: Status, message: string, now: int): (r: Job) {
    var base := job.(status := next, updatedAt := now);
    match next
    case Queued => base.(error := NullString(message), startedAt := None, finishedAt := None)
    case Completed => base.(error := None, finishedAt := Some(now))
    case Failed => base.(error := NullString(message), finishedAt := Some(now))
    case Running => base
  }

  function TransitionSpec(jobs: Jobs, id: string, next: Status, message: string, now: int): (r: JobResult<Jobs>) {
    if id !in jobs then Refused(JobNotFound)
    else if !CanTransition(jobs[id].status, next) then Refused(InvalidTransition)
    else if (next.Queued? || next.Running?) && ActiveTwin(jobs, id, jobs[id].kind, jobs[id].payload)
        then Refused(ActiveDuplicate)
    else Done(jobs[id := Changed(jobs[id], next, message, now)])
  }

  /** `RecoverRunning`: every running job failed. */
  function Recovered(jobs: Jobs, message: string, now: int): (r: Jobs) {
    map j | j in jobs :: if jobs[j].status.Running? then Interrupted(jobs[j], message, now) else jobs[j]
  }

  function Interrupted(job: Job, message: string, now: int): (r: Job) {
    job.(status := Failed, error := NullString(message), updatedAt := now, finishedAt := Some(now))
  }

  // ----- What the table keeps -----

  ghost predicate Keyed(jobs: Jobs) {
    forall j | j in jobs :: jobs[j].id == j
  }

  /** Timestamps and error follow the status. */
  predicate WellTimed(job: Job) {
    match job.status
    case Queued => job.startedAt.None? && job.finishedAt.None?
    case Running => job.startedAt.Some? && job.finishedAt.None? && job.error.None? && job.attempts > 0
    case Completed => job.startedAt.Some? && job.finishedAt.Some? && job.error.None? && job.attempts > 0
    case Failed => job.startedAt.Some? && job.finishedAt.Some? && job.attempts > 0
  }

  ghost predicate OneActive(jobs: Jobs, i: string, j: string) {
    i in jobs && j in jobs && Active(jobs[i]) && Active(jobs[j]) &&
    jobs[i].kind == jobs[j].kind && jobs[i].payload == jobs[j].payload ==>
      i == j
  }

  ghost predicate QueueInv(jobs: Jobs) {
    && Keyed(jobs)
    && (forall j | j in jobs :: WellTimed(jobs[j]))
    && (forall i, j :: OneActive(jobs, i, j))
  }

  /** One row changed, and it is not newly active next to an active twin. */
  lemma RowChanged(jobs: Jobs, job: Job)
    requires QueueInv(jobs) && WellTimed(job)
    requires Active(job) ==> !ActiveTwin(jobs, job.id, job.kind, job.payload)
    ensures QueueInv(jobs[job.id := job])
  {
    var jobs' := jobs[job.id := job];
    forall i, j ensures OneActive(jobs', i, j) {
      assert OneActive(jobs, i, j);
    }
  }

  lemma NoTwinOfActive(jobs: Jobs, id: string)
    requires QueueInv(jobs) && id in jobs && Active(jobs[id])
    ensures !ActiveTwin(jobs, id, jobs[id].kind, jobs[id].payload)
  {
    forall j | j in jobs && j != id && Active(jobs[j])
      ensures jobs[j].kind != jobs[id].kind || jobs[j].payload != jobs[id].payload
    {
      assert OneActive(jobs, id, j);
    }
  }

  lemma EnqueueKeepsInv(stamp: int -> string, jobs: Jobs, counter: nat, request: Request, now: int, jobs': Jobs,
                        counter': nat, job: Job)
    requires QueueInv(jobs) && EnqueueSpec(stamp, jobs, counter, request, now) == Done((jobs', counter', job))
    ensures QueueInv(jobs') && job.id in jobs' && jobs'[job.id] == job && job.kind == request.kind
            && job.payload == request.payload
  {
    if job.id !in jobs {
      RowChanged(jobs, job);
    }
  }

  lemma ClaimKeepsInv(jobs: Jobs, kinds: seq<string>, id: string, now: int)
    requires QueueInv(jobs) && Oldest(jobs, kinds, id)
    ensures QueueInv(jobs[id := Started(jobs[id], now)])
  {
    NoTwinOfActive(jobs, id);
    RowChanged(jobs, Started(jobs[id], now));
  }

  lemma TransitionKeepsInv(jobs: Jobs, id: string, next: Status, message: string, now: int, jobs': Jobs)
    requires QueueInv(jobs) && !next.Running? && TransitionSpec(jobs, id, next, message, now) == Done(jobs')
    ensures QueueInv(jobs')
  {
    RowChanged(jobs, jobs'[id]);
  }

  lemma RecoverKeepsInv(jobs: Jobs, message: string, now: int)
    requires QueueInv(jobs)
    ensures QueueInv(Recovered(jobs, message, now))
            && forall j | j in jobs :: !Recovered(jobs, message, now)[j].status.Running?
  {
    var jobs' := Recovered(jobs, message, now);
    forall i, j ensures OneActive(jobs', i, j) {
      assert OneActive(jobs, i, j);
    }
  }

  // ----- What the operations come to -----

  /** A queued job of one of the kinds; of those the one created first, and among jobs created at the same
      time the one with the least identifier. */
  ghost predicate IsNextJob(jobs: Jobs, kinds: set<string>, id: string) {
    && id in jobs && jobs[id].status == Queued && jobs[id].kind in kinds
    && forall j | j in jobs && j != id && jobs[j].status == Queued && jobs[j].kind in kinds ::
         jobs[id].createdAt < jobs[j].createdAt || (jobs[id].createdAt == jobs[j].createdAt && Text.Before(id, j))
  }

  lemma OldestIsNext(jobs: Jobs, kinds: seq<string>, id: string)
    requires Keyed(jobs)
    ensures Oldest(jobs, kinds, id) <==> IsNextJob(jobs, (set k | k in kinds), id)
  {
  }

  /** The claimed row: running since now, for the next time, without the error of the last. */
  predicate IsStarted(before: Job, row: Job, now: int) {
    && row.status == Running && row.attempts == before.attempts + 1 && row.error.None?
    && row.startedAt == Some(now) && row.finishedAt.None? && row.updatedAt == now
    && row.id == before.id && row.kind == before.kind && row.payload == before.payload
    && row.createdAt == before.createdAt
  }

  /** Which requests are refused, which are answered with the row there is, and which get a row of their own:
      queued now, never tried. */
  lemma EnqueueOutcome(stamp: int -> string, jobs: Jobs, counter: nat, request: Request, now: int)
    ensures var r := EnqueueSpec(stamp, jobs, counter, request, now);
            var id := if request.id != "" then request.id else "job_" + stamp(now) + "_" + Text.Decimal(counter + 1);
            var counter' := if request.id == "" then counter + 1 else counter;
            if request.payload == ""
               || request.kind !in {"scrape_url", "translate_document", "poll_feed", "extract_upload_text"}
            then r == Refused(InvalidJob)
            else if id in jobs then
              if jobs[id].kind == request.kind && jobs[id].payload == request.payload
              then r == Done((jobs, counter', jobs[id])) else r == Refused(JobConflict)
            else if exists j :: j in jobs && jobs[j].status in {Queued, Running} && jobs[j].kind == request.kind
                                && jobs[j].payload == request.payload
            then r == Refused(JobConflict)
            else
              && r.Done? && var (jobs', after, job) := r.value;
              && after == counter' && jobs' == jobs[id := job]
              && job.id == id && job.kind == request.kind && job.payload == request.payload && job.status == Queued
              && job.attempts == 0 && job.error.None? && job.createdAt == now == job.updatedAt
              && job.startedAt.None? && job.finishedAt.None?
  {
  }

  /** Which changes of status are allowed, and what they make of the row: requeued it is as if it had not
      been started, but for its attempts and the message; completed or failed it ends now, completed without
      and failed with the message. */
  lemma TransitionOutcome(jobs: Jobs, id: string, next: Status, message: string, now: int)
    requires QueueInv(jobs)
    ensures var r := TransitionSpec(jobs, id, next, message, now);
            if id !in jobs then r == Refused(JobNotFound)
            else if (jobs[id].status, next) !in {(Queued, Running), (Running, Completed), (Running, Failed),
                                                 (Running, Queued), (Failed, Queued)}
            then r == Refused(InvalidTransition)
            else if jobs[id].status == Failed
                    && (exists j :: j in jobs && jobs[j].status in {Queued, Running}
                                    && jobs[j].kind == jobs[id].kind && jobs[j].payload == jobs[id].payload)
            then r == Refused(ActiveDuplicate)
            else
              && r.Done? && id in r.value && r.value == jobs[id := r.value[id]]
              && var (before, row) := (jobs[id], r.value[id]);
                 && row == before.(status := next, updatedAt := now, error := row.error, startedAt := row.startedAt,
                                   finishedAt := row.finishedAt)
                 && row.startedAt == (if next == Queued then None else before.startedAt)
                 && row.finishedAt == (if next in {Completed, Failed} then Some(now)
                                       else if next == Queued then None else before.finishedAt)
                 && row.error == (if next == Completed || (next != Running && message == "") then None
                                  else if next == Running then before.error else Some(message))
  {
    if id in jobs && Active(jobs[id]) {
      NoTwinOfActive(jobs, id);
    }
  }

  /** Recovery fails exactly the running jobs, now and with its message, and leaves every other row alone. */
  lemma RecoverOutcome(jobs: Jobs, message: string, now: int)
    requires message != ""
    ensures var jobs' := Recovered(jobs, message, now);
            && jobs'.Keys == jobs.Keys
            && forall j | j in jobs ::
                 jobs'[j] == if jobs[j].status != Running then jobs[j]
                             else jobs[j].(status := Failed, error := Some(message), updatedAt := now,
                                           finishedAt := Some(now))
  {
  }

  // ----- The queue object -----

  /** `SQLiteQueue`: every method is one transaction on the table. */
  class Queue {
    var jobs: Jobs
    var counter: nat

    constructor ()
      ensures jobs == map[] && counter == 0
    {
      jobs, counter := map[], 0;
    }

    method Enqueue(stamp: int -> string, request: Request, now: int) returns (r: JobResult<Job>)
      modifies this
      ensures match EnqueueSpec(stamp, old(jobs), old(counter), request, now)
              case Done(v) => r == Done(v.2) && jobs == v.0 && counter == v.1
              case Refused(e) => r == Refused(e) && unchanged(this)
    {
      if request.kind == "" || request.payload == "" || request.kind !in KINDS {
        return Refused(InvalidJob);
      }
      var id := JobID(stamp, counter, request.id, now);
      if id in jobs {
        var existing := jobs[id];
        if existing.kind != request.kind || existing.payload != request.payload {
          return Refused(JobConflict);
        }
        if request.id == "" {
          counter := counter + 1;
        }
        return Done(existing);
      }
      if ActiveTwin(jobs, id, request.kind, request.payload) {
        return Refused(JobConflict);
      }
      if request.id == "" {
        counter := counter + 1;
      }
      var job := Job(id, request.kind, Queued, request.payload, None, 0, now, now, None, None);
      jobs := jobs[id := job];
      return Done(job);
    }

    /** `Claim`: the oldest queued job of the given kinds, started; at most four kinds. */
    method Claim(kinds: seq<string>, now: int) returns (r: JobResult<Option<Job>>)
      requires Keyed(jobs)
      modifies this
      ensures |kinds| > 4 ==> r == Refused(TooManyKinds) && unchanged(this)
      ensures |kinds| <= 4 ==> r.Done?
      ensures r == Done(None) ==> unchanged(this) && forall j | j in jobs :: !Claimable(jobs[j], kinds)
      ensures r.Done? && r.value.Some? ==>
                var id := r.value.value.id;
                && Oldest(old(jobs), kinds, id) && IsNextJob(old(jobs), (set k | k in kinds), id)
                && r.value.value == Started(old(jobs)[id], now) && IsStarted(old(jobs)[id], r.value.value, now)
                && jobs == old(jobs)[id := r.value.value] && counter == old(counter)
    {
      if kinds == [] {
        return Done(None);
      }
      if |kinds| > 4 {
        return Refused(TooManyKinds);
      }
      var found := Scan(jobs, kinds);
      if found.None? {
        return Done(None);
      }
      OldestIsNext(jobs, kinds, found.value);
      var job := Started(jobs[found.value], now);
      jobs := jobs[found.value := job];
      return Done(Some(job));
    }

    method Transition(id: string, next: Status, message: string, now: int) returns (r: JobResult<Job>)
      modifies this
      ensures match TransitionSpec(old(jobs), id, next, message, now)
              case Done(jobs') => jobs == jobs' && r == Done(jobs'[id]) && counter == old(counter)
              case Refused(e) => r == Refused(e) && unchanged(this)
    {
      if id !in jobs {
        return Refused(JobNotFound);
      }
      var current := jobs[id];
      if !CanTransition(current.status, next) {
        return Refused(InvalidTransition);
      }
      if (next.Queued? || next.Running?) && ActiveTwin(jobs, id, current.kind, current.payload) {
        return Refused(ActiveDuplicate);
      }
      var job := Changed(current, next, message, now);
      jobs := jobs[id := job];
      return Done(job);
    }

    method RecoverRunning(message: string, now: int)
      modifies this
      ensures jobs == Recovered(old(jobs), message, now) && counter == old(counter)
    {
      var rest := jobs.Keys;
      while rest != {}
        invariant rest <= old(jobs).Keys == jobs.Keys && counter == old(counter)
        invariant forall j | j in jobs :: jobs[j] == if j in rest
                  then old(jobs)[j] else Recovered(old(jobs), message, now)[j]
        decreases rest
      {
        var j :| j in rest;
        if jobs[j].status.Running? {
          jobs := jobs[j := Interrupted(jobs[j], message, now)];
        }
        rest := rest - {j};
      }
    }
  }

  /** `ORDER BY created_at, id LIMIT 1` over the claimable rows. */
  method Scan(jobs: Jobs, kinds: seq<string>) returns (found: Option<string>)
    requires Keyed(jobs)
    ensures found.None? ==> forall j | j in jobs :: !Claimable(jobs[j], kinds)
    ensures found.Some? ==> Oldest(jobs, kinds, found.value)
  {
    found := None;
    var rest := jobs.Keys;
    while rest != {}
      invariant rest <= jobs.Keys
      invariant found.None? ==> forall j | j in jobs && j !in rest :: !Claimable(jobs[j], kinds)
      invariant found.Some? ==> found.value in jobs && found.value !in rest && Claimable(jobs[found.value], kinds)
      invariant found.Some? ==> forall j | j in jobs && j !in rest && j != found.value && Claimable(jobs[j], kinds) ::
                                  Earlier(jobs[found.value], jobs[j])
      decreases rest
    {
      var j :| j in rest;
      if Claimable(jobs[j], kinds) {
        if found.None? {
          found := Some(j);
        } else {
          EarlierIsTotal(jobs, found.value, j);
          if Earlier(jobs[j], jobs[found.value]) {
            forall k | k in jobs && k !in rest && k != found.value && Claimable(jobs[k], kinds)
              ensures Earlier(jobs[j], jobs[k])
            {
              EarlierTransitive(jobs[j], jobs[found.value], jobs[k]);
            }
            found := Some(j);
          }
        }
      }
      rest := rest - {j};
    }
  }

  lemma EarlierIsTotal(jobs: Jobs, a: string, b: string)
    requires Keyed(jobs) && a in jobs && b in jobs && a != b
    ensures Earlier(jobs[a], jobs[b]) || Earlier(jobs[b], jobs[a])
  {
    Text.BeforeTotal(a, b);
  }

  lemma EarlierTransitive(a: Job, b: Job, c: Job)
    requires Earlier(a, b) && Earlier(b, c)
    ensures Earlier(a, c)
  {
    if Text.Before(a.id, b.id) && Text.Before(b.id, c.id) {
      Text.BeforeTransitive(a.id, b.id, c.id);
    }
  }
}
