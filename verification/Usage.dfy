/** Token usage of agent calls: a provider reports counters of a call or of a whole session, and
    cumulative snapshots are turned into the amount of each call. */
module Usage {
  import opened Prelude

  const SCOPE_CALL := "call"
  const SCOPE_CUMULATIVE := "session_cumulative"
  const LEGACY_SOURCE := "codex_jsonl_turn_completed"

  datatype Counters = Counters(input: int, cached: int, uncached: int, output: int, reasoning: int, total: int) {
    function Plus(other: Counters): (c: Counters) {
      Counters(input + other.input, cached + other.cached, uncached + other.uncached,
               output + other.output, reasoning + other.reasoning, total + other.total)
    }

    function Minus(other: Counters): (c: Counters) {
      Counters(input - other.input, cached - other.cached, uncached - other.uncached,
               output - other.output, reasoning - other.reasoning, total - other.total)
    }

    predicate NonNegative() {
      input >= 0 && cached >= 0 && uncached >= 0 && output >= 0 && reasoning >= 0 && total >= 0
    }
  }

  const NOTHING := Counters(0, 0, 0, 0, 0, 0)

  datatype Provider = Provider(scope: string, counters: Counters)

  datatype AgentUsage = AgentUsage(
    schemaVersion: int, source: string, unavailable: bool, provider: Option<Provider>, sessionID: string)

  // ----- Normalization -----

  /** What `Normalize` makes of the counters: a missing uncached part and a missing total. */
  function Completed(c: Counters): (r: Counters) {
    var uncached := if c.input > 0 && c.cached > 0 && c.uncached == 0 && c.input > c.cached
        then c.input - c.cached else c.uncached;
    var total := if c.total == 0 && c.input + c.output > 0 then c.input + c.output else c.total;
    c.(uncached := uncached, total := total)
  }

  function Normalized(trim: string -> string, p: Provider): (r: Provider) {
    var scope := trim(p.scope);
    Provider(if scope == "" then SCOPE_CALL else scope, Completed(p.counters))
  }

  /** `*ProviderUsage`, changed in place by `Normalize`. */
  class ProviderUsage {
    var scope: string
    var counters: Counters

    function Value(): (p: Provider)
      reads this
    {
      Provider(scope, counters)
    }

    constructor (p: Provider)
      ensures Value() == p
    {
      scope, counters := p.scope, p.counters;
    }

    method Normalize(trim: string -> string)
      modifies this
      ensures Value() == Normalized(trim, old(Value()))
    {
      scope := trim(scope);
      if scope == "" {
        scope := SCOPE_CALL;
      }
      if counters.input > 0 && counters.cached > 0 && counters.uncached == 0 {
        var uncached := counters.input - counters.cached;
        if uncached > 0 {
          counters := counters.(uncached := uncached);
        }
      }
      if counters.total == 0 {
        var total := counters.input + counters.output;
        if total > 0 {
          counters := counters.(total := total);
        }
      }
    }
  }

  /** Normalizing twice is normalizing once, given that trimming is. */
  lemma NormalizeIsIdempotent(trim: string -> string, p: Provider)
    requires forall x :: trim(trim(x)) == trim(x)
    requires trim(SCOPE_CALL) == SCOPE_CALL
    ensures Normalized(trim, Normalized(trim, p)) == Normalized(trim, p)
  {
    var scope := trim(p.scope);
    assert trim(scope) == scope;
  }

  /** A record that does not say what it is about is about one call. */
  lemma NormalizedScope(trim: string -> string, p: Provider)
    ensures Normalized(trim, p) == Provider(if trim(p.scope) == ""
                                            then "call" else trim(p.scope), Completed(p.counters))
  {
  }

  /** It never takes a counter away: it fills in what was zero, so that cached and uncached part make up the
      input, and input and output the total. */
  lemma NormalizeOnlyFills(c: Counters)
    ensures Completed(c) == c.(uncached := Completed(c).uncached, total := Completed(c).total)
    ensures c.uncached != 0 ==> Completed(c).uncached == c.uncached
    ensures c.total != 0 ==> Completed(c).total == c.total
    ensures c.uncached == 0 ==>
              if 0 < c.cached < c.input then Completed(c).uncached + c.cached == c.input else Completed(c).uncached == 0
    ensures c.total == 0 ==>
              if c.input + c.output > 0 then Completed(c).total == c.input + c.output else Completed(c).total == 0
    ensures Valid(Completed(c)) <==> Valid(c)
  {
  }

  /** `validProviderUsage`. */
  predicate Valid(c: Counters) {
    c.NonNegative() && c.cached <= c.input && c.uncached <= c.input && c.reasoning <= c.output
  }

  // ----- Increments -----

  /** `ProviderUsageScope`. */
  function ScopeOf(trim: string -> string, usage: AgentUsage): (scope: string) {
    if usage.provider.Some? && trim(usage.provider.value.scope) != "" then trim(usage.provider.value.scope)
    else if usage.schemaVersion == 1 && trim(usage.source) == LEGACY_SOURCE then SCOPE_CUMULATIVE
    else SCOPE_CALL
  }

  /** `countersDecreased`. */
  predicate Decreased(current: Counters, previous: Counters) {
    || current.input < previous.input || current.cached < previous.cached || current.uncached < previous.uncached
    || current.output < previous.output || current.reasoning < previous.reasoning || current.total < previous.total
  }

  datatype Increment = Increment(usage: Provider, initial: bool, reset: bool)

  /** `IncrementalProviderUsage`. */
  function IncrementOf(trim: string -> string, current: AgentUsage,
                       previous: Option<AgentUsage>): (r: Option<Increment>) {
    if current.provider.None? || current.unavailable then None
    else
      var scope := ScopeOf(trim, current);
      var provider := Normalized(trim, current.provider.value);
      if !Valid(provider.counters) then None
      else if scope == SCOPE_CALL then Some(Increment(provider.(scope := SCOPE_CALL), false, false))
      else if scope != SCOPE_CUMULATIVE then None
      else
        var session := trim(current.sessionID);
        if session == "" then None
        else
          match previous
          case None => Some(Increment(provider.(scope := SCOPE_CALL), true, false))
          case Some(before) =>
            if trim(before.sessionID) != session || ScopeOf(trim, before) != SCOPE_CUMULATIVE || before.provider.None?
               then None
            else
              var prior := Normalized(trim, before.provider.value);
              if !Valid(prior.counters) then None
              else if Decreased(provider.counters, prior.counters)
                  then Some(Increment(provider.(scope := SCOPE_CALL), false, true))
              else Some(Increment(Provider(SCOPE_CALL, provider.counters.Minus(prior.counters)), false, false))
  }

  /** Whatever is reported, an increment is attributed to the call and has no negative counter. */
  lemma IncrementsAreNonNegative(trim: string -> string, current: AgentUsage, previous: Option<AgentUsage>)
    requires IncrementOf(trim, current, previous).Some?
    ensures var r := IncrementOf(trim, current, previous).value;
              r.usage.scope == SCOPE_CALL && r.usage.counters.NonNegative()
  {
  }

  /** The counters as they are judged: normalized. */
  function Seen(usage: AgentUsage): (c: Counters)
    requires usage.provider.Some?
  {
    Completed(usage.provider.value.counters)
  }

  /** The amounts that no detail counter covers: input outside the cached and outside the uncached part,
      output outside reasoning. */
  function Remainders(c: Counters): (r: (int, int, int)) {
    (c.input - c.cached, c.input - c.uncached, c.output - c.reasoning)
  }

  predicate SomeRemainderFell(current: Counters, prior: Counters) {
    var now, before := Remainders(current), Remainders(prior);
    now.0 < before.0 || now.1 < before.1 || now.2 < before.2
  }

  /** The increment was formed as a difference. */
  predicate IsDifference(trim: string -> string, current: AgentUsage, previous: Option<AgentUsage>) {
    && current.provider.Some? && ScopeOf(trim, current) == SCOPE_CUMULATIVE
    && previous.Some? && previous.value.provider.Some? && !Decreased(Seen(current), Seen(previous.value))
  }

  /** What is returned satisfies the validity rule of snapshots exactly unless it is a difference of two
      cumulative snapshots between which some remainder fell, although no counter did. */
  lemma IncrementIsValidWhen(trim: string -> string, current: AgentUsage, previous: Option<AgentUsage>)
    requires IncrementOf(trim, current, previous).Some?
    ensures Valid(IncrementOf(trim, current, previous).value.usage.counters) <==>
            !(IsDifference(trim, current, previous) && SomeRemainderFell(Seen(current), Seen(previous.value)))
  {
  }

  // ----- When there is an increment, and which -----

  /** What a usage is said to be about, or what is assumed when it does not say: the whole session for the
      reports of the first schema that came from one source, one call for all others. */
  lemma ScopeOutcome(trim: string -> string, usage: AgentUsage)
    ensures var said := if usage.provider.Some? then trim(usage.provider.value.scope) else "";
            ScopeOf(trim, usage) ==
              if said != "" then said
              else if usage.schemaVersion == 1 && trim(usage.source) == "codex_jsonl_turn_completed"
              then "session_cumulative" else "call"
  {
  }

  /** No counter is negative, and no part exceeds the whole. */
  predicate Sensible(c: Counters) {
    && 0 <= c.cached <= c.input && 0 <= c.uncached <= c.input && 0 <= c.reasoning <= c.output && 0 <= c.total
  }

  /** A usable report of a session. */
  predicate IsReport(trim: string -> string, usage: AgentUsage, session: string) {
    && usage.provider.Some? && Sensible(Seen(usage)) && ScopeOf(trim, usage) == "session_cumulative"
    && trim(usage.sessionID) == session
  }

  /** There is an increment exactly for a sensible report of one call, and for a sensible report of a session
      that comes first or follows a sensible report of the same session. */
  lemma IncrementExists(trim: string -> string, current: AgentUsage, previous: Option<AgentUsage>)
    ensures IncrementOf(trim, current, previous).Some? <==>
              && current.provider.Some? && !current.unavailable && Sensible(Seen(current))
              && var session := trim(current.sessionID);
                 || ScopeOf(trim, current) == "call"
                 || (session != "" && IsReport(trim, current, session)
                     && (previous.Some? ==> IsReport(trim, previous.value, session)))
  {
  }

  /** No counter of `now` is less than that of `before`. */
  predicate NoneFell(before: Counters, now: Counters) {
    && before.input <= now.input && before.cached <= now.cached && before.uncached <= now.uncached
    && before.output <= now.output && before.reasoning <= now.reasoning && before.total <= now.total
  }

  /** The increment for one call is what was reported, and so is that for a first report of a session and for
      one in which some counter fell, which is a reset; otherwise it is what came on top of the report before. */
  lemma IncrementOutcome(trim: string -> string, current: AgentUsage, previous: Option<AgentUsage>)
    requires IncrementOf(trim, current, previous).Some?
    ensures current.provider.Some?
    ensures var r, now := IncrementOf(trim, current, previous).value, Seen(current);
            && r.usage.scope == "call"
            && if ScopeOf(trim, current) == "call" then r.usage.counters == now && !r.initial && !r.reset
               else if previous.None? then r.usage.counters == now && r.initial && !r.reset
               else
                 && previous.value.provider.Some? && var before := Seen(previous.value);
                 && !r.initial && (r.reset <==> !NoneFell(before, now))
                 && if r.reset then r.usage.counters == now
                    else r.usage.counters == Counters(
                      now.input - before.input, now.cached - before.cached, now.uncached - before.uncached,
                      now.output - before.output, now.reasoning - before.reasoning, now.total - before.total)
  {
  }

  // ----- A session -----

  /** A usable cumulative snapshot of the session. */
  predicate Snapshot(trim: string -> string, usage: AgentUsage, session: string) {
    && usage.provider.Some? && !usage.unavailable && trim(usage.sessionID) == session
    && ScopeOf(trim, usage) == SCOPE_CUMULATIVE && Valid(Completed(usage.provider.value.counters))
  }

  predicate Session(trim: string -> string, snapshots: seq<AgentUsage>, session: string) {
    session != "" && forall k | 0 <= k < |snapshots| :: Snapshot(trim, snapshots[k], session)
  }

  function IncrementAt(trim: string -> string, snapshots: seq<AgentUsage>, k: nat): (r: Option<Increment>)
    requires k < |snapshots|
  {
    IncrementOf(trim, snapshots[k], if k == 0 then None else Some(snapshots[k - 1]))
  }

  lemma SnapshotsGiveIncrements(trim: string -> string, snapshots: seq<AgentUsage>, session: string, k: nat)
    requires Session(trim, snapshots, session) && k < |snapshots|
    ensures snapshots[k].provider.Some? && (k > 0 ==> snapshots[k - 1].provider.Some?)
    ensures IncrementAt(trim, snapshots, k).Some?
    ensures var r := IncrementAt(trim, snapshots, k).value;
            && r.initial == (k == 0) && r.reset == (k > 0 && Decreased(Seen(snapshots[k]), Seen(snapshots[k - 1])))
            && r.usage.counters == if r.initial || r.reset
               then Seen(snapshots[k]) else Seen(snapshots[k]).Minus(Seen(snapshots[k - 1]))
  {
    assert Snapshot(trim, snapshots[k], session);
    if k > 0 {
      assert Snapshot(trim, snapshots[k - 1], session);
    }
  }

  /** A cumulative report of session "s". */
  function Reported(c: Counters): (usage: AgentUsage) {
    AgentUsage(2, "codex", false, Some(Provider(SCOPE_CUMULATIVE, c)), "s")
  }

  lemma ReportedIsSnapshot(trim: string -> string, c: Counters)
    requires trim(SCOPE_CUMULATIVE) == SCOPE_CUMULATIVE && trim("s") == "s" && Valid(Completed(c))
    ensures Snapshot(trim, Reported(c), "s") && Seen(Reported(c)) == Completed(c)
  {
  }

  /** Two snapshots of one session whose increment is not valid: five cached tokens on one of input. */
  lemma IncrementCanBeInvalid(trim: string -> string)
    requires trim(SCOPE_CUMULATIVE) == SCOPE_CUMULATIVE && trim("s") == "s"
    ensures var r := IncrementAt(trim, [Reported(Counters(10, 0, 5, 0, 0, 10)),
                                        Reported(Counters(11, 5, 5, 0, 0, 11))], 1);
            r.Some? && r.value.usage.counters == Counters(1, 5, 0, 0, 0, 1) && !Valid(r.value.usage.counters)
  {
    var before, now := Counters(10, 0, 5, 0, 0, 10), Counters(11, 5, 5, 0, 0, 11);
    ReportedIsSnapshot(trim, before);
    ReportedIsSnapshot(trim, now);
    SnapshotsGiveIncrements(trim, [Reported(before), Reported(now)], "s", 1);
  }

  /** The increments of the first `n` calls, summed. */
  function SumOf(trim: string -> string, snapshots: seq<AgentUsage>, n: nat): (c: Counters)
    requires n <= |snapshots|
  {
    if n == 0 then NOTHING
    else
      match IncrementAt(trim, snapshots, n - 1)
      case None => SumOf(trim, snapshots, n - 1)
      case Some(r) => SumOf(trim, snapshots, n - 1).Plus(r.usage.counters)
  }

  /** The last snapshots of the stretches that a reset ended among the first `n` calls, summed. */
  function EndedStretches(trim: string -> string, snapshots: seq<AgentUsage>, n: nat): (c: Counters)
    requires n <= |snapshots|
  {
    if n <= 1 then NOTHING
    else if snapshots[n - 1].provider.Some? && snapshots[n - 2].provider.Some?
        && Decreased(Seen(snapshots[n - 1]), Seen(snapshots[n - 2])) then
      EndedStretches(trim, snapshots, n - 1).Plus(Seen(snapshots[n - 2]))
    else EndedStretches(trim, snapshots, n - 1)
  }

  /** One more call, on counters alone. */
  lemma TelescopeStep(ended: Counters, sum: Counters, before: Counters, now: Counters, reset: bool, ended': Counters,
                      sum': Counters)
    requires sum == ended.Plus(before)
    requires sum' == if reset then sum.Plus(now) else sum.Plus(now.Minus(before))
    requires ended' == if reset then ended.Plus(before) else ended
    ensures sum' == ended'.Plus(now)
  {
  }

  lemma EndedGrows(trim: string -> string, snapshots: seq<AgentUsage>, n: nat)
    requires 2 <= n <= |snapshots| && snapshots[n - 1].provider.Some? && snapshots[n - 2].provider.Some?
    ensures EndedStretches(trim, snapshots, n) ==
              if Decreased(Seen(snapshots[n - 1]), Seen(snapshots[n - 2]))
                 then EndedStretches(trim, snapshots, n - 1).Plus(Seen(snapshots[n - 2]))
              else EndedStretches(trim, snapshots, n - 1)
  {
  }

  lemma Cancels(ended: Counters, before: Counters, now: Counters)
    ensures ended.Plus(before).Plus(now.Minus(before)) == ended.Plus(now)
    ensures before.Plus(now.Minus(before)) == now
  {
  }

  lemma StartsFromNothing(c: Counters)
    ensures NOTHING.Plus(c) == c
  {
  }

  /** One more call, on the side of the sums. */
  lemma SumGrows(trim: string -> string, snapshots: seq<AgentUsage>, session: string, n: nat)
    requires Session(trim, snapshots, session) && 1 <= n <= |snapshots|
    ensures snapshots[n - 1].provider.Some? && (n > 1 ==> snapshots[n - 2].provider.Some?)
    ensures var now, before := Seen(snapshots[n - 1]), SumOf(trim, snapshots, n - 1);
            SumOf(trim, snapshots, n) ==
              if n == 1 then now
              else if Decreased(now, Seen(snapshots[n - 2])) then before.Plus(now)
              else before.Plus(now.Minus(Seen(snapshots[n - 2])))
  {
    SnapshotsGiveIncrements(trim, snapshots, session, n - 1);
    StartsFromNothing(Seen(snapshots[n - 1]));
  }

  lemma TelescopeOnce(trim: string -> string, snapshots: seq<AgentUsage>, session: string, n: nat)
    requires Session(trim, snapshots, session) && 2 <= n <= |snapshots|
    requires snapshots[n - 1].provider.Some? && snapshots[n - 2].provider.Some?
    requires SumOf(trim, snapshots, n - 1) == EndedStretches(trim, snapshots, n - 1).Plus(Seen(snapshots[n - 2]))
    ensures SumOf(trim, snapshots, n) == EndedStretches(trim, snapshots, n).Plus(Seen(snapshots[n - 1]))
  {
    SumGrows(trim, snapshots, session, n);
    EndedGrows(trim, snapshots, n);
    var before, now := Seen(snapshots[n - 2]), Seen(snapshots[n - 1]);
    TelescopeStep(EndedStretches(trim, snapshots, n - 1), SumOf(trim, snapshots, n - 1), before, now,
                  Decreased(now, before),
                  EndedStretches(trim, snapshots, n), SumOf(trim, snapshots, n));
  }

  /** The increments telescope: after every call their sum is the current snapshot plus the last
      snapshot of each stretch that a counter reset ended. */
  lemma {:induction false} IncrementsTelescope(trim: string -> string, snapshots: seq<AgentUsage>, session: string,
                                               n: nat)
    requires Session(trim, snapshots, session) && 1 <= n <= |snapshots|
    ensures snapshots[n - 1].provider.Some?
    ensures SumOf(trim, snapshots, n) == EndedStretches(trim, snapshots, n).Plus(Seen(snapshots[n - 1]))
  {
    SnapshotsGiveIncrements(trim, snapshots, session, n - 1);
    if n > 1 {
      IncrementsTelescope(trim, snapshots, session, n - 1);
      TelescopeOnce(trim, snapshots, session, n);
    } else {
      SumGrows(trim, snapshots, session, n);
      StartsFromNothing(Seen(snapshots[0]));
    }
  }

  /** Without a reset they sum to the final snapshot. */
  lemma {:induction false} NoResetSumsToFinal(trim: string -> string, snapshots: seq<AgentUsage>, session: string,
                                              n: nat)
    requires Session(trim, snapshots, session) && 1 <= n <= |snapshots|
    requires forall k | 0 <= k < n ::
               IncrementAt(trim, snapshots, k).Some? ==> !IncrementAt(trim, snapshots, k).value.reset
    ensures snapshots[n - 1].provider.Some? && SumOf(trim, snapshots, n) == Seen(snapshots[n - 1])
  {
    SumGrows(trim, snapshots, session, n);
    if n > 1 {
      SnapshotsGiveIncrements(trim, snapshots, session, n - 1);
      NoResetSumsToFinal(trim, snapshots, session, n - 1);
      Cancels(NOTHING, Seen(snapshots[n - 2]), Seen(snapshots[n - 1]));
    }
  }
}
