/** api/internal/worker: one worker process and its counters, with the faults it can meet. */
module Worker {
  import opened Wrappers
  import opened Sums
  import opened Payloads
  import opened EventTable
  import opened RuleTable
  import opened EventStore
  import RuleStore
  import QueueProgress

  const MAX_ATTEMPTS := 5
  const BATCH_SIZE := 20

  class Stats {
    var processedTotal: nat
    var errorTotal: nat
    var lastTick: Option<Instant>

    constructor ()
      ensures processedTotal == 0 && errorTotal == 0 && lastTick.None?
    {
      processedTotal, errorTotal, lastTick := 0, 0, None;
    }

    method MarkTick(now: Instant)
      modifies this`lastTick
      ensures lastTick == Some(now)
    {
      lastTick := Some(now);
    }

    method IncProcessed()
      modifies this`processedTotal
      ensures processedTotal == old(processedTotal) + 1
    {
      processedTotal := processedTotal + 1;
    }

    method IncError()
      modifies this`errorTotal
      ensures errorTotal == old(errorTotal) + 1
    {
      errorTotal := errorTotal + 1;
    }
  }

  /** What the outside world does to one ProcessOne. */
  datatype Faults = Faults(
    claimFails: bool,           // the claim query returns an I/O error
    cancelled: bool,            // the process is told to stop during the processing delay
    readError: Option<string>,  // reading the rules fails with this text
    vanished: set<nat>,         // rules deleted between the match and the mark
    markFails: bool)            // the marking statement returns an I/O error

  datatype WorkerError = IoError | Cancelled | StoreFailure(error: StoreError)

  /** What process makes of an event: a first match, none, or the reason why the attempt failed. */
  ghost predicate Processes(rules: map<nat, Rule>, readError: Option<string>, input: CreateInput,
                            matched: Result<Option<nat>, string>)
  {
    match PayloadAmount(input.payload)
    case Failure(reason) => matched == Failure(reason)
    case Success(amount) =>
      if readError.Some? then matched == Failure(readError.value)
      else matched.Success? && FirstMatch(rules, input.user, input.kind, amount, matched.value)
  }

  /** What a mark with this result of process makes of a row. */
  ghost predicate Marks(faults: Faults, matched: Result<Option<nat>, string>, before: Event, after: Event, now: Instant,
                        error: Option<WorkerError>)
  {
    match error
    case None =>
      && !faults.markFails && before.status.Processing?
      && (match matched
          case Failure(reason) => after == AttemptFailed(before, reason, now)
          case Success(rule) =>
            after == Succeeded(before, rule, now) && (rule.Some? ==> rule.value !in faults.vanished))
    case Some(IoError) => faults.markFails && after == before
    case Some(StoreFailure(NotFound)) => !faults.markFails && !before.status.Processing? && after == before
    case Some(StoreFailure(ForeignKeyViolation)) =>
      && !faults.markFails && before.status.Processing? && after == before
      && matched.Success? && matched.value.Some? && matched.value.value in faults.vanished
    case Some(Cancelled) => false
  }

  /** What Finish makes of a claimed event. */
  ghost predicate Finished(rules: map<nat, Rule>, faults: Faults, before: Event, after: Event, now: Instant,
                           error: Option<WorkerError>)
  {
    exists matched ::
      && Processes(rules, faults.readError, before.input, matched)
      && Marks(faults, matched, before, after, now, error)
  }

  /** One claim of an oldest eligible row, carried through to its outcome, or dropped during the delay. */
  ghost predicate Handled(rules: map<nat, Rule>, faults: Faults, delay: nat, before: seq<Event>, after: seq<Event>,
                          locked: set<nat>, claimAt: Instant, markAt: Instant, error: Option<WorkerError>, id: nat)
  {
    && ClaimChoice(before, locked, MAX_ATTEMPTS, CLAIM_LEASE, claimAt, id)
    && |after| == |before|
    && after == before[id := after[id]]
    && if delay > 0 && faults.cancelled
       then error == Some(Cancelled) && after[id] == Claimed(before[id], claimAt)
       else Finished(rules, faults, Claimed(before[id], claimAt), after[id], markAt, error)
  }

  /** ProcessOne as a whole: an event handled, a claim that failed, or nothing to claim. */
  ghost predicate Outcome(rules: map<nat, Rule>, faults: Faults, delay: nat, before: seq<Event>, after: seq<Event>,
                          locked: set<nat>, claimAt: Instant, markAt: Instant, ok: bool, error: Option<WorkerError>)
  {
    if ok then
      && !faults.claimFails
      && exists id ::
           0 <= id < |before| && Handled(rules, faults, delay, before, after, locked, claimAt, markAt, error, id)
    else if faults.claimFails then
      after == before && error == Some(IoError)
    else
      after == before && error.None? && NothingToClaim(before, locked, MAX_ATTEMPTS, CLAIM_LEASE, claimAt)
  }

  // ----- What these predicates say, in terms of rows, rules and payloads alone -----

  /** The payload is one that process reads without complaint. */
  predicate Readable(payload: Payload) {
    payload == NullPayload || (payload.Object? && payload.field != NotANumber)
  }

  /** The rule is for the event, and has no threshold or one that the event's number, or null as zero, meets. */
  predicate Fits(rule: Rule, input: CreateInput) {
    && rule.enabled && rule.user == input.user && rule.kind == input.kind
    && match rule.threshold
       case None => true
       case Some(limit) =>
         match input.payload
         case Object(Number(amount)) => amount <= limit
         case Object(NullAmount) => 0.0 <= limit
         case _ => false
  }

  /** With the rules at hand, process returns an oldest rule that fits, or none if none does, or the payload's fault. */
  lemma ProcessExactly(rules: map<nat, Rule>, input: CreateInput, matched: Result<Option<nat>, string>)
    ensures Processes(rules, None, input, matched) <==>
            match matched
            case Success(Some(r)) =>
              && Readable(input.payload) && r in rules && Fits(rules[r], input)
              && forall q :: q in rules && Fits(rules[q], input) ==> rules[r].createdAt <= rules[q].createdAt
            case Success(None) => Readable(input.payload) && forall q :: q in rules ==> !Fits(rules[q], input)
            case Failure(reason) =>
              || (input.payload == Empty && reason == "payload required")
              || (input.payload == NotAnObject && reason == "payload must be a json object")
              || (input.payload == Object(NotANumber) && reason == "payload.amount must be a number")
  {
    if Readable(input.payload) {
      forall q | q in rules
        ensures Fits(rules[q], input)
                <==> Applies(rules[q], input.user, input.kind, PayloadAmount(input.payload).value)
      {
      }
    }
  }

  /** The only enabled rule of the user and type is matched exactly by a readable payload that meets its threshold. */
  lemma OnlyRuleMatches(rules: map<nat, Rule>, r: nat, input: CreateInput)
    requires r in rules && rules[r].enabled && rules[r].user == input.user && rules[r].kind == input.kind
    requires forall q :: q in rules && rules[q].enabled && rules[q].user == input.user && rules[q].kind == input.kind
                         ==> q == r
    ensures Processes(rules, None, input, Success(Some(r))) <==>
            && (input.payload == NullPayload || (input.payload.Object? && input.payload.field != NotANumber))
            && (rules[r].threshold == None
                || (input.payload.Object? && input.payload.field.Number?
                    && input.payload.field.amount <= rules[r].threshold.value)
                || (input.payload == Object(NullAmount) && 0.0 <= rules[r].threshold.value))
  {
    ProcessExactly(rules, input, Success(Some(r)));
  }

  /** Reading the rules fails the attempt with the error's text, unless the payload is at fault already. */
  lemma ReadErrorExactly(rules: map<nat, Rule>, text: string, input: CreateInput, matched: Result<Option<nat>, string>)
    ensures Processes(rules, Some(text), input, matched) <==>
            if Readable(input.payload) then matched == Failure(text)
            else matched.Failure? && Processes(map[], None, input, matched)
  {
  }

  /** A Finish on a row in processing that meets no I/O error and no vanished rule, column by column. */
  lemma FinishExactly(rules: map<nat, Rule>, faults: Faults, before: Event, after: Event, now: Instant,
                      error: Option<WorkerError>)
    requires before.status.Processing? && !faults.markFails && faults.vanished == {}
    ensures Finished(rules, faults, before, after, now, error) <==>
            && error == None
            && exists matched :: Processes(rules, faults.readError, before.input, matched)
                && after == match matched
                            case Success(rule) =>
                              Event(before.input, Processed, before.attempts, None, rule, before.receivedAt,
                                    Some(now), None)
                            case Failure(reason) =>
                              Event(before.input, Failed, before.attempts + 1, Some(reason), before.matched,
                                    before.receivedAt, Some(now), None)
  {
  }

  /** ProcessOne takes an oldest due event, with five attempts and 45 seconds, or there is none. */
  lemma OutcomeTakesOldestDue(rules: map<nat, Rule>, faults: Faults, delay: nat, before: seq<Event>, after: seq<Event>,
                              locked: set<nat>, claimAt: Instant, markAt: Instant, ok: bool, error: Option<WorkerError>)
    requires Outcome(rules, faults, delay, before, after, locked, claimAt, markAt, ok, error) && !faults.claimFails
    ensures if ok then
              exists id ::
                && 0 <= id < |before| == |after|
                && TakesOldestDue(before, before[id := InProcessing(before[id], claimAt)], locked, 5, 45, claimAt,
                                  Success(id))
                && after == before[id := after[id]]
            else
              TakesOldestDue(before, after, locked, 5, 45, claimAt, Failure(NotFound)) && error.None?
  {
  }

  function AttemptCounts(rows: seq<Event>): seq<int> {
    seq(|rows|, i requires 0 <= i < |rows| => rows[i].attempts)
  }

  class Worker {
    const events: EventStore.Store
    const rules: RuleStore.Store
    const stats: Stats
    const processDelay: nat

    constructor (events: EventStore.Store, rules: RuleStore.Store, processDelay: nat)
      ensures this.events == events && this.rules == rules && this.processDelay == processDelay && fresh(stats)
      ensures stats.processedTotal == 0 && stats.errorTotal == 0
    {
      this.events, this.rules, this.processDelay := events, rules, processDelay;
      stats := new Stats();
    }

    /** The first rule, in order of creation, that applies; an error for a bad payload or a failing read. */
    method Process(input: CreateInput, readError: Option<string>) returns (matched: Result<Option<nat>, string>)
      requires rules.Valid()
      ensures Processes(rules.rules, readError, input, matched)
    {
      var parsed := PayloadAmount(input.payload);
      if parsed.Failure? {
        return Failure(parsed.error);
      }
      var amount := parsed.value;
      if readError.Some? {
        return Failure(readError.value);
      }
      var candidates := rules.EnabledByUserAndType(input.user, input.kind);
      for i := 0 to |candidates|
        invariant forall j :: 0 <= j < i ==> !Admits(rules.rules[candidates[j]].threshold, amount)
      {
        var rule := rules.rules[candidates[i]];
        if Admits(rule.threshold, amount) {
          CandidateWins(rules.rules, input, amount, candidates, i);
          return Success(Some(candidates[i]));
        }
      }
      return Success(None);
    }

    /** Matches and marks an event that was claimed earlier. */
    method Finish(id: nat, input: CreateInput, faults: Faults, now: Instant) returns (error: Option<WorkerError>)
      requires rules.Valid() && id < |events.rows| && events.rows[id].input == input
      modifies events, stats
      ensures stats.lastTick == old(stats.lastTick)
      ensures |events.rows| == |old(events.rows)| && events.rows == old(events.rows)[id := events.rows[id]]
      ensures Finished(rules.rules, faults, old(events.rows)[id], events.rows[id], now, error)
      ensures stats.processedTotal
              == old(stats.processedTotal) + (if error.None? && events.rows[id].status.Processed? then 1 else 0)
      ensures stats.errorTotal
              == old(stats.errorTotal) + (if error.None? && events.rows[id].status.Failed? then 1 else 0)
    {
      ghost var before := events.rows[id];
      var matched := Process(input, faults.readError);
      if faults.markFails {
        assert Marks(faults, matched, before, before, now, Some(IoError));
        return Some(IoError);
      }
      match matched
      case Failure(reason) =>
        var updated := events.MarkAttemptFailed(id, reason, now);
        error := if updated.Failure? then Some(StoreFailure(updated.error)) else None;
        if error.None? {
          stats.IncError();
        }
      case Success(rule) =>
        var refused := events.MarkProcessed(id, rule, rules.rules.Keys - faults.vanished, now);
        error := if refused.Some? then Some(StoreFailure(refused.value)) else None;
        if error.None? {
          stats.IncProcessed();
        }
      assert Marks(faults, matched, before, events.rows[id], now, error);
    }

    /** Claims and processes one event; ok is false when there was none to claim or the claim failed. */
    method ProcessOne(locked: set<nat>, faults: Faults, claimAt: Instant, markAt: Instant)
      returns (ok: bool, error: Option<WorkerError>)
      requires rules.Valid()
      modifies events, stats
      ensures stats.lastTick == old(stats.lastTick)
      ensures Outcome(rules.rules, faults, processDelay, old(events.rows), events.rows, locked, claimAt, markAt, ok,
                      error)
      ensures Tallied(old(events.rows), events.rows,
                      stats.processedTotal - old(stats.processedTotal), stats.errorTotal - old(stats.errorTotal))
      ensures stats.processedTotal + stats.errorTotal
              == old(stats.processedTotal) + old(stats.errorTotal) + (if ok && error.None? then 1 else 0)
    {
      ghost var before := events.rows;
      if faults.claimFails {
        return false, Some(IoError);
      }
      var claimed := events.ClaimNext(MAX_ATTEMPTS, claimAt, locked);
      if claimed.Failure? {
        return false, None;
      }
      ok := true;
      var id := claimed.value;
      if processDelay > 0 && faults.cancelled {
        error := Some(Cancelled);
      } else {
        error := Finish(id, events.rows[id].input, faults, markAt);
      }
      assert events.rows == before[id := events.rows[id]];
      assert Handled(rules.rules, faults, processDelay, before, events.rows, locked, claimAt, markAt, error, id);
      OneOutcome(before, events.rows, id);
    }

    /** Turn i of a tick: the error that ProcessOne returns, if any, is counted. */
    method Turn(locked: set<nat>, faults: seq<Faults>, claimAt: seq<Instant>, markAt: seq<Instant>, i: nat,
                ghost trace: seq<seq<Event>>, ghost returned: seq<Option<WorkerError>>)
      returns (ok: bool, error: Option<WorkerError>)
      requires rules.Valid() && i < |faults| == |claimAt| == |markAt|
      requires Traced(rules.rules, faults, processDelay, locked, claimAt, markAt, trace, returned)
      requires |returned| == i && trace[i] == events.rows
      modifies events, stats
      ensures stats.lastTick == old(stats.lastTick)
      ensures ok ==> Traced(rules.rules, faults, processDelay, locked, claimAt, markAt, trace + [events.rows],
                            returned + [error])
      ensures Errors(returned + [error]) == Errors(returned) + if error.Some? then 1 else 0
      ensures !ok ==>
                && events.rows == old(events.rows) && (error.Some? <==> faults[i].claimFails)
                && (error.None? ==> NothingToClaim(events.rows, locked, MAX_ATTEMPTS, CLAIM_LEASE, claimAt[i]))
      ensures Tallied(old(events.rows), events.rows, stats.processedTotal - old(stats.processedTotal),
                      stats.errorTotal - old(stats.errorTotal) - if error.Some? then 1 else 0)
      ensures stats.processedTotal + stats.errorTotal
              == old(stats.processedTotal) + old(stats.errorTotal) + (if ok || faults[i].claimFails then 1 else 0)
    {
      ok, error := ProcessOne(locked, faults[i], claimAt[i], markAt[i]);
      if error.Some? {
        stats.IncError();
      }
      if ok {
        TraceGrows(rules.rules, faults, processDelay, locked, claimAt, markAt, trace, returned, events.rows, error);
      }
      assert (returned + [error])[..i] == returned;
    }

    /**
     One tick: events are handled until none can be claimed, a claim fails, or twenty are done.  The processed counter
     moves with the processed rows, the error counter with the failed attempts and the errors returned.  The trace has
     the table before the tick and after each ProcessOne.
     */
    method Tick(locked: set<nat>, faults: seq<Faults>, now: Instant, claimAt: seq<Instant>, markAt: seq<Instant>)
      returns (handled: nat, errors: nat, ghost trace: seq<seq<Event>>, ghost returned: seq<Option<WorkerError>>)
      requires rules.Valid() && |faults| == |claimAt| == |markAt| == BATCH_SIZE
      modifies events, stats
      ensures stats.lastTick == Some(now)
      ensures Tallied(old(events.rows), events.rows, stats.processedTotal - old(stats.processedTotal),
                      stats.errorTotal - old(stats.errorTotal) - errors)
      ensures handled <= 20
      ensures |trace| == handled + 1 && trace[0] == old(events.rows) && trace[handled] == events.rows
      ensures Traced(rules.rules, faults, processDelay, locked, claimAt, markAt, trace, returned)
      ensures errors == Errors(returned) + if handled < BATCH_SIZE && faults[handled].claimFails then 1 else 0
      ensures stats.processedTotal + stats.errorTotal == old(stats.processedTotal) + old(stats.errorTotal) + handled
              + if handled < BATCH_SIZE && faults[handled].claimFails then 1 else 0
      ensures handled < 20 && !faults[handled].claimFails ==>
                NothingToClaim(events.rows, locked, MAX_ATTEMPTS, CLAIM_LEASE, claimAt[handled])
    {
      stats.MarkTick(now);
      handled, errors, trace, returned := 0, 0, [events.rows], [];
      while handled < BATCH_SIZE
        invariant handled <= BATCH_SIZE && stats.lastTick == Some(now)
        invariant Tallied(old(events.rows), events.rows, stats.processedTotal - old(stats.processedTotal),
                          stats.errorTotal - old(stats.errorTotal) - errors)
        invariant stats.processedTotal + stats.errorTotal
                  == old(stats.processedTotal) + old(stats.errorTotal) + handled
        invariant |trace| == handled + 1 && trace[0] == old(events.rows) && trace[handled] == events.rows
        invariant |returned| == handled && errors == Errors(returned)
        invariant Traced(rules.rules, faults, processDelay, locked, claimAt, markAt, trace, returned)
      {
        var ok, error := Turn(locked, faults, claimAt, markAt, handled, trace, returned);
        errors := errors + if error.Some? then 1 else 0;
        if !ok {
          return;
        }
        trace, returned, handled := trace + [events.rows], returned + [error], handled + 1;
      }
    }
  }

  /** Each table in the trace is what ProcessOne, with its faults and times, may make of the one before. */
  ghost predicate Traced(rules: map<nat, Rule>, faults: seq<Faults>, delay: nat, locked: set<nat>,
                         claimAt: seq<Instant>, markAt: seq<Instant>, trace: seq<seq<Event>>,
                         returned: seq<Option<WorkerError>>)
    requires |faults| == |claimAt| == |markAt|
  {
    && |trace| == |returned| + 1 && |returned| <= |faults|
    && (|returned| > 0 ==>
          var i := |returned| - 1;
          && Outcome(rules, faults[i], delay, trace[i], trace[i + 1], locked, claimAt[i], markAt[i], true, returned[i])
          && Traced(rules, faults, delay, locked, claimAt, markAt, trace[..i + 1], returned[..i]))
  }

  lemma TraceGrows(rules: map<nat, Rule>, faults: seq<Faults>, delay: nat, locked: set<nat>, claimAt: seq<Instant>,
                   markAt: seq<Instant>, trace: seq<seq<Event>>, returned: seq<Option<WorkerError>>,
                   after: seq<Event>, error: Option<WorkerError>)
    requires |faults| == |claimAt| == |markAt|
    requires Traced(rules, faults, delay, locked, claimAt, markAt, trace, returned) && |returned| < |faults|
    requires Outcome(rules, faults[|returned|], delay, trace[|returned|], after, locked, claimAt[|returned|],
                     markAt[|returned|], true, error)
    ensures Traced(rules, faults, delay, locked, claimAt, markAt, trace + [after], returned + [error])
  {
    assert (trace + [after])[..|trace|] == trace && (returned + [error])[..|returned|] == returned;
  }

  /** Every turn of a tick was a ProcessOne. */
  lemma {:induction false} TurnIsProcessOne(rules: map<nat, Rule>, faults: seq<Faults>, delay: nat, locked: set<nat>,
                                            claimAt: seq<Instant>, markAt: seq<Instant>, trace: seq<seq<Event>>,
                                            returned: seq<Option<WorkerError>>, i: nat)
    requires |faults| == |claimAt| == |markAt| && i < |returned|
    requires Traced(rules, faults, delay, locked, claimAt, markAt, trace, returned)
    ensures |trace| == |returned| + 1 <= |faults| + 1
    ensures Outcome(rules, faults[i], delay, trace[i], trace[i + 1], locked, claimAt[i], markAt[i], true, returned[i])
    decreases |returned|
  {
    var n := |returned| - 1;
    if i < n {
      TurnIsProcessOne(rules, faults, delay, locked, claimAt, markAt, trace[..n + 1], returned[..n], i);
    }
  }

  /** How many calls of ProcessOne returned an error. */
  ghost function Errors(returned: seq<Option<WorkerError>>): nat {
    if |returned| == 0 then 0
    else Errors(returned[..|returned| - 1]) + if returned[|returned| - 1].Some? then 1 else 0
  }

  /** The processed rows and the failed attempts grew by these numbers. */
  ghost predicate Tallied(before: seq<Event>, after: seq<Event>, processed: int, failed: int) {
    && |after| == |before|
    && Sum(QueueProgress.ProcessedFlags(after)) == Sum(QueueProgress.ProcessedFlags(before)) + processed
    && Sum(AttemptCounts(after)) == Sum(AttemptCounts(before)) + failed
  }

  lemma OneOutcome(before: seq<Event>, after: seq<Event>, id: nat)
    requires id < |before| && |after| == |before| && after == before[id := after[id]]
    requires !before[id].status.Processed?
    requires after[id].attempts == before[id].attempts + if after[id].status.Failed? then 1 else 0
    ensures Tallied(before, after, if after[id].status.Processed? then 1 else 0,
                    if after[id].status.Failed? then 1 else 0)
  {
    var flag := if after[id].status.Processed? then 1 else 0;
    assert QueueProgress.ProcessedFlags(after) == QueueProgress.ProcessedFlags(before)[id := flag];
    SumUpdate(QueueProgress.ProcessedFlags(before), id, flag);
    assert AttemptCounts(after) == AttemptCounts(before)[id := after[id].attempts];
    SumUpdate(AttemptCounts(before), id, after[id].attempts);
  }

  /** The first admissible candidate is an oldest rule that applies. */
  lemma CandidateWins(rules: map<nat, Rule>, input: CreateInput, amount: Option<real>, candidates: seq<nat>, i: nat)
    requires forall r :: r in candidates <==>
                           r in rules && rules[r].enabled && rules[r].user == input.user && rules[r].kind == input.kind
    requires forall j, k :: 0 <= j < k < |candidates| ==>
                           rules[candidates[j]].createdAt <= rules[candidates[k]].createdAt
    requires i < |candidates| && candidates[i] in rules && Admits(rules[candidates[i]].threshold, amount)
    requires forall j :: 0 <= j < i ==> candidates[j] in rules && !Admits(rules[candidates[j]].threshold, amount)
    ensures FirstMatch(rules, input.user, input.kind, amount, Some(candidates[i]))
  {
    forall r | r in rules && Applies(rules[r], input.user, input.kind, amount)
      ensures rules[candidates[i]].createdAt <= rules[r].createdAt
    {
      assert r in candidates;
      var k :| 0 <= k < |candidates| && candidates[k] == r;
      assert i <= k;
    }
    assert candidates[i] in candidates;
  }
}
