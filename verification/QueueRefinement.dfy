/** What the store and worker objects do is a run of the protocol. */
module QueueRefinement {
  import opened Wrappers
  import opened Payloads
  import opened EventTable
  import opened RuleTable
  import opened QueueProtocol
  import EventStore
  import Worker

  const WORKER := Config(Worker.MAX_ATTEMPTS, CLAIM_LEASE)

  predicate IdleAt(s: State, w: nat) {
    w < |s.workers| && s.workers[w].Idle?
  }

  /** A claim by the store is the protocol's lock and commit, or its finding nothing. */
  lemma ClaimRefines(c: Config, s: State, w: nat, after: seq<Event>, claimed: Result<nat, StoreError>)
    returns (r: Run)
    requires IdleAt(s, w)
    requires EventStore.Claims(s.rows, after, Locked(s.workers), c.maxAttempts, c.lease, s.clock, claimed)
    ensures IsRun(c, r) && r.states[0] == s
    ensures var t := r.states[|r.acts|];
            match claimed
            case Success(id) =>
              t == s.(rows := after, workers := s.workers[w := Holding(id, s.clock)])
            case Failure(_) =>
              t == s.(workers := s.workers[w := Returned]) && after == s.rows
  {
    r := Run([s], []);
    match claimed
    case Success(id) =>
      r := Extend(c, r, By(w, Lock(id)));
      var locked := r.states[|r.acts|];
      assert locked.workers[w] == Claiming(id, s.clock);
      assert locked.rows == s.rows;
      r := Extend(c, r, By(w, Commit(id, s.rows[id].status.Processing?)));
      assert r.states[|r.acts|].rows == after;
      assert r.states[|r.acts|].workers == s.workers[w := Holding(id, s.clock)];
    case Failure(_) =>
      r := Extend(c, r, By(w, FindNothing));
      assert r.states[|r.acts|].rows == s.rows;
  }

  /** Where process leaves a worker that held event id. */
  function Ready(id: nat, since: Instant, matched: Result<Option<nat>, string>): Pc {
    match matched
    case Success(rule) => Matched(id, since, rule)
    case Failure(reason) => Failing(id, since, reason)
  }

  /** Process is the protocol's match, its rejection of the payload, or its failed read. */
  lemma ProcessRefines(c: Config, r: Run, w: nat, readError: Option<string>, matched: Result<Option<nat>, string>)
    returns (longer: Run)
    requires IsRun(c, r)
    requires var s := r.states[|r.acts|];
             && w < |s.workers| && s.workers[w].Holding? && s.workers[w].id < |s.rows|
             && Worker.Processes(s.rules, readError, s.rows[s.workers[w].id].input, matched)
    ensures IsRun(c, longer) && longer.states[0] == r.states[0]
    ensures var s := r.states[|r.acts|];
            longer.states[|longer.acts|]
            == s.(workers := s.workers[w := Ready(s.workers[w].id, s.workers[w].since, matched)])
  {
    var s := r.states[|r.acts|];
    var op := match matched
              case Success(rule) => MatchRules(rule)
              case Failure(reason) =>
                if PayloadAmount(s.rows[s.workers[w].id].input.payload).Failure? then RejectPayload(reason)
                else ReadError(reason);
    longer := Extend(c, r, By(w, op));
    assert longer.states[|longer.acts|].rows == s.rows;
  }

  /** The protocol's step for a mark with this error. */
  function MarkOp(matched: Result<Option<nat>, string>, id: nat, error: Option<Worker.WorkerError>): Op {
    match error
    case None => if matched.Success? then MarkProcessed(id) else MarkFailed(id)
    case Some(StoreFailure(NotFound)) => MarkMiss(id)
    case Some(StoreFailure(ForeignKeyViolation)) => MarkRefused(id)
    case Some(_) => GiveUp
  }

  function AfterMark(id: nat, after: Event, error: Option<Worker.WorkerError>): Pc {
    if error.None? && after.status.Processed? then Marked(id) else Idle
  }

  predicate Refused(error: Option<Worker.WorkerError>) {
    error == Some(Worker.StoreFailure(ForeignKeyViolation))
  }

  /** Every mark but a refused one is one step; a mark that failed on the wire is a worker giving up. */
  lemma MarkRefines(c: Config, r: Run, w: nat, faults: Worker.Faults, matched: Result<Option<nat>, string>,
                    after: Event, error: Option<Worker.WorkerError>)
    returns (longer: Run)
    requires IsRun(c, r) && !Refused(error)
    requires var s := r.states[|r.acts|];
             && w < |s.workers| && Marking(s.workers[w]) && s.workers[w].id < |s.rows|
             && s.workers[w] == Ready(s.workers[w].id, s.workers[w].since, matched)
             && s.workers[w].id !in Locked(s.workers)
             && (matched.Success? && matched.value.Some? ==> matched.value.value in s.rules)
             && Worker.Marks(faults, matched, s.rows[s.workers[w].id], after, s.clock, error)
    ensures IsRun(c, longer) && longer.states[0] == r.states[0]
    ensures var s, t := r.states[|r.acts|], longer.states[|longer.acts|];
            && t.rows == s.rows[s.workers[w].id := after] && t.counted == s.counted
            && t.workers == s.workers[w := AfterMark(s.workers[w].id, after, error)]
  {
    var s := r.states[|r.acts|];
    var id := s.workers[w].id;
    longer := Extend(c, r, By(w, MarkOp(matched, id, error)));
    assert longer.states[|longer.acts|].rows == s.rows[id := after];
  }

  /** A refused mark is two: the deletion of the matched rule, which unlinks it everywhere, and the refusal. */
  lemma RefusalRefines(c: Config, r: Run, w: nat) returns (longer: Run)
    requires IsRun(c, r)
    requires var s := r.states[|r.acts|];
             && w < |s.workers| && s.workers[w].Matched? && s.workers[w].rule.Some?
             && s.workers[w].rule.value in s.rules && s.workers[w].id < |s.rows|
             && s.rows[s.workers[w].id].status.Processing? && s.workers[w].id !in Locked(s.workers)
    ensures IsRun(c, longer) && longer.states[0] == r.states[0]
    ensures var s, t := r.states[|r.acts|], longer.states[|longer.acts|];
            && t.rows == UnlinkAll(s.rows, s.workers[w].rule.value) && t.counted == s.counted
            && t.workers == s.workers[w := Idle]
  {
    var s := r.states[|r.acts|];
    var id, rule := s.workers[w].id, s.workers[w].rule.value;
    longer := Extend(c, r, DeleteRule(rule, s.rules[rule].user));
    var t := longer.states[|longer.acts|];
    assert t.workers == s.workers && t.rows == UnlinkAll(s.rows, rule) && t.rows[id] == Unlinked(s.rows[id], rule);
    longer := Extend(c, longer, By(w, MarkRefused(id)));
    assert longer.states[|longer.acts|].rows == t.rows;
  }

  /** The rows a Finish leaves: a refused mark comes with the deletion of one of the vanished rules. */
  ghost predicate RowsAfter(before: seq<Event>, id: nat, after: Event, faults: Worker.Faults,
                            error: Option<Worker.WorkerError>, rows: seq<Event>)
    requires id < |before|
  {
    if Refused(error) then exists rule :: rule in faults.vanished && rows == UnlinkAll(before[id := after], rule)
    else rows == before[id := after]
  }

  /** Finish, whatever its outcome, is the protocol's match, rejection or failed read followed by its mark. */
  lemma FinishRefines(c: Config, r: Run, w: nat, faults: Worker.Faults, after: Event,
                      error: Option<Worker.WorkerError>)
    returns (longer: Run)
    requires IsRun(c, r)
    requires var s := r.states[|r.acts|];
             && w < |s.workers| && s.workers[w].Holding? && s.workers[w].id < |s.rows|
             && s.workers[w].id !in Locked(s.workers)
             && Worker.Finished(s.rules, faults, s.rows[s.workers[w].id], after, s.clock, error)
    ensures IsRun(c, longer) && longer.states[0] == r.states[0]
    ensures var s, t := r.states[|r.acts|], longer.states[|longer.acts|];
            && RowsAfter(s.rows, s.workers[w].id, after, faults, error, t.rows) && t.counted == s.counted
            && t.workers == s.workers[w := AfterMark(s.workers[w].id, after, error)]
  {
    var s := r.states[|r.acts|];
    var id := s.workers[w].id;
    var matched :| && Worker.Processes(s.rules, faults.readError, s.rows[id].input, matched)
                   && Worker.Marks(faults, matched, s.rows[id], after, s.clock, error);
    longer := ProcessRefines(c, r, w, faults.readError, matched);
    StillReaches(s, longer.states[|longer.acts|], w);
    if Refused(error) {
      longer := RefusalRefines(c, longer, w);
      assert s.rows[id := after] == s.rows;
    } else {
      longer := MarkRefines(c, longer, w, faults, matched, after, error);
    }
  }

  lemma StillReaches(s: State, t: State, w: nat)
    requires |t.workers| == |s.workers| && w < |s.workers| && !t.workers[w].Claiming?
    requires forall v :: 0 <= v < |s.workers| && v != w ==> t.workers[v] == s.workers[v]
    ensures Locked(t.workers) <= Locked(s.workers)
  {
  }

  /** A worker's claim, the wait until the mark, and what follows. */
  lemma HandledRefines(s: State, w: nat, faults: Worker.Faults, delay: nat, after: seq<Event>, markAt: Instant,
                       error: Option<Worker.WorkerError>, id: nat)
    returns (r: Run)
    requires IdleAt(s, w) && s.clock <= markAt
    requires Worker.Handled(s.rules, faults, delay, s.rows, after, Locked(s.workers), s.clock, markAt, error, id)
    ensures IsRun(WORKER, r) && r.states[0] == s
    ensures RowsAfter(s.rows, id, after[id], faults, error, r.states[|r.acts|].rows)
    ensures r.states[|r.acts|].workers == s.workers[w := AfterMark(id, after[id], error)]
    ensures r.states[|r.acts|].counted == s.counted
  {
    var middle := s.rows[id := Claimed(s.rows[id], s.clock)];
    r := ClaimRefines(WORKER, s, w, middle, Success(id));
    StillReaches(s, r.states[|r.acts|], w);
    if delay > 0 && faults.cancelled {
      r := Extend(WORKER, r, By(w, GiveUp));
      assert r.states[|r.acts|].rows == middle;
    } else {
      r := Extend(WORKER, r, Tick(markAt - s.clock));
      assert r.states[|r.acts|].rows == middle;
      r := FinishRefines(WORKER, r, w, faults, after[id], error);
      assert middle[id := after[id]] == s.rows[id := after[id]];
    }
  }

  /** A worker that has marked an event processed counts it. */
  lemma CountRefines(c: Config, r: Run, w: nat, marked: bool) returns (longer: Run)
    requires IsRun(c, r)
    requires var s := r.states[|r.acts|];
             w < |s.workers| && (if marked then s.workers[w].Marked? else s.workers[w].Idle?)
    ensures IsRun(c, longer) && longer.states[0] == r.states[0]
    ensures var s, t := r.states[|r.acts|], longer.states[|longer.acts|];
            && t.rows == s.rows && t.workers == s.workers[w := Idle]
            && t.counted == s.counted + if marked then 1 else 0
  {
    longer := r;
    if marked {
      longer := Extend(c, r, By(w, Count));
      assert longer.states[|longer.acts|].rows == r.states[|r.acts|].rows;
    }
  }

  /** The counter moves exactly when the mark succeeded, that is when one row more is processed. */
  lemma CountsTheMark(s: State, faults: Worker.Faults, delay: nat, after: seq<Event>, markAt: Instant,
                      error: Option<Worker.WorkerError>, id: nat, processed: int, failed: int)
    requires Worker.Handled(s.rules, faults, delay, s.rows, after, Locked(s.workers), s.clock, markAt, error, id)
    requires Worker.Tallied(s.rows, after, processed, failed)
    ensures processed == if AfterMark(id, after[id], error).Marked? then 1 else 0
  {
    Worker.OneOutcome(s.rows, after, id);
  }

  /**
   Every ProcessOne of the worker object, with whatever faults and outcome, is a run of the protocol to the same rows,
   save that a refused mark brings the deletion that caused it; the worker is idle again or has found nothing, and the
   protocol's counter has moved by as much as the object's.  What holds in all runs of the protocol therefore holds of
   the object too.
   */
  lemma ProcessOneRefines(s: State, w: nat, faults: Worker.Faults, delay: nat, after: seq<Event>, markAt: Instant,
                          ok: bool, error: Option<Worker.WorkerError>, processed: int, failed: int)
    returns (r: Run)
    requires IdleAt(s, w) && s.clock <= markAt
    requires Worker.Outcome(s.rules, faults, delay, s.rows, after, Locked(s.workers), s.clock, markAt, ok, error)
    requires Worker.Tallied(s.rows, after, processed, failed)
    ensures IsRun(WORKER, r) && r.states[0] == s
    ensures var t := r.states[|r.acts|];
            && (if Refused(error) then exists rule :: rule in faults.vanished && t.rows == UnlinkAll(after, rule)
                else t.rows == after)
            && t.workers == (if ok || faults.claimFails then s.workers else s.workers[w := Returned])
            && t.counted == s.counted + processed
  {
    if ok {
      var id :| 0 <= id < |s.rows| && Worker.Handled(s.rules, faults, delay, s.rows, after, Locked(s.workers),
                                                     s.clock, markAt, error, id);
      r := HandledRefines(s, w, faults, delay, after, markAt, error, id);
      CountsTheMark(s, faults, delay, after, markAt, error, id, processed, failed);
      r := CountRefines(WORKER, r, w, AfterMark(id, after[id], error).Marked?);
    } else if faults.claimFails {
      r := Run([s], []);
    } else {
      r := ClaimRefines(WORKER, s, w, after, Failure(NotFound));
    }
  }

  /** ClaimByID reaches a pending or failed row that nobody has locked in one step, and no other row at all. */
  lemma ClaimByIDRefines(c: Config, s: State, w: nat, id: nat, after: seq<Event>, claimed: Result<nat, StoreError>)
    requires IdleAt(s, w) && id !in Locked(s.workers)
    requires if id < |s.rows| && (s.rows[id].status.Pending? || s.rows[id].status.Failed?)
             then claimed == Success(id) && after == s.rows[id := EventStore.InProcessing(s.rows[id], s.clock)]
             else claimed == Failure(NotFound) && after == s.rows
    ensures Enabled(c, s, By(w, ClaimById(id))) <==> claimed.Success?
    ensures claimed.Success? ==>
              && Apply(c, s, By(w, ClaimById(id))).rows == after
              && Apply(c, s, By(w, ClaimById(id))).workers == s.workers[w := Holding(id, s.clock)]
  {
    if claimed.Success? {
      assert Apply(c, s, By(w, ClaimById(id))).rows == after;
    }
  }

  /** CreatePending is the protocol's insert, followed by its lookup when the key was taken. */
  lemma CreatePendingRefines(c: Config, s: State, input: CreateInput, after: seq<Event>, id: nat, created: bool)
    returns (r: Run)
    requires EventStore.Creates(s.rows, after, input, s.clock, id, created)
    ensures IsRun(c, r) && r.states[0] == s
    ensures var t := r.states[|r.acts|];
            && t.rows == after && t.workers == s.workers
            && t.calls == s.calls + [Call(input, Answered(id, created))]
  {
    r := Extend(c, Run([s], []), Insert(input));
    if !created {
      r := Extend(c, r, Lookup(|s.calls|, Some(id)));
    }
  }
}
