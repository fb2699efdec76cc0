/** The life of one event over a whole run: what its row records, how often it was claimed, when it failed. */
module EventHistory {
  import opened Wrappers
  import opened EventTable
  import opened QueueProtocol
  import opened QueueInvariants

  /** In every reachable state the optional columns are set exactly as status and attempt count say. */
  lemma RowShapeAlways(c: Config, r: Run, n: nat, id: nat)
    requires IsFullRun(c, r) && n <= |r.acts| && id < |r.states[n].rows|
    ensures Shape(r.states[n].rows[id])
    ensures var e := r.states[n].rows[id];
            && (e.claimedAt.Some? <==> e.status == Processing)
            && (e.lastError.Some? <==> e.attempts > 0 && e.status != Processed)
            && (e.processedAt.Some? <==> e.attempts > 0 || e.status == Processed)
            && (e.status == Pending ==> e.attempts == 0) && (e.status == Failed ==> e.attempts > 0)
            && (e.matched.Some? ==> e.status == Processed)
  {
    AlwaysInv(c, r, n);
  }

  function OneIf(b: bool): nat {
    if b then 1 else 0
  }

  /** Tallies of one event agree with its row, or are all zero before it exists. */
  ghost predicate Accounted(r: Run, n: nat, id: nat)
    requires |r.states| == |r.acts| + 1 && n <= |r.acts|
  {
    var claims := Tally(r.acts, n, FreshClaim, id);
    var failed := Tally(r.acts, n, FailMark, id);
    var done := Tally(r.acts, n, DoneMark, id);
    if id < |r.states[n].rows| then
      var e := r.states[n].rows[id];
      && claims == e.attempts + OneIf(e.status.Processing?) + OneIf(e.status.Processed?)
      && failed == e.attempts
      && done == OneIf(e.status.Processed?)
    else
      claims == 0 && failed == 0 && done == 0 && Tally(r.acts, n, Reclaim, id) == 0
  }

  /**
   Claim accounting, ClaimByID included: the claims of an event are its lease reclaims, its failed attempts, and
   one more while it is processing or once it is processed.  Each failed attempt was recorded once, and the event
   was marked processed exactly once if it is processed and never otherwise.
   */
  lemma {:induction false} ClaimAccounting(c: Config, r: Run, n: nat, id: nat)
    requires IsFullRun(c, r) && n <= |r.acts|
    ensures Accounted(r, n, id)
  {
    if n > 0 {
      ClaimAccounting(c, r, n - 1, id);
      AlwaysInv(c, r, n - 1);
      StepRows(c, r.states[n - 1], r.acts[n - 1]);
      if id < |r.states[n - 1].rows| {
        AccountStep(c, r.states[n - 1], r.acts[n - 1], id);
      }
    }
  }

  lemma AccountStep(c: Config, s: State, a: Action, id: nat)
    requires Inv(c, s) && Enabled(c, s, a) && id < |s.rows|
    ensures var e, f := s.rows[id], RowAfter(s, a, id);
            && f.attempts == e.attempts + OneIf(Is(a, FailMark, id))
            && OneIf(f.status.Processed?) == OneIf(e.status.Processed?) + OneIf(Is(a, DoneMark, id))
            && f.attempts + OneIf(f.status.Processing?) + OneIf(f.status.Processed?)
               == e.attempts + OneIf(e.status.Processing?) + OneIf(e.status.Processed?) + OneIf(Is(a, FreshClaim, id))
  {
  }

  /** The columns of a processed row that no later step may change; the matched rule may only be unlinked. */
  predicate SameOutcome(a: Event, b: Event) {
    && b.status.Processed?
    && SameIngest(a, b)
    && b.attempts == a.attempts && b.processedAt == a.processedAt && b.lastError == a.lastError
    && (b.matched == a.matched || b.matched.None?)
  }

  /** Once processed, an event stays processed with the outcome it had. */
  lemma {:induction false} ProcessedIsFinal(c: Config, r: Run, m: nat, n: nat, id: nat)
    requires IsFullRun(c, r) && m <= n <= |r.acts|
    requires id < |r.states[m].rows| && r.states[m].rows[id].status.Processed?
    ensures id < |r.states[n].rows| && SameOutcome(r.states[m].rows[id], r.states[n].rows[id])
  {
    if m < n {
      ProcessedIsFinal(c, r, m, n - 1, id);
      AlwaysInv(c, r, n - 1);
      StepRows(c, r.states[n - 1], r.acts[n - 1]);
      ProcessedStep(c, r.states[n - 1], r.acts[n - 1], id);
    }
  }

  lemma ProcessedStep(c: Config, s: State, a: Action, id: nat)
    requires Inv(c, s) && Enabled(c, s, a) && id < |s.rows| && s.rows[id].status.Processed?
    ensures SameOutcome(s.rows[id], RowAfter(s, a, id))
  {
  }

  // ----- Backoff -----

  /** When the failures of event id among the first n actions happened. */
  ghost function FailTimes(r: Run, n: nat, id: nat): seq<Instant>
    requires n <= |r.acts| < |r.states|
  {
    if n == 0 then []
    else FailTimes(r, n - 1, id) + if Is(r.acts[n - 1], FailMark, id) then [r.states[n - 1].clock] else []
  }

  /** A row waiting for, or in, its next attempt is claimed no earlier than the backoff after its last failure. */
  predicate BackedOff(e: Event) {
    e.status.Processing? && e.attempts >= 1 ==>
      && e.processedAt.Some? && e.claimedAt.Some?
      && e.processedAt.value + BackoffSeconds(e.attempts) * SECOND <= e.claimedAt.value
  }

  /** Consecutive failures lie at least the backoff of the earlier one apart, and the row dates the last of them. */
  ghost predicate Spaced(times: seq<Instant>, e: Event) {
    && |times| == e.attempts
    && (e.attempts > 0 && !e.status.Processed? ==> e.processedAt == Some(times[|times| - 1]))
    && forall k :: 0 < k < |times| ==> times[k - 1] + BackoffSeconds(k) * SECOND <= times[k]
  }

  lemma SpacedStep(c: Config, s: State, a: Action, id: nat, times: seq<Instant>)
    requires Inv(c, s) && Enabled(c, s, a) && id < |s.rows|
    requires !(a.By? && a.op.ClaimById?)
    requires BackedOff(s.rows[id]) && Spaced(times, s.rows[id])
    ensures BackedOff(RowAfter(s, a, id))
    ensures Spaced(times + if Is(a, FailMark, id) then [s.clock] else [], RowAfter(s, a, id))
  {
    if a.By? && a.op.Commit? && a.op.id == id {
      assert Eligible(s.rows[id], c.maxAttempts, c.lease, s.workers[a.w].at);
    }
  }

  lemma {:induction false} FailuresSpaced(c: Config, r: Run, n: nat, id: nat)
    requires IsFullRun(c, r) && WorkerPath(r) && n <= |r.acts|
    ensures if id < |r.states[n].rows|
            then BackedOff(r.states[n].rows[id]) && Spaced(FailTimes(r, n, id), r.states[n].rows[id])
            else FailTimes(r, n, id) == []
  {
    if n > 0 {
      FailuresSpaced(c, r, n - 1, id);
      AlwaysInv(c, r, n - 1);
      StepRows(c, r.states[n - 1], r.acts[n - 1]);
      if id < |r.states[n - 1].rows| {
        SpacedStep(c, r.states[n - 1], r.acts[n - 1], id, FailTimes(r, n - 1, id));
      }
    }
  }

  /**
   With the worker's limit of five attempts neither clamp of the backoff binds: a failed event is tried again exactly
   from two seconds per failure after the last one, and never after the fifth.
   */
  lemma {:induction false} WorkerRetries(c: Config, r: Run, n: nat, id: nat, now: Instant)
    requires IsFullRun(c, r) && WorkerPath(r) && c.maxAttempts == 5 && n <= |r.acts|
    requires id < |r.states[n].rows| && r.states[n].rows[id].status.Failed?
    ensures var times, e := FailTimes(r, n, id), r.states[n].rows[id];
            && |times| == e.attempts > 0
            && (Eligible(e, c.maxAttempts, c.lease, now) <==>
                  |times| <= 4 && times[|times| - 1] + 2 * |times| * SECOND <= now)
  {
    FailuresSpaced(c, r, n, id);
    AlwaysInv(c, r, n);
  }

  /** Seconds from the first to the k-th failure that the backoff alone guarantees. */
  function BackoffTotal(k: nat): nat
    requires k >= 1
  {
    if k <= 31 then k * (k - 1) else 930 + 60 * (k - 31)
  }

  lemma {:induction false} SpacingAddsUp(times: seq<Instant>, k: nat)
    requires 1 <= k <= |times|
    requires forall i :: 0 < i < |times| ==> times[i - 1] + BackoffSeconds(i) * SECOND <= times[i]
    ensures times[0] + BackoffTotal(k) * SECOND <= times[k - 1]
  {
    if k > 1 {
      SpacingAddsUp(times, k - 1);
      TotalStep(k);
    }
  }

  lemma TotalStep(k: nat)
    requires k > 1
    ensures BackoffTotal(k) == BackoffTotal(k - 1) + BackoffSeconds(k - 1)
  {
    assert k * (k - 1) == (k - 1) * (k - 2) + 2 * (k - 1);
  }

  /**
   Backoff bound: whatever stale workers, crashes and reclaims do, the k-th failure of an event comes at least
   k(k-1) seconds after its first, and from the 31st on at least 60 seconds after the one before.
   */
  lemma BackoffBound(c: Config, r: Run, n: nat, id: nat, k: nat)
    requires IsFullRun(c, r) && WorkerPath(r) && n <= |r.acts|
    requires 1 <= k <= |FailTimes(r, n, id)|
    ensures FailTimes(r, n, id)[0] + BackoffTotal(k) * SECOND <= FailTimes(r, n, id)[k - 1]
  {
    FailuresSpaced(c, r, n, id);
    SpacingAddsUp(FailTimes(r, n, id), k);
  }
}
