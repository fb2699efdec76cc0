/**
 The events table and the effect of each SQL statement of api/internal/events/store.go on it.
 A row's id is its position: rows are added at the end and never removed.
 */
module EventTable {
  import opened Wrappers
  import opened Payloads

  /** Microseconds, the resolution of a timestamptz column. */
  type Instant = int

  const SECOND: int := 1_000_000

  /** Seconds a processing row may sit before it can be reclaimed, unless the caller says otherwise. */
  const CLAIM_LEASE: nat := 45

  datatype Status = Pending | Processing | Processed | Failed

  datatype CreateInput = CreateInput(user: nat, key: string, kind: string, payload: Payload)

  datatype Event = Event(
    input: CreateInput,
    status: Status,
    attempts: nat,
    lastError: Option<string>,
    matched: Option<nat>,
    receivedAt: Instant,
    processedAt: Option<Instant>,
    claimedAt: Option<Instant>)

  datatype StoreError = NotFound | ForeignKeyViolation

  // ----- Eligibility -----

  function BackoffSeconds(attempts: nat): nat {
    var wanted := if attempts * 2 < 2 then 2 else attempts * 2;
    if wanted < 60 then wanted else 60
  }

  /** The lease a caller asked for in nanoseconds, as the whole seconds the query uses. */
  function LeaseSeconds(nanoseconds: int): nat {
    if nanoseconds <= 0 then CLAIM_LEASE else nanoseconds / 1_000_000_000
  }

  predicate Eligible(e: Event, maxAttempts: int, lease: nat, now: Instant) {
    match e.status
    case Pending => true
    case Failed =>
      && e.attempts < maxAttempts
      && (if e.processedAt.Some? then e.processedAt.value else e.receivedAt)
         <= now - BackoffSeconds(e.attempts) * SECOND
    case Processing => e.claimedAt.Some? && e.claimedAt.value <= now - lease * SECOND
    case Processed => false
  }

  /** Row id may be taken by a claim at time now: SKIP LOCKED leaves no older eligible row but locked ones. */
  predicate ClaimChoice(rows: seq<Event>, locked: set<nat>, maxAttempts: int, lease: nat, now: Instant, id: nat) {
    && id < |rows|
    && id !in locked
    && Eligible(rows[id], maxAttempts, lease, now)
    && forall j :: 0 <= j < |rows| && j !in locked && Eligible(rows[j], maxAttempts, lease, now) ==>
                     rows[id].receivedAt <= rows[j].receivedAt
  }

  predicate NothingToClaim(rows: seq<Event>, locked: set<nat>, maxAttempts: int, lease: nat, now: Instant) {
    forall j :: 0 <= j < |rows| && j !in locked ==> !Eligible(rows[j], maxAttempts, lease, now)
  }

  // ----- Statements, row by row -----

  function NewEvent(input: CreateInput, now: Instant): Event {
    Event(input, Pending, 0, None, None, now, None, None)
  }

  function Claimed(e: Event, now: Instant): Event {
    e.(status := Processing, claimedAt := Some(now))
  }

  function Succeeded(e: Event, matched: Option<nat>, now: Instant): Event {
    e.(status := Processed, matched := matched, processedAt := Some(now), lastError := None, claimedAt := None)
  }

  function AttemptFailed(e: Event, error: string, now: Instant): Event {
    e.(attempts := e.attempts + 1, lastError := Some(error), status := Failed, processedAt := Some(now),
       claimedAt := None)
  }

  /** ON DELETE SET NULL of the foreign key on matched_rule_id. */
  function Unlinked(e: Event, rule: nat): Event {
    if e.matched == Some(rule) then e.(matched := None) else e
  }

  function UnlinkAll(rows: seq<Event>, rule: nat): (unlinked: seq<Event>)
    ensures |unlinked| == |rows|
    ensures forall i :: 0 <= i < |rows| ==> unlinked[i] == Unlinked(rows[i], rule)
  {
    seq(|rows|, i requires 0 <= i < |rows| => Unlinked(rows[i], rule))
  }

  // ----- The unique key (user_id, idempotency_key) -----

  predicate SameKey(a: CreateInput, b: CreateInput) {
    a.user == b.user && a.key == b.key
  }

  predicate HasKey(rows: seq<Event>, input: CreateInput) {
    exists i :: 0 <= i < |rows| && SameKey(rows[i].input, input)
  }

  predicate UniqueKeys(rows: seq<Event>) {
    forall i, j :: 0 <= i < j < |rows| ==> !SameKey(rows[i].input, rows[j].input)
  }

  /** The columns that no statement may change after the insert. */
  predicate SameIngest(a: Event, b: Event) {
    a.input == b.input && a.receivedAt == b.receivedAt
  }

  // ----- Row shape -----

  /** Which optional columns are set, in terms of status and attempt count. */
  predicate Shape(e: Event) {
    && (e.claimedAt.Some? <==> e.status.Processing?)
    && (e.lastError.Some? <==> e.attempts > 0 && !e.status.Processed?)
    && (e.processedAt.Some? <==> e.attempts > 0 || e.status.Processed?)
    && (e.status.Pending? ==> e.attempts == 0)
    && (e.status.Failed? ==> e.attempts > 0)
    && (e.matched.Some? ==> e.status.Processed?)
  }
}
