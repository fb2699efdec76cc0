/** api/internal/events/store.go: the events table as an object, one method a store function. */
module EventStore {
  import opened Wrappers
  import opened EventTable

  class Store {
    var rows: seq<Event>

    constructor ()
      ensures rows == []
    {
      rows := [];
    }

    /** Inserts a pending event, or finds the row that already has its key. */
    method CreatePending(input: CreateInput, now: Instant) returns (id: nat, created: bool)
      modifies this
      ensures Creates(old(rows), rows, input, now, id, created)
      ensures created <==>
              forall i :: 0 <= i < |old(rows)| ==>
                !(old(rows)[i].input.user == input.user && old(rows)[i].input.key == input.key)
      ensures rows == if created then old(rows) + [Event(input, Pending, 0, None, None, now, None, None)] else old(rows)
      ensures id < |rows| && rows[id].input.user == input.user && rows[id].input.key == input.key
      ensures UniqueKeys(old(rows)) ==> UniqueKeys(rows)
    {
      var existing := GetByIdempotency(input.user, input.key);
      match existing
      case Success(found) =>
        assert SameKey(rows[found].input, input);
        id, created := found, false;
      case Failure(_) =>
        forall i | 0 <= i < |rows|
          ensures !SameKey(rows[i].input, input)
        {
        }
        rows := rows + [NewEvent(input, now)];
        id, created := |rows| - 1, true;
    }

    method GetByIdempotency(user: nat, key: string) returns (found: Result<nat, StoreError>)
      ensures match found
              case Success(id) => id < |rows| && rows[id].input.user == user && rows[id].input.key == key
              case Failure(e) =>
                e == NotFound
                && forall i :: 0 <= i < |rows| ==> !(rows[i].input.user == user && rows[i].input.key == key)
    {
      for i := 0 to |rows|
        invariant forall j :: 0 <= j < i ==> !(rows[j].input.user == user && rows[j].input.key == key)
      {
        if rows[i].input.user == user && rows[i].input.key == key {
          return Success(i);
        }
      }
      return Failure(NotFound);
    }

    method ClaimNext(maxAttempts: int, now: Instant, locked: set<nat>) returns (claimed: Result<nat, StoreError>)
      modifies this
      ensures Claims(old(rows), rows, locked, maxAttempts, CLAIM_LEASE, now, claimed)
      ensures TakesOldestDue(old(rows), rows, locked, maxAttempts, 45, now, claimed)
    {
      claimed := ClaimNextWithLease(maxAttempts, CLAIM_LEASE * 1_000_000_000, now, locked);
    }

    /** Takes an oldest eligible row that no other transaction has locked; the lease counts in whole seconds. */
    method ClaimNextWithLease(maxAttempts: int, lease: int, now: Instant, locked: set<nat>)
      returns (claimed: Result<nat, StoreError>)
      modifies this
      ensures Claims(old(rows), rows, locked, maxAttempts, LeaseSeconds(lease), now, claimed)
      ensures TakesOldestDue(old(rows), rows, locked, maxAttempts,
                             if lease <= 0 then 45 else lease / 1_000_000_000, now, claimed)
    {
      var seconds := LeaseSeconds(lease);
      var best: Option<nat> := None;
      for i := 0 to |rows|
        invariant best.None? ==> NothingToClaim(rows[..i], locked, maxAttempts, seconds, now)
        invariant best.Some? ==> ClaimChoice(rows[..i], locked, maxAttempts, seconds, now, best.value)
      {
        var better :=
          i !in locked && Eligible(rows[i], maxAttempts, seconds, now)
          && (best.None? || rows[i].receivedAt < rows[best.value].receivedAt);
        assert rows[..i + 1] == rows[..i] + [rows[i]];
        if better {
          best := Some(i);
        }
      }
      assert rows[..|rows|] == rows;
      match best
      case None => claimed := Failure(NotFound);
      case Some(id) =>
        rows := rows[id := Claimed(rows[id], now)];
        claimed := Success(id);
    }

    method ClaimByID(id: nat, now: Instant) returns (claimed: Result<nat, StoreError>)
      modifies this
      ensures if id < |old(rows)| && (old(rows)[id].status.Pending? || old(rows)[id].status.Failed?)
              then claimed == Success(id) && rows == old(rows)[id := InProcessing(old(rows)[id], now)]
              else claimed == Failure(NotFound) && rows == old(rows)
    {
      if id < |rows| && (rows[id].status.Pending? || rows[id].status.Failed?) {
        rows := rows[id := Claimed(rows[id], now)];
        return Success(id);
      }
      return Failure(NotFound);
    }

    /** Succeeds on a processing row whose matched rule, if any, is in the rules table. */
    method MarkProcessed(id: nat, matched: Option<nat>, ruleIds: set<nat>, now: Instant)
      returns (error: Option<StoreError>)
      modifies this
      ensures match error
              case None =>
                && id < |old(rows)|
                && var was := old(rows)[id];
                   rows == old(rows)[id := Event(was.input, Processed, was.attempts, None, matched, was.receivedAt,
                                                 Some(now), None)]
              case Some(e) => rows == old(rows)
      ensures error.None? <==>
              IsProcessing(old(rows), id) && (matched.Some? ==> matched.value in ruleIds)
      ensures error == Some(NotFound) <==> !IsProcessing(old(rows), id)
    {
      if !IsProcessing(rows, id) {
        return Some(NotFound);
      }
      if matched.Some? && matched.value !in ruleIds {
        return Some(ForeignKeyViolation);
      }
      rows := rows[id := Succeeded(rows[id], matched, now)];
      return None;
    }

    method MarkAttemptFailed(id: nat, lastError: string, now: Instant) returns (updated: Result<Event, StoreError>)
      modifies this
      ensures if IsProcessing(old(rows), id)
              then
                var was := old(rows)[id];
                && rows == old(rows)[id := Event(was.input, Failed, was.attempts + 1, Some(lastError), was.matched,
                                                 was.receivedAt, Some(now), None)]
                && updated == Success(rows[id])
              else rows == old(rows) && updated == Failure(NotFound)
    {
      if !IsProcessing(rows, id) {
        return Failure(NotFound);
      }
      rows := rows[id := AttemptFailed(rows[id], lastError, now)];
      return Success(rows[id]);
    }

    /** The rows among ids that belong to the user, by id. */
    method GetForUserIDs(user: nat, ids: set<nat>) returns (found: map<nat, Event>)
      ensures forall id :: id in found <==> id in ids && id < |rows| && rows[id].input.user == user
      ensures forall id :: id in found ==> found[id] == rows[id]
    {
      found := map[];
      for i := 0 to |rows|
        invariant forall id :: id in found <==> id in ids && id < i && rows[id].input.user == user
        invariant forall id :: id in found ==> found[id] == rows[id]
      {
        if i in ids && rows[i].input.user == user {
          found := found[i := rows[i]];
        }
      }
    }
  }

  predicate IsProcessing(rows: seq<Event>, id: nat) {
    id < |rows| && rows[id].status.Processing?
  }

  /** A new row under a new key, or the row that has the key already. */
  predicate Creates(before: seq<Event>, after: seq<Event>, input: CreateInput, now: Instant, id: nat, created: bool) {
    && (created <==> !HasKey(before, input))
    && after == (if created then before + [NewEvent(input, now)] else before)
    && id < |after| && SameKey(after[id].input, input) && (created ==> id == |before|)
  }

  /** The outcome of a claim query on the rows before: an oldest choice taken, or nothing to take. */
  predicate Claims(before: seq<Event>, after: seq<Event>, locked: set<nat>, maxAttempts: int, lease: nat,
                   now: Instant, claimed: Result<nat, StoreError>)
  {
    match claimed
    case Success(id) =>
      && ClaimChoice(before, locked, maxAttempts, lease, now, id)
      && after == before[id := Claimed(before[id], now)]
    case Failure(e) =>
      e == NotFound && NothingToClaim(before, locked, maxAttempts, lease, now) && after == before
  }

  /** The row as a claim at now leaves it. */
  function InProcessing(was: Event, now: Instant): Event {
    Event(was.input, Processing, was.attempts, was.lastError, was.matched, was.receivedAt, was.processedAt, Some(now))
  }

  /**
   When a row may be claimed, spelled out in microseconds: at once if it is new; 2, 4, 6, ... and at most 60 seconds
   after its last failure if attempts are left; and once the lease is over if a worker has it.
   */
  predicate Due(e: Event, maxAttempts: int, lease: int, now: Instant) {
    || e.status == Pending
    || (e.status == Failed && e.attempts < maxAttempts
        && (if e.processedAt.Some? then e.processedAt.value else e.receivedAt)
           + (if e.attempts == 0 then 2_000_000 else if e.attempts > 30 then 60_000_000 else e.attempts * 2_000_000)
           <= now)
    || (e.status == Processing && e.claimedAt.Some? && e.claimedAt.value + lease * 1_000_000 <= now)
  }

  /** The claim takes an unlocked due row such that no other was received earlier, or there is none. */
  predicate TakesOldestDue(before: seq<Event>, after: seq<Event>, locked: set<nat>, maxAttempts: int, lease: int,
                           now: Instant, claimed: Result<nat, StoreError>)
  {
    match claimed
    case Success(id) =>
      && id < |before| && id !in locked && Due(before[id], maxAttempts, lease, now)
      && after == before[id := InProcessing(before[id], now)]
      && forall j :: 0 <= j < |before| && j !in locked && Due(before[j], maxAttempts, lease, now) ==>
                       before[id].receivedAt <= before[j].receivedAt
    case Failure(e) =>
      && e == NotFound && after == before
      && forall j :: 0 <= j < |before| && j !in locked ==> !Due(before[j], maxAttempts, lease, now)
  }

  /**
   A lease under a second is cut to zero seconds, so that a claim made with it takes processing rows from workers
   that have only just claimed them; every other lease protects a fresh claim.
   */
  lemma SubSecondLeaseProtectsNothing(e: Event, maxAttempts: int, lease: int, now: Instant)
    requires e.status.Processing? && e.claimedAt == Some(now)
    ensures Eligible(e, maxAttempts, LeaseSeconds(lease), now) <==> 0 < lease < 1_000_000_000
  {
    if lease >= 1_000_000_000 {
      assert lease / 1_000_000_000 >= 1;
    }
  }
}
