/** Lease reclaims: how far apart they are, how many fit into a time, and that they need not end. */
module QueueReclaims {
  import opened Wrappers
  import opened Sums
  import opened Payloads
  import opened EventTable
  import opened QueueProtocol
  import opened QueueInvariants
  import opened QueueFairness
  import QueueIngest
  import QueueProgress

  // ----- Two claims of one row -----

  predicate Claims(a: Action, id: nat) {
    a.By? && a.op.Commit? && a.op.id == id
  }

  predicate IsMarkOf(a: Action, id: nat) {
    a.By? && (a.op.MarkProcessed? || a.op.MarkFailed?) && a.op.id == id
  }

  /** When the worker of a claim that commits at step n took its lock. */
  function LockTime(s: State, a: Action): Instant
    requires a.By? && a.w < |s.workers| && s.workers[a.w].Claiming?
  {
    s.workers[a.w].at
  }

  /** Until its next mark a row that was claimed is in processing, by that claim or a later one. */
  lemma {:induction false} ClaimedUntilMarked(c: Config, r: Run, m: nat, n: nat, id: nat)
    requires IsFullRun(c, r) && m < n <= |r.acts| && Claims(r.acts[m], id)
    requires forall i {:trigger r.acts[i]} :: m < i < n ==> !IsMarkOf(r.acts[i], id)
    ensures var s, a := r.states[m], r.acts[m];
            && a.w < |s.workers| && s.workers[a.w].Claiming?
            && id < |r.states[n].rows| && r.states[n].rows[id].status.Processing?
            && r.states[n].rows[id].claimedAt.Some? && r.states[n].rows[id].claimedAt.value >= LockTime(s, a)
  {
    var s, a := r.states[n - 1], r.acts[n - 1];
    assert Enabled(c, s, a);
    AlwaysInv(c, r, n - 1);
    StepRows(c, s, a);
    if m < n - 1 {
      ClaimedUntilMarked(c, r, m, n - 1, id);
      if Claims(a, id) {
        assert PcFits(c, s.rows, s.workers[a.w]);
      }
    }
  }

  /** Two claims of a row with no mark of it between them took their locks at least a lease apart. */
  lemma ClaimsAreALeaseApart(c: Config, r: Run, m: nat, n: nat, id: nat)
    requires IsFullRun(c, r) && m < n < |r.acts| && Claims(r.acts[m], id) && Claims(r.acts[n], id)
    requires forall i {:trigger r.acts[i]} :: m < i < n ==> !IsMarkOf(r.acts[i], id)
    ensures r.acts[m].w < |r.states[m].workers| && r.states[m].workers[r.acts[m].w].Claiming?
    ensures r.acts[n].w < |r.states[n].workers| && r.states[n].workers[r.acts[n].w].Claiming?
    ensures LockTime(r.states[m], r.acts[m]) + c.lease * SECOND <= LockTime(r.states[n], r.acts[n])
  {
    ClaimedUntilMarked(c, r, m, n, id);
    assert Enabled(c, r.states[n], r.acts[n]);
    AlwaysInv(c, r, n);
    assert PcFits(c, r.states[n].rows, r.states[n].workers[r.acts[n].w]);
  }

  // ----- Reclaims of one row over a time -----

  /** The time by which count reclaims since start must at least have got to, two of them being free. */
  function Pace(c: Config, start: Instant, count: int): Instant {
    if count <= 2 then start else Pace(c, start, count - 1) + c.lease * SECOND
  }

  lemma {:induction false} PaceIs(c: Config, start: Instant, count: int)
    requires count >= 2
    ensures Pace(c, start, count) == start + (count - 2) * (c.lease * SECOND)
  {
    if count > 2 {
      PaceIs(c, start, count - 1);
      var l := c.lease * SECOND;
      assert (count - 2) * l == (count - 3) * l + l;
    }
  }

  /** Every lock on the row was taken at from or later. */
  ghost predicate LocksSince(s: State, id: nat, from: Instant) {
    forall w :: 0 <= w < |s.workers| && s.workers[w].Claiming? && s.workers[w].id == id ==> from <= s.workers[w].at
  }

  /** The row has been reclaimed count times since start. */
  ghost predicate Paced(c: Config, s: State, start: Instant, count: int, id: nat) {
    && start <= s.clock
    && (count >= 1 ==> LocksSince(s, id, start))
    && (count >= 2 ==>
          && Pace(c, start, count) <= s.clock && LocksSince(s, id, Pace(c, start, count))
          && (id < |s.rows| && s.rows[id].status.Processing? ==>
                s.rows[id].claimedAt.Some? && Pace(c, start, count) <= s.rows[id].claimedAt.value))
  }

  lemma LocksAfter(c: Config, s: State, a: Action, id: nat, from: Instant)
    requires Inv(c, s) && Enabled(c, s, a) && from <= s.clock
    requires LocksSince(s, id, from) || Claims(a, id)
    ensures LocksSince(Apply(c, s, a), id, from)
  {
    StepWorkers(c, s, a);
  }

  lemma PacedStep(c: Config, s: State, a: Action, start: Instant, count: int, id: nat)
    requires Inv(c, s) && Enabled(c, s, a) && Paced(c, s, start, count, id) && count >= 0
    ensures Paced(c, Apply(c, s, a), start, count + (if Is(a, Reclaim, id) then 1 else 0), id)
  {
    StepRows(c, s, a);
    assert Pace(c, start, count + 1) == if count >= 2 then Pace(c, start, count) + c.lease * SECOND else start;
    if Claims(a, id) {
      assert PcFits(c, s.rows, s.workers[a.w]);
      assert s.workers[a.w].at <= s.clock;
    }
    if count >= 1 || Claims(a, id) {
      LocksAfter(c, s, a, id, start);
    }
    if Is(a, Reclaim, id) {
      assert count >= 1 ==> start <= s.workers[a.w].at;
      if count >= 1 {
        LocksAfter(c, s, a, id, Pace(c, start, count + 1));
      }
    } else if count >= 2 {
      LocksAfter(c, s, a, id, Pace(c, start, count));
    }
  }

  /** How often event id was reclaimed from the b-th action up to the n-th. */
  function Reclaims(acts: seq<Action>, b: nat, n: nat, id: nat): int
    requires b <= |acts| && n <= |acts|
  {
    Tally(acts, n, Reclaim, id) - Tally(acts, b, Reclaim, id)
  }

  ghost predicate PacedFrom(c: Config, r: Run, b: nat, n: nat, id: nat)
    requires b <= n <= |r.acts| < |r.states|
  {
    Reclaims(r.acts, b, n, id) >= 0 && Paced(c, r.states[n], r.states[b].clock, Reclaims(r.acts, b, n, id), id)
  }

  lemma PacedAt(c: Config, r: Run, b: nat, n: nat, id: nat)
    requires IsFullRun(c, r) && b <= n < |r.acts| && PacedFrom(c, r, b, n, id)
    ensures PacedFrom(c, r, b, n + 1, id)
  {
    AlwaysInv(c, r, n);
    PacedStep(c, r.states[n], r.acts[n], r.states[b].clock, Reclaims(r.acts, b, n, id), id);
  }

  lemma {:induction false} PacedUpTo(c: Config, r: Run, b: nat, n: nat, id: nat)
    requires b <= n <= |r.acts| < |r.states|
    requires forall i :: b <= i < n ==> PacedFrom(c, r, b, i, id) ==> PacedFrom(c, r, b, i + 1, id)
    ensures PacedFrom(c, r, b, n, id)
  {
    if b < n {
      PacedUpTo(c, r, b, n - 1, id);
    }
  }

  lemma ReclaimsKeepPace(c: Config, r: Run, b: nat, n: nat, id: nat)
    requires IsFullRun(c, r) && b <= n <= |r.acts|
    ensures PacedFrom(c, r, b, n, id)
  {
    forall i | b <= i < n && PacedFrom(c, r, b, i, id)
      ensures PacedFrom(c, r, b, i + 1, id)
    {
      PacedAt(c, r, b, i, id);
    }
    PacedUpTo(c, r, b, n, id);
  }

  /** Leases that fit into the time from the b-th state to the n-th, and two for its ends. */
  function Leases(c: Config, r: Run, b: nat, n: nat): int
    requires b <= n < |r.states| && c.lease > 0
  {
    (r.states[n].clock - r.states[b].clock) / (c.lease * SECOND) + 2
  }

  lemma {:induction false} TimesMonotone(x: int, y: int, d: nat)
    requires x <= y
    ensures x * d <= y * d
    decreases y - x
  {
    if x < y {
      TimesMonotone(x, y - 1, d);
      assert (y - 1) * d == y * d - d;
    }
  }

  lemma DivisionBound(x: int, d: nat, y: nat)
    requires d > 0 && x * d <= y
    ensures x <= y / d
  {
    var q := y / d;
    assert y < (q + 1) * d;
    if q + 1 <= x {
      TimesMonotone(q + 1, x, d);
      assert false;
    }
  }

  lemma PaceFitsTime(c: Config, start: Instant, now: Instant, count: int)
    requires c.lease > 0 && start <= now && (count >= 2 ==> Pace(c, start, count) <= now)
    ensures count <= (now - start) / (c.lease * SECOND) + 2
  {
    if count >= 2 {
      PaceIs(c, start, count);
      DivisionBound(count - 2, c.lease * SECOND, now - start);
    }
  }

  /** An event is reclaimed no more often than leases fit into the time, however its claims, marks and crashes fall. */
  lemma ReclaimsFitTime(c: Config, r: Run, b: nat, n: nat, id: nat)
    requires IsFullRun(c, r) && b <= n <= |r.acts| && c.lease > 0
    ensures Reclaims(r.acts, b, n, id) <= Leases(c, r, b, n)
  {
    ReclaimsKeepPace(c, r, b, n, id);
    PaceFitsTime(c, r.states[b].clock, r.states[n].clock, Reclaims(r.acts, b, n, id));
  }

  // ----- All claims of others while an event waits -----

  /** Claims among the first n actions, reclaims included. */
  function AllClaims(acts: seq<Action>, n: nat): nat
    requires n <= |acts|
  {
    if n == 0 then 0 else AllClaims(acts, n - 1) + if IsClaim(acts[n - 1]) then 1 else 0
  }

  predicate ReclaimsOne(a: Action, ids: set<nat>) {
    IsClaim(a) && a.op.reclaim && a.op.id in ids
  }

  /** Reclaims of any of these events from the b-th action up to the n-th. */
  function ReclaimsOf(acts: seq<Action>, b: nat, n: nat, ids: set<nat>): nat
    requires b <= n <= |acts|
  {
    if n == b then 0 else ReclaimsOf(acts, b, n - 1, ids) + if ReclaimsOne(acts[n - 1], ids) then 1 else 0
  }

  lemma {:induction false} ReclaimsSplit(acts: seq<Action>, b: nat, n: nat, ids: set<nat>, id: nat)
    requires b <= n <= |acts| && id in ids
    ensures ReclaimsOf(acts, b, n, ids)
            == ReclaimsOf(acts, b, n, ids - {id}) + Reclaims(acts, b, n, id)
  {
    if b < n {
      ReclaimsSplit(acts, b, n - 1, ids, id);
    }
  }

  lemma {:induction false} NoIdsNoReclaims(acts: seq<Action>, b: nat, n: nat)
    requires b <= n <= |acts|
    ensures ReclaimsOf(acts, b, n, {}) == 0
  {
    if b < n {
      NoIdsNoReclaims(acts, b, n - 1);
    }
  }

  lemma {:induction false} ReclaimsOfBounded(acts: seq<Action>, b: nat, n: nat, ids: set<nat>, most: int)
    requires b <= n <= |acts| && forall id :: id in ids ==> Reclaims(acts, b, n, id) <= most
    ensures ReclaimsOf(acts, b, n, ids) <= |ids| * most
    decreases |ids|
  {
    if ids == {} {
      NoIdsNoReclaims(acts, b, n);
    } else {
      var id :| id in ids;
      var rest := ids - {id};
      ReclaimsOfBounded(acts, b, n, rest, most);
      ReclaimsSplit(acts, b, n, ids, id);
      assert |ids| == |rest| + 1;
      assert (|rest| + 1) * most == |rest| * most + most;
    }
  }

  /** Other events received no later than event id. */
  function Rivals(rows: seq<Event>, id: nat): set<nat>
    requires id < |rows|
  {
    set j | 0 <= j < |rows| && j != id && rows[j].receivedAt <= rows[id].receivedAt
  }

  /** A claim while event id waits uses up potential, or reclaims a rival. */
  ghost predicate Pays(c: Config, r: Run, n: nat, id: nat, rivals: set<nat>)
    requires n < |r.acts| < |r.states|
  {
    && id < |r.states[n].rows| && id < |r.states[n + 1].rows|
    && Potential(c, r.states[n + 1], id) + (if IsClaim(r.acts[n]) then 1 else 0)
       <= Potential(c, r.states[n], id) + (if ReclaimsOne(r.acts[n], rivals) then 1 else 0)
  }

  lemma ClaimPays(c: Config, r: Run, i: nat, n: nat, id: nat)
    requires IsFullRun(c, r) && WorkerPath(r) && c.maxAttempts >= 1 && i < n <= |r.acts| && Waiting(r.states[i], id)
    ensures id < |r.states[n].rows| && Pays(c, r, i, id, Rivals(r.states[n].rows, id))
  {
    var s, a := r.states[i], r.acts[i];
    AlwaysInv(c, r, i);
    QueueProgress.AttemptsBounded(c, r, i);
    assert Enabled(c, s, a);
    PotentialStep(c, s, a, id);
    QueueIngest.IngestIsImmutable(c, r, i, n, id);
    if IsClaim(a) {
      QueueIngest.IngestIsImmutable(c, r, i, n, a.op.id);
    }
  }

  lemma {:induction false} PayUpTo(c: Config, r: Run, b: nat, n: nat, id: nat, rivals: set<nat>)
    requires b <= n <= |r.acts| < |r.states| && id < |r.states[b].rows|
    requires forall i :: b <= i < n ==> Pays(c, r, i, id, rivals)
    ensures id < |r.states[n].rows|
    ensures AllClaims(r.acts, n) - AllClaims(r.acts, b) + Potential(c, r.states[n], id)
            <= Potential(c, r.states[b], id) + ReclaimsOf(r.acts, b, n, rivals)
  {
    if b < n {
      PayUpTo(c, r, b, n - 1, id, rivals);
      assert Pays(c, r, n - 1, id, rivals);
    }
  }

  /**
   No starvation: while an event waits, all claims of other events, lease reclaims included, number at most the
   potential at the beginning, the attempts of ties, and for each event received no later one reclaim for each lease
   that fits into the time waited, and two.
   */
  lemma AllOvertakingIsBounded(c: Config, r: Run, b: nat, n: nat, id: nat)
    requires WaitsFrom(c, r, b, n, id) && c.lease > 0
    ensures id < |r.states[b].rows| && id < |r.states[n].rows|
    ensures AllClaims(r.acts, n) - AllClaims(r.acts, b)
            <= Potential(c, r.states[b], id) + c.maxAttempts * Sum(Ties(r.states[n].rows, id))
               + |Rivals(r.states[n].rows, id)| * Leases(c, r, b, n)
  {
    assert Waiting(r.states[b], id) && Waiting(r.states[n], id);
    var rivals := Rivals(r.states[n].rows, id);
    forall i | b <= i < n
      ensures Pays(c, r, i, id, rivals)
    {
      assert Waiting(r.states[i], id);
      ClaimPays(c, r, i, n, id);
    }
    PayUpTo(c, r, b, n, id, rivals);
    forall j | j in rivals
      ensures Reclaims(r.acts, b, n, j) <= Leases(c, r, b, n)
    {
      ReclaimsFitTime(c, r, b, n, j);
    }
    ReclaimsOfBounded(r.acts, b, n, rivals, Leases(c, r, b, n));
    PotentialAtLeast(c, r, n, id);
  }

  lemma PotentialAtLeast(c: Config, r: Run, n: nat, id: nat)
    requires IsFullRun(c, r) && WorkerPath(r) && c.maxAttempts >= 1 && n <= |r.acts| && id < |r.states[n].rows|
    ensures Potential(c, r.states[n], id) >= -(c.maxAttempts * Sum(Ties(r.states[n].rows, id)))
  {
    QueueProgress.AttemptsBounded(c, r, n);
    TiesPayForThemselves(c.maxAttempts, r.states[n].rows, id);
    SumBounds(Flights(r.states[n], id), 0, 1);
  }

  // ----- A run with k reclaims of one event -----

  function Only(): CreateInput {
    CreateInput(0, "k", "t", NotAnObject)
  }

  /** One idle worker, and one event it has just claimed and dropped, with no attempt counted. */
  predicate Dropped(s: State) {
    s.workers == [Idle] && s.rows == [Claimed(NewEvent(Only(), 0), s.clock)]
  }

  lemma {:induction false} TallyPrefix(acts: seq<Action>, more: seq<Action>, n: nat, kind: Kind, id: nat)
    requires n <= |acts|
    ensures Tally(acts + more, n, kind, id) == Tally(acts, n, kind, id)
  {
    if n > 0 {
      TallyPrefix(acts, more, n - 1, kind, id);
    }
  }

  lemma ExtendTallied(r: Run, a: Action) returns (longer: Run)
    requires IsFullRun(FIVE, r) && WorkerPath(r) && Enabled(FIVE, r.states[|r.acts|], a)
    requires !(a.By? && a.op.ClaimById?)
    ensures IsFullRun(FIVE, longer) && WorkerPath(longer)
    ensures longer.states[|longer.acts|] == Apply(FIVE, r.states[|r.acts|], a)
    ensures Tally(longer.acts, |longer.acts|, Reclaim, 0)
            == Tally(r.acts, |r.acts|, Reclaim, 0) + if Is(a, Reclaim, 0) then 1 else 0
  {
    longer := Extend(FIVE, r, a);
    TallyPrefix(r.acts, [a], |r.acts|, Reclaim, 0);
  }

  /** The only worker claims the only event and gives up. */
  lemma ClaimAndDrop(r: Run) returns (longer: Run)
    requires IsFullRun(FIVE, r) && WorkerPath(r)
    requires var s := r.states[|r.acts|];
             && s.workers == [Idle] && |s.rows| == 1 && s.rows[0].input == Only()
             && Claimed(s.rows[0], s.clock) == Claimed(NewEvent(Only(), 0), s.clock)
             && Eligible(s.rows[0], 5, CLAIM_LEASE, s.clock)
    ensures IsFullRun(FIVE, longer) && WorkerPath(longer) && Dropped(longer.states[|longer.acts|])
    ensures Tally(longer.acts, |longer.acts|, Reclaim, 0)
            == Tally(r.acts, |r.acts|, Reclaim, 0) + if r.states[|r.acts|].rows[0].status.Processing? then 1 else 0
  {
    var s := r.states[|r.acts|];
    longer := ExtendTallied(r, By(0, Lock(0)));
    longer := ExtendTallied(longer, By(0, Commit(0, s.rows[0].status.Processing?)));
    longer := ExtendTallied(longer, By(0, GiveUp));
  }

  lemma {:induction false} ReclaimTimes(k: nat) returns (r: Run)
    ensures IsFullRun(FIVE, r) && WorkerPath(r) && Dropped(r.states[|r.acts|])
    ensures Tally(r.acts, |r.acts|, Reclaim, 0) == k
  {
    if k == 0 {
      r := Run([State(0, [], map[], 0, [Idle], [], 0, 0)], []);
      r := ExtendTallied(r, Insert(Only()));
      r := ClaimAndDrop(r);
    } else {
      r := ReclaimTimes(k - 1);
      r := ExtendTallied(r, Tick(CLAIM_LEASE * SECOND));
      r := ClaimAndDrop(r);
    }
  }

  /**
   Reclaims are not limited in number: for every k there is a run in which one event is reclaimed k times, by a worker
   that stops short of its mark each time, without an attempt being counted.
   */
  lemma ReclaimsAreUnbounded(k: nat)
    ensures exists r ::
              && IsFullRun(FIVE, r) && WorkerPath(r) && |r.states[|r.acts|].rows| == 1
              && Tally(r.acts, |r.acts|, Reclaim, 0) == k && r.states[|r.acts|].rows[0].attempts == 0
  {
    var r := ReclaimTimes(k);
  }
}
