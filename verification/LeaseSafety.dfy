/** Exactly which marks can break the exclusion that the lease is for. */
module LeaseSafety {
  import opened Wrappers
  import opened EventTable
  import opened QueueProtocol
  import opened QueueInvariants
  import opened LeaseExclusion

  /**
   The mark hands the event on while another worker v is within its lease on it: it records a failure, an attempt is
   left, and the backoff ends before v's lease does.
   */
  predicate Endangers(c: Config, s: State, a: Action) {
    && a.By? && a.op.MarkFailed? && a.op.id < |s.rows|
    && exists v :: 0 <= v < |s.workers| && v != a.w && Robbed(c, s, v, a.op.id)
  }

  /** A failure recorded now lets event id be claimed again before the lease of v on it ends. */
  predicate Robbed(c: Config, s: State, v: nat, id: nat) {
    && WithinLease(c, s, v) && s.workers[v].id == id && id < |s.rows|
    && s.rows[id].attempts + 1 < c.maxAttempts
    && s.clock + BackoffSeconds(s.rows[id].attempts + 1) * SECOND < s.workers[v].since + c.lease * SECOND
  }

  /** No mark among the actions from the m-th to the n-th endangers anyone. */
  ghost predicate Harmless(c: Config, r: Run, m: nat, n: nat)
    requires n <= |r.acts| < |r.states|
  {
    forall i {:trigger r.acts[i]} :: m <= i < n ==> !Endangers(c, r.states[i], r.acts[i])
  }

  // ----- Without such a mark -----

  /** No claim takes the row within a lease from since. */
  predicate OutOfReach(c: Config, e: Event, since: Instant) {
    || e.status.Processed?
    || (e.status.Processing? && e.claimedAt.Some? && e.claimedAt.value >= since)
    || (e.status.Failed? && e.attempts >= c.maxAttempts)
    || (e.status.Failed? && e.processedAt.Some?
        && e.processedAt.value + BackoffSeconds(e.attempts) * SECOND >= since + c.lease * SECOND)
  }

  predicate Protected(c: Config, s: State, v: nat) {
    WithinLease(c, s, v) ==>
      s.workers[v].id < |s.rows| && OutOfReach(c, s.rows[s.workers[v].id], s.workers[v].since)
  }

  ghost predicate Safe(c: Config, s: State) {
    Exclusive(c, s) && forall v :: 0 <= v < |s.workers| ==> Protected(c, s, v)
  }

  lemma ClaimSparesHolders(c: Config, s: State, a: Action, v: nat)
    requires Inv(c, s) && Safe(c, s) && Enabled(c, s, a) && a.By? && a.op.Commit?
    requires v < |s.workers| && WithinLease(c, s, v)
    ensures s.workers[v].id != a.op.id
  {
    assert Protected(c, s, v) && PcFits(c, s.rows, s.workers[a.w]);
  }

  /** Other workers leave the row of a worker within its lease out of reach. */
  lemma StaysOutOfReach(c: Config, s: State, a: Action, v: nat)
    requires Inv(c, s) && Safe(c, s) && Enabled(c, s, a) && !(a.By? && a.op.ClaimById?) && !Endangers(c, s, a)
    requires v < |s.workers| && WithinLease(c, s, v) && !(a.By? && a.w == v)
    ensures s.workers[v].id < |s.rows| && OutOfReach(c, RowAfter(s, a, s.workers[v].id), s.workers[v].since)
  {
    assert Protected(c, s, v);
    if a.By? && a.op.Commit? {
      ClaimSparesHolders(c, s, a, v);
    }
    if a.By? && a.op.MarkFailed? {
      assert !Robbed(c, s, v, a.op.id);
    }
  }

  lemma ProtectedStep(c: Config, s: State, a: Action, v: nat)
    requires Inv(c, s) && Safe(c, s) && Enabled(c, s, a) && !(a.By? && a.op.ClaimById?) && !Endangers(c, s, a)
    requires v < |s.workers|
    ensures Protected(c, Apply(c, s, a), v)
  {
    StepRows(c, s, a);
    StepWorkers(c, s, a);
    assert Protected(c, s, v);
    if WithinLease(c, s, v) && !(a.By? && a.w == v) {
      StaysOutOfReach(c, s, a, v);
    }
  }

  lemma ExclusiveStep(c: Config, s: State, a: Action, v: nat, w: nat)
    requires Inv(c, s) && Safe(c, s) && Enabled(c, s, a) && !(a.By? && a.op.ClaimById?) && v != w
    requires WithinLease(c, Apply(c, s, a), v) && WithinLease(c, Apply(c, s, a), w) && !(a.By? && a.w == w)
    ensures Apply(c, s, a).workers[v].id != Apply(c, s, a).workers[w].id
  {
    StepWorkers(c, s, a);
    assert WithinLease(c, s, w);
    if a.By? && a.w == v && a.op.Commit? {
      ClaimSparesHolders(c, s, a, w);
    } else {
      assert WithinLease(c, s, v) && s.workers[v].id == Apply(c, s, a).workers[v].id;
    }
  }

  lemma SafeStep(c: Config, s: State, a: Action)
    requires Inv(c, s) && Safe(c, s) && Enabled(c, s, a) && !(a.By? && a.op.ClaimById?) && !Endangers(c, s, a)
    ensures Safe(c, Apply(c, s, a))
  {
    var t := Apply(c, s, a);
    StepWorkers(c, s, a);
    forall v | 0 <= v < |t.workers|
      ensures Protected(c, t, v)
    {
      ProtectedStep(c, s, a, v);
    }
    forall v, w |
      0 <= v < |t.workers| && 0 <= w < |t.workers| && v != w && WithinLease(c, t, v) && WithinLease(c, t, w)
      ensures t.workers[v].id != t.workers[w].id
    {
      if a.By? && a.w == w {
        ExclusiveStep(c, s, a, w, v);
      } else {
        ExclusiveStep(c, s, a, v, w);
      }
    }
  }

  lemma {:induction false} HarmlessIsSafe(c: Config, r: Run, n: nat)
    requires IsFullRun(c, r) && WorkerPath(r) && n <= |r.acts| && Harmless(c, r, 0, n)
    ensures Safe(c, r.states[n])
  {
    if n > 0 {
      HarmlessIsSafe(c, r, n - 1);
      AlwaysInv(c, r, n - 1);
      assert !Endangers(c, r.states[n - 1], r.acts[n - 1]);
      SafeStep(c, r.states[n - 1], r.acts[n - 1]);
    }
  }

  /** In a run of ClaimNext workers without an endangering mark, no two workers within their leases share an event. */
  lemma HarmlessMarksKeepExclusion(c: Config, r: Run)
    requires IsFullRun(c, r) && WorkerPath(r) && Harmless(c, r, 0, |r.acts|)
    ensures forall n :: 0 <= n <= |r.acts| ==> Exclusive(c, r.states[n])
  {
    forall n | 0 <= n <= |r.acts|
      ensures Exclusive(c, r.states[n])
    {
      HarmlessIsSafe(c, r, n);
    }
  }

  // ----- With such a mark -----

  /** longer goes on from r by steps of ClaimNext workers, none of them a mark. */
  ghost predicate Continues(c: Config, r: Run, longer: Run) {
    && IsRun(c, longer) && |r.states| == |r.acts| + 1 && |r.acts| <= |longer.acts|
    && longer.acts[..|r.acts|] == r.acts && longer.states[..|r.states|] == r.states
    && forall i :: |r.acts| <= i < |longer.acts| ==> IsQuiet(longer.acts[i])
  }

  predicate IsQuiet(a: Action) {
    !(a.By? && (IsMark(a.op) || a.op.ClaimById?))
  }

  function Last(r: Run): State
    requires |r.states| == |r.acts| + 1
  {
    r.states[|r.acts|]
  }

  lemma Continue(c: Config, base: Run, r: Run, a: Action) returns (longer: Run)
    requires Continues(c, base, r) && Enabled(c, Last(r), a) && IsQuiet(a)
    ensures Continues(c, base, longer) && Last(longer) == Apply(c, Last(r), a)
  {
    longer := Extend(c, r, a);
    assert longer.acts[..|base.acts|] == base.acts && longer.states[..|base.states|] == base.states;
  }

  /** Rows a claim could take now. */
  function Takable(c: Config, s: State): set<nat> {
    set j | 0 <= j < |s.rows| && j !in Locked(s.workers) && Eligible(s.rows[j], c.maxAttempts, c.lease, s.clock)
  }

  lemma {:induction false} OldestOf(rows: seq<Event>, ids: set<nat>) returns (oldest: nat)
    requires ids != {} && forall j :: j in ids ==> j < |rows|
    ensures oldest in ids && forall j :: j in ids ==> rows[oldest].receivedAt <= rows[j].receivedAt
    decreases |ids|
  {
    var k :| k in ids;
    if ids == {k} {
      return k;
    }
    assert |ids - {k}| < |ids| && ids - {k} != {};
    oldest := OldestOf(rows, ids - {k});
    if rows[k].receivedAt < rows[oldest].receivedAt {
      oldest := k;
    }
  }

  /** Worker w claims the oldest takable row. */
  lemma TakeOldest(c: Config, base: Run, r: Run, w: nat, id: nat) returns (longer: Run)
    requires Continues(c, base, r)
    requires var s := Last(r);
             && w < |s.workers| && s.workers[w].Idle?
             && ClaimChoice(s.rows, Locked(s.workers), c.maxAttempts, c.lease, s.clock, id)
    ensures Continues(c, base, longer)
    ensures var s := Last(r);
            Last(longer)
            == s.(rows := s.rows[id := Claimed(s.rows[id], s.clock)], workers := s.workers[w := Holding(id, s.clock)])
  {
    var s := Last(r);
    longer := Continue(c, base, r, By(w, Lock(id)));
    assert Last(longer).rows == s.rows;
    longer := Continue(c, base, longer, By(w, Commit(id, s.rows[id].status.Processing?)));
    assert Last(longer).rows == s.rows[id := Claimed(s.rows[id], s.clock)];
    assert Last(longer).workers == s.workers[w := Holding(id, s.clock)];
  }

  /** Worker w claims the oldest takable row and returns without marking it. */
  lemma TakeAndDrop(c: Config, base: Run, r: Run, w: nat, id: nat) returns (longer: Run)
    requires Continues(c, base, r)
    requires var s := Last(r);
             && w < |s.workers| && s.workers[w].Idle?
             && ClaimChoice(s.rows, Locked(s.workers), c.maxAttempts, c.lease, s.clock, id)
    ensures Continues(c, base, longer)
    ensures var s := Last(r);
            Last(longer) == s.(rows := s.rows[id := Claimed(s.rows[id], s.clock)])
  {
    var s := Last(r);
    longer := TakeOldest(c, base, r, w, id);
    var t := Last(longer);
    longer := Continue(c, base, longer, By(w, GiveUp));
    assert Last(longer).rows == t.rows;
    assert Last(longer).workers == s.workers;
  }

  /** Worker w is free to claim event id while v is within its lease on it. */
  predicate UpForGrabs(c: Config, s: State, w: nat, v: nat, id: nat) {
    && w < |s.workers| && s.workers[w].Idle? && id in Takable(c, s)
    && WithinLease(c, s, v) && s.workers[v].id == id && s.workers[v].since <= s.clock
  }

  /** Dropping older rows one by one, worker w comes to event id and claims it under v's nose. */
  lemma {:induction false} ClaimUnderLease(c: Config, base: Run, r: Run, w: nat, v: nat, id: nat) returns (longer: Run)
    requires Continues(c, base, r) && UpForGrabs(c, Last(r), w, v, id)
    ensures Continues(c, base, longer) && !Exclusive(c, Last(longer))
    decreases |Takable(c, Last(r))|
  {
    var s := Last(r);
    var oldest := OldestOf(s.rows, Takable(c, s));
    if oldest == id {
      longer := TakeOldest(c, base, r, w, id);
      assert WithinLease(c, Last(longer), v) && WithinLease(c, Last(longer), w);
    } else {
      longer := TakeAndDrop(c, base, r, w, oldest);
      var t := Last(longer);
      assert Takable(c, t) == Takable(c, s) - {oldest};
      longer := ClaimUnderLease(c, base, longer, w, v, id);
    }
  }

  /** After the mark and the backoff, the event is up for grabs. */
  lemma MarkThenBackoff(c: Config, r: Run, a: Action, v: nat) returns (base: Run, longer: Run)
    requires IsRun(c, r) && Enabled(c, Last(r), a) && a.By? && a.op.MarkFailed?
    requires v < |Last(r).workers| && v != a.w && Robbed(c, Last(r), v, a.op.id)
    requires Last(r).workers[v].since <= Last(r).clock
    ensures base == Run(r.states + [Apply(c, Last(r), a)], r.acts + [a])
    ensures Continues(c, base, longer) && UpForGrabs(c, Last(longer), a.w, v, a.op.id)
  {
    var s, id := Last(r), a.op.id;
    base := Extend(c, r, a);
    assert base.states == r.states + [Apply(c, s, a)];
    longer := Continue(c, base, base, Tick(BackoffSeconds(s.rows[id].attempts + 1) * SECOND));
    var t := Last(longer);
    assert t.rows[id] == AttemptFailed(s.rows[id], s.workers[a.w].reason, s.clock);
    assert t.workers == s.workers[a.w := Idle];
  }

  /** longer is a run of ClaimNext workers that does what r does, then a, and then endangers nobody. */
  ghost predicate GoesOn(c: Config, r: Run, a: Action, longer: Run) {
    && IsFullRun(c, longer) && WorkerPath(longer)
    && |r.states| == |r.acts| + 1 <= |longer.acts| && longer.acts[|r.acts|] == a
    && longer.acts[..|r.acts|] == r.acts && longer.states[..|r.states|] == r.states
    && Harmless(c, longer, |r.acts| + 1, |longer.acts|)
  }

  lemma ContinuationGoesOn(c: Config, r: Run, a: Action, base: Run, longer: Run)
    requires IsFullRun(c, r) && WorkerPath(r) && !(a.By? && a.op.ClaimById?)
    requires |r.states| <= |base.states| && base.acts == r.acts + [a]
    requires base.states[..|r.states|] == r.states && Continues(c, base, longer)
    ensures GoesOn(c, r, a, longer)
  {
    assert longer.acts[..|r.acts|] == base.acts[..|r.acts|] && longer.states[..|r.states|] == base.states[..|r.states|];
    assert longer.acts[|r.acts|] == base.acts[|r.acts|] == a;
    assert longer.states[0] == r.states[0];
    forall i | 0 <= i < |longer.acts|
      ensures !(longer.acts[i].By? && longer.acts[i].op.ClaimById?)
    {
      if i < |r.acts| {
        assert longer.acts[i] == r.acts[i];
      } else if i > |r.acts| {
        assert IsQuiet(longer.acts[i]);
      }
    }
  }

  /** An endangering mark, in any reachable state, lets two workers end up within their leases on one event. */
  lemma EndangeringMarkBreaksExclusion(c: Config, r: Run, a: Action) returns (longer: Run)
    requires IsFullRun(c, r) && WorkerPath(r) && Enabled(c, Last(r), a) && Endangers(c, Last(r), a)
    ensures GoesOn(c, r, a, longer) && !Exclusive(c, Last(longer))
  {
    var s := Last(r);
    var v :| 0 <= v < |s.workers| && v != a.w && Robbed(c, s, v, a.op.id);
    AlwaysInv(c, r, |r.acts|);
    var base, waited := MarkThenBackoff(c, r, a, v);
    longer := ClaimUnderLease(c, base, waited, a.w, v, a.op.id);
    ContinuationGoesOn(c, r, a, base, longer);
  }

  /**
   Lease exclusion, exactly: as long as no mark has endangered anyone, the next step is an endangering mark if and
   only if some run that takes it, and endangers nobody afterwards, ends with two workers within their leases on the
   same event.
   */
  lemma LeaseExclusionExact(c: Config, r: Run, a: Action)
    requires IsFullRun(c, r) && WorkerPath(r) && Harmless(c, r, 0, |r.acts|)
    requires Enabled(c, Last(r), a) && !(a.By? && a.op.ClaimById?)
    ensures Endangers(c, Last(r), a) <==> exists longer :: GoesOn(c, r, a, longer) && !Exclusive(c, Last(longer))
  {
    if Endangers(c, Last(r), a) {
      var longer := EndangeringMarkBreaksExclusion(c, r, a);
    } else {
      forall longer | GoesOn(c, r, a, longer)
        ensures Exclusive(c, Last(longer))
      {
        forall i | 0 <= i < |longer.acts|
          ensures !Endangers(c, longer.states[i], longer.acts[i])
        {
          if i <= |r.acts| {
            assert longer.states[i] == longer.states[..|r.states|][i] == r.states[i];
          }
          if i < |r.acts| {
            assert longer.acts[i] == longer.acts[..|r.acts|][i] == r.acts[i];
          }
        }
        HarmlessIsSafe(c, longer, |longer.acts|);
      }
    }
  }
}
