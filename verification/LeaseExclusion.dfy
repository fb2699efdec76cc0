/** Who may hold an event: row locks while a claim is in flight, the lease afterwards. */
module LeaseExclusion {
  import opened Wrappers
  import opened Payloads
  import opened EventTable
  import opened RuleTable
  import opened QueueProtocol
  import opened QueueInvariants

  /**
   SKIP LOCKED in every run: claims in flight lock different rows; a claim takes a row such that every eligible row
   received earlier is locked by another claim; and when it commits the row is as eligible as when it was locked.
   */
  lemma SkipLockedClaims(c: Config, r: Run, n: nat)
    requires IsFullRun(c, r) && n < |r.acts|
    ensures DistinctLocks(r.states[n])
    ensures r.acts[n].By? && r.acts[n].op.Lock? ==>
              var s, w, id := r.states[n], r.acts[n].w, r.acts[n].op.id;
              forall j :: 0 <= j < |s.rows| && s.rows[j].receivedAt < s.rows[id].receivedAt
                          && Eligible(s.rows[j], c.maxAttempts, c.lease, s.clock) ==>
                            exists v :: 0 <= v < |s.workers| && v != w && s.workers[v].Claiming? && s.workers[v].id == j
    ensures r.acts[n].By? && r.acts[n].op.Commit? ==>
              var s := r.states[n];
              Eligible(s.rows[r.acts[n].op.id], c.maxAttempts, c.lease, s.workers[r.acts[n].w].at)
  {
    AlwaysInv(c, r, n);
    assert Enabled(c, r.states[n], r.acts[n]);
  }

  // ----- The lease -----

  predicate WithinLease(c: Config, s: State, w: nat) {
    w < |s.workers| && Holds(s.workers[w]) && s.clock < s.workers[w].since + c.lease * SECOND
  }

  /** A worker within its lease is the latest claimer of a processing row. */
  predicate LatestClaimer(s: State, w: nat) {
    && w < |s.workers| && Holds(s.workers[w]) && s.workers[w].id < |s.rows|
    && s.rows[s.workers[w].id].status.Processing?
    && s.rows[s.workers[w].id].claimedAt == Some(s.workers[w].since)
  }

  /** Two workers hold the same event only if one of the claims is at least a lease old. */
  ghost predicate Exclusive(c: Config, s: State) {
    forall v, w ::
      0 <= v < |s.workers| && 0 <= w < |s.workers| && v != w && WithinLease(c, s, v) && WithinLease(c, s, w)
      ==> s.workers[v].id != s.workers[w].id
  }

  ghost predicate Disciplined(c: Config, s: State) {
    Exclusive(c, s) && forall w :: 0 <= w < |s.workers| && WithinLease(c, s, w) ==> LatestClaimer(s, w)
  }

  /** The step marks an event while another worker is still within its lease on it. */
  ghost predicate Steals(c: Config, s: State, a: Action) {
    && a.By? && (a.op.MarkProcessed? || a.op.MarkFailed?)
    && exists v :: 0 <= v < |s.workers| && v != a.w && WithinLease(c, s, v) && s.workers[v].id == a.op.id
  }

  /** Nobody within its lease holds a row that a claim is about to take. */
  lemma ClaimFindsNoHolder(c: Config, s: State, a: Action, v: nat)
    requires Inv(c, s) && Disciplined(c, s) && Enabled(c, s, a)
    requires a.By? && (a.op.Commit? || a.op.ClaimById?)
    requires v < |s.workers| && WithinLease(c, s, v)
    ensures s.workers[v].id != a.op.id
  {
    assert LatestClaimer(s, v);
    if a.op.Commit? {
      assert PcFits(c, s.rows, s.workers[a.w]);
      assert s.workers[a.w].at <= s.clock;
    }
  }

  lemma HolderStep(c: Config, s: State, a: Action, w: nat)
    requires Inv(c, s) && Disciplined(c, s) && Enabled(c, s, a) && !Steals(c, s, a)
    requires WithinLease(c, Apply(c, s, a), w)
    ensures LatestClaimer(Apply(c, s, a), w)
    ensures var t := Apply(c, s, a);
            (WithinLease(c, s, w) && s.workers[w].id == t.workers[w].id)
            || (a.By? && a.w == w && (a.op.Commit? || a.op.ClaimById?) && t.workers[w].id == a.op.id)
  {
    StepRows(c, s, a);
    StepWorkers(c, s, a);
    if a.By? && (a.op.Commit? || a.op.ClaimById?) {
      if a.w != w {
        ClaimFindsNoHolder(c, s, a, w);
      }
    } else {
      assert WithinLease(c, s, w) && LatestClaimer(s, w);
    }
  }

  lemma DisciplineStep(c: Config, s: State, a: Action)
    requires Inv(c, s) && Disciplined(c, s) && Enabled(c, s, a)
    ensures Disciplined(c, Apply(c, s, a)) <==> !Steals(c, s, a)
  {
    var t := Apply(c, s, a);
    if Steals(c, s, a) {
      var v :| 0 <= v < |s.workers| && v != a.w && WithinLease(c, s, v) && s.workers[v].id == a.op.id;
      StolenFrom(c, s, a, v);
    } else {
      forall w | 0 <= w < |t.workers| && WithinLease(c, t, w)
        ensures LatestClaimer(t, w)
      {
        HolderStep(c, s, a, w);
      }
      forall v, w |
        0 <= v < |t.workers| && 0 <= w < |t.workers| && v != w && WithinLease(c, t, v) && WithinLease(c, t, w)
        ensures t.workers[v].id != t.workers[w].id
      {
        PairStep(c, s, a, v, w);
      }
    }
  }

  lemma StolenFrom(c: Config, s: State, a: Action, v: nat)
    requires Enabled(c, s, a) && a.By? && (a.op.MarkProcessed? || a.op.MarkFailed?)
    requires v < |s.workers| && v != a.w && WithinLease(c, s, v) && s.workers[v].id == a.op.id
    ensures WithinLease(c, Apply(c, s, a), v) && !LatestClaimer(Apply(c, s, a), v)
  {
    StepRows(c, s, a);
    StepWorkers(c, s, a);
  }

  lemma PairStep(c: Config, s: State, a: Action, v: nat, w: nat)
    requires Inv(c, s) && Disciplined(c, s) && Enabled(c, s, a) && !Steals(c, s, a) && v != w
    requires WithinLease(c, Apply(c, s, a), v) && WithinLease(c, Apply(c, s, a), w)
    ensures Apply(c, s, a).workers[v].id != Apply(c, s, a).workers[w].id
  {
    HolderStep(c, s, a, v);
    HolderStep(c, s, a, w);
    if a.By? && (a.op.Commit? || a.op.ClaimById?) {
      if a.w != v {
        ClaimFindsNoHolder(c, s, a, v);
      }
      if a.w != w {
        ClaimFindsNoHolder(c, s, a, w);
      }
    }
  }

  lemma {:induction false} DisciplineUpTo(c: Config, r: Run, n: nat)
    requires IsFullRun(c, r) && n <= |r.acts|
    requires forall i {:trigger r.acts[i]} :: 0 <= i < n ==> !Steals(c, r.states[i], r.acts[i])
    ensures Disciplined(c, r.states[n])
  {
    if n > 0 {
      DisciplineUpTo(c, r, n - 1);
      AlwaysInv(c, r, n - 1);
      DisciplineStep(c, r.states[n - 1], r.acts[n - 1]);
    }
  }

  ghost predicate AlwaysDisciplined(c: Config, r: Run)
    requires |r.states| == |r.acts| + 1
  {
    forall n :: 0 <= n <= |r.acts| ==> Disciplined(c, r.states[n])
  }

  ghost predicate NeverSteals(c: Config, r: Run)
    requires |r.states| == |r.acts| + 1
  {
    forall n {:trigger r.acts[n]} :: 0 <= n < |r.acts| ==> !Steals(c, r.states[n], r.acts[n])
  }

  /**
   All through a run every worker within its lease is the latest claimer of its event and the only such worker on
   it, if and only if no step marks an event on which another worker is within its lease.  (Exclusion alone asks for
   less: see LeaseSafety.)
   */
  lemma {:induction false} LatestClaimerExact(c: Config, r: Run)
    requires IsFullRun(c, r)
    ensures AlwaysDisciplined(c, r) <==> NeverSteals(c, r)
  {
    if NeverSteals(c, r) {
      forall n | 0 <= n <= |r.acts|
        ensures Disciplined(c, r.states[n])
      {
        DisciplineUpTo(c, r, n);
      }
    } else {
      var n :| 0 <= n < |r.acts| && Steals(c, r.states[n], r.acts[n]);
      AlwaysInv(c, r, n);
      if Disciplined(c, r.states[n]) {
        DisciplineStep(c, r.states[n], r.acts[n]);
        assert !Disciplined(c, r.states[n + 1]);
      }
    }
  }

  predicate IsMark(op: Op) {
    op.MarkProcessed? || op.MarkFailed? || op.MarkMiss? || op.MarkRefused?
  }

  /** Every worker that marks does so strictly within its lease. */
  predicate Prompt(c: Config, r: Run, n: nat)
    requires |r.states| == |r.acts| + 1 && n <= |r.acts|
  {
    forall i {:trigger r.acts[i]} :: 0 <= i < n ==>
      r.acts[i].By? && IsMark(r.acts[i].op) ==> WithinLease(c, r.states[i], r.acts[i].w)
  }

  lemma {:induction false} PromptIsDisciplined(c: Config, r: Run, n: nat)
    requires IsFullRun(c, r) && n <= |r.acts| && Prompt(c, r, n)
    ensures Disciplined(c, r.states[n])
  {
    if n > 0 {
      PromptIsDisciplined(c, r, n - 1);
      AlwaysInv(c, r, n - 1);
      DisciplineStep(c, r.states[n - 1], r.acts[n - 1]);
    }
  }

  /**
   If every worker marks strictly within its lease, then no mark ever finds its row taken away (ErrNotFound), and
   each mark comes from the row's latest claimer.
   */
  lemma {:induction false} PromptMarksSucceed(c: Config, r: Run, n: nat)
    requires IsFullRun(c, r) && n < |r.acts| && Prompt(c, r, |r.acts|)
    requires r.acts[n].By? && IsMark(r.acts[n].op)
    ensures !r.acts[n].op.MarkMiss? && LatestClaimer(r.states[n], r.acts[n].w)
    ensures Exclusive(c, r.states[n])
  {
    PromptIsDisciplined(c, r, n);
    assert Enabled(c, r.states[n], r.acts[n]);
  }

  // ----- What one stale mark does -----

  /** The only event, in the hands of worker 0 since 0 s and of worker 1 since 45 s. */
  function Contested(): State {
    var e := NewEvent(CreateInput(0, "k", "t", NotAnObject), 0);
    State(45 * SECOND, [Claimed(e, 45 * SECOND)], map[], 0, [Holding(0, 0), Holding(0, 45 * SECOND), Idle],
          [Call(e.input, Answered(0, true))], 0, 0)
  }

  lemma ReachContested() returns (r: Run)
    ensures var c := Config(5, CLAIM_LEASE);
            IsFullRun(c, r) && WorkerPath(r) && r.states[|r.acts|] == Contested()
  {
    var c := Config(5, CLAIM_LEASE);
    r := Run([State(0, [], map[], 0, [Idle, Idle, Idle], [], 0, 0)], []);
    r := Extend(c, r, Insert(CreateInput(0, "k", "t", NotAnObject)));
    r := ClaimOnce(c, r, 0, false);
    r := Extend(c, r, Tick(45 * SECOND));
    r := ClaimOnce(c, r, 1, true);
  }

  /**
   A mark from a worker that overstayed its lease breaks exclusion for others: worker 0 stalls, worker 1 reclaims
   the event after 45 seconds, worker 0 then records a failure, and two seconds later worker 2 claims the event
   while worker 1 is two seconds into its lease.
   */
  lemma StaleMarkBreaksExclusion()
    ensures exists r :: IsFullRun(Config(5, CLAIM_LEASE), r) && WorkerPath(r)
                        && !Exclusive(Config(5, CLAIM_LEASE), r.states[|r.acts|])
  {
    var c := Config(5, CLAIM_LEASE);
    var r := ReachContested();
    r := Extend(c, r, By(0, RejectPayload("payload must be a json object")));
    r := Extend(c, r, By(0, MarkFailed(0)));
    r := Extend(c, r, Tick(2 * SECOND));
    r := ClaimOnce(c, r, 2, false);
    var s := r.states[|r.acts|];
    assert WithinLease(c, s, 1) && WithinLease(c, s, 2) && s.workers[1].id == s.workers[2].id;
  }

  /** An idle worker claims the only row. */
  lemma ClaimOnce(c: Config, r: Run, w: nat, reclaim: bool) returns (longer: Run)
    requires IsFullRun(c, r) && WorkerPath(r)
    requires var s := r.states[|r.acts|];
             && w < |s.workers| && s.workers[w].Idle? && Locked(s.workers) == {}
             && |s.rows| == 1 && Eligible(s.rows[0], c.maxAttempts, c.lease, s.clock)
             && reclaim == s.rows[0].status.Processing?
    ensures IsFullRun(c, longer) && WorkerPath(longer)
    ensures var s, t := r.states[|r.acts|], longer.states[|longer.acts|];
            t == s.(workers := s.workers[w := Holding(0, s.clock)], rows := [Claimed(s.rows[0], s.clock)])
  {
    longer := Extend(c, r, By(w, Lock(0)));
    longer := Extend(c, longer, By(w, Commit(0, reclaim)));
  }
}
