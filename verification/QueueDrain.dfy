/** Workers that loop until they find nothing to claim leave nothing behind. */
module QueueDrain {
  import opened Wrappers
  import opened Payloads
  import opened EventTable
  import opened QueueProtocol
  import opened QueueInvariants
  import opened EventHistory

  /** Only pending events with valid payloads, and no worker busy. */
  ghost predicate DrainStart(s: State) {
    && (forall i :: 0 <= i < |s.rows| ==>
          s.rows[i].status.Pending? && PayloadAmount(s.rows[i].input.payload).Success?)
    && (forall w :: 0 <= w < |s.workers| ==> s.workers[w].Idle?)
  }

  /** No arrivals and no errors: no crash, lost statement, failed read or rejected reference, and no new polling. */
  predicate Undisturbed(a: Action) {
    match a
    case Insert(_) => false
    case By(_, op) =>
      && !op.Abort? && !op.Poll? && !op.ClaimById? && !op.ReadError? && !op.MarkRefused?
      && !op.GiveUp? && !op.LoseCount? && !op.Crash?
    case _ => true
  }

  predicate Draining(pc: Pc) {
    !pc.Failing? && !pc.Crashed?
  }

  ghost predicate HeldBySomeone(s: State, id: nat) {
    exists w :: 0 <= w < |s.workers| && Holds(s.workers[w]) && s.workers[w].id == id
  }

  ghost predicate RowDrains(s: State, id: nat)
    requires id < |s.rows|
  {
    var e := s.rows[id];
    && PayloadAmount(e.input.payload).Success?
    && !e.status.Failed?
    && (e.status.Processing? ==> HeldBySomeone(s, id))
  }

  ghost predicate SomeoneReturned(s: State) {
    exists w :: 0 <= w < |s.workers| && s.workers[w].Returned?
  }

  /** Once a worker has returned, whatever is still pending has been picked by a claim in flight. */
  ghost predicate DrainInv(s: State) {
    && (forall w :: 0 <= w < |s.workers| ==> Draining(s.workers[w]))
    && (forall id :: 0 <= id < |s.rows| ==> RowDrains(s, id))
    && (SomeoneReturned(s) ==>
          forall id :: 0 <= id < |s.rows| && s.rows[id].status.Pending? ==> id in Locked(s.workers))
  }

  lemma RowDrainStep(c: Config, s: State, a: Action, id: nat)
    requires Inv(c, s) && DrainInv(s) && Enabled(c, s, a) && Undisturbed(a) && id < |s.rows|
    ensures RowDrains(Apply(c, s, a), id)
  {
    var t := Apply(c, s, a);
    StepRows(c, s, a);
    StepWorkers(c, s, a);
    RowStep(c, s, a, id);
    assert RowDrains(s, id);
    if t.rows[id].status.Processing? {
      if s.rows[id].status.Processing? && !(a.By? && a.op.Commit? && a.op.id == id) {
        var w :| 0 <= w < |s.workers| && Holds(s.workers[w]) && s.workers[w].id == id;
        assert Holds(t.workers[w]) && t.workers[w].id == id;
      } else {
        assert Holds(t.workers[a.w]) && t.workers[a.w].id == id;
      }
    }
  }

  lemma PendingDrainStep(c: Config, s: State, a: Action, id: nat)
    requires Inv(c, s) && DrainInv(s) && Enabled(c, s, a) && Undisturbed(a)
    requires id < |s.rows| && Apply(c, s, a).rows[id].status.Pending? && SomeoneReturned(Apply(c, s, a))
    ensures id in Locked(Apply(c, s, a).workers)
  {
    var t := Apply(c, s, a);
    StepRows(c, s, a);
    StepWorkers(c, s, a);
    assert s.rows[id].status.Pending?;
    if a.By? && a.op.FindNothing? {
      assert Eligible(s.rows[id], c.maxAttempts, c.lease, s.clock);
    } else {
      var v :| 0 <= v < |t.workers| && t.workers[v].Returned?;
      assert s.workers[v].Returned?;
    }
    var w :| 0 <= w < |s.workers| && s.workers[w].Claiming? && s.workers[w].id == id;
    assert t.workers[w] == s.workers[w];
  }

  lemma DrainStep(c: Config, s: State, a: Action)
    requires Inv(c, s) && DrainInv(s) && Enabled(c, s, a) && Undisturbed(a)
    ensures DrainInv(Apply(c, s, a)) && |Apply(c, s, a).rows| == |s.rows|
  {
    var t := Apply(c, s, a);
    StepRows(c, s, a);
    StepWorkers(c, s, a);
    forall id | 0 <= id < |t.rows|
      ensures RowDrains(t, id)
    {
      RowDrainStep(c, s, a, id);
    }
    forall id | 0 <= id < |t.rows| && t.rows[id].status.Pending? && SomeoneReturned(t)
      ensures id in Locked(t.workers)
    {
      PendingDrainStep(c, s, a, id);
    }
    if a.By? {
      assert Draining(s.workers[a.w]) && PcFits(c, s.rows, s.workers[a.w]);
      if s.workers[a.w].Holding? {
        assert RowDrains(s, s.workers[a.w].id);
      }
    }
  }

  /** From state b on, the run drains what state b held. */
  ghost predicate DrainsFrom(c: Config, r: Run, b: nat, n: nat) {
    && IsFullRun(c, r) && b <= n <= |r.acts| && DrainStart(r.states[b])
    && forall i :: b <= i < n ==> Undisturbed(r.acts[i])
  }

  lemma {:induction false} DrainInvariant(c: Config, r: Run, b: nat, n: nat)
    requires DrainsFrom(c, r, b, n)
    ensures DrainInv(r.states[n]) && |r.states[n].rows| == |r.states[b].rows|
  {
    if n > b {
      DrainInvariant(c, r, b, n - 1);
      AlwaysInv(c, r, n - 1);
      DrainStep(c, r.states[n - 1], r.acts[n - 1]);
    }
  }

  /**
   Drain: any number of pending events with valid payloads, any number of workers looping ProcessOne until it finds
   nothing, in any interleaving and even across lease reclaims.  Once every loop has returned, each event is
   processed, was marked processed exactly once, and never failed.
   */
  lemma DrainCompletes(c: Config, r: Run, b: nat, n: nat, id: nat)
    requires DrainsFrom(c, r, b, n) && id < |r.states[b].rows|
    requires |r.states[n].workers| > 0
    requires forall w :: 0 <= w < |r.states[n].workers| ==> r.states[n].workers[w].Returned?
    ensures |r.states[n].rows| == |r.states[b].rows| && r.states[n].rows[id].status.Processed?
    ensures Tally(r.acts, n, DoneMark, id) == 1 && Tally(r.acts, n, FailMark, id) == 0
  {
    DrainInvariant(c, r, b, n);
    AllDrained(r.states[n], id);
    ClaimAccounting(c, r, n, id);
    ClaimAccounting(c, r, b, id);
    AlwaysInv(c, r, b);
    NoFailures(c, r, b, n, id);
  }

  lemma AllDrained(s: State, id: nat)
    requires DrainInv(s) && id < |s.rows| && |s.workers| > 0
    requires forall w :: 0 <= w < |s.workers| ==> s.workers[w].Returned?
    ensures s.rows[id].status.Processed?
  {
    assert s.workers[0].Returned?;
    assert RowDrains(s, id);
  }

  lemma FailMarkNeedsFailing(c: Config, s: State, a: Action)
    requires Enabled(c, s, a)
    ensures a.By? && a.op.MarkFailed? ==> !(forall w :: 0 <= w < |s.workers| ==> Draining(s.workers[w]))
  {
    if a.By? && a.op.MarkFailed? {
      assert !Draining(s.workers[a.w]);
    }
  }

  lemma {:induction false} NoFailures(c: Config, r: Run, b: nat, n: nat, id: nat)
    requires DrainsFrom(c, r, b, n)
    ensures Tally(r.acts, n, FailMark, id) == Tally(r.acts, b, FailMark, id)
  {
    if n > b {
      NoFailures(c, r, b, n - 1, id);
      DrainInvariant(c, r, b, n - 1);
      FailMarkNeedsFailing(c, r.states[n - 1], r.acts[n - 1]);
    }
  }
}
