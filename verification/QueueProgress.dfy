/** How much work a set of events can cause, and how the processed counter follows the table. */
module QueueProgress {
  import opened Wrappers
  import opened Sums
  import opened EventTable
  import opened QueueProtocol
  import opened QueueInvariants
  import EventHistory

  // ----- Attempt budget -----

  /** The attempt limit holds: an event being processed has an attempt left. */
  predicate InBudget(max: int, e: Event) {
    e.attempts <= max && (e.status.Processing? ==> e.attempts < max)
  }

  lemma InBudgetStep(c: Config, s: State, a: Action, id: nat)
    requires Inv(c, s) && Enabled(c, s, a) && id < |s.rows| && c.maxAttempts >= 1
    requires !(a.By? && a.op.ClaimById?)
    requires InBudget(c.maxAttempts, s.rows[id])
    ensures InBudget(c.maxAttempts, RowAfter(s, a, id))
  {
    if a.By? && a.op.Commit? && a.op.id == id {
      assert Eligible(s.rows[id], c.maxAttempts, c.lease, s.workers[a.w].at);
    }
  }

  lemma {:induction false} AttemptsBounded(c: Config, r: Run, n: nat)
    requires IsFullRun(c, r) && WorkerPath(r) && n <= |r.acts| && c.maxAttempts >= 1
    ensures forall id :: 0 <= id < |r.states[n].rows| ==> InBudget(c.maxAttempts, r.states[n].rows[id])
  {
    if n > 0 {
      var s, a := r.states[n - 1], r.acts[n - 1];
      AttemptsBounded(c, r, n - 1);
      AlwaysInv(c, r, n - 1);
      StepRows(c, s, a);
      forall id | 0 <= id < |s.rows|
        ensures InBudget(c.maxAttempts, RowAfter(s, a, id))
      {
        InBudgetStep(c, s, a, id);
      }
    }
  }

  // ----- Termination measure -----

  /** Steps an event can still cause, lease reclaims aside: a claim and a mark for each attempt it has left. */
  function Weight(max: int, e: Event): int {
    if e.status.Processed? || (e.status.Failed? && e.attempts >= max) then 0
    else 2 * (max - e.attempts) - if e.status.Processing? then 1 else 0
  }

  function Weights(max: int, rows: seq<Event>): seq<int> {
    seq(|rows|, i requires 0 <= i < |rows| => Weight(max, rows[i]))
  }

  /** A claim of a pending or failed row, or a mark. */
  predicate Advances(a: Action) {
    a.By? && ((a.op.Commit? && !a.op.reclaim) || a.op.MarkProcessed? || a.op.MarkFailed?)
  }

  function Advance(acts: seq<Action>, n: nat): nat
    requires n <= |acts|
  {
    if n == 0 then 0 else Advance(acts, n - 1) + if Advances(acts[n - 1]) then 1 else 0
  }

  lemma WeightStep(c: Config, s: State, a: Action, id: nat)
    requires Inv(c, s) && Enabled(c, s, a) && id < |s.rows| && !(a.By? && a.op.ClaimById?)
    requires InBudget(c.maxAttempts, s.rows[id])
    ensures var before, after := Weight(c.maxAttempts, s.rows[id]), Weight(c.maxAttempts, RowAfter(s, a, id));
            if Advances(a) && a.op.id == id then after < before else after == before
  {
    if a.By? && a.op.Commit? && a.op.id == id {
      assert Eligible(s.rows[id], c.maxAttempts, c.lease, s.workers[a.w].at);
    }
  }

  lemma MeasureFalls(max: int, before: seq<Event>, after: seq<Event>, id: nat)
    requires |before| == |after| && id < |before|
    requires forall i :: 0 <= i < |before| && i != id ==> Weight(max, after[i]) == Weight(max, before[i])
    requires Weight(max, after[id]) < Weight(max, before[id])
    ensures Sum(Weights(max, after)) < Sum(Weights(max, before))
  {
    assert Weights(max, after) == Weights(max, before)[id := Weight(max, after[id])];
    SumUpdate(Weights(max, before), id, Weight(max, after[id]));
  }

  lemma MeasureGrows(max: int, before: seq<Event>, after: seq<Event>)
    requires |before| <= |after| <= |before| + 1
    requires forall i :: 0 <= i < |before| ==> Weight(max, after[i]) == Weight(max, before[i])
    requires |after| > |before| ==> Weight(max, after[|before|]) == 2 * max
    ensures Sum(Weights(max, after)) == Sum(Weights(max, before)) + if |after| > |before| then 2 * max else 0
  {
    if |after| > |before| {
      assert Weights(max, after) == Weights(max, before) + [2 * max];
      SumAppend(Weights(max, before), 2 * max);
    } else {
      assert Weights(max, after) == Weights(max, before);
    }
  }

  /** Every claim of a pending or failed row and every mark lowers the measure; only an insert raises it. */
  lemma MeasureStep(c: Config, s: State, a: Action)
    requires Inv(c, s) && Enabled(c, s, a) && !(a.By? && a.op.ClaimById?)
    requires forall id :: 0 <= id < |s.rows| ==> InBudget(c.maxAttempts, s.rows[id])
    ensures var max, before, after := c.maxAttempts, s.rows, Apply(c, s, a).rows;
            if Advances(a) then
              Sum(Weights(max, after)) < Sum(Weights(max, before)) && |after| == |before|
            else
              && |before| <= |after| <= |before| + 1
              && Sum(Weights(max, after)) == Sum(Weights(max, before)) + if |after| > |before| then 2 * max else 0
  {
    var after := Apply(c, s, a).rows;
    StepRows(c, s, a);
    forall id | 0 <= id < |s.rows|
      ensures var w, v := Weight(c.maxAttempts, s.rows[id]), Weight(c.maxAttempts, after[id]);
              if Advances(a) && a.op.id == id then v < w else v == w
    {
      WeightStep(c, s, a, id);
    }
    if Advances(a) {
      MeasureFalls(c.maxAttempts, s.rows, after, a.op.id);
    } else {
      MeasureGrows(c.maxAttempts, s.rows, after);
    }
  }

  lemma {:induction false} MeasureBound(c: Config, r: Run, n: nat)
    requires IsFullRun(c, r) && WorkerPath(r) && n <= |r.acts| && c.maxAttempts >= 1
    ensures Advance(r.acts, n) + Sum(Weights(c.maxAttempts, r.states[n].rows))
            <= (2 * c.maxAttempts) * |r.states[n].rows|
  {
    if n > 0 {
      MeasureBound(c, r, n - 1);
      AttemptsBounded(c, r, n - 1);
      AlwaysInv(c, r, n - 1);
      MeasureStep(c, r.states[n - 1], r.acts[n - 1]);
      OneMoreRow(2 * c.maxAttempts, |r.states[n - 1].rows|);
    }
  }

  lemma OneMoreRow(budget: int, rows: nat)
    ensures budget * (rows + 1) == budget * rows + budget
  {
  }

  /** However a run goes, N events cause at most 2 * maxAttempts * N claims and marks besides lease reclaims. */
  lemma {:induction false} WorkIsBounded(c: Config, r: Run, n: nat)
    requires IsFullRun(c, r) && WorkerPath(r) && n <= |r.acts| && c.maxAttempts >= 1
    ensures Advance(r.acts, n) <= (2 * c.maxAttempts) * |r.states[n].rows|
  {
    MeasureBound(c, r, n);
    AttemptsBounded(c, r, n);
    SumBounds(Weights(c.maxAttempts, r.states[n].rows), 0, 2 * c.maxAttempts);
  }

  // ----- The processed counter -----

  function ProcessedFlags(rows: seq<Event>): seq<int> {
    seq(|rows|, i requires 0 <= i < |rows| => if rows[i].status.Processed? then 1 else 0)
  }

  function MarkedFlags(workers: seq<Pc>): seq<int> {
    seq(|workers|, w requires 0 <= w < |workers| => if workers[w].Marked? then 1 else 0)
  }

  /** Processed rows: counted, on a worker about to count them, or lost with their worker. */
  ghost predicate Conserved(s: State) {
    Sum(ProcessedFlags(s.rows)) == s.counted + Sum(MarkedFlags(s.workers)) + s.uncounted
  }

  lemma ProcessedRows(before: seq<Event>, after: seq<Event>, done: Option<nat>)
    requires |before| <= |after| <= |before| + 1
    requires |after| > |before| ==> !after[|before|].status.Processed? && done.None?
    requires done.Some? ==> done.value < |before|
    requires forall i :: 0 <= i < |before| ==>
               ProcessedFlags(after)[i] == ProcessedFlags(before)[i] + EventHistory.OneIf(done == Some(i))
    ensures Sum(ProcessedFlags(after)) == Sum(ProcessedFlags(before)) + EventHistory.OneIf(done.Some?)
  {
    var was, now := ProcessedFlags(before), ProcessedFlags(after);
    if done.Some? {
      assert now == was[done.value := was[done.value] + 1];
      SumUpdate(was, done.value, was[done.value] + 1);
    } else if |after| > |before| {
      assert now == was + [0];
      SumAppend(was, 0);
    } else {
      assert now == was;
    }
  }

  lemma ProcessedDelta(c: Config, s: State, a: Action)
    requires Inv(c, s) && Enabled(c, s, a)
    ensures Sum(ProcessedFlags(Apply(c, s, a).rows))
            == Sum(ProcessedFlags(s.rows)) + EventHistory.OneIf(a.By? && a.op.MarkProcessed?)
  {
    var after := Apply(c, s, a).rows;
    var done := if a.By? && a.op.MarkProcessed? then Some(a.op.id) else None;
    StepRows(c, s, a);
    forall id | 0 <= id < |s.rows|
      ensures ProcessedFlags(after)[id] == ProcessedFlags(s.rows)[id] + EventHistory.OneIf(done == Some(id))
    {
      EventHistory.AccountStep(c, s, a, id);
    }
    ProcessedRows(s.rows, after, done);
  }

  lemma MarkedDelta(c: Config, s: State, a: Action)
    requires Enabled(c, s, a)
    ensures var t := Apply(c, s, a);
            Sum(MarkedFlags(t.workers)) + t.counted + t.uncounted
            == Sum(MarkedFlags(s.workers)) + s.counted + s.uncounted + EventHistory.OneIf(a.By? && a.op.MarkProcessed?)
  {
    var t := Apply(c, s, a);
    StepWorkers(c, s, a);
    if a.By? {
      var flag := if t.workers[a.w].Marked? then 1 else 0;
      assert MarkedFlags(t.workers) == MarkedFlags(s.workers)[a.w := flag];
      SumUpdate(MarkedFlags(s.workers), a.w, flag);
    }
  }

  /**
   In every reachable state the processed rows are exactly those counted by IncProcessed, those whose worker has
   yet to count them, and those whose worker was lost in between.
   */
  lemma {:induction false} CounterConservation(c: Config, r: Run, n: nat)
    requires IsFullRun(c, r) && n <= |r.acts|
    ensures Conserved(r.states[n])
  {
    if n > 0 {
      CounterConservation(c, r, n - 1);
      AlwaysInv(c, r, n - 1);
      ProcessedDelta(c, r.states[n - 1], r.acts[n - 1]);
      MarkedDelta(c, r.states[n - 1], r.acts[n - 1]);
    } else {
      NothingMarked(r.states[0].workers);
    }
  }

  lemma {:induction false} NothingMarked(workers: seq<Pc>)
    requires forall w :: 0 <= w < |workers| ==> !workers[w].Marked?
    ensures Sum(MarkedFlags(workers)) == 0
  {
    SumBounds(MarkedFlags(workers), 0, 0);
  }
}
