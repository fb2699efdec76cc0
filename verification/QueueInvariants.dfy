/** What every step of the queue protocol keeps. */
module QueueInvariants {
  import opened Wrappers
  import opened Payloads
  import opened EventTable
  import opened RuleTable
  import opened QueueProtocol

  // ----- One step, seen from one row and from one worker -----

  /** What a step does to the row of event id. */
  function RowAfter(s: State, a: Action, id: nat): Event
    requires id < |s.rows|
  {
    var e := s.rows[id];
    match a
    case By(w, op) => if w < |s.workers| then NextRow(s.clock, s.workers[w], op, id, e) else e
    case DeleteRule(r, _) => Unlinked(e, r)
    case _ => e
  }

  lemma StepRows(c: Config, s: State, a: Action)
    requires Enabled(c, s, a)
    ensures var t := Apply(c, s, a);
            && |s.rows| <= |t.rows| <= |s.rows| + 1
            && (forall i :: 0 <= i < |s.rows| ==> t.rows[i] == RowAfter(s, a, i))
            && (|t.rows| > |s.rows| ==>
                  && a.Insert? && !HasKey(s.rows, a.input)
                  && t.rows[|s.rows|] == NewEvent(a.input, s.clock))
            && s.clock <= t.clock && (!a.Tick? ==> s.clock == t.clock)
  {
  }

  lemma StepWorkers(c: Config, s: State, a: Action)
    requires Enabled(c, s, a)
    ensures var t := Apply(c, s, a);
            t.workers == if a.By? then s.workers[a.w := NextPc(s.clock, s.workers[a.w], a.op)] else s.workers
  {
  }

  // ----- Invariants -----

  predicate HasId(pc: Pc) {
    pc.Claiming? || Holds(pc) || pc.Marked?
  }

  ghost predicate Shapes(s: State) {
    forall i :: 0 <= i < |s.rows| ==> Shape(s.rows[i])
  }

  predicate Timely(e: Event, clock: Instant) {
    && e.receivedAt <= clock
    && (e.processedAt.Some? ==> e.processedAt.value <= clock)
    && (e.claimedAt.Some? ==> e.claimedAt.value <= clock)
  }

  /** No timestamp is ahead of the clock, and rows are numbered in order of receipt. */
  ghost predicate Times(s: State) {
    && (forall i :: 0 <= i < |s.rows| ==> Timely(s.rows[i], s.clock))
    && (forall i, j :: 0 <= i < j < |s.rows| ==> s.rows[i].receivedAt <= s.rows[j].receivedAt)
    && (forall w :: 0 <= w < |s.workers| && s.workers[w].Claiming? ==> s.workers[w].at <= s.clock)
    && (forall w :: 0 <= w < |s.workers| && Holds(s.workers[w]) ==> s.workers[w].since <= s.clock)
  }

  /** A worker refers to a row, and the row an in-flight claim locked is as eligible as when it was locked. */
  predicate PcFits(c: Config, rows: seq<Event>, pc: Pc) {
    && (HasId(pc) ==> pc.id < |rows|)
    && (pc.Claiming? ==> pc.id < |rows| && Eligible(rows[pc.id], c.maxAttempts, c.lease, pc.at))
  }

  /** In-flight claims lock different rows. */
  ghost predicate DistinctLocks(s: State) {
    forall v, w ::
      0 <= v < |s.workers| && 0 <= w < |s.workers| && v != w && s.workers[v].Claiming? && s.workers[w].Claiming?
      ==> s.workers[v].id != s.workers[w].id
  }

  ghost predicate Inv(c: Config, s: State) {
    && Shapes(s)
    && Times(s)
    && (forall w :: 0 <= w < |s.workers| ==> PcFits(c, s.rows, s.workers[w]))
    && DistinctLocks(s)
  }

  /** A claim in flight keeps every other statement from changing what makes its row eligible. */
  lemma LockedRowFrozen(c: Config, s: State, a: Action, w: nat)
    requires Inv(c, s) && Enabled(c, s, a)
    requires w < |s.workers| && s.workers[w].Claiming? && !(a.By? && a.w == w)
    ensures var id := s.workers[w].id;
            RowAfter(s, a, id) == s.rows[id] || (a.DeleteRule? && RowAfter(s, a, id) == Unlinked(s.rows[id], a.ruleId))
  {
  }

  lemma RowStep(c: Config, s: State, a: Action, id: nat)
    requires Inv(c, s) && Enabled(c, s, a) && id < |s.rows|
    ensures Shape(RowAfter(s, a, id)) && Timely(RowAfter(s, a, id), s.clock)
    ensures SameIngest(RowAfter(s, a, id), s.rows[id])
  {
  }

  lemma ActorStep(c: Config, s: State, a: Action)
    requires Inv(c, s) && Enabled(c, s, a) && a.By?
    ensures var t := Apply(c, s, a);
            var w := a.w;
            && PcFits(c, t.rows, t.workers[w])
            && (t.workers[w].Claiming? ==> t.workers[w].at == s.clock && t.workers[w].id !in Locked(s.workers))
            && (Holds(t.workers[w]) ==> t.workers[w].since <= s.clock)
  {
  }

  lemma OtherStep(c: Config, s: State, a: Action, v: nat)
    requires Inv(c, s) && Enabled(c, s, a) && v < |s.workers| && !(a.By? && a.w == v)
    ensures PcFits(c, Apply(c, s, a).rows, s.workers[v])
  {
    StepRows(c, s, a);
    if s.workers[v].Claiming? {
      LockedRowFrozen(c, s, a, v);
    }
  }

  lemma InvStep(c: Config, s: State, a: Action)
    requires Inv(c, s) && Enabled(c, s, a)
    ensures Inv(c, Apply(c, s, a))
  {
    var t := Apply(c, s, a);
    StepRows(c, s, a);
    StepWorkers(c, s, a);
    if a.By? {
      ActorStep(c, s, a);
    }
    forall v | 0 <= v < |t.workers| && !(a.By? && a.w == v)
      ensures PcFits(c, t.rows, t.workers[v])
    {
      OtherStep(c, s, a, v);
    }
    forall i | 0 <= i < |s.rows|
      ensures Shape(t.rows[i]) && Timely(t.rows[i], t.clock) && t.rows[i].receivedAt == s.rows[i].receivedAt
    {
      RowStep(c, s, a, i);
    }
  }

  lemma {:induction false} AlwaysInv(c: Config, r: Run, n: nat)
    requires IsFullRun(c, r) && n <= |r.acts|
    ensures Inv(c, r.states[n])
  {
    if n > 0 {
      AlwaysInv(c, r, n - 1);
      InvStep(c, r.states[n - 1], r.acts[n - 1]);
    }
  }
}
