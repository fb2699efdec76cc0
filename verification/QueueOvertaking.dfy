/** When younger events can be claimed before an older one. */
module QueueOvertaking {
  import opened Wrappers
  import opened Payloads
  import opened EventTable
  import opened QueueProtocol
  import opened QueueInvariants
  import opened QueueFairness
  import opened LeaseSafety

  // ----- From insertion to claim -----

  /** Worker v locked, at step m, the row it still has locked at n, and event id was locked itself then. */
  ghost predicate PickedUnderLock(r: Run, m: nat, n: nat, v: nat, id: nat)
    requires m < n <= |r.acts| < |r.states| && v < |r.states[n].workers|
  {
    && r.states[n].workers[v].Claiming? && r.acts[m] == By(v, Lock(r.states[n].workers[v].id))
    && id < |r.states[m].rows| && r.states[m].rows[id].status.Pending? && id in Locked(r.states[m].workers)
  }

  /** While an event is pending, a younger row is picked only if the event is locked, and stays the same claim's. */
  lemma YoungerStep(c: Config, s: State, a: Action, v: nat, id: nat)
    requires Inv(c, s) && Enabled(c, s, a) && id < |Apply(c, s, a).rows| && Apply(c, s, a).rows[id].status.Pending?
    requires v < |s.workers| && PassesBy(Apply(c, s, a), Apply(c, s, a).workers[v], id)
    ensures id < |s.rows| && s.rows[id].status.Pending?
    ensures var pc := Apply(c, s, a).workers[v];
            if a.By? && a.w == v then a.op == Lock(pc.id) && id in Locked(s.workers)
            else s.workers[v] == pc && PassesBy(s, pc, id)
  {
    StepRows(c, s, a);
    StepWorkers(c, s, a);
    assert PcFits(c, s.rows, s.workers[v]);
    if a.By? && a.w == v && id !in Locked(s.workers) {
      PickIsOlder(c, s, a, id);
    }
  }

  /**
   In all the time from its insertion to its first claim, an event can be passed by a younger one only through a lock
   that was taken while the event was locked by a claim of its own.
   */
  lemma {:induction false} YoungerPassOnlyUnderLock(c: Config, r: Run, n: nat, v: nat, id: nat)
    requires IsFullRun(c, r) && n <= |r.acts|
    requires id < |r.states[n].rows| && r.states[n].rows[id].status.Pending?
    requires v < |r.states[n].workers| && PassesBy(r.states[n], r.states[n].workers[v], id)
    ensures exists m :: 0 <= m < n && PickedUnderLock(r, m, n, v, id)
  {
    if n > 0 {
      AlwaysInv(c, r, n - 1);
      assert Enabled(c, r.states[n - 1], r.acts[n - 1]);
      YoungerStep(c, r.states[n - 1], r.acts[n - 1], v, id);
      if r.acts[n - 1].By? && r.acts[n - 1].w == v {
        assert PickedUnderLock(r, n - 1, n, v, id);
      } else {
        YoungerPassOnlyUnderLock(c, r, n - 1, v, id);
        var m :| 0 <= m < n - 1 && PickedUnderLock(r, m, n - 1, v, id);
        assert PickedUnderLock(r, m, n, v, id);
      }
    }
  }

  // ----- Exactly when an event can be passed -----

  predicate LeavesAlone(a: Action, id: nat) {
    !(a.By? && (a.op.ClaimById? || a.op == Lock(id)))
  }

  /** longer goes on from r by steps of ClaimNext workers, none of which picks event id. */
  ghost predicate Passing(c: Config, r: Run, longer: Run, id: nat) {
    && IsFullRun(c, longer) && |r.states| == |r.acts| + 1 && |r.acts| <= |longer.acts|
    && longer.acts[..|r.acts|] == r.acts && longer.states[..|r.states|] == r.states
    && forall i {:trigger longer.acts[i]} :: |r.acts| <= i < |longer.acts| ==> LeavesAlone(longer.acts[i], id)
  }

  /** Event id is pending still, and k rows from the first-th on, all received strictly later, are not any more. */
  ghost predicate PassedFrom(s: State, first: nat, id: nat, k: nat) {
    && id < |s.rows| && s.rows[id].status.Pending? && first + k <= |s.rows|
    && forall j :: first <= j < first + k ==> PassedBy(s, id, j)
  }

  predicate PassedBy(s: State, id: nat, j: nat)
    requires id < |s.rows| && j < |s.rows|
  {
    s.rows[id].receivedAt < s.rows[j].receivedAt && !s.rows[j].status.Pending?
  }

  /** Some run goes on, without picking event id, to where k events that arrive from now on have been claimed. */
  ghost predicate CanBePassed(c: Config, r: Run, id: nat, k: nat)
    requires |r.states| == |r.acts| + 1
  {
    exists longer :: Passing(c, r, longer, id) && PassedFrom(Last(longer), |Last(r).rows|, id, k)
  }

  // ----- Unless it is locked, nothing passes it -----

  /** Event id is not locked, or there is no second worker; and no younger row from the first-th on has been taken. */
  ghost predicate Unpassed(s: State, first: nat, id: nat) {
    && id < |s.rows| && (id !in Locked(s.workers) || |s.workers| <= 1)
    && forall j :: first <= j < |s.rows| && s.rows[id].receivedAt < s.rows[j].receivedAt ==>
         s.rows[j].status.Pending? && j !in Locked(s.workers)
  }

  /** A step that leaves event id alone picks no younger row. */
  lemma NoYoungerPick(c: Config, s: State, a: Action, first: nat, id: nat)
    requires Inv(c, s) && Enabled(c, s, a) && a.By? && a.op.Lock?
    requires Unpassed(s, first, id) && s.rows[id].status.Pending?
    ensures a.op.id < |s.rows| && s.rows[a.op.id].receivedAt <= s.rows[id].receivedAt
  {
    assert id !in Locked(s.workers);
    PickIsOlder(c, s, a, id);
  }

  lemma UnpassedRow(c: Config, s: State, a: Action, first: nat, id: nat, j: nat)
    requires Inv(c, s) && Enabled(c, s, a) && LeavesAlone(a, id)
    requires Unpassed(s, first, id) && s.rows[id].status.Pending?
    requires first <= j < |s.rows| && s.rows[id].receivedAt < s.rows[j].receivedAt
    ensures RowAfter(s, a, j).status.Pending? && j !in Locked(Apply(c, s, a).workers)
  {
    StepWorkers(c, s, a);
    if a.By? && a.op.Lock? {
      NoYoungerPick(c, s, a, first, id);
    }
  }

  lemma UnpassedStep(c: Config, s: State, a: Action, first: nat, id: nat)
    requires Inv(c, s) && Enabled(c, s, a) && LeavesAlone(a, id)
    requires Unpassed(s, first, id) && s.rows[id].status.Pending?
    ensures Unpassed(Apply(c, s, a), first, id)
  {
    var t := Apply(c, s, a);
    StepRows(c, s, a);
    StepWorkers(c, s, a);
    RowStep(c, s, a, id);
    forall j | first <= j < |t.rows| && t.rows[id].receivedAt < t.rows[j].receivedAt
      ensures t.rows[j].status.Pending? && j !in Locked(t.workers)
    {
      if j < |s.rows| {
        RowStep(c, s, a, j);
        UnpassedRow(c, s, a, first, id, j);
      } else {
        NewRowUnlocked(c, s, a);
      }
    }
  }

  lemma NewRowUnlocked(c: Config, s: State, a: Action)
    requires Inv(c, s) && Enabled(c, s, a) && a.Insert?
    ensures |s.rows| !in Locked(Apply(c, s, a).workers)
  {
    StepWorkers(c, s, a);
    forall w | 0 <= w < |s.workers| && s.workers[w].Claiming?
      ensures s.workers[w].id < |s.rows|
    {
      assert PcFits(c, s.rows, s.workers[w]);
    }
  }

  /** No step makes an event pending again. */
  lemma PendingBefore(c: Config, s: State, a: Action, id: nat)
    requires Inv(c, s) && Enabled(c, s, a) && id < |s.rows| && Apply(c, s, a).rows[id].status.Pending?
    ensures s.rows[id].status.Pending?
  {
    StepRows(c, s, a);
  }

  lemma {:induction false} StaysUnpassed(c: Config, r: Run, longer: Run, n: nat, id: nat)
    requires Passing(c, r, longer, id) && |r.acts| <= n <= |longer.acts|
    requires Unpassed(Last(r), |Last(r).rows|, id)
    requires id < |longer.states[n].rows| && longer.states[n].rows[id].status.Pending?
    ensures Unpassed(longer.states[n], |Last(r).rows|, id)
  {
    if n == |r.acts| {
      assert longer.states[n] == longer.states[..|r.states|][n] == Last(r);
    } else {
      AlwaysInv(c, longer, n - 1);
      assert LeavesAlone(longer.acts[n - 1], id);
      RowsStay(c, r, longer, n - 1);
      PendingBefore(c, longer.states[n - 1], longer.acts[n - 1], id);
      StaysUnpassed(c, r, longer, n - 1, id);
      UnpassedStep(c, longer.states[n - 1], longer.acts[n - 1], |Last(r).rows|, id);
    }
  }

  lemma {:induction false} RowsStay(c: Config, r: Run, longer: Run, n: nat)
    requires IsRun(c, longer) && |r.states| == |r.acts| + 1 && |r.acts| <= n <= |longer.acts|
    requires longer.states[..|r.states|] == r.states
    ensures |Last(r).rows| <= |longer.states[n].rows|
  {
    if n == |r.acts| {
      assert longer.states[n] == longer.states[..|r.states|][n] == Last(r);
    } else {
      RowsStay(c, r, longer, n - 1);
      assert Enabled(c, longer.states[n - 1], longer.acts[n - 1]);
      StepRows(c, longer.states[n - 1], longer.acts[n - 1]);
    }
  }

  // ----- While it is locked, a second worker takes any number of younger rows -----

  lemma PassOn(c: Config, r: Run, cur: Run, id: nat, a: Action) returns (longer: Run)
    requires Passing(c, r, cur, id) && Enabled(c, Last(cur), a) && LeavesAlone(a, id)
    ensures Passing(c, r, longer, id) && Last(longer) == Apply(c, Last(cur), a)
  {
    longer := Extend(c, cur, a);
    assert longer.acts[..|r.acts|] == r.acts && longer.states[..|r.states|] == r.states;
  }

  /** Worker w, which is another than the one that has locked event id, is idle. */
  ghost predicate Ready(s: State, w: nat, id: nat) {
    && w < |s.workers| && s.workers[w].Idle?
    && id < |s.rows| && s.rows[id].status.Pending? && id in Locked(s.workers)
  }

  /** The step that brings a worker back to the start of its loop. */
  function Homeward(pc: Pc): Op {
    match pc
    case Claiming(_, _) => Abort
    case Marked(_) => LoseCount
    case Returned => Poll
    case Crashed => Restart
    case _ => GiveUp
  }

  lemma CanGoHome(c: Config, s: State, w: nat)
    requires w < |s.workers| && !s.workers[w].Idle?
    ensures var a := By(w, Homeward(s.workers[w]));
            && Enabled(c, s, a)
            && Apply(c, s, a).rows == s.rows && Apply(c, s, a).workers == s.workers[w := Idle]
  {
  }

  lemma FreeWorker(c: Config, r: Run, id: nat) returns (longer: Run, w: nat)
    requires IsFullRun(c, r) && id < |Last(r).rows| && Last(r).rows[id].status.Pending?
    requires id in Locked(Last(r).workers) && |Last(r).workers| >= 2
    ensures Passing(c, r, longer, id) && Ready(Last(longer), w, id) && Last(longer).rows == Last(r).rows
  {
    var s := Last(r);
    var v :| 0 <= v < |s.workers| && s.workers[v].Claiming? && s.workers[v].id == id;
    w := if v == 0 then 1 else 0;
    longer := r;
    if !s.workers[w].Idle? {
      CanGoHome(c, s, w);
      longer := PassOn(c, r, r, id, By(w, Homeward(s.workers[w])));
      assert Last(longer).workers[v] == s.workers[v];
    }
  }

  const LOST := "rules unreachable"

  /** What a claim whose attempt fails at once makes of a row. */
  function Tried(e: Event, now: Instant): Event {
    AttemptFailed(Claimed(e, now), LOST, now)
  }

  /** Worker w claims the oldest takable row. */
  lemma Take(c: Config, r: Run, cur: Run, id: nat, w: nat, j: nat) returns (longer: Run)
    requires Passing(c, r, cur, id) && Ready(Last(cur), w, id) && j != id
    requires var s := Last(cur); ClaimChoice(s.rows, Locked(s.workers), c.maxAttempts, c.lease, s.clock, j)
    ensures Passing(c, r, longer, id)
    ensures var s := Last(cur);
            Last(longer)
            == s.(rows := s.rows[j := Claimed(s.rows[j], s.clock)], workers := s.workers[w := Holding(j, s.clock)])
  {
    var s := Last(cur);
    longer := PassOn(c, r, cur, id, By(w, Lock(j)));
    assert Last(longer).rows == s.rows;
    longer := PassOn(c, r, longer, id, By(w, Commit(j, s.rows[j].status.Processing?)));
    assert Last(longer).rows == s.rows[j := Claimed(s.rows[j], s.clock)];
    assert Last(longer).workers == s.workers[w := Holding(j, s.clock)];
  }

  /** The attempt on the row it holds fails, since the rules cannot be read. */
  lemma Drop(c: Config, r: Run, cur: Run, id: nat, w: nat) returns (longer: Run)
    requires Passing(c, r, cur, id)
    requires var s := Last(cur);
             && w < |s.workers| && s.workers[w].Holding? && s.workers[w].id < |s.rows|
             && s.rows[s.workers[w].id].status.Processing? && s.workers[w].id !in Locked(s.workers)
    ensures Passing(c, r, longer, id)
    ensures var s := Last(cur); var j := s.workers[w].id;
            Last(longer)
            == s.(rows := s.rows[j := AttemptFailed(s.rows[j], LOST, s.clock)], workers := s.workers[w := Idle])
  {
    var s := Last(cur);
    var j := s.workers[w].id;
    longer := PassOn(c, r, cur, id, By(w, ReadError(LOST)));
    var t := Last(longer);
    assert t.rows == s.rows && t.workers[w] == Failing(j, s.workers[w].since, LOST);
    assert j !in Locked(t.workers);
    longer := PassOn(c, r, longer, id, By(w, MarkFailed(j)));
    assert Last(longer).rows == s.rows[j := AttemptFailed(s.rows[j], LOST, s.clock)];
    assert Last(longer).workers == s.workers[w := Idle];
  }

  lemma TakeAndFail(c: Config, r: Run, cur: Run, id: nat, w: nat, j: nat) returns (longer: Run)
    requires Passing(c, r, cur, id) && Ready(Last(cur), w, id) && j != id
    requires var s := Last(cur); ClaimChoice(s.rows, Locked(s.workers), c.maxAttempts, c.lease, s.clock, j)
    ensures Passing(c, r, longer, id)
    ensures Last(longer) == Last(cur).(rows := Last(cur).rows[j := Tried(Last(cur).rows[j], Last(cur).clock)])
  {
    var s := Last(cur);
    longer := Take(c, r, cur, id, w, j);
    var t := Last(longer);
    assert j !in Locked(t.workers);
    longer := Drop(c, r, longer, id, w);
    assert Last(longer).rows == s.rows[j := Tried(s.rows[j], s.clock)];
    assert Last(longer).workers == s.workers;
  }

  /** Rows that were claimed once stay so, and event id keeps its row. */
  ghost predicate Onward(s: State, t: State, id: nat) {
    && |t.rows| == |s.rows| && t.workers == s.workers && id < |s.rows| && t.rows[id] == s.rows[id]
    && forall j :: 0 <= j < |s.rows| ==>
         t.rows[j].receivedAt == s.rows[j].receivedAt && (t.rows[j].status.Pending? ==> s.rows[j].status.Pending?)
  }

  /** Failing older rows one by one, worker w comes to row n and takes it. */
  lemma {:induction false} TakeUpTo(c: Config, r: Run, cur: Run, id: nat, w: nat, n: nat) returns (longer: Run)
    requires Passing(c, r, cur, id) && Ready(Last(cur), w, id) && n in Takable(c, Last(cur))
    ensures Passing(c, r, longer, id) && Onward(Last(cur), Last(longer), id)
    ensures n < |Last(longer).rows| && !Last(longer).rows[n].status.Pending?
    decreases |Takable(c, Last(cur))|
  {
    var s := Last(cur);
    var oldest := OldestOf(s.rows, Takable(c, s));
    longer := TakeAndFail(c, r, cur, id, w, oldest);
    if oldest != n {
      var t := Last(longer);
      assert Takable(c, t) == Takable(c, s) - {oldest};
      longer := TakeUpTo(c, r, longer, id, w, n);
    }
  }

  /** A user that no row is for. */
  function Stranger(rows: seq<Event>): (user: nat)
    ensures forall i :: 0 <= i < |rows| ==> rows[i].input.user < user
  {
    if |rows| == 0 then 0
    else
      var before, last := Stranger(rows[..|rows| - 1]), rows[|rows| - 1].input.user;
      assert forall i :: 0 <= i < |rows| - 1 ==> rows[..|rows| - 1][i] == rows[i];
      if before <= last then last + 1 else before
  }

  function Arrival(rows: seq<Event>): CreateInput {
    CreateInput(Stranger(rows), "k", "t", NotAnObject)
  }

  lemma ArrivalIsInserted(c: Config, s: State)
    requires Inv(c, s)
    ensures var t := Apply(c, s, Insert(Arrival(s.rows)));
            && t.rows == s.rows + [NewEvent(Arrival(s.rows), s.clock)] && t.workers == s.workers && t.clock == s.clock
            && |s.rows| in Takable(c, t)
  {
    NewRowUnlocked(c, s, Insert(Arrival(s.rows)));
  }

  /** A new event arrives a moment later. */
  lemma OneArrives(c: Config, r: Run, cur: Run, id: nat, w: nat) returns (longer: Run)
    requires Passing(c, r, cur, id) && Ready(Last(cur), w, id)
    ensures Passing(c, r, longer, id) && |Last(cur).rows| in Takable(c, Last(longer))
    ensures var s, t := Last(cur), Last(longer);
            t.workers == s.workers && t.rows == s.rows + [NewEvent(Arrival(s.rows), s.clock + 1)]
  {
    longer := PassOn(c, r, cur, id, Tick(1));
    AlwaysInv(c, longer, |longer.acts|);
    ArrivalIsInserted(c, Last(longer));
    longer := PassOn(c, r, longer, id, Insert(Arrival(Last(longer).rows)));
  }

  /** One more event arrives and passes event id. */
  lemma OnePasses(c: Config, r: Run, cur: Run, id: nat, w: nat, first: nat, k: nat) returns (longer: Run)
    requires Passing(c, r, cur, id) && Ready(Last(cur), w, id)
    requires PassedFrom(Last(cur), first, id, k) && |Last(cur).rows| == first + k
    ensures Passing(c, r, longer, id) && Ready(Last(longer), w, id)
    ensures PassedFrom(Last(longer), first, id, k + 1) && |Last(longer).rows| == first + k + 1
  {
    var s := Last(cur);
    AlwaysInv(c, cur, |cur.acts|);
    assert Timely(s.rows[id], s.clock);
    longer := OneArrives(c, r, cur, id, w);
    var t := Last(longer);
    longer := TakeUpTo(c, r, longer, id, w, first + k);
    forall j | first <= j < first + k + 1
      ensures PassedBy(Last(longer), id, j)
    {
      if j < first + k {
        assert PassedBy(s, id, j) && t.rows[j] == s.rows[j];
      }
    }
  }

  /** From any reachable state in which a claim has a pending event locked, any number of younger events can pass it. */
  lemma {:induction false} LockedEventIsPassed(c: Config, r: Run, id: nat, k: nat) returns (longer: Run, w: nat)
    requires IsFullRun(c, r) && id < |Last(r).rows| && Last(r).rows[id].status.Pending?
    requires id in Locked(Last(r).workers) && |Last(r).workers| >= 2
    ensures Passing(c, r, longer, id) && Ready(Last(longer), w, id)
    ensures PassedFrom(Last(longer), |Last(r).rows|, id, k) && |Last(longer).rows| == |Last(r).rows| + k
  {
    if k == 0 {
      longer, w := FreeWorker(c, r, id);
    } else {
      longer, w := LockedEventIsPassed(c, r, id, k - 1);
      longer := OnePasses(c, r, longer, id, w, |Last(r).rows|, k - 1);
    }
  }

  /**
   Overtaking, exactly: in any reachable state, events that arrive from then on can be claimed before a pending event,
   k of them for any k, if and only if a claim has the event locked and there is another worker.
   */
  lemma OvertakingExact(c: Config, r: Run, id: nat, k: nat)
    requires IsFullRun(c, r) && id < |Last(r).rows| && Last(r).rows[id].status.Pending? && k >= 1
    ensures CanBePassed(c, r, id, k) <==> id in Locked(Last(r).workers) && |Last(r).workers| >= 2
  {
    if id in Locked(Last(r).workers) && |Last(r).workers| >= 2 {
      var longer, w := LockedEventIsPassed(c, r, id, k);
    } else {
      var first := |Last(r).rows|;
      forall longer | Passing(c, r, longer, id)
        ensures !PassedFrom(Last(longer), first, id, k)
      {
        if PassedFrom(Last(longer), first, id, k) {
          assert PassedBy(Last(longer), id, first);
          StaysUnpassed(c, r, longer, |longer.acts|, id);
        }
      }
    }
  }

  // ----- A run with k overtakings -----

  /** Worker 0 has locked event 0; the k younger events are in processing, abandoned by worker 1. */
  ghost predicate Stalled(s: State, k: nat) {
    && s.clock == 1 && s.workers == [Claiming(0, 1), Idle]
    && |s.rows| == k + 1 && s.rows[0] == NewEvent(Younger(0), 0)
    && forall j :: 1 <= j <= k ==> s.rows[j] == Claimed(NewEvent(Younger(j), 1), 1)
  }

  function Younger(j: nat): CreateInput {
    CreateInput(j, "k", "t", NotAnObject)
  }

  lemma {:induction false} FreshPrefix(acts: seq<Action>, more: seq<Action>, n: nat)
    requires n <= |acts|
    ensures FreshClaims(acts + more, n) == FreshClaims(acts, n)
  {
    if n > 0 {
      FreshPrefix(acts, more, n - 1);
    }
  }

  lemma ExtendCounted(r: Run, a: Action) returns (longer: Run)
    requires IsFullRun(FIVE, r) && WorkerPath(r) && Enabled(FIVE, r.states[|r.acts|], a)
    requires !(a.By? && a.op.ClaimById?)
    ensures IsFullRun(FIVE, longer) && WorkerPath(longer) && |longer.acts| == |r.acts| + 1
    ensures longer.acts[0] == if |r.acts| > 0 then r.acts[0] else a
    ensures longer.states[|longer.acts|] == Apply(FIVE, r.states[|r.acts|], a)
    ensures FreshClaims(longer.acts, |longer.acts|)
            == FreshClaims(r.acts, |r.acts|) + if IsFresh(a) then 1 else 0
  {
    longer := Extend(FIVE, r, a);
    FreshPrefix(r.acts, [a], |r.acts|);
  }

  lemma OneMoreArrives(r: Run, k: nat) returns (longer: Run)
    requires IsFullRun(FIVE, r) && WorkerPath(r) && k > 0 && Stalled(r.states[|r.acts|], k - 1) && |r.acts| > 0
    ensures IsFullRun(FIVE, longer) && WorkerPath(longer) && |longer.acts| > 0 && longer.acts[0] == r.acts[0]
    ensures FreshClaims(longer.acts, |longer.acts|) == FreshClaims(r.acts, |r.acts|)
    ensures var s, t := r.states[|r.acts|], longer.states[|longer.acts|];
            t.clock == 1 && t.workers == s.workers && t.rows == s.rows + [NewEvent(Younger(k), 1)]
  {
    longer := ExtendCounted(r, Insert(Younger(k)));
  }

  /** Event 0 is locked and the others are held by young claims, so worker 1 takes the new one. */
  lemma NewestIsChosen(s: State, t: State, k: nat)
    requires k > 0 && Stalled(s, k - 1)
    requires t.clock == 1 && t.workers == s.workers && t.rows == s.rows + [NewEvent(Younger(k), 1)]
    ensures Enabled(FIVE, t, By(1, Lock(k)))
  {
    assert Locked(t.workers) == {0} by {
      assert t.workers[0].Claiming?;
    }
  }

  lemma OneMoreLocked(r: Run, k: nat) returns (longer: Run)
    requires IsFullRun(FIVE, r) && WorkerPath(r) && k > 0 && Stalled(r.states[|r.acts|], k - 1) && |r.acts| > 0
    ensures IsFullRun(FIVE, longer) && WorkerPath(longer) && |longer.acts| > 0 && longer.acts[0] == r.acts[0]
    ensures FreshClaims(longer.acts, |longer.acts|) == FreshClaims(r.acts, |r.acts|)
    ensures var s, t := r.states[|r.acts|], longer.states[|longer.acts|];
            && t.clock == 1 && t.workers == [Claiming(0, 1), Claiming(k, 1)]
            && t.rows == s.rows + [NewEvent(Younger(k), 1)]
  {
    longer := OneMoreArrives(r, k);
    var s, t := r.states[|r.acts|], longer.states[|longer.acts|];
    NewestIsChosen(s, t, k);
    longer := ExtendCounted(longer, By(1, Lock(k)));
    assert longer.states[|longer.acts|].rows == t.rows;
  }

  lemma OneMoreClaimed(r: Run, k: nat) returns (longer: Run)
    requires IsFullRun(FIVE, r) && WorkerPath(r) && k > 0 && Stalled(r.states[|r.acts|], k - 1) && |r.acts| > 0
    ensures IsFullRun(FIVE, longer) && WorkerPath(longer) && |longer.acts| > 0 && longer.acts[0] == r.acts[0]
    ensures FreshClaims(longer.acts, |longer.acts|) == FreshClaims(r.acts, |r.acts|) + 1
    ensures var s, t := r.states[|r.acts|], longer.states[|longer.acts|];
            && t.clock == 1 && t.workers == [Claiming(0, 1), Holding(k, 1)]
            && t.rows == s.rows + [Claimed(NewEvent(Younger(k), 1), 1)]
  {
    longer := OneMoreLocked(r, k);
    var s, t := r.states[|r.acts|], longer.states[|longer.acts|];
    assert t.rows[k] == NewEvent(Younger(k), 1);
    longer := ExtendCounted(longer, By(1, Commit(k, false)));
    assert longer.states[|longer.acts|].rows == s.rows + [Claimed(NewEvent(Younger(k), 1), 1)];
  }

  lemma OneMorePasses(r: Run, k: nat) returns (longer: Run)
    requires IsFullRun(FIVE, r) && WorkerPath(r) && k > 0 && Stalled(r.states[|r.acts|], k - 1) && |r.acts| > 0
    ensures IsFullRun(FIVE, longer) && WorkerPath(longer) && Stalled(longer.states[|longer.acts|], k)
    ensures |longer.acts| > 0 && longer.acts[0] == r.acts[0]
    ensures FreshClaims(longer.acts, |longer.acts|) == FreshClaims(r.acts, |r.acts|) + 1
  {
    longer := OneMoreClaimed(r, k);
    var t := longer.states[|longer.acts|];
    longer := ExtendCounted(longer, By(1, GiveUp));
    assert longer.states[|longer.acts|].rows == t.rows;
    assert longer.states[|longer.acts|].workers == [Claiming(0, 1), Idle];
  }

  lemma Arrive() returns (r: Run)
    ensures IsFullRun(FIVE, r) && WorkerPath(r) && |r.acts| == 1 && r.acts[0] == Insert(Younger(0))
    ensures var s := r.states[1];
            s.clock == 0 && s.workers == [Idle, Idle] && s.rows == [NewEvent(Younger(0), 0)]
    ensures FreshClaims(r.acts, 1) == 0
  {
    r := Run([State(0, [], map[], 0, [Idle, Idle], [], 0, 0)], []);
    r := ExtendCounted(r, Insert(Younger(0)));
  }

  lemma StallAlone() returns (r: Run)
    ensures IsFullRun(FIVE, r) && WorkerPath(r) && Stalled(r.states[|r.acts|], 0)
    ensures |r.acts| > 0 && r.acts[0] == Insert(Younger(0)) && FreshClaims(r.acts, |r.acts|) == 0
  {
    r := Arrive();
    r := ExtendCounted(r, Tick(1));
    assert Locked(r.states[|r.acts|].workers) == {};
    r := ExtendCounted(r, By(0, Lock(0)));
    assert r.states[|r.acts|].rows == [NewEvent(Younger(0), 0)];
  }

  lemma {:induction false} StallWith(k: nat) returns (r: Run)
    ensures IsFullRun(FIVE, r) && WorkerPath(r) && Stalled(r.states[|r.acts|], k)
    ensures |r.acts| > 0 && r.acts[0] == Insert(Younger(0)) && FreshClaims(r.acts, |r.acts|) == k
  {
    if k == 0 {
      r := StallAlone();
    } else {
      r := StallWith(k - 1);
      r := OneMorePasses(r, k);
    }
  }

  /**
   A concrete case of LockedEventIsPassed: for every k there is a run in which an event that arrives
   in an empty table is passed by k younger ones while a claim has it locked, and waits again when that claim aborts.
   */
  lemma OvertakingUnderLockIsUnbounded(k: nat)
    ensures exists r :: IsFullRun(FIVE, r) && WorkerPath(r) && |r.acts| > 0 && r.acts[0] == Insert(Younger(0))
                        && Waiting(r.states[|r.acts|], 0) && FreshClaims(r.acts, |r.acts|) == k
                        && forall j :: 0 < j < |r.states[|r.acts|].rows| ==>
                             r.states[|r.acts|].rows[0].receivedAt < r.states[|r.acts|].rows[j].receivedAt
  {
    var r := StallWith(k);
    var s := r.states[|r.acts|];
    r := ExtendCounted(r, By(0, Abort));
    assert r.states[|r.acts|].rows == s.rows;
    assert r.states[|r.acts|].workers == [Idle, Idle];
  }
}
