/** How long a pending event can be overtaken. */
module QueueFairness {
  import opened Wrappers
  import opened Sums
  import opened EventTable
  import opened QueueProtocol
  import opened QueueInvariants
  import opened QueueProgress

  /** Claims an event can still take, lease reclaims aside. */
  function Credit(max: int, e: Event): int {
    if e.status.Processed? then 0 else max - e.attempts - if e.status.Processing? then 1 else 0
  }

  function Credits(max: int, rows: seq<Event>): seq<int> {
    seq(|rows|, j requires 0 <= j < |rows| => Credit(max, rows[j]))
  }

  /** Rows added after event id with the very same received_at. */
  function Ties(rows: seq<Event>, id: nat): seq<int>
    requires id < |rows|
  {
    seq(|rows|, j requires 0 <= j < |rows| => if id < j && rows[j].receivedAt <= rows[id].receivedAt then 1 else 0)
  }

  /** Claims of pending or failed rows among the first n actions. */
  function FreshClaims(acts: seq<Action>, n: nat): nat
    requires n <= |acts|
  {
    if n == 0 then 0
    else FreshClaims(acts, n - 1) + if IsFresh(acts[n - 1]) then 1 else 0
  }

  predicate IsClaim(a: Action) {
    a.By? && a.op.Commit?
  }

  predicate IsFresh(a: Action) {
    IsClaim(a) && !a.op.reclaim
  }

  /** The event is pending and no claim in flight has picked it. */
  ghost predicate Waiting(s: State, id: nat) {
    id < |s.rows| && s.rows[id].status.Pending? && id !in Locked(s.workers)
  }

  // ----- The potential of the rows that may go before event id -----

  function Share(max: int, rows: seq<Event>, id: nat, j: nat): int
    requires id < |rows| && j < |rows|
  {
    if j == id || rows[id].receivedAt < rows[j].receivedAt then 0
    else Credit(max, rows[j]) - if id < j then max else 0
  }

  function Shares(max: int, rows: seq<Event>, id: nat): seq<int>
    requires id < |rows|
  {
    seq(|rows|, j requires 0 <= j < |rows| => Share(max, rows, id, j))
  }

  /** Which workers have a claim in flight on a row received after event id. */
  function Flights(s: State, id: nat): seq<int>
    requires id < |s.rows|
  {
    seq(|s.workers|, w requires 0 <= w < |s.workers| => if PassesBy(s, s.workers[w], id) then 1 else 0)
  }

  predicate PassesBy(s: State, pc: Pc, id: nat)
    requires id < |s.rows|
  {
    pc.Claiming? && pc.id < |s.rows| && s.rows[id].receivedAt < s.rows[pc.id].receivedAt
  }

  /** Claims that others can still complete while event id waits, lease reclaims and later arrivals aside. */
  function Potential(c: Config, s: State, id: nat): int
    requires id < |s.rows|
  {
    Sum(Shares(c.maxAttempts, s.rows, id)) + Sum(Flights(s, id))
  }

  lemma CreditStep(c: Config, s: State, a: Action, j: nat)
    requires Inv(c, s) && Enabled(c, s, a) && j < |s.rows| && !(a.By? && a.op.ClaimById?)
    requires InBudget(c.maxAttempts, s.rows[j])
    ensures Credit(c.maxAttempts, RowAfter(s, a, j)) + (if IsFresh(a) && a.op.id == j then 1 else 0)
            <= Credit(c.maxAttempts, s.rows[j])
  {
  }

  lemma PickIsOlder(c: Config, s: State, a: Action, id: nat)
    requires Enabled(c, s, a) && a.By? && a.op.Lock? && Waiting(s, id)
    ensures a.op.id < |s.rows| && s.rows[a.op.id].receivedAt <= s.rows[id].receivedAt
  {
    assert Eligible(s.rows[id], c.maxAttempts, c.lease, s.clock);
  }

  lemma SharesFall(max: int, before: seq<Event>, after: seq<Event>, id: nat, claimed: Option<nat>)
    requires id < |before| && |before| <= |after| <= |before| + 1
    requires forall j :: 0 <= j < |before| ==>
               && after[j].receivedAt == before[j].receivedAt
               && Credit(max, after[j]) + (if claimed == Some(j) then 1 else 0) <= Credit(max, before[j])
    requires |after| > |before| ==> Credit(max, after[|before|]) == max
    requires claimed.Some? ==> claimed.value < |before| && claimed.value != id
    ensures var counts := claimed.Some? && before[claimed.value].receivedAt <= before[id].receivedAt;
            Sum(Shares(max, after, id)) + (if counts then 1 else 0) <= Sum(Shares(max, before, id))
  {
    var was, now := Shares(max, before, id), Shares(max, after, id);
    var kept := now[..|before|];
    if claimed.Some? && before[claimed.value].receivedAt <= before[id].receivedAt {
      var k := claimed.value;
      SumUpdate(was, k, was[k] - 1);
      SumMonotone(kept, was[k := was[k] - 1]);
    } else {
      SumMonotone(kept, was);
    }
    if |after| > |before| {
      assert now == kept + [0];
      SumAppend(kept, 0);
    } else {
      assert now == kept;
    }
  }

  lemma SharesStep(c: Config, s: State, a: Action, id: nat)
    requires Inv(c, s) && Enabled(c, s, a) && !(a.By? && a.op.ClaimById?) && Waiting(s, id)
    requires forall j :: 0 <= j < |s.rows| ==> InBudget(c.maxAttempts, s.rows[j])
    ensures IsFresh(a) ==> a.op.id < |s.rows|
    ensures var counts := IsFresh(a) && s.rows[a.op.id].receivedAt <= s.rows[id].receivedAt;
            Sum(Shares(c.maxAttempts, Apply(c, s, a).rows, id)) + (if counts then 1 else 0)
            <= Sum(Shares(c.maxAttempts, s.rows, id))
  {
    var after := Apply(c, s, a).rows;
    var claimed := if IsFresh(a) then Some(a.op.id) else None;
    StepRows(c, s, a);
    forall j | 0 <= j < |s.rows|
      ensures after[j].receivedAt == s.rows[j].receivedAt
      ensures Credit(c.maxAttempts, after[j]) + (if claimed == Some(j) then 1 else 0)
              <= Credit(c.maxAttempts, s.rows[j])
    {
      CreditStep(c, s, a, j);
    }
    SharesFall(c.maxAttempts, s.rows, after, id, claimed);
  }

  /** Worker w's own step ends its claim in flight, or picks no younger row; other steps leave it in flight. */
  lemma FlightStep(c: Config, s: State, a: Action, id: nat, w: nat)
    requires Inv(c, s) && Enabled(c, s, a) && Waiting(s, id) && w < |s.workers|
    ensures var t := Apply(c, s, a);
            && |t.workers| == |s.workers| && id < |t.rows|
            && Flights(t, id)[w]
               == if a.By? && a.w == w then 0 else Flights(s, id)[w]
  {
    var t := Apply(c, s, a);
    StepRows(c, s, a);
    StepWorkers(c, s, a);
    assert PcFits(c, s.rows, s.workers[w]);
    if a.By? && a.w == w {
      if a.op.Lock? {
        PickIsOlder(c, s, a, id);
      }
    } else if s.workers[w].Claiming? {
      assert t.rows[s.workers[w].id].receivedAt == s.rows[s.workers[w].id].receivedAt;
    }
  }

  lemma FlightsFall(c: Config, s: State, a: Action, id: nat)
    requires Inv(c, s) && Enabled(c, s, a) && Waiting(s, id)
    ensures id < |Apply(c, s, a).rows| && (IsClaim(a) ==> a.op.id < |s.rows|)
    ensures var passes := IsClaim(a) && s.rows[id].receivedAt < s.rows[a.op.id].receivedAt;
            Sum(Flights(Apply(c, s, a), id)) + (if passes then 1 else 0) <= Sum(Flights(s, id))
  {
    var t := Apply(c, s, a);
    StepRows(c, s, a);
    StepWorkers(c, s, a);
    forall w | 0 <= w < |s.workers|
      ensures Flights(t, id)[w] == if a.By? && a.w == w then 0 else Flights(s, id)[w]
    {
      FlightStep(c, s, a, id, w);
    }
    if a.By? {
      assert Flights(t, id) == Flights(s, id)[a.w := 0];
      SumUpdate(Flights(s, id), a.w, 0);
    } else {
      assert Flights(t, id) == Flights(s, id);
    }
  }

  lemma PotentialStep(c: Config, s: State, a: Action, id: nat)
    requires Inv(c, s) && Enabled(c, s, a) && !(a.By? && a.op.ClaimById?) && Waiting(s, id)
    requires forall j :: 0 <= j < |s.rows| ==> InBudget(c.maxAttempts, s.rows[j])
    ensures id < |Apply(c, s, a).rows| && (IsClaim(a) ==> a.op.id < |s.rows|)
    ensures var costs := IsClaim(a) && (!a.op.reclaim || s.rows[id].receivedAt < s.rows[a.op.id].receivedAt);
            Potential(c, Apply(c, s, a), id) + (if costs then 1 else 0) <= Potential(c, s, id)
  {
    SharesStep(c, s, a, id);
    FlightsFall(c, s, a, id);
  }

  /** Event id waits from the b-th state up to the n-th. */
  ghost predicate WaitsFrom(c: Config, r: Run, b: nat, n: nat, id: nat) {
    && IsFullRun(c, r) && WorkerPath(r) && c.maxAttempts >= 1
    && b <= n <= |r.acts|
    && (forall i :: b <= i <= n ==> Waiting(r.states[i], id))
  }

  lemma PotentialAt(c: Config, r: Run, n: nat, id: nat)
    requires IsFullRun(c, r) && WorkerPath(r) && c.maxAttempts >= 1 && n < |r.acts| && Waiting(r.states[n], id)
    ensures id < |r.states[n + 1].rows|
    ensures Potential(c, r.states[n + 1], id) + (if IsFresh(r.acts[n]) then 1 else 0) <= Potential(c, r.states[n], id)
  {
    AlwaysInv(c, r, n);
    AttemptsBounded(c, r, n);
    PotentialStep(c, r.states[n], r.acts[n], id);
  }

  /** Step n uses up potential if it is a claim, and adds none. */
  ghost predicate Spends(c: Config, r: Run, n: nat, id: nat)
    requires n < |r.acts| < |r.states|
  {
    && id < |r.states[n].rows| && id < |r.states[n + 1].rows|
    && Potential(c, r.states[n + 1], id) + (if IsFresh(r.acts[n]) then 1 else 0) <= Potential(c, r.states[n], id)
  }

  lemma {:induction false} SpendUpTo(c: Config, r: Run, b: nat, n: nat, id: nat)
    requires b <= n <= |r.acts| < |r.states| && id < |r.states[b].rows|
    requires forall i :: b <= i < n ==> Spends(c, r, i, id)
    ensures id < |r.states[n].rows|
    ensures FreshClaims(r.acts, n) - FreshClaims(r.acts, b) + Potential(c, r.states[n], id)
            <= Potential(c, r.states[b], id)
  {
    if b < n {
      SpendUpTo(c, r, b, n - 1, id);
      assert Spends(c, r, n - 1, id);
    }
  }

  /** Over any stretch of waiting, each claim of another event, lease reclaims aside, uses up potential. */
  lemma PotentialIsSpent(c: Config, r: Run, b: nat, n: nat, id: nat)
    requires WaitsFrom(c, r, b, n, id)
    ensures id < |r.states[b].rows| && id < |r.states[n].rows|
    ensures FreshClaims(r.acts, n) - FreshClaims(r.acts, b) + Potential(c, r.states[n], id)
            <= Potential(c, r.states[b], id)
  {
    assert Waiting(r.states[b], id);
    forall i | b <= i < n
      ensures Spends(c, r, i, id)
    {
      assert Waiting(r.states[i], id);
      PotentialAt(c, r, i, id);
    }
    SpendUpTo(c, r, b, n, id);
  }

  lemma StartWaiting(c: Config, s: State, a: Action)
    requires Inv(c, s) && Enabled(c, s, a) && |Apply(c, s, a).rows| > |s.rows|
    ensures Potential(c, Apply(c, s, a), |s.rows|) == Sum(Credits(c.maxAttempts, s.rows))
  {
    var t, id := Apply(c, s, a), |s.rows|;
    StepRows(c, s, a);
    StepWorkers(c, s, a);
    forall j | 0 <= j < |s.rows|
      ensures t.rows[j] == s.rows[j] && Timely(s.rows[j], s.clock)
    {
    }
    assert Shares(c.maxAttempts, t.rows, id) == Credits(c.maxAttempts, s.rows) + [0];
    SumAppend(Credits(c.maxAttempts, s.rows), 0);
    forall w | 0 <= w < |t.workers|
      ensures Flights(t, id)[w] == 0
    {
      assert PcFits(c, s.rows, s.workers[w]);
    }
    SumBounds(Flights(t, id), 0, 0);
  }

  /** What the ties may owe: each at most max. */
  function Debts(max: int, rows: seq<Event>, id: nat): seq<int>
    requires id < |rows|
  {
    seq(|rows|, j requires 0 <= j < |rows| => if Ties(rows, id)[j] == 1 then -max else 0)
  }

  lemma SharesCoverDebts(max: int, rows: seq<Event>, id: nat, j: nat)
    requires id < |rows| && j < |rows| && max >= 0 && InBudget(max, rows[j])
    ensures Debts(max, rows, id)[j] <= Shares(max, rows, id)[j]
  {
    assert Credit(max, rows[j]) >= 0;
    assert Shares(max, rows, id)[j] == Share(max, rows, id, j);
    assert Ties(rows, id)[j] == if id < j && rows[j].receivedAt <= rows[id].receivedAt then 1 else 0;
  }

  lemma TiesPayForThemselves(max: int, rows: seq<Event>, id: nat)
    requires id < |rows| && max >= 0
    requires forall j :: 0 <= j < |rows| ==> InBudget(max, rows[j])
    ensures Sum(Shares(max, rows, id)) >= -(max * Sum(Ties(rows, id)))
  {
    var debts, shares := Debts(max, rows, id), Shares(max, rows, id);
    forall j | 0 <= j < |rows|
      ensures debts[j] <= shares[j]
    {
      SharesCoverDebts(max, rows, id, j);
    }
    SumMonotone(debts, shares);
    DebtSum(Ties(rows, id), max, debts);
  }

  lemma {:induction false} DebtSum(ties: seq<int>, max: int, debts: seq<int>)
    requires |ties| == |debts|
    requires forall i :: 0 <= i < |ties| ==> (ties[i] == 1 && debts[i] == -max) || (ties[i] == 0 && debts[i] == 0)
    ensures Sum(debts) == -(max * Sum(ties))
  {
    if |ties| > 0 {
      var n := |ties| - 1;
      DebtSum(ties[..n], max, debts[..n]);
      assert max * (Sum(ties[..n]) + ties[n]) == max * Sum(ties[..n]) + max * ties[n];
    }
  }

  /**
   Bounded overtaking, for any stretch of waiting and wherever it begins, be it after a claim that picked the event
   and aborted: other events are claimed, lease reclaims aside, no more often than there are attempts left to rows
   received no later and claims already in flight on younger rows.  (Rows that arrive during the stretch with the
   very same received_at add their attempts.)
   */
  lemma OvertakingIsBounded(c: Config, r: Run, b: nat, n: nat, id: nat)
    requires WaitsFrom(c, r, b, n, id)
    ensures id < |r.states[b].rows| && id < |r.states[n].rows|
    ensures FreshClaims(r.acts, n) - FreshClaims(r.acts, b)
            <= Potential(c, r.states[b], id) + c.maxAttempts * Sum(Ties(r.states[n].rows, id))
  {
    PotentialIsSpent(c, r, b, n, id);
    AttemptsBounded(c, r, n);
    TiesPayForThemselves(c.maxAttempts, r.states[n].rows, id);
    SumBounds(Flights(r.states[n], id), 0, 1);
  }

  /**
   From the insertion on, while no claim picks the event: the claims of other events number at most the attempts left
   to the rows already in the table when it arrived (and to rows that arrived in the same microsecond), lease reclaims
   aside.  QueueReclaims bounds those by the time waited.
   */
  lemma BoundedOvertaking(c: Config, r: Run, b: nat, n: nat, id: nat)
    requires b < n && WaitsFrom(c, r, b + 1, n, id) && |r.states[b].rows| == id
    ensures id < |r.states[n].rows|
    ensures FreshClaims(r.acts, n) - FreshClaims(r.acts, b + 1)
            <= Sum(Credits(c.maxAttempts, r.states[b].rows)) + c.maxAttempts * Sum(Ties(r.states[n].rows, id))
  {
    assert Waiting(r.states[b + 1], id);
    OvertakingIsBounded(c, r, b + 1, n, id);
    AlwaysInv(c, r, b);
    assert Enabled(c, r.states[b], r.acts[b]);
    StepRows(c, r.states[b], r.acts[b]);
    StartWaiting(c, r.states[b], r.acts[b]);
  }
}
