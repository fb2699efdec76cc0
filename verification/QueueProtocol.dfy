/**
 The leased event queue as a transition system: any number of workers in any number of processes, concurrent
 ingest calls, rule edits, crashes and a monotone clock, interleaved one SQL statement at a time.  A claim takes
 two steps, so that its row lock is visible to the SKIP LOCKED of other claims.
 */
module QueueProtocol {
  import opened Wrappers
  import opened Payloads
  import opened EventTable
  import opened RuleTable

  /** The arguments of ClaimNextWithLease: the attempt limit and the lease in seconds. */
  datatype Config = Config(maxAttempts: int, lease: nat)

  /** What the worker asks for: five attempts and the default lease. */
  const FIVE := Config(5, CLAIM_LEASE)

  /** Where a worker stands in ProcessOne and Finish. */
  datatype Pc =
    | Idle
    | Claiming(id: nat, at: Instant)                       // holds the row lock, UPDATE not committed
    | Holding(id: nat, since: Instant)                     // claimed, payload not looked at yet
    | Matched(id: nat, since: Instant, rule: Option<nat>)  // about to mark processed
    | Failing(id: nat, since: Instant, reason: string)     // about to mark failed
    | Marked(id: nat)                                      // marked processed, not counted yet
    | Returned                                             // found nothing to claim
    | Crashed

  /** How far a CreatePending call is: its insert hit the unique key, or it answered. */
  datatype Phase = Conflicted | Answered(id: nat, created: bool) | Missing

  datatype Call = Call(input: CreateInput, phase: Phase)

  datatype State = State(
    clock: Instant,
    rows: seq<Event>,
    rules: map<nat, Rule>,
    nextRule: nat,
    workers: seq<Pc>,
    calls: seq<Call>,
    counted: nat,     // IncProcessed calls ever made
    uncounted: nat)   // MarkProcessed commits whose worker was lost before counting

  /** A step of one worker. */
  datatype Op =
    | Lock(id: nat)
    | Commit(id: nat, reclaim: bool)
    | Abort
    | FindNothing
    | Poll
    | ClaimById(id: nat)
    | MatchRules(chosen: Option<nat>)
    | RejectPayload(reason: string)
    | ReadError(reason: string)
    | MarkProcessed(id: nat)
    | MarkFailed(id: nat)
    | MarkMiss(id: nat)
    | MarkRefused(id: nat)
    | GiveUp
    | Count
    | LoseCount
    | Crash
    | Restart

  datatype Action =
    | Tick(delay: nat)
    | Insert(input: CreateInput)
    | Lookup(call: nat, found: Option<nat>)
    | CreateRule(rule: Rule)
    | UpdateRule(ruleId: nat, rule: Rule)
    | DeleteRule(ruleId: nat, user: nat)
    | By(w: nat, op: Op)

  predicate Holds(pc: Pc) {
    pc.Holding? || pc.Matched? || pc.Failing?
  }

  predicate Marking(pc: Pc) {
    pc.Matched? || pc.Failing?
  }

  function Locked(workers: seq<Pc>): (locked: set<nat>)
    ensures forall w :: 0 <= w < |workers| && workers[w].Claiming? ==> workers[w].id in locked
    ensures forall id :: id in locked ==> exists w :: 0 <= w < |workers| && workers[w].Claiming? && workers[w].id == id
  {
    set w | 0 <= w < |workers| && workers[w].Claiming? :: workers[w].id
  }

  predicate RuleExists(s: State, rule: Option<nat>) {
    rule.Some? ==> rule.value in s.rules
  }

  /** A mark by a worker at pc reaches row id: no claim in flight has locked it. */
  predicate MarkReaches(s: State, pc: Pc, id: nat) {
    Marking(pc) && pc.id == id && id < |s.rows| && id !in Locked(s.workers)
  }

  /** What a worker at pc can do next; what a mark does depends on the row's status alone. */
  predicate OpEnabled(c: Config, s: State, pc: Pc, op: Op) {
    match op
    case Lock(id) =>
      pc.Idle? && ClaimChoice(s.rows, Locked(s.workers), c.maxAttempts, c.lease, s.clock, id)
    case Commit(id, reclaim) =>
      pc.Claiming? && pc.id == id && id < |s.rows| && (reclaim <==> s.rows[id].status.Processing?)
    case Abort => pc.Claiming?
    case FindNothing =>
      pc.Idle? && NothingToClaim(s.rows, Locked(s.workers), c.maxAttempts, c.lease, s.clock)
    case Poll => pc.Returned?
    case ClaimById(id) =>
      && pc.Idle? && id < |s.rows| && id !in Locked(s.workers)
      && (s.rows[id].status.Pending? || s.rows[id].status.Failed?)
    case MatchRules(chosen) =>
      && pc.Holding? && pc.id < |s.rows|
      && var input := s.rows[pc.id].input;
         var amount := PayloadAmount(input.payload);
         amount.Success? && FirstMatch(s.rules, input.user, input.kind, amount.value, chosen)
    case RejectPayload(reason) =>
      pc.Holding? && pc.id < |s.rows| && PayloadAmount(s.rows[pc.id].input.payload) == Failure(reason)
    case ReadError(_) => pc.Holding?
    case MarkProcessed(id) =>
      MarkReaches(s, pc, id) && pc.Matched? && s.rows[id].status.Processing? && RuleExists(s, pc.rule)
    case MarkFailed(id) =>
      MarkReaches(s, pc, id) && pc.Failing? && s.rows[id].status.Processing?
    case MarkMiss(id) =>
      MarkReaches(s, pc, id) && !s.rows[id].status.Processing?
    case MarkRefused(id) =>
      MarkReaches(s, pc, id) && pc.Matched? && s.rows[id].status.Processing? && !RuleExists(s, pc.rule)
    case GiveUp => Holds(pc)
    case Count => pc.Marked?
    case LoseCount => pc.Marked?
    case Crash => !pc.Crashed?
    case Restart => pc.Crashed?
  }

  predicate Enabled(c: Config, s: State, a: Action) {
    match a
    case Tick(_) => true
    case Insert(_) => true
    case Lookup(k, found) =>
      && k < |s.calls|
      && s.calls[k].phase.Conflicted?
      && (match found
          case Some(i) => i < |s.rows| && SameKey(s.rows[i].input, s.calls[k].input)
          case None => !HasKey(s.rows, s.calls[k].input))
    case CreateRule(rule) => rule.createdAt == s.clock
    case UpdateRule(r, rule) =>
      r in s.rules && rule.user == s.rules[r].user && rule.createdAt == s.rules[r].createdAt
    case DeleteRule(r, user) => r in s.rules && s.rules[r].user == user
    case By(w, op) => w < |s.workers| && OpEnabled(c, s, s.workers[w], op)
  }

  /** Where the worker goes. */
  function NextPc(clock: Instant, pc: Pc, op: Op): Pc {
    match op
    case Lock(id) => Claiming(id, clock)
    case Commit(id, _) => if pc.Claiming? then Holding(id, pc.at) else pc
    case Abort => Idle
    case FindNothing => Returned
    case Poll => Idle
    case ClaimById(id) => Holding(id, clock)
    case MatchRules(chosen) => if Holds(pc) then Matched(pc.id, pc.since, chosen) else pc
    case RejectPayload(reason) => if Holds(pc) then Failing(pc.id, pc.since, reason) else pc
    case ReadError(reason) => if Holds(pc) then Failing(pc.id, pc.since, reason) else pc
    case MarkProcessed(id) => Marked(id)
    case MarkFailed(_) => Idle
    case MarkMiss(_) => Idle
    case MarkRefused(_) => Idle
    case GiveUp => Idle
    case Count => Idle
    case LoseCount => Idle
    case Crash => Crashed
    case Restart => Idle
  }

  /** What the worker's statement makes of row id, which held e. */
  function NextRow(clock: Instant, pc: Pc, op: Op, id: nat, e: Event): Event {
    match op
    case Commit(i, _) => if i == id && pc.Claiming? then Claimed(e, pc.at) else e
    case ClaimById(i) => if i == id then Claimed(e, clock) else e
    case MarkProcessed(i) => if i == id && pc.Matched? then Succeeded(e, pc.rule, clock) else e
    case MarkFailed(i) => if i == id && pc.Failing? then AttemptFailed(e, pc.reason, clock) else e
    case _ => e
  }

  function Apply(c: Config, s: State, a: Action): State
    requires Enabled(c, s, a)
  {
    match a
    case Tick(delay) => s.(clock := s.clock + delay)
    case Insert(input) =>
      if HasKey(s.rows, input) then
        s.(calls := s.calls + [Call(input, Conflicted)])
      else
        s.(rows := s.rows + [NewEvent(input, s.clock)], calls := s.calls + [Call(input, Answered(|s.rows|, true))])
    case Lookup(k, found) =>
      var phase := if found.Some? then Answered(found.value, false) else Missing;
      s.(calls := s.calls[k := s.calls[k].(phase := phase)])
    case CreateRule(rule) => s.(rules := s.rules[s.nextRule := rule], nextRule := s.nextRule + 1)
    case UpdateRule(r, rule) => s.(rules := s.rules[r := rule])
    case DeleteRule(r, _) => s.(rules := s.rules - {r}, rows := UnlinkAll(s.rows, r))
    case By(w, op) =>
      var pc := s.workers[w];
      s.(workers := s.workers[w := NextPc(s.clock, pc, op)],
         rows := seq(|s.rows|, i requires 0 <= i < |s.rows| => NextRow(s.clock, pc, op, i, s.rows[i])),
         counted := s.counted + (if op.Count? then 1 else 0),
         uncounted := s.uncounted + (if op.LoseCount? || (op.Crash? && pc.Marked?) then 1 else 0))
  }

  predicate Init(s: State) {
    && s.rows == [] && s.rules == map[] && s.calls == []
    && s.counted == 0 && s.uncounted == 0
    && forall w :: 0 <= w < |s.workers| ==> s.workers[w].Idle?
  }

  /** States visited and the action taken between each two of them. */
  datatype Run = Run(states: seq<State>, acts: seq<Action>)

  ghost predicate IsRun(c: Config, r: Run) {
    && |r.states| == |r.acts| + 1
    && forall i {:trigger r.acts[i]} :: 0 <= i < |r.acts| ==>
         Enabled(c, r.states[i], r.acts[i]) && r.states[i + 1] == Apply(c, r.states[i], r.acts[i])
  }

  /** A run that starts with empty tables and idle workers. */
  ghost predicate IsFullRun(c: Config, r: Run) {
    IsRun(c, r) && Init(r.states[0])
  }

  /** A run goes on with any step enabled in its last state. */
  lemma Extend(c: Config, r: Run, a: Action) returns (longer: Run)
    requires IsRun(c, r) && Enabled(c, r.states[|r.acts|], a)
    ensures IsRun(c, longer) && longer.states[0] == r.states[0]
    ensures longer.acts == r.acts + [a] && longer.states[|longer.acts|] == Apply(c, r.states[|r.acts|], a)
    ensures longer.states[..|r.states|] == r.states
  {
    longer := Run(r.states + [Apply(c, r.states[|r.acts|], a)], r.acts + [a]);
  }

  /** The worker only calls ClaimNext; ClaimByID is there for tests. */
  predicate WorkerPath(r: Run) {
    forall i :: 0 <= i < |r.acts| ==> !(r.acts[i].By? && r.acts[i].op.ClaimById?)
  }

  // ----- What happened to an event during a run -----

  datatype Kind = FreshClaim | Reclaim | FailMark | DoneMark

  predicate Is(a: Action, kind: Kind, id: nat) {
    && a.By?
    && match kind
       case FreshClaim => (a.op.Commit? && a.op.id == id && !a.op.reclaim) || (a.op.ClaimById? && a.op.id == id)
       case Reclaim => a.op.Commit? && a.op.id == id && a.op.reclaim
       case FailMark => a.op.MarkFailed? && a.op.id == id
       case DoneMark => a.op.MarkProcessed? && a.op.id == id
  }

  /** How often the first n actions did kind to event id. */
  function Tally(acts: seq<Action>, n: nat, kind: Kind, id: nat): nat
    requires n <= |acts|
  {
    if n == 0 then 0 else Tally(acts, n - 1, kind, id) + if Is(acts[n - 1], kind, id) then 1 else 0
  }
}
