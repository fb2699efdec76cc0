/**
 The interceptor and the server's token table together: concurrent 401 handlers, logins and logouts of one client,
 interleaved at every await, over two-step saves and clears, with refresh responses that may be lost or overtaken.
 */
module RefreshProtocol {
  import opened Wrappers

  /** Where one request's code stands. */
  datatype Pc =
    | Sent                               // the request is under way
    | Waiting(gate: nat)                 // got a 401 while another handler refreshes
    | Reading                            // refreshing: about to read the stored refresh token
    | AtServer(token: nat)               // refreshing: the call has been sent
    | Consumed(token: nat)               // refreshing: the server has deleted the token
    | Answering(token: nat, next: nat)   // refreshing: the server has saved the next token and replied
    | SavingAccess(token: nat, next: nat)
    | SavingRefresh(token: nat, next: nat)
    | Resuming                           // refreshed: about to read the access token for the retry
    | ClearingAccess                     // on the failure path, or logging out
    | ClearingRefresh
    | LoginAccess(next: nat)             // saving the tokens of a login or register
    | LoginRefresh(next: nat)
    | Done

  datatype Job = Job(pc: Pc, sends: nat, login: bool)

  datatype State = State(
    access: Option<nat>,
    refresh: Option<nat>,
    refreshing: bool,
    gate: nat,           // counts the completers created
    jobs: seq<Job>,
    live: set<nat>,      // refresh tokens in the server's table
    minted: nat,         // tokens issued so far
    late: set<nat>,      // tokens of refresh calls the client gave up on and the server has yet to see
    answered: set<nat>)  // tokens whose successful refresh response was received

  datatype Action =
    | Start(login: bool)
    | Logout
    | Succeed(k: nat)
    | Break(k: nat)
    | Unauthorized(k: nat)
    | Read(k: nat)
    | ServerConsume(k: nat)
    | ServerReject(k: nat)
    | ServerIssue(k: nat)
    | Lose(k: nat)
    | ServeLate(token: nat)
    | Receive(k: nat)
    | WriteAccess(k: nat)
    | WriteRefresh(k: nat)
    | Resume(k: nat)
    | ClearAccess(k: nat)
    | ClearRefresh(k: nat)

  /** The handler whose refresh is outstanding. */
  predicate Leads(pc: Pc) {
    pc.Reading? || pc.AtServer? || pc.Consumed? || pc.Answering? || pc.SavingAccess? || pc.SavingRefresh?
  }

  predicate Clearing(pc: Pc) {
    pc.ClearingAccess? || pc.ClearingRefresh?
  }

  predicate Enabled(s: State, a: Action) {
    match a
    case Start(_) => true
    case Logout => true
    case Succeed(k) => k < |s.jobs| && s.jobs[k].pc.Sent?
    case Break(k) => k < |s.jobs| && s.jobs[k].pc.Sent?
    case Unauthorized(k) => k < |s.jobs| && s.jobs[k].pc.Sent?
    case Read(k) => k < |s.jobs| && s.jobs[k].pc.Reading?
    case ServerConsume(k) => k < |s.jobs| && s.jobs[k].pc.AtServer? && s.jobs[k].pc.token in s.live
    case ServerReject(k) => k < |s.jobs| && s.jobs[k].pc.AtServer? && s.jobs[k].pc.token !in s.live
    case ServerIssue(k) => k < |s.jobs| && s.jobs[k].pc.Consumed?
    case Lose(k) =>
      k < |s.jobs| && (s.jobs[k].pc.AtServer? || s.jobs[k].pc.Consumed? || s.jobs[k].pc.Answering?)
    case ServeLate(token) => token in s.late
    case Receive(k) => k < |s.jobs| && s.jobs[k].pc.Answering?
    case WriteAccess(k) => k < |s.jobs| && (s.jobs[k].pc.SavingAccess? || s.jobs[k].pc.LoginAccess?)
    case WriteRefresh(k) => k < |s.jobs| && (s.jobs[k].pc.SavingRefresh? || s.jobs[k].pc.LoginRefresh?)
    case Resume(k) => k < |s.jobs| && s.jobs[k].pc.Resuming?
    case ClearAccess(k) => k < |s.jobs| && s.jobs[k].pc.ClearingAccess?
    case ClearRefresh(k) => k < |s.jobs| && s.jobs[k].pc.ClearingRefresh?
  }

  function Goto(s: State, k: nat, pc: Pc): State
    requires k < |s.jobs|
  {
    s.(jobs := s.jobs[k := s.jobs[k].(pc := pc)])
  }

  /** The refresh of job k is over: it and every waiter on its gate go on to pc, and the flag is reset. */
  function Release(s: State, k: nat, pc: Pc): State
    requires k < |s.jobs|
  {
    s.(refreshing := false,
       jobs := seq(|s.jobs|, i requires 0 <= i < |s.jobs| =>
                  if i == k || s.jobs[i].pc == Waiting(s.gate) then s.jobs[i].(pc := pc) else s.jobs[i]))
  }

  /** The server issues a token. */
  function Mint(s: State): State {
    s.(live := s.live + {s.minted}, minted := s.minted + 1)
  }

  function Apply(s: State, a: Action): State
    requires Enabled(s, a)
  {
    match a
    case Start(login) => s.(jobs := s.jobs + [Job(Sent, 1, login)])
    case Logout => s.(jobs := s.jobs + [Job(ClearingAccess, 0, false)])
    case Succeed(k) =>
      if s.jobs[k].login then Goto(Mint(s), k, LoginAccess(s.minted)) else Goto(s, k, Done)
    case Break(k) => Goto(s, k, if s.jobs[k].sends == 1 then Done else ClearingAccess)
    case Unauthorized(k) =>
      if s.jobs[k].sends != 1 then Goto(s, k, ClearingAccess)
      else if s.refreshing then Goto(s, k, Waiting(s.gate))
      else Goto(s.(refreshing := true, gate := s.gate + 1), k, Reading)
    case Read(k) =>
      if s.refresh.None? then Release(s, k, ClearingAccess) else Goto(s, k, AtServer(s.refresh.value))
    case ServerConsume(k) =>
      var token := s.jobs[k].pc.token;
      Goto(s.(live := s.live - {token}), k, Consumed(token))
    case ServerReject(k) => Release(s, k, ClearingAccess)
    case ServerIssue(k) => Goto(Mint(s), k, Answering(s.jobs[k].pc.token, s.minted))
    case Lose(k) =>
      var pc := s.jobs[k].pc;
      Release(if pc.AtServer? then s.(late := s.late + {pc.token}) else s, k, ClearingAccess)
    case ServeLate(token) =>
      var t := s.(late := s.late - {token}, live := s.live - {token});
      if token in s.live then Mint(t) else t
    case Receive(k) =>
      var pc := s.jobs[k].pc;
      Goto(s.(answered := s.answered + {pc.token}), k, SavingAccess(pc.token, pc.next))
    case WriteAccess(k) =>
      var pc := s.jobs[k].pc;
      Goto(s.(access := Some(pc.next)), k,
           if pc.SavingAccess? then SavingRefresh(pc.token, pc.next) else LoginRefresh(pc.next))
    case WriteRefresh(k) =>
      var pc := s.jobs[k].pc;
      var t := s.(refresh := Some(pc.next));
      if pc.SavingRefresh? then Release(t, k, Resuming) else Goto(t, k, Done)
    case Resume(k) =>
      if s.access.None? then Goto(s, k, Done)
      else s.(jobs := s.jobs[k := s.jobs[k].(pc := Sent, sends := s.jobs[k].sends + 1)])
    case ClearAccess(k) => Goto(s.(access := None), k, ClearingRefresh)
    case ClearRefresh(k) => Goto(s.(refresh := None), k, Done)
  }

  predicate Init(s: State) {
    s == State(None, None, false, 0, [], {}, 0, {}, {})
  }

  datatype Run = Run(states: seq<State>, acts: seq<Action>)

  ghost predicate IsRun(r: Run) {
    && |r.states| == |r.acts| + 1
    && Init(r.states[0])
    && forall i {:trigger r.acts[i]} :: 0 <= i < |r.acts| ==>
         Enabled(r.states[i], r.acts[i]) && r.states[i + 1] == Apply(r.states[i], r.acts[i])
  }

  // ----- Invariants, job by job -----

  /** The job is about to store this token. */
  predicate Carries(pc: Pc) {
    pc.Answering? || pc.SavingAccess? || pc.SavingRefresh? || pc.LoginAccess? || pc.LoginRefresh?
  }

  /** The server has taken the job's refresh token, and the job is to overwrite it in storage. */
  predicate Replaces(pc: Pc) {
    pc.Consumed? || pc.Answering? || pc.SavingAccess? || pc.SavingRefresh?
  }

  /** A leader or waiter keeps the flag up, waits for the current gate, and has sent its request once. */
  predicate FlagFits(s: State, job: Job) {
    var pc := job.pc;
    && job.sends <= 2
    && (Leads(pc) || pc.Waiting? || pc.Resuming? ==> job.sends == 1)
    && (Leads(pc) || pc.Waiting? ==> s.refreshing)
    && (pc.Waiting? ==> pc.gate == s.gate)
  }

  /** A token on its way to storage is live and not stored yet; a token being replaced is dead. */
  predicate JobTokensFit(s: State, pc: Pc) {
    && (Carries(pc) ==> pc.next in s.live && pc.next !in s.late && s.refresh != Some(pc.next))
    && (pc.AtServer? ==> pc.token < s.minted && pc.token !in s.answered)
    && (Replaces(pc) ==> pc.token < s.minted && pc.token !in s.live)
  }

  predicate JobFits(s: State, job: Job) {
    FlagFits(s, job) && JobTokensFit(s, job.pc)
  }

  /** Two jobs: one leader at most, and a token on its way to storage is known to one of them only. */
  predicate PairFits(p: Pc, q: Pc) {
    && !(Leads(p) && Leads(q))
    && (Carries(p) && Carries(q) ==> p.next != q.next)
    && (p.AtServer? && Carries(q) ==> p.token != q.next)
    && (q.AtServer? && Carries(p) ==> q.token != p.next)
  }

  /** Tokens exist only once they are issued, and an answered one is dead. */
  ghost predicate TokensFit(s: State) {
    && (forall t :: t in s.live || t in s.late || t in s.answered ==> t < s.minted)
    && (forall t :: t in s.answered ==> t !in s.live)
    && (s.refresh.Some? ==> s.refresh.value < s.minted)
  }

  ghost predicate SomeoneLeads(s: State) {
    exists k :: 0 <= k < |s.jobs| && Leads(s.jobs[k].pc)
  }

  ghost predicate SomeoneClears(s: State) {
    exists k :: 0 <= k < |s.jobs| && Clearing(s.jobs[k].pc)
  }

  ghost predicate SomeoneReplaces(s: State, token: nat) {
    exists k :: 0 <= k < |s.jobs| && Replaces(s.jobs[k].pc) && s.jobs[k].pc.token == token
  }

  ghost predicate SomeoneSaves(s: State, token: nat) {
    exists k ::
      0 <= k < |s.jobs| && (s.jobs[k].pc.SavingAccess? || s.jobs[k].pc.SavingRefresh?) && s.jobs[k].pc.token == token
  }

  /** A stored token that is dead, or about to die, is being replaced or cleared. */
  ghost predicate StoredFits(s: State) {
    s.refresh.Some? ==>
      && (s.refresh.value !in s.live || s.refresh.value in s.late ==>
            SomeoneClears(s) || SomeoneReplaces(s, s.refresh.value))
      && (s.refresh.value in s.answered ==> SomeoneSaves(s, s.refresh.value))
  }

  ghost predicate Inv(s: State) {
    && TokensFit(s)
    && (forall k :: 0 <= k < |s.jobs| ==> JobFits(s, s.jobs[k]))
    && (forall j, k :: 0 <= j < k < |s.jobs| ==> PairFits(s.jobs[j].pc, s.jobs[k].pc))
    && (s.refreshing ==> SomeoneLeads(s))
    && StoredFits(s)
  }

  /** The job a step belongs to. */
  function Actor(a: Action): Option<nat> {
    match a
    case Start(_) => None
    case Logout => None
    case ServeLate(_) => None
    case _ => Some(a.k)
  }

  /** The step ends the refresh that is outstanding. */
  predicate Releases(s: State, a: Action) {
    || (a.Read? && s.refresh.None?)
    || a.ServerReject? || a.Lose?
    || (a.WriteRefresh? && a.k < |s.jobs| && s.jobs[a.k].pc.SavingRefresh?)
  }

  /** Other jobs do not move, except that a waiter is let go when the refresh ends. */
  lemma OthersStay(s: State, a: Action, k: nat)
    requires Enabled(s, a) && k < |s.jobs| && Actor(a) != Some(k)
    ensures var t := Apply(s, a);
            && k < |t.jobs|
            && t.jobs[k].sends == s.jobs[k].sends
            && (t.jobs[k] == s.jobs[k]
                || (Releases(s, a) && s.jobs[k].pc == Waiting(s.gate)
                    && (t.jobs[k].pc.Resuming? || t.jobs[k].pc.ClearingAccess?)))
            && (Releases(s, a) ==> !t.refreshing && t.jobs[k].pc != Waiting(s.gate))
            && (Actor(a).Some? ==> Actor(a).value < |s.jobs|)
            && |s.jobs| <= |t.jobs| <= |s.jobs| + 1 && (|t.jobs| > |s.jobs| ==> a.Start? || a.Logout?)
  {
  }

  lemma TokensStep(s: State, a: Action)
    requires Inv(s) && Enabled(s, a)
    ensures TokensFit(Apply(s, a))
  {
    if Actor(a).Some? {
      assert JobFits(s, s.jobs[a.k]);
    }
  }

  lemma ActorFlag(s: State, a: Action)
    requires Inv(s) && Enabled(s, a) && Actor(a).Some?
    ensures FlagFits(Apply(s, a), Apply(s, a).jobs[a.k])
  {
    assert JobFits(s, s.jobs[a.k]);
  }

  lemma ReaderFindsUnanswered(s: State, k: nat)
    requires Inv(s) && k < |s.jobs| && s.jobs[k].pc.Reading? && s.refresh.Some?
    ensures s.refresh.value !in s.answered
  {
    forall l | 0 <= l < |s.jobs|
      ensures !s.jobs[l].pc.SavingAccess? && !s.jobs[l].pc.SavingRefresh?
    {
      if l != k {
        assert PairFits(s.jobs[k].pc, s.jobs[l].pc);
      }
    }
  }

  lemma ActorTokens(s: State, a: Action)
    requires Inv(s) && Enabled(s, a) && Actor(a).Some?
    ensures JobTokensFit(Apply(s, a), Apply(s, a).jobs[a.k].pc)
  {
    assert JobFits(s, s.jobs[a.k]);
    if a.Read? && s.refresh.Some? {
      ReaderFindsUnanswered(s, a.k);
    }
  }

  lemma OtherStep(s: State, a: Action, k: nat)
    requires Inv(s) && Enabled(s, a) && k < |s.jobs| && Actor(a) != Some(k)
    ensures JobFits(Apply(s, a), Apply(s, a).jobs[k])
  {
    OthersStay(s, a, k);
    assert JobFits(s, s.jobs[k]);
    if Actor(a).Some? {
      assert JobFits(s, s.jobs[a.k]);
      assert PairFits(s.jobs[k].pc, s.jobs[a.k].pc);
    }
  }

  lemma ActorPair(s: State, a: Action, k: nat)
    requires Inv(s) && Enabled(s, a) && Actor(a).Some? && k < |s.jobs| && Actor(a) != Some(k)
    ensures PairFits(Apply(s, a).jobs[a.k].pc, s.jobs[k].pc)
  {
    assert PairFits(s.jobs[a.k].pc, s.jobs[k].pc);
    assert JobFits(s, s.jobs[a.k]) && JobFits(s, s.jobs[k]);
  }

  lemma PairStep(s: State, a: Action, j: nat, k: nat)
    requires Inv(s) && Enabled(s, a) && j < |s.jobs| && k < |s.jobs| && j != k && Actor(a) != Some(k)
    ensures PairFits(Apply(s, a).jobs[j].pc, Apply(s, a).jobs[k].pc)
  {
    OthersStay(s, a, k);
    if Actor(a) == Some(j) {
      ActorPair(s, a, k);
    } else {
      OthersStay(s, a, j);
      assert PairFits(s.jobs[j].pc, s.jobs[k].pc);
    }
  }

  lemma NewJobPairs(s: State, a: Action, j: nat)
    requires Inv(s) && Enabled(s, a) && j < |s.jobs| && (a.Start? || a.Logout?)
    ensures PairFits(Apply(s, a).jobs[j].pc, Apply(s, a).jobs[|s.jobs|].pc)
    ensures JobFits(Apply(s, a), Apply(s, a).jobs[|s.jobs|])
  {
  }

  lemma FlagStep(s: State, a: Action)
    requires Inv(s) && Enabled(s, a) && Apply(s, a).refreshing
    ensures SomeoneLeads(Apply(s, a))
  {
    var t := Apply(s, a);
    if s.refreshing {
      var k :| 0 <= k < |s.jobs| && Leads(s.jobs[k].pc);
      if Actor(a) == Some(k) {
        assert Leads(t.jobs[k].pc);
      } else {
        OthersStay(s, a, k);
        assert t.jobs[k] == s.jobs[k];
      }
    } else {
      assert Leads(t.jobs[a.k].pc);
    }
  }

  /** A job that clears, or replaces the token, still does so, unless the step was its own. */
  lemma KeeperStays(s: State, a: Action, k: nat)
    requires Enabled(s, a) && k < |s.jobs| && Actor(a) != Some(k)
    requires Clearing(s.jobs[k].pc) || Replaces(s.jobs[k].pc)
    ensures k < |Apply(s, a).jobs| && Apply(s, a).jobs[k] == s.jobs[k]
  {
    OthersStay(s, a, k);
  }

  predicate Keeps(pc: Pc, token: nat) {
    Clearing(pc) || (Replaces(pc) && pc.token == token)
  }

  /** The step that makes the stored token doubtful is one of a job that will clear or replace it. */
  lemma DoubtHasKeeper(s: State, a: Action)
    requires Inv(s) && Enabled(s, a) && s.refresh.Some? && Apply(s, a).refresh == s.refresh
    requires s.refresh.value in s.live && s.refresh.value !in s.late
    requires var t := Apply(s, a); t.refresh.value !in t.live || t.refresh.value in t.late
    ensures Actor(a).Some? && Keeps(Apply(s, a).jobs[a.k].pc, s.refresh.value)
  {
  }

  /** A keeper stays one until it has cleared or replaced the stored token. */
  lemma KeeperKeeps(s: State, a: Action, k: nat)
    requires Inv(s) && Enabled(s, a) && s.refresh.Some? && Apply(s, a).refresh == s.refresh
    requires k < |s.jobs| && Keeps(s.jobs[k].pc, s.refresh.value)
    ensures k < |Apply(s, a).jobs| && Keeps(Apply(s, a).jobs[k].pc, s.refresh.value)
  {
    assert JobFits(s, s.jobs[k]);
    if Actor(a) != Some(k) {
      KeeperStays(s, a, k);
    }
  }

  lemma StoredStep(s: State, a: Action)
    requires Inv(s) && Enabled(s, a) && Apply(s, a).refresh.Some?
    requires var t := Apply(s, a); t.refresh.value !in t.live || t.refresh.value in t.late
    ensures SomeoneClears(Apply(s, a)) || SomeoneReplaces(Apply(s, a), Apply(s, a).refresh.value)
  {
    var t := Apply(s, a);
    var token := t.refresh.value;
    if Actor(a).Some? {
      assert JobFits(s, s.jobs[a.k]);
    }
    if token in s.live && token !in s.late {
      DoubtHasKeeper(s, a);
    } else {
      var k :| 0 <= k < |s.jobs| && Keeps(s.jobs[k].pc, token);
      KeeperKeeps(s, a, k);
    }
  }

  lemma AnsweredStep(s: State, a: Action)
    requires Inv(s) && Enabled(s, a) && Apply(s, a).refresh.Some? && Apply(s, a).refresh.value in Apply(s, a).answered
    ensures SomeoneSaves(Apply(s, a), Apply(s, a).refresh.value)
  {
    var t := Apply(s, a);
    if Actor(a).Some? {
      assert JobFits(s, s.jobs[a.k]);
    }
    var token := t.refresh.value;
    if a.Receive? && s.jobs[a.k].pc.token == token {
      assert t.jobs[a.k].pc.SavingAccess? && t.jobs[a.k].pc.token == token;
    } else {
      var k :|
        0 <= k < |s.jobs| && (s.jobs[k].pc.SavingAccess? || s.jobs[k].pc.SavingRefresh?) && s.jobs[k].pc.token == token;
      if Actor(a) == Some(k) {
        assert t.jobs[k].pc.SavingRefresh? && t.jobs[k].pc.token == token;
      } else {
        KeeperStays(s, a, k);
      }
    }
  }

  lemma InvStep(s: State, a: Action)
    requires Inv(s) && Enabled(s, a)
    ensures Inv(Apply(s, a))
  {
    var t := Apply(s, a);
    TokensStep(s, a);
    if t.refreshing {
      FlagStep(s, a);
    }
    if t.refresh.Some? && (t.refresh.value !in t.live || t.refresh.value in t.late) {
      StoredStep(s, a);
    }
    if t.refresh.Some? && t.refresh.value in t.answered {
      AnsweredStep(s, a);
    }
    JobsStep(s, a);
  }

  lemma JobsStep(s: State, a: Action)
    requires Inv(s) && Enabled(s, a)
    ensures var t := Apply(s, a);
            && (forall k :: 0 <= k < |t.jobs| ==> JobFits(t, t.jobs[k]))
            && (forall j, k :: 0 <= j < k < |t.jobs| ==> PairFits(t.jobs[j].pc, t.jobs[k].pc))
  {
    var t := Apply(s, a);
    forall k | 0 <= k < |t.jobs|
      ensures JobFits(t, t.jobs[k])
    {
      OneJobStep(s, a, k);
    }
    forall j, k | 0 <= j < k < |t.jobs|
      ensures PairFits(t.jobs[j].pc, t.jobs[k].pc)
    {
      OnePairStep(s, a, j, k);
    }
  }

  lemma OneJobStep(s: State, a: Action, k: nat)
    requires Inv(s) && Enabled(s, a) && k < |Apply(s, a).jobs|
    ensures JobFits(Apply(s, a), Apply(s, a).jobs[k])
  {
    if Actor(a) == Some(k) {
      ActorFlag(s, a);
      ActorTokens(s, a);
    } else if k < |s.jobs| {
      OtherStep(s, a, k);
    }
  }

  lemma OnePairStep(s: State, a: Action, j: nat, k: nat)
    requires Inv(s) && Enabled(s, a) && j < k < |Apply(s, a).jobs|
    ensures PairFits(Apply(s, a).jobs[j].pc, Apply(s, a).jobs[k].pc)
  {
    if a.Start? || a.Logout? {
      if k == |s.jobs| {
        NewJobPairs(s, a, j);
      }
    } else if Actor(a) == Some(k) {
      PairStep(s, a, k, j);
    } else {
      PairStep(s, a, j, k);
    }
  }

  lemma {:induction false} AlwaysInv(r: Run, n: nat)
    requires IsRun(r) && n <= |r.acts|
    ensures Inv(r.states[n])
  {
    if n > 0 {
      AlwaysInv(r, n - 1);
      InvStep(r.states[n - 1], r.acts[n - 1]);
    }
  }

  // ----- Results -----

  /**
   Composed protocol: whenever no refresh is outstanding and no job is on the failure path or logging out, the
   stored refresh token, if any, is live on the server.  Lost responses and late refresh calls are no exception.
   */
  lemma StoredTokenIsLive(r: Run, n: nat)
    requires IsRun(r) && n <= |r.acts|
    requires forall k :: 0 <= k < |r.states[n].jobs| ==>
               !Leads(r.states[n].jobs[k].pc) && !Clearing(r.states[n].jobs[k].pc)
    ensures r.states[n].refresh.Some? ==> r.states[n].refresh.value in r.states[n].live
  {
    AlwaysInv(r, n);
  }

  /** At most one refresh is outstanding, and while one is, the flag keeps every other 401 waiting on its gate. */
  lemma SingleFlight(r: Run, n: nat, j: nat, k: nat)
    requires IsRun(r) && n <= |r.acts| && j < |r.states[n].jobs| && k < |r.states[n].jobs|
    ensures Leads(r.states[n].jobs[j].pc) && Leads(r.states[n].jobs[k].pc) ==> j == k
    ensures r.states[n].refreshing <==> SomeoneLeads(r.states[n])
    ensures r.states[n].jobs[k].pc.Waiting? ==>
              SomeoneLeads(r.states[n]) && r.states[n].jobs[k].pc.gate == r.states[n].gate
    ensures r.states[n].jobs[k].sends <= 2
  {
    AlwaysInv(r, n);
    assert JobFits(r.states[n], r.states[n].jobs[k]);
  }

  predicate SendsRefresh(s: State, a: Action, token: nat) {
    a.Read? && s.refresh == Some(token)
  }

  /** Once a successful response for a refresh token has been received, that token is never sent again. */
  lemma AnsweredNeverResent(r: Run, m: nat, n: nat, token: nat)
    requires IsRun(r) && m <= n < |r.acts| && token in r.states[m].answered
    ensures !SendsRefresh(r.states[n], r.acts[n], token)
  {
    AnsweredStays(r, m, n, token);
    AlwaysInv(r, n);
    assert Enabled(r.states[n], r.acts[n]);
    if SendsRefresh(r.states[n], r.acts[n], token) {
      ReaderFindsUnanswered(r.states[n], r.acts[n].k);
    }
  }

  lemma {:induction false} AnsweredStays(r: Run, m: nat, n: nat, token: nat)
    requires IsRun(r) && m <= n <= |r.acts| && token in r.states[m].answered
    ensures token in r.states[n].answered
  {
    if m < n {
      AnsweredStays(r, m, n - 1, token);
      assert Enabled(r.states[n - 1], r.acts[n - 1]);
    }
  }

  /** Steps a refresh still takes before its gate completes. */
  function Rank(pc: Pc): nat {
    match pc
    case Reading => 6
    case AtServer(_) => 5
    case Consumed(_) => 4
    case Answering(_, _) => 3
    case SavingAccess(_, _) => 2
    case SavingRefresh(_, _) => 1
    case _ => 0
  }

  ghost predicate NobodyWaits(s: State) {
    forall w :: 0 <= w < |s.jobs| ==> !s.jobs[w].pc.Waiting?
  }

  predicate CanStep(s: State, a: Action, k: nat) {
    Actor(a) == Some(k) && Enabled(s, a)
  }

  /**
   The outstanding refresh can always take a step; no step of another job moves it back; each of its own brings its
   gate closer; and when it ends, in success or in failure, nobody is left waiting.
   */
  lemma LeaderAdvances(r: Run, n: nat, k: nat)
    requires IsRun(r) && n < |r.acts| && k < |r.states[n].jobs| && Leads(r.states[n].jobs[k].pc)
    ensures exists a :: CanStep(r.states[n], a, k)
    ensures k < |r.states[n + 1].jobs|
    ensures var before, after := Rank(r.states[n].jobs[k].pc), Rank(r.states[n + 1].jobs[k].pc);
            if Actor(r.acts[n]) == Some(k) then after < before else after == before
    ensures !Leads(r.states[n + 1].jobs[k].pc) ==> NobodyWaits(r.states[n + 1])
  {
    var s, a := r.states[n], r.acts[n];
    AlwaysInv(r, n);
    assert Enabled(s, a);
    LeaderCanStep(s, k);
    if Actor(a) != Some(k) {
      OthersStay(s, a, k);
      assert JobFits(s, s.jobs[k]);
    } else if !Leads(r.states[n + 1].jobs[k].pc) {
      EveryoneReleased(s, a);
    }
  }

  lemma LeaderCanStep(s: State, k: nat)
    requires k < |s.jobs| && Leads(s.jobs[k].pc)
    ensures exists a :: CanStep(s, a, k)
  {
    var a := match s.jobs[k].pc
      case Reading => Read(k)
      case AtServer(token) => if token in s.live then ServerConsume(k) else ServerReject(k)
      case Consumed(_) => ServerIssue(k)
      case Answering(_, _) => Receive(k)
      case SavingAccess(_, _) => WriteAccess(k)
      case _ => WriteRefresh(k);
    assert CanStep(s, a, k);
  }

  lemma EveryoneReleased(s: State, a: Action)
    requires Inv(s) && Enabled(s, a) && Actor(a).Some? && Leads(s.jobs[a.k].pc) && !Leads(Apply(s, a).jobs[a.k].pc)
    ensures NobodyWaits(Apply(s, a))
  {
    forall w | 0 <= w < |Apply(s, a).jobs|
      ensures !Apply(s, a).jobs[w].pc.Waiting?
    {
      if w != a.k {
        OthersStay(s, a, w);
        assert JobFits(s, s.jobs[w]);
      }
    }
  }

  /** Steps of job k from the m-th action up to the n-th. */
  function OwnSteps(acts: seq<Action>, m: nat, n: nat, k: nat): nat
    requires m <= n <= |acts|
  {
    if m == n then 0 else OwnSteps(acts, m, n - 1, k) + if Actor(acts[n - 1]) == Some(k) then 1 else 0
  }

  /** Job k's refresh ends with the step before state e, and whoever waited on its gate goes on. */
  ghost predicate EndsAt(r: Run, e: nat, k: nat)
    requires 0 < e <= |r.acts| < |r.states|
  {
    var s, t := r.states[e - 1], r.states[e];
    && k < |s.jobs| && k < |t.jobs| && Leads(s.jobs[k].pc) && !Leads(t.jobs[k].pc) && !t.refreshing
    && NobodyWaits(t)
    && forall w :: 0 <= w < |s.jobs| && s.jobs[w].pc.Waiting? ==>
         w < |t.jobs| && (t.jobs[w].pc.Resuming? || t.jobs[w].pc.ClearingAccess?)
  }

  lemma EndOfRefresh(r: Run, n: nat, k: nat)
    requires IsRun(r) && n < |r.acts| && k < |r.states[n].jobs| && Leads(r.states[n].jobs[k].pc)
    requires k < |r.states[n + 1].jobs| && !Leads(r.states[n + 1].jobs[k].pc)
    ensures EndsAt(r, n + 1, k)
  {
    var s, a := r.states[n], r.acts[n];
    AlwaysInv(r, n);
    LeaderAdvances(r, n, k);
    assert Enabled(s, a) && Actor(a) == Some(k) by {
      if Actor(a) != Some(k) {
        OthersStay(s, a, k);
      }
    }
    forall w | 0 <= w < |s.jobs| && s.jobs[w].pc.Waiting?
      ensures w < |r.states[n + 1].jobs|
      ensures r.states[n + 1].jobs[w].pc.Resuming? || r.states[n + 1].jobs[w].pc.ClearingAccess?
    {
      OthersStay(s, a, w);
      assert JobFits(s, s.jobs[w]);
    }
  }

  ghost predicate LeadsAt(r: Run, n: nat, k: nat)
    requires n < |r.states|
  {
    k < |r.states[n].jobs| && Leads(r.states[n].jobs[k].pc)
  }

  /** A leader ends its refresh with step n, or leads on, closer to the end if the step was its own. */
  ghost predicate LeadsOn(r: Run, n: nat, k: nat)
    requires n < |r.acts| < |r.states|
  {
    LeadsAt(r, n, k) ==>
      || EndsAt(r, n + 1, k)
      || (LeadsAt(r, n + 1, k)
          && Rank(r.states[n + 1].jobs[k].pc) + (if Actor(r.acts[n]) == Some(k) then 1 else 0)
             <= Rank(r.states[n].jobs[k].pc))
  }

  lemma EachLeadsOn(r: Run, n: nat, k: nat)
    requires IsRun(r) && n < |r.acts|
    ensures LeadsOn(r, n, k)
  {
    if LeadsAt(r, n, k) {
      LeaderAdvances(r, n, k);
      if !LeadsAt(r, n + 1, k) {
        EndOfRefresh(r, n, k);
      }
    }
  }

  lemma {:induction false} LeadsOrEnded(r: Run, m: nat, n: nat, k: nat)
    requires m <= n <= |r.acts| < |r.states| && LeadsAt(r, m, k)
    requires forall i :: m <= i < n ==> LeadsOn(r, i, k)
    ensures || (exists e :: m < e <= n && EndsAt(r, e, k))
            || (LeadsAt(r, n, k)
                && OwnSteps(r.acts, m, n, k) + Rank(r.states[n].jobs[k].pc) <= Rank(r.states[m].jobs[k].pc))
  {
    if m < n {
      LeadsOrEnded(r, m, n - 1, k);
      if exists e :: m < e <= n - 1 && EndsAt(r, e, k) {
        var e :| m < e <= n - 1 && EndsAt(r, e, k);
        assert m < e <= n;
      } else {
        assert LeadsOn(r, n - 1, k);
      }
    }
  }

  /**
   Once the leader of a refresh has taken six steps, whatever other jobs, late calls and lost responses did in between,
   its refresh has ended, and in that very step everyone who waited on its gate went on.
   */
  lemma GateCompletes(r: Run, m: nat, n: nat, k: nat)
    requires IsRun(r) && m <= n <= |r.acts| && k < |r.states[m].jobs| && Leads(r.states[m].jobs[k].pc)
    requires OwnSteps(r.acts, m, n, k) >= 6
    ensures exists e :: m < e <= n && EndsAt(r, e, k)
  {
    forall i | m <= i < n
      ensures LeadsOn(r, i, k)
    {
      EachLeadsOn(r, i, k);
    }
    LeadsOrEnded(r, m, n, k);
  }
  // ----- Killing the app -----

  /** The app is killed and started again: its jobs and flag are gone, a call under way may still reach the server. */
  function Killed(s: State): State {
    s.(refreshing := false,
       jobs := seq(|s.jobs|, i requires 0 <= i < |s.jobs| => s.jobs[i].(pc := Done)),
       late := s.late + set i | 0 <= i < |s.jobs| && s.jobs[i].pc.AtServer? :: s.jobs[i].pc.token)
  }

  /** The job has sent the token to the server and has not stored its successor yet. */
  predicate Spends(pc: Pc, token: nat) {
    (pc.AtServer? || Replaces(pc)) && pc.token == token
  }

  ghost predicate SomeoneSpends(s: State, token: nat) {
    exists k :: 0 <= k < |s.jobs| && Spends(s.jobs[k].pc, token)
  }

  /**
   Unless the storage is just being cleared, a kill leaves a stored token that is dead, or that a call still under way
   may yet consume, exactly when it comes between the call that presents this token and the write of its successor.
   */
  lemma KillExactly(r: Run, n: nat)
    requires IsRun(r) && n <= |r.acts| && !SomeoneClears(r.states[n]) && r.states[n].refresh.Some?
    ensures var s, t := r.states[n], Killed(r.states[n]);
            && t.refresh == s.refresh
            && (t.refresh.value !in t.live || t.refresh.value in t.late <==> SomeoneSpends(s, s.refresh.value))
  {
    AlwaysInv(r, n);
    var s, token := r.states[n], r.states[n].refresh.value;
    if SomeoneSpends(s, token) {
      var k :| 0 <= k < |s.jobs| && Spends(s.jobs[k].pc, token);
      assert JobFits(s, s.jobs[k]);
    } else {
      forall i | 0 <= i < |s.jobs| && s.jobs[i].pc.AtServer?
        ensures s.jobs[i].pc.token != token
      {
        assert !Spends(s.jobs[i].pc, token);
      }
    }
  }

  /** Steps from any state on, such as the one after a kill. */
  ghost predicate IsPath(r: Run) {
    && |r.states| == |r.acts| + 1
    && forall i {:trigger r.acts[i]} :: 0 <= i < |r.acts| ==>
         Enabled(r.states[i], r.acts[i]) && r.states[i + 1] == Apply(r.states[i], r.acts[i])
  }

  predicate Dead(s: State, token: nat) {
    token < s.minted && token !in s.live
  }

  /** Where a refresh with a dead token stands after this many steps of its own. */
  predicate DeadEnd(pc: Pc, steps: nat, token: nat) {
    || (steps == 1 && pc == AtServer(token))
    || (steps == 2 && pc.ClearingAccess?)
    || (steps == 3 && pc.ClearingRefresh?)
  }

  lemma DeadEndStep(s: State, a: Action, k: nat, steps: nat, token: nat)
    requires Enabled(s, a) && k < |s.jobs| && Dead(s, token) && DeadEnd(s.jobs[k].pc, steps, token)
    ensures Dead(Apply(s, a), token) && k < |Apply(s, a).jobs|
    ensures if Actor(a) != Some(k) then DeadEnd(Apply(s, a).jobs[k].pc, steps, token)
            else if steps == 3 then a == ClearRefresh(k)
            else DeadEnd(Apply(s, a).jobs[k].pc, steps + 1, token)
  {
    if Actor(a) != Some(k) {
      OthersStay(s, a, k);
    }
  }

  /** Job k empties the refresh slot in the step before state e. */
  ghost predicate ClearsAt(r: Run, e: nat, k: nat)
    requires 0 < e <= |r.acts| < |r.states|
  {
    r.acts[e - 1] == ClearRefresh(k) && r.states[e].refresh.None?
  }

  lemma {:induction false} DeadEndAt(r: Run, m: nat, n: nat, k: nat, token: nat)
    requires IsPath(r) && m < n <= |r.acts| && r.acts[m] == Read(k)
    requires r.states[m].refresh == Some(token) && Dead(r.states[m], token)
    ensures || (exists e :: m < e <= n && ClearsAt(r, e, k))
            || (Dead(r.states[n], token) && k < |r.states[n].jobs|
                && DeadEnd(r.states[n].jobs[k].pc, OwnSteps(r.acts, m, n, k), token))
  {
    var s, a := r.states[n - 1], r.acts[n - 1];
    assert Enabled(s, a);
    if m == n - 1 {
      assert OwnSteps(r.acts, m, m, k) == 0;
    } else {
      DeadEndAt(r, m, n - 1, k, token);
      if exists e :: m < e <= n - 1 && ClearsAt(r, e, k) {
        var e :| m < e <= n - 1 && ClearsAt(r, e, k);
        assert m < e <= n;
      } else {
        DeadEndStep(s, a, k, OwnSteps(r.acts, m, n - 1, k), token);
        assert a == ClearRefresh(k) ==> ClearsAt(r, n, k);
      }
    }
  }

  /**
   A dead token does not stay: from whatever state, a refresh that reads one has emptied the refresh slot by its
   fourth step, whatever other jobs, late calls and lost responses do in between.
   */
  lemma DeadTokenIsCleared(r: Run, m: nat, n: nat, k: nat, token: nat)
    requires IsPath(r) && m < n <= |r.acts| && r.acts[m] == Read(k)
    requires r.states[m].refresh == Some(token) && Dead(r.states[m], token) && OwnSteps(r.acts, m, n, k) >= 4
    ensures exists e :: m < e <= n && ClearsAt(r, e, k)
  {
    DeadEndAt(r, m, n, k, token);
  }

  lemma Extend(r: Run, a: Action) returns (longer: Run)
    requires IsRun(r) && Enabled(r.states[|r.acts|], a)
    ensures IsRun(longer) && longer.states[|longer.acts|] == Apply(r.states[|r.acts|], a)
  {
    longer := Run(r.states + [Apply(r.states[|r.acts|], a)], r.acts + [a]);
  }

  /** A login has stored token 0. */
  lemma LoggedIn() returns (r: Run)
    ensures IsRun(r)
    ensures r.states[|r.acts|] == State(Some(0), Some(0), false, 0, [Job(Done, 1, true)], {0}, 1, {}, {})
  {
    r := Run([State(None, None, false, 0, [], {}, 0, {}, {})], []);
    r := Extend(r, Start(true));
    r := Extend(r, Succeed(0));
    r := Extend(r, WriteAccess(0));
    r := Extend(r, WriteRefresh(0));
    assert r.states[|r.acts|].jobs == [Job(Done, 1, true)];
  }

  /** There is such a kill: the server has consumed the stored token, and its answer never arrives. */
  lemma KillLeavesDeadToken()
    ensures exists r :: IsRun(r) && Killed(r.states[|r.acts|]).refresh == Some(0) && Dead(Killed(r.states[|r.acts|]), 0)
  {
    var r := LoggedIn();
    r := Extend(r, Start(false));
    r := Extend(r, Unauthorized(1));
    r := Extend(r, Read(1));
    r := Extend(r, ServerConsume(1));
    assert 0 !in r.states[|r.acts|].live;
  }
  // ----- What becomes of a request -----

  lemma ExtendPath(r: Run, a: Action) returns (longer: Run)
    requires IsPath(r) && Enabled(r.states[|r.acts|], a)
    ensures IsPath(longer) && longer.states[0] == r.states[0]
    ensures longer.states[|longer.acts|] == Apply(r.states[|r.acts|], a)
  {
    longer := Run(r.states + [Apply(r.states[|r.acts|], a)], r.acts + [a]);
  }

  /** A 401 on a first attempt with a live token stored and nothing else going on, up to the server's answer. */
  lemma SoloExchange(s: State, k: nat, token: nat) returns (r: Run)
    requires k < |s.jobs| && s.jobs[k] == Job(Sent, 1, false) && !s.refreshing && NobodyWaits(s)
    requires s.refresh == Some(token) && token in s.live
    ensures IsPath(r) && r.states[0] == s
    ensures r.states[|r.acts|]
            == s.(refreshing := true, gate := s.gate + 1,
                  jobs := s.jobs[k := Job(Answering(token, s.minted), 1, false)],
                  live := s.live - {token} + {s.minted}, minted := s.minted + 1)
  {
    r := ExtendPath(Run([s], []), Unauthorized(k));
    r := ExtendPath(r, Read(k));
    r := ExtendPath(r, ServerConsume(k));
    r := ExtendPath(r, ServerIssue(k));
  }

  /**
   A request that gets a 401 while a live token is stored and nothing else is going on can be sent a second time with
   both slots holding the fresh token, which has replaced the old one on the server.
   */
  lemma SoloRefresh(s: State, k: nat, token: nat) returns (r: Run)
    requires k < |s.jobs| && s.jobs[k] == Job(Sent, 1, false) && !s.refreshing && NobodyWaits(s)
    requires s.refresh == Some(token) && token in s.live
    ensures IsPath(r) && r.states[0] == s
    ensures r.states[|r.acts|]
            == s.(access := Some(s.minted), refresh := Some(s.minted), gate := s.gate + 1,
                  jobs := s.jobs[k := Job(Sent, 2, false)], live := s.live - {token} + {s.minted},
                  minted := s.minted + 1, answered := s.answered + {token})
  {
    r := SoloExchange(s, k, token);
    r := ExtendPath(r, Receive(k));
    r := ExtendPath(r, WriteAccess(k));
    r := ExtendPath(r, WriteRefresh(k));
    assert r.states[|r.acts|].jobs == s.jobs[k := Job(Resuming, 1, false)];
    r := ExtendPath(r, Resume(k));
  }

  /** The steps by which a request fails for good: no token, a refused or lost refresh, or a failed retry. */
  predicate Fails(s: State, a: Action, k: nat) {
    || (a == Read(k) && s.refresh.None?)
    || a == ServerReject(k) || a == Lose(k)
    || ((a == Unauthorized(k) || a == Break(k)) && k < |s.jobs| && s.jobs[k].sends == 2)
  }

  /** Job k empties both slots by the steps before states d and e. */
  ghost predicate EmptiesAt(r: Run, d: nat, e: nat, k: nat)
    requires 0 < d < e <= |r.acts| < |r.states|
  {
    && r.acts[d - 1] == ClearAccess(k) && r.states[d].access.None?
    && r.acts[e - 1] == ClearRefresh(k) && r.states[e].refresh.None?
    && k < |r.states[e].jobs| && r.states[e].jobs[k].pc == Done
  }

  /** How far the clearing that job k has before it in the m-th state has got by the n-th. */
  ghost predicate Emptying(r: Run, m: nat, n: nat, k: nat)
    requires m <= n <= |r.acts| < |r.states|
  {
    && k < |r.states[n].jobs|
    && var pc, steps := r.states[n].jobs[k].pc, OwnSteps(r.acts, m, n, k);
       || (pc.ClearingAccess? && steps == 0)
       || (pc.ClearingRefresh? && steps == 1
           && exists d :: m < d <= n && r.acts[d - 1] == ClearAccess(k) && r.states[d].access.None?)
  }

  lemma EmptyingStep(r: Run, m: nat, n: nat, k: nat)
    requires IsPath(r) && m <= n < |r.acts| && Emptying(r, m, n, k)
    ensures Emptying(r, m, n + 1, k) || exists d, e :: m < d < e <= n + 1 && EmptiesAt(r, d, e, k)
  {
    var s, a := r.states[n], r.acts[n];
    assert Enabled(s, a);
    if Actor(a) != Some(k) {
      OthersStay(s, a, k);
      if s.jobs[k].pc.ClearingRefresh? {
        var d :| m < d <= n && r.acts[d - 1] == ClearAccess(k) && r.states[d].access.None?;
        assert m < d <= n + 1;
      }
    } else if s.jobs[k].pc.ClearingAccess? {
      assert a == ClearAccess(k) && r.acts[n + 1 - 1] == ClearAccess(k) && r.states[n + 1].access.None?;
    } else {
      var d :| m < d <= n && r.acts[d - 1] == ClearAccess(k) && r.states[d].access.None?;
      assert r.acts[n + 1 - 1] == ClearRefresh(k) && EmptiesAt(r, d, n + 1, k);
    }
  }

  /** A job about to clear the storage has emptied both slots by its second step, whatever others do meanwhile. */
  lemma {:induction false} ClearingEmpties(r: Run, m: nat, n: nat, k: nat)
    requires IsPath(r) && m <= n <= |r.acts| && k < |r.states[m].jobs| && r.states[m].jobs[k].pc.ClearingAccess?
    ensures Emptying(r, m, n, k) || exists d, e :: m < d < e <= n && EmptiesAt(r, d, e, k)
  {
    if n > m {
      ClearingEmpties(r, m, n - 1, k);
      if exists d, e :: m < d < e <= n - 1 && EmptiesAt(r, d, e, k) {
        var d, e :| m < d < e <= n - 1 && EmptiesAt(r, d, e, k);
        assert m < d < e <= n;
      } else {
        EmptyingStep(r, m, n - 1, k);
      }
    }
  }

  /** Whoever fails for good has emptied both slots by its second step after that, and passes the error on. */
  lemma FailureEmptiesStorage(r: Run, m: nat, n: nat, k: nat)
    requires IsPath(r) && m < n <= |r.acts| && Fails(r.states[m], r.acts[m], k) && OwnSteps(r.acts, m + 1, n, k) >= 2
    ensures exists d, e :: m + 1 < d < e <= n && EmptiesAt(r, d, e, k)
  {
    assert Enabled(r.states[m], r.acts[m]);
    ClearingEmpties(r, m + 1, n, k);
  }

  /** So has a logout. */
  lemma LogoutEmptiesStorage(r: Run, m: nat, n: nat, k: nat)
    requires IsPath(r) && m < n <= |r.acts| && r.acts[m] == Logout && k == |r.states[m].jobs|
    requires OwnSteps(r.acts, m + 1, n, k) >= 2
    ensures exists d, e :: m + 1 < d < e <= n && EmptiesAt(r, d, e, k)
  {
    assert Enabled(r.states[m], r.acts[m]);
    ClearingEmpties(r, m + 1, n, k);
  }

  /**
   A response other than a 401 ends a request and nothing else, unless it answers a login or is a failed retry; a 401
   on a first attempt makes its job wait for the refresh that is outstanding, or else lead a new one.
   */
  lemma FirstResponses(r: Run, n: nat, k: nat)
    requires IsRun(r) && n < |r.acts| && Actor(r.acts[n]) == Some(k)
    ensures k < |r.states[n].jobs|
    ensures var s, t, a, job := r.states[n], r.states[n + 1], r.acts[n], r.states[n].jobs[k];
            && ((a.Succeed? && !job.login) || (a.Break? && job.sends == 1) ==>
                  t == s.(jobs := s.jobs[k := job.(pc := Done)]))
            && (a.Unauthorized? && job.sends == 1 ==>
                  if s.refreshing then t == s.(jobs := s.jobs[k := job.(pc := Waiting(s.gate))])
                  else t == s.(jobs := s.jobs[k := job.(pc := Reading)], refreshing := true, gate := s.gate + 1))
  {
    assert Enabled(r.states[n], r.acts[n]);
  }

  /**
   How a refresh ends decides for the leader and for everyone who waited: after its second write all of them go on
   to the retry, with the fresh token stored; in every other case all of them fail.
   */
  lemma EndDecidesForAll(r: Run, e: nat, k: nat, w: nat)
    requires IsRun(r) && 0 < e <= |r.acts| && EndsAt(r, e, k) && w < |r.states[e - 1].jobs|
    requires w == k || r.states[e - 1].jobs[w].pc.Waiting?
    ensures w < |r.states[e].jobs|
    ensures r.states[e].jobs[w].pc
            == if r.acts[e - 1] == WriteRefresh(k) then Resuming else ClearingAccess
    ensures if r.acts[e - 1] == WriteRefresh(k)
            then r.states[e].refresh.Some? && r.states[e].refresh.value in r.states[e].live
            else Fails(r.states[e - 1], r.acts[e - 1], k)
  {
    var s, a := r.states[e - 1], r.acts[e - 1];
    AlwaysInv(r, e - 1);
    assert Enabled(s, a) && JobFits(s, s.jobs[w]) && JobFits(s, s.jobs[k]);
    if Actor(a) != Some(k) {
      OthersStay(s, a, k);
    }
  }

  /** A request goes out a second time only with an access token in storage; without one its error is passed on. */
  lemma RetryNeedsToken(r: Run, n: nat, k: nat)
    requires IsRun(r) && n < |r.acts| && r.acts[n] == Resume(k)
    ensures k < |r.states[n].jobs| && k < |r.states[n + 1].jobs|
    ensures var s, t := r.states[n], r.states[n + 1];
            && s.jobs[k].sends == 1 && t.access == s.access && t.refresh == s.refresh
            && t.jobs[k] == if s.access.Some? then s.jobs[k].(pc := Sent, sends := 2) else s.jobs[k].(pc := Done)
  {
    AlwaysInv(r, n);
    assert Enabled(r.states[n], r.acts[n]) && JobFits(r.states[n], r.states[n].jobs[k]);
  }

  /** A refresh call that arrives after the client gave up on it still uses up its token. */
  lemma LateCallConsumes(r: Run, n: nat, token: nat)
    requires IsRun(r) && n < |r.acts| && r.acts[n] == ServeLate(token)
    ensures var s, t := r.states[n], r.states[n + 1];
            && token !in t.live && token !in t.late && t.jobs == s.jobs && t.refresh == s.refresh
            && t.live == if token in s.live then s.live - {token} + {s.minted} else s.live
  {
    AlwaysInv(r, n);
    assert Enabled(r.states[n], r.acts[n]);
  }
}
