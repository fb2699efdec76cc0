/**
 Concurrent login, register and refresh handlers over one refresh_tokens table, with row locks and crashes.  Every
 token belongs to the family of the login or register it descends from.
 */
module TokenFamilies {
  import opened Wrappers
  import opened TokenStore

  datatype Handler =
    | Received(token: nat)               // a refresh request, nothing read yet
    | Locking(token: nat)                // SELECT ... FOR UPDATE returned the row
    | Issuing(user: nat, family: nat)    // credentials checked, or the token's deletion committed
    | Replied(token: nat)
    | Rejected
    | Gone                               // crashed or failed

  datatype State = State(
    clock: Instant,
    tokens: map<nat, TokenRow>,
    familyOf: seq<nat>,   // of every token ever issued
    founders: seq<nat>,   // the user who founded each family
    handlers: seq<Handler>)

  datatype Action =
    | Wait(delay: nat)
    | StartLogin(user: nat)
    | StartRefresh(token: nat)
    | LockRow(h: nat)
    | FindNoRow(h: nat)
    | DropExpired(h: nat, deleted: bool)
    | Consume(h: nat, token: nat)
    | Save(h: nat)
    | Fail(h: nat)

  predicate Enabled(s: State, a: Action) {
    match a
    case Wait(_) => true
    case StartLogin(_) => true
    case StartRefresh(_) => true
    case LockRow(h) =>
      && h < |s.handlers| && s.handlers[h].Received? && s.handlers[h].token in s.tokens
      && forall g :: 0 <= g < |s.handlers| && s.handlers[g].Locking? ==> s.handlers[g].token != s.handlers[h].token
    case FindNoRow(h) =>
      h < |s.handlers| && s.handlers[h].Received? && s.handlers[h].token !in s.tokens
    case DropExpired(h, _) =>
      && h < |s.handlers| && s.handlers[h].Locking?
      && s.handlers[h].token in s.tokens && !Usable(s.tokens, s.handlers[h].token, s.clock)
    case Consume(h, token) =>
      && h < |s.handlers| && s.handlers[h] == Locking(token) && token < |s.familyOf|
      && Usable(s.tokens, token, s.clock)
    case Save(h) => h < |s.handlers| && s.handlers[h].Issuing?
    case Fail(h) => h < |s.handlers| && !s.handlers[h].Replied?
  }

  function Goto(s: State, h: nat, next: Handler): State
    requires h < |s.handlers|
  {
    s.(handlers := s.handlers[h := next])
  }

  function Apply(s: State, a: Action): State
    requires Enabled(s, a)
  {
    match a
    case Wait(delay) => s.(clock := s.clock + delay)
    case StartLogin(user) =>
      s.(founders := s.founders + [user], handlers := s.handlers + [Issuing(user, |s.founders|)])
    case StartRefresh(token) => s.(handlers := s.handlers + [Received(token)])
    case LockRow(h) => Goto(s, h, Locking(s.handlers[h].token))
    case FindNoRow(h) => Goto(s, h, Rejected)
    case DropExpired(h, deleted) =>
      Goto(if deleted then s.(tokens := s.tokens - {s.handlers[h].token}) else s, h, Rejected)
    case Consume(h, token) =>
      Goto(s.(tokens := s.tokens - {token}), h, Issuing(s.tokens[token].user, s.familyOf[token]))
    case Save(h) =>
      var Issuing(user, family) := s.handlers[h];
      var token := |s.familyOf|;
      Goto(s.(tokens := s.tokens[token := TokenRow(user, s.clock + REFRESH_TTL)], familyOf := s.familyOf + [family]),
           h, Replied(token))
    case Fail(h) => Goto(s, h, Gone)
  }

  predicate Init(s: State) {
    s.tokens == map[] && s.familyOf == [] && s.founders == [] && s.handlers == []
  }

  datatype Run = Run(states: seq<State>, acts: seq<Action>)

  ghost predicate IsRun(r: Run) {
    && |r.states| == |r.acts| + 1
    && Init(r.states[0])
    && forall i {:trigger r.acts[i]} :: 0 <= i < |r.acts| ==>
         Enabled(r.states[i], r.acts[i]) && r.states[i + 1] == Apply(r.states[i], r.acts[i])
  }

  // ----- Families -----

  ghost predicate OneTokenEach(s: State) {
    forall t, u :: t in s.tokens && u in s.tokens && t < |s.familyOf| && u < |s.familyOf| && t != u ==>
                     s.familyOf[t] != s.familyOf[u]
  }

  ghost predicate OneRefreshEach(s: State) {
    forall g, h ::
      0 <= g < |s.handlers| && 0 <= h < |s.handlers| && g != h && s.handlers[g].Issuing? && s.handlers[h].Issuing?
      ==> s.handlers[g].family != s.handlers[h].family
  }

  ghost predicate TokenOrRefresh(s: State) {
    forall t, h :: t in s.tokens && t < |s.familyOf| && 0 <= h < |s.handlers| && s.handlers[h].Issuing? ==>
                     s.familyOf[t] != s.handlers[h].family
  }

  /** Live tokens of one family, and refreshes that have consumed one and not saved the next: at most one in all. */
  ghost predicate AtMostOneHeir(s: State) {
    OneTokenEach(s) && OneRefreshEach(s) && TokenOrRefresh(s)
  }

  /** A family belongs to the user who founded it. */
  ghost predicate FamiliesFit(s: State) {
    && (forall t :: 0 <= t < |s.familyOf| ==> s.familyOf[t] < |s.founders|)
    && (forall t :: t in s.tokens ==> t < |s.familyOf| && s.tokens[t].user == s.founders[s.familyOf[t]])
    && (forall h :: 0 <= h < |s.handlers| && s.handlers[h].Issuing? ==>
          s.handlers[h].family < |s.founders| && s.handlers[h].user == s.founders[s.handlers[h].family])
  }

  /** A locked row exists and has one locker. */
  ghost predicate LocksFit(s: State) {
    && (forall h :: 0 <= h < |s.handlers| && s.handlers[h].Locking? ==> s.handlers[h].token in s.tokens)
    && (forall g, h :: 0 <= g < |s.handlers| && 0 <= h < |s.handlers| && g != h
                       && s.handlers[g].Locking? && s.handlers[h].Locking? ==>
          s.handlers[g].token != s.handlers[h].token)
  }

  ghost predicate Inv(s: State) {
    AtMostOneHeir(s) && FamiliesFit(s) && LocksFit(s)
  }

  lemma TokenStep(s: State, a: Action)
    requires AtMostOneHeir(s) && FamiliesFit(s) && Enabled(s, a)
    ensures OneTokenEach(Apply(s, a))
  {
  }

  lemma RefreshStep(s: State, a: Action)
    requires AtMostOneHeir(s) && FamiliesFit(s) && Enabled(s, a)
    ensures OneRefreshEach(Apply(s, a))
  {
  }

  lemma TokenOrRefreshStep(s: State, a: Action)
    requires AtMostOneHeir(s) && FamiliesFit(s) && Enabled(s, a)
    ensures TokenOrRefresh(Apply(s, a))
  {
  }

  lemma FamiliesStep(s: State, a: Action)
    requires FamiliesFit(s) && Enabled(s, a)
    ensures FamiliesFit(Apply(s, a))
  {
  }

  lemma LocksStep(s: State, a: Action)
    requires LocksFit(s) && FamiliesFit(s) && Enabled(s, a)
    ensures LocksFit(Apply(s, a))
  {
  }

  lemma {:induction false} AlwaysInv(r: Run, n: nat)
    requires IsRun(r) && n <= |r.acts|
    ensures Inv(r.states[n])
  {
    if n > 0 {
      AlwaysInv(r, n - 1);
      TokenStep(r.states[n - 1], r.acts[n - 1]);
      RefreshStep(r.states[n - 1], r.acts[n - 1]);
      TokenOrRefreshStep(r.states[n - 1], r.acts[n - 1]);
      FamiliesStep(r.states[n - 1], r.acts[n - 1]);
      LocksStep(r.states[n - 1], r.acts[n - 1]);
    }
  }

  /**
   Token families: in every interleaving, with crashes between deleting a token and saving the next, each login or
   register has at most one live descendant or refresh about to save one, and all of them belong to its user.
   */
  lemma OneHeirPerLogin(r: Run, n: nat)
    requires IsRun(r) && n <= |r.acts|
    ensures AtMostOneHeir(r.states[n]) && FamiliesFit(r.states[n])
  {
    AlwaysInv(r, n);
  }

  function Consumptions(acts: seq<Action>, n: nat, token: nat): nat
    requires n <= |acts|
  {
    if n == 0 then 0
    else Consumptions(acts, n - 1, token) + if acts[n - 1].Consume? && acts[n - 1].token == token then 1 else 0
  }

  /** A token that was issued and is not live any more never comes back. */
  predicate Spent(s: State, token: nat) {
    token < |s.familyOf| && token !in s.tokens
  }

  /** Every token is consumed successfully at most once, and never again once it is spent. */
  lemma {:induction false} SingleUse(r: Run, n: nat, token: nat)
    requires IsRun(r) && n <= |r.acts|
    ensures Consumptions(r.acts, n, token) <= 1
    ensures Consumptions(r.acts, n, token) == 1 ==> Spent(r.states[n], token)
  {
    if n > 0 {
      SingleUse(r, n - 1, token);
      AlwaysInv(r, n - 1);
      assert Enabled(r.states[n - 1], r.acts[n - 1]);
    }
  }
  // ----- Thirty days -----

  /** Step e saves the token, in a row that expires thirty days later. */
  ghost predicate SavedAt(r: Run, e: nat, token: nat, row: TokenRow)
    requires e < |r.acts| < |r.states|
  {
    && r.acts[e].Save? && token == |r.states[e].familyOf|
    && row.expiresAt == r.states[e].clock + 2_592_000_000_000
  }

  /** Every row in the table was saved at some step and expires thirty days after it. */
  lemma {:induction false} RowsLastThirtyDays(r: Run, n: nat, token: nat)
    requires IsRun(r) && n <= |r.acts| && token in r.states[n].tokens
    ensures exists e :: 0 <= e < n && SavedAt(r, e, token, r.states[n].tokens[token])
  {
    assert n > 0;
    var s, a := r.states[n - 1], r.acts[n - 1];
    assert Enabled(s, a);
    if a.Save? && token == |s.familyOf| {
      assert SavedAt(r, n - 1, token, r.states[n].tokens[token]);
    } else {
      RowsLastThirtyDays(r, n - 1, token);
      var e :| 0 <= e < n - 1 && SavedAt(r, e, token, s.tokens[token]);
      assert SavedAt(r, e, token, r.states[n].tokens[token]);
    }
  }

  /**
   In every interleaving a token is consumed successfully only within thirty days of the step that saved it, and is
   dropped as expired only after them.
   */
  lemma ConsumedWithinThirtyDays(r: Run, n: nat)
    requires IsRun(r) && n < |r.acts|
    ensures var a := r.acts[n];
            (a.Consume? || a.DropExpired?) ==>
              && a.h < |r.states[n].handlers| && r.states[n].handlers[a.h].Locking?
              && exists e ::
                   && 0 <= e < n && r.acts[e].Save? && r.states[n].handlers[a.h].token == |r.states[e].familyOf|
                   && (a.Consume? <==> r.states[n].clock <= r.states[e].clock + 2_592_000_000_000)
  {
    var s, a := r.states[n], r.acts[n];
    assert Enabled(s, a);
    if a.Consume? || a.DropExpired? {
      var token := s.handlers[a.h].token;
      RowsLastThirtyDays(r, n, token);
      var e :| 0 <= e < n && SavedAt(r, e, token, s.tokens[token]);
      assert r.acts[e].Save? && token == |r.states[e].familyOf|;
    }
  }
}
