/** What the server's token objects do is a run of the concurrent handlers. */
module TokenRefinement {
  import opened Wrappers
  import opened TokenStore
  import TF = TokenFamilies

  /** Steps of the concurrent handlers from a given state on. */
  ghost predicate IsPath(r: TF.Run) {
    && |r.states| == |r.acts| + 1
    && forall i {:trigger r.acts[i]} :: 0 <= i < |r.acts| ==>
         TF.Enabled(r.states[i], r.acts[i]) && r.states[i + 1] == TF.Apply(r.states[i], r.acts[i])
  }

  lemma Extend(r: TF.Run, a: TF.Action) returns (longer: TF.Run)
    requires IsPath(r) && TF.Enabled(r.states[|r.acts|], a)
    ensures IsPath(longer) && longer.states[0] == r.states[0]
    ensures longer.states[|longer.acts|] == TF.Apply(r.states[|r.acts|], a)
  {
    longer := TF.Run(r.states + [TF.Apply(r.states[|r.acts|], a)], r.acts + [a]);
  }

  /** Nobody has the token's row locked. */
  predicate Unlocked(s: TF.State, token: nat) {
    forall h :: 0 <= h < |s.handlers| && s.handlers[h].Locking? ==> s.handlers[h].token != token
  }

  /** The table a refresh leaves, with its handler last. */
  predicate Ends(s: TF.State, t: TF.State, after: map<nat, TokenRow>, rotated: Result<nat, AuthError>) {
    && t.tokens == after && |t.handlers| == |s.handlers| + 1 && t.handlers[..|s.handlers|] == s.handlers
    && match rotated
       case Success(next) => t.handlers[|s.handlers|] == TF.Replied(next)
       case Failure(_) => t.handlers[|s.handlers|].Rejected? || t.handlers[|s.handlers|].Gone?
  }

  /** A refresh up to the point where its token's deletion is committed. */
  lemma ConsumeRefines(s: TF.State, token: nat) returns (r: TF.Run)
    requires Unlocked(s, token) && Usable(s.tokens, token, s.clock) && token < |s.familyOf|
    ensures IsPath(r) && r.states[0] == s
    ensures r.states[|r.acts|]
            == s.(tokens := s.tokens - {token},
                  handlers := s.handlers + [TF.Issuing(s.tokens[token].user, s.familyOf[token])])
  {
    var h := |s.handlers|;
    r := Extend(TF.Run([s], []), TF.StartRefresh(token));
    r := Extend(r, TF.LockRow(h));
    r := Extend(r, TF.Consume(h, token));
  }

  /** A refresh whose token is refused, or whose consuming transaction fails. */
  lemma RefusalRefines(s: TF.State, token: nat, fault: ConsumeFault, after: map<nat, TokenRow>) returns (r: TF.Run)
    requires Unlocked(s, token) && (!fault.GoesThrough? || !Usable(s.tokens, token, s.clock))
    requires after == if fault.GoesThrough? then s.tokens - {token} else s.tokens
    ensures IsPath(r) && r.states[0] == s && Ends(s, r.states[|r.acts|], after, Failure(InvalidRefresh))
  {
    var h := |s.handlers|;
    r := Extend(TF.Run([s], []), TF.StartRefresh(token));
    if fault.LookupFails? || (fault.DeleteFails? && Usable(s.tokens, token, s.clock)) {
      r := Extend(r, TF.Fail(h));
    } else if token !in s.tokens {
      r := Extend(r, TF.FindNoRow(h));
    } else {
      r := Extend(r, TF.LockRow(h));
      r := Extend(r, TF.DropExpired(h, fault.GoesThrough?));
    }
  }

  /** Every refresh of the handler object, whatever fails, is a run of the concurrent handlers to the same table. */
  lemma RefreshRefines(s: TF.State, users: set<nat>, token: nat, faults: Faults, after: map<nat, TokenRow>,
                       rotated: Result<nat, AuthError>)
    returns (r: TF.Run)
    requires Unlocked(s, token) && forall t :: t in s.tokens ==> t < |s.familyOf|
    requires Rotates(users, s.tokens, after, |s.familyOf|, token, s.clock, faults, rotated)
    ensures IsPath(r) && r.states[0] == s && Ends(s, r.states[|r.acts|], after, rotated)
  {
    var h := |s.handlers|;
    if !faults.consume.GoesThrough? || !Usable(s.tokens, token, s.clock) {
      r := RefusalRefines(s, token, faults.consume, after);
    } else {
      r := ConsumeRefines(s, token);
      if rotated.Success? {
        r := Extend(r, TF.Save(h));
      } else {
        r := Extend(r, TF.Fail(h));
      }
    }
  }

  /** A login of the handler object is a login of the protocol that saves, or one that fails. */
  lemma LoginRefines(s: TF.State, user: nat, fails: bool, after: map<nat, TokenRow>) returns (r: TF.Run)
    requires after == if fails then s.tokens else s.tokens[|s.familyOf| := TokenRow(user, s.clock + 2_592_000_000_000)]
    ensures IsPath(r) && r.states[0] == s
    ensures Ends(s, r.states[|r.acts|], after, if fails then Failure(Internal) else Success(|s.familyOf|))
  {
    var h := |s.handlers|;
    r := Extend(TF.Run([s], []), TF.StartLogin(user));
    r := Extend(r, if fails then TF.Fail(h) else TF.Save(h));
  }
}
