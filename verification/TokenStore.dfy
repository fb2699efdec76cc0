/**
 api/internal/auth: refresh tokens as an object, and the handlers that consume and issue them.  A token stands for
 its own hash; fresh tokens are new values.
 */
module TokenStore {
  import opened Wrappers

  type Instant = int

  /** RefreshTTL: thirty days, in microseconds. */
  const REFRESH_TTL: int := 30 * 24 * 3600 * 1_000_000

  datatype TokenRow = TokenRow(user: nat, expiresAt: Instant)

  datatype AuthError = InvalidRefresh | TokenTaken | Internal

  /** How far the consuming transaction gets: through, not to the row, or not through its delete and commit. */
  datatype ConsumeFault = GoesThrough | LookupFails | DeleteFails

  /** Statements of one refresh that fail for reasons of their own. */
  datatype Faults = Faults(consume: ConsumeFault, userLookupFails: bool, issueFails: bool)

  const NO_FAULTS := Faults(GoesThrough, false, false)

  predicate Usable(tokens: map<nat, TokenRow>, token: nat, now: Instant) {
    token in tokens && now <= tokens[token].expiresAt
  }

  /** What a refresh makes of the table: the token exchanged for a fresh one, or at most deleted. */
  ghost predicate Rotates(users: set<nat>, before: map<nat, TokenRow>, after: map<nat, TokenRow>, unused: nat,
                          token: nat, now: Instant, faults: Faults, rotated: Result<nat, AuthError>)
  {
    match rotated
    case Success(next) =>
      && faults == NO_FAULTS && Usable(before, token, now) && before[token].user in users && next == unused
      && after == (before - {token})[next := TokenRow(before[token].user, now + REFRESH_TTL)]
    case Failure(_) =>
      && !(faults == NO_FAULTS && Usable(before, token, now) && before[token].user in users)
      && after == if faults.consume.GoesThrough? then before - {token} else before
  }

  class Store {
    var tokens: map<nat, TokenRow>

    constructor ()
      ensures tokens == map[]
    {
      tokens := map[];
    }

    method SaveRefreshToken(user: nat, token: nat, expiresAt: Instant, fails: bool) returns (error: Option<AuthError>)
      modifies this
      ensures if fails then error == Some(Internal) && tokens == old(tokens)
              else if token in old(tokens) then error == Some(TokenTaken) && tokens == old(tokens)
              else error.None? && tokens == old(tokens)[token := TokenRow(user, expiresAt)]
    {
      if fails {
        return Some(Internal);
      }
      if token in tokens {
        return Some(TokenTaken);
      }
      tokens := tokens[token := TokenRow(user, expiresAt)];
      return None;
    }

    /**
     If the transaction goes through, the token is gone afterwards whatever the outcome, and an unexpired one yields its
     user; if it does not, nothing changes.  That an expired token could not be deleted is not reported.
     */
    method ConsumeRefreshToken(token: nat, now: Instant, fault: ConsumeFault) returns (user: Result<nat, AuthError>)
      modifies this
      ensures tokens == if fault.GoesThrough? then old(tokens) - {token} else old(tokens)
      ensures user == if fault.LookupFails? then Failure(Internal)
                      else if token !in old(tokens) || old(tokens)[token].expiresAt < now then Failure(InvalidRefresh)
                      else if fault.DeleteFails? then Failure(Internal)
                      else Success(old(tokens)[token].user)
    {
      if fault.LookupFails? {
        return Failure(Internal);
      }
      if token !in tokens {
        return Failure(InvalidRefresh);
      }
      var row := tokens[token];
      if !fault.DeleteFails? {
        tokens := tokens - {token};
      }
      if now > row.expiresAt {
        return Failure(InvalidRefresh);
      }
      if fault.DeleteFails? {
        return Failure(Internal);
      }
      return Success(row.user);
    }
  }

  class Handler {
    const store: Store
    var users: set<nat>
    var minted: nat  // every token issued so far is below

    ghost predicate Valid()
      reads this, store
    {
      forall t :: t in store.tokens ==> t < minted
    }

    constructor (store: Store)
      requires store.tokens == map[]
      ensures this.store == store && users == {} && Valid()
    {
      this.store := store;
      users, minted := {}, 0;
    }

    /** Signing, drawing a token and saving it can each fail; then no token is stored. */
    method IssuePair(user: nat, now: Instant, fails: bool) returns (token: Result<nat, AuthError>)
      requires Valid()
      modifies this`minted, store
      ensures Valid() && minted == old(minted) + 1
      ensures if fails then token == Failure(Internal) && store.tokens == old(store.tokens)
              else
                && token == Success(old(minted)) && old(minted) !in old(store.tokens)
                && store.tokens == old(store.tokens)[old(minted) := TokenRow(user, now + REFRESH_TTL)]
    {
      var refresh := minted;
      minted := minted + 1;
      var error := store.SaveRefreshToken(user, refresh, now + REFRESH_TTL, fails);
      return if error.Some? then Failure(error.value) else Success(refresh);
    }

    /**
     Rotation: a usable token of a known user is exchanged for a fresh one of the same user; any other call fails.  No
     other token changes, and unless the consuming transaction failed the presented token is dead, even when a later
     statement fails and no fresh one is issued.
     */
    method Refresh(token: nat, now: Instant, faults: Faults) returns (rotated: Result<nat, AuthError>)
      requires Valid()
      modifies this`minted, store
      ensures Valid()
      ensures rotated.Success? <==>
              && faults.consume.GoesThrough? && !faults.userLookupFails && !faults.issueFails
              && token in old(store.tokens) && now <= old(store.tokens)[token].expiresAt
              && old(store.tokens)[token].user in users
      ensures rotated.Success? ==>
                && rotated.value !in old(store.tokens) && rotated.value != token
                && store.tokens == (old(store.tokens) - {token})
                                   [rotated.value := TokenRow(old(store.tokens)[token].user, now + REFRESH_TTL)]
      ensures rotated.Failure? ==>
                store.tokens == if faults.consume.GoesThrough? then old(store.tokens) - {token} else old(store.tokens)
      ensures Rotates(users, old(store.tokens), store.tokens, old(minted), token, now, faults, rotated)
      ensures rotated.Failure? ==>
                rotated.error
                == if InternalError(old(store.tokens), token, now, faults) then Internal else InvalidRefresh
    {
      var user := store.ConsumeRefreshToken(token, now, faults.consume);
      if user.Failure? {
        return Failure(user.error);
      }
      if faults.userLookupFails || user.value !in users {
        return Failure(InvalidRefresh);
      }
      rotated := IssuePair(user.value, now, faults.issueFails);
    }

    /**
     A login of a known user at one time and a refresh with its token at another, no statement failing: the refresh
     succeeds exactly within thirty days, and what it stores lasts another thirty.
     */
    method RefreshAfterLogin(user: nat, loginAt: Instant, now: Instant) returns (rotated: Result<nat, AuthError>)
      requires Valid() && user in users
      modifies this`minted, store
      ensures Valid()
      ensures rotated.Success? <==> now <= loginAt + 2_592_000_000_000
      ensures rotated.Failure? ==> rotated.error == InvalidRefresh && store.tokens == old(store.tokens)
      ensures rotated.Success? ==>
                && rotated.value !in old(store.tokens)
                && store.tokens == old(store.tokens)[rotated.value := TokenRow(user, now + 2_592_000_000_000)]
    {
      var token := IssuePair(user, loginAt, false);
      assert store.tokens - {token.value} == old(store.tokens);
      rotated := Refresh(token.value, now, NO_FAULTS);
    }

    /** The failure is reported as the server's own: the token was not found out to be unusable. */
    ghost predicate InternalError(tokens: map<nat, TokenRow>, token: nat, now: Instant, faults: Faults)
      reads this
    {
      || faults.consume.LookupFails?
      || (Usable(tokens, token, now)
          && (faults.consume.DeleteFails?
              || (!faults.userLookupFails && tokens[token].user in users && faults.issueFails)))
    }
  }
}
