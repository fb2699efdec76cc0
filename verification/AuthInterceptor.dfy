/**
 mobile/lib/core: token storage and the interceptor that refreshes on a 401, as objects, with the server's refresh
 handler answering.  A handler runs undisturbed here, though a refresh of another one may be outstanding when it
 starts; RefreshProtocol interleaves handlers at every await.
 */
module AuthInterceptor {
  import opened Wrappers
  import opened TokenStore

  /** Two independent slots, written and deleted one after the other. */
  class TokenStorage {
    var access: Option<nat>
    var refresh: Option<nat>

    constructor ()
      ensures access.None? && refresh.None?
    {
      access, refresh := None, None;
    }

    method SaveTokens(accessToken: nat, refreshToken: nat)
      modifies this
      ensures access == Some(accessToken) && refresh == Some(refreshToken)
    {
      access := Some(accessToken);
      refresh := Some(refreshToken);
    }

    method Clear()
      modifies this
      ensures access.None? && refresh.None?
    {
      access := None;
      refresh := None;
    }
  }

  /** What becomes of the failed request: passed on as it is, or resolved by the retry's response. */
  datatype Verdict = PassError | Resolve

  /** What becomes of a refresh call on its way, and of its statements on the server. */
  datatype Network = Works(faults: Faults) | LosesRequest | LosesResponse(faults: Faults)

  class Interceptor {
    const storage: TokenStorage
    const server: TokenStore.Handler
    var refreshing: bool
    var gate: Option<bool>    // while refreshing: whether the completer has completed
    var sent: Option<nat>     // while refreshing: the refresh token on its way to the server

    /** A refresh is outstanding, with a token sent and an open gate, or none is. */
    ghost predicate Valid()
      reads this
    {
      && (refreshing <==> sent.Some?)
      && gate == if refreshing then Some(false) else None
    }

    /** The refresh token that decides: the one under way, or else the stored one. */
    ghost function Presented(): Option<nat>
      reads this, storage
    {
      if refreshing then sent else storage.refresh
    }

    /** The server still takes the token that decides. */
    ghost predicate CanRefresh(now: Instant)
      reads this, storage, server, server.store
    {
      && Presented().Some?
      && Usable(server.store.tokens, Presented().value, now)
      && server.store.tokens[Presented().value].user in server.users
    }

    /** The stored refresh token, if any, is one the server still has. */
    ghost predicate StoredTokenLive()
      reads storage, server, server.store
    {
      storage.refresh.Some? ==> storage.refresh.value in server.store.tokens
    }

    constructor (storage: TokenStorage, server: TokenStore.Handler)
      ensures this.storage == storage && this.server == server && Valid() && !refreshing
    {
      this.storage, this.server := storage, server;
      refreshing, gate, sent := false, None, None;
    }

    /** The first half of a refresh: raises the flag and sends the stored token, or fails without one. */
    method Send() returns (ok: bool)
      requires Valid() && !refreshing
      modifies this
      ensures Valid() && refreshing == ok == storage.refresh.Some?
      ensures ok ==> sent == storage.refresh
    {
      refreshing, gate := true, Some(false);
      sent := storage.refresh;
      if sent.None? {
        gate := Some(true);
        refreshing, gate := false, None;
        return false;
      }
      return true;
    }

    /** The second half: the server answers, the new tokens are stored, and the gate completes. */
    method Receive(now: Instant, network: Network) returns (ok: bool)
      requires Valid() && refreshing && server.Valid()
      modifies this, storage, server`minted, server.store
      ensures Valid() && !refreshing && server.Valid()
      ensures ok <==> network == Works(NO_FAULTS) && old(CanRefresh(now))
      ensures Exchanged(old(server.store.tokens), server.store.tokens, old(sent).value, storage.refresh, ok, now,
                        network)
      ensures if ok then storage.access == storage.refresh
              else storage.access == old(storage.access) && storage.refresh == old(storage.refresh)
    {
      ok := false;
      if !network.LosesRequest? {
        var tokens := server.Refresh(sent.value, now, network.faults);
        ok := tokens.Success? && network.Works?;
        if ok {
          storage.SaveTokens(tokens.value, tokens.value);
        }
      }
      gate := Some(true);
      refreshing, gate, sent := false, None, None;
    }

    /**
     Exchanges the stored refresh token, or waits for the exchange that another handler has begun; false stands for
     the exception the source throws.  Whoever calls, at most one token is presented, once.
     */
    method RefreshOnce(now: Instant, network: Network) returns (ok: bool)
      requires Valid() && server.Valid()
      modifies this, storage, server`minted, server.store
      ensures Valid() && !refreshing && server.Valid()
      ensures ok <==> network == Works(NO_FAULTS) && old(CanRefresh(now))
      ensures if old(Presented()).Some?
              then Exchanged(old(server.store.tokens), server.store.tokens, old(Presented()).value, storage.refresh, ok,
                             now, network)
              else server.store.tokens == old(server.store.tokens)
      ensures if ok then storage.access == storage.refresh
              else storage.access == old(storage.access) && storage.refresh == old(storage.refresh)
    {
      if !refreshing {
        ok := Send();
        if !ok {
          return;
        }
      }
      ok := Receive(now, network);
    }

    /**
     Handles an error response.  Only a 401 of a first attempt is acted on; it is retried, once, exactly when the
     refresh worked and no logout has emptied the storage meanwhile, and every failure on the way empties the
     storage.  Either way no dead token stays stored.
     */
    method OnError(status: nat, alreadyRetried: bool, skipAuth: bool, loggedOut: bool, retryWorks: bool, now: Instant,
                   network: Network)
      returns (verdict: Verdict, retries: nat)
      requires Valid() && server.Valid()
      modifies this, storage, server`minted, server.store
      ensures Valid() && server.Valid()
      ensures status != 401 || alreadyRetried || skipAuth ==>
                && verdict == PassError && retries == 0
                && storage.access == old(storage.access) && storage.refresh == old(storage.refresh)
                && server.store.tokens == old(server.store.tokens) && refreshing == old(refreshing)
      ensures status == 401 && !alreadyRetried && !skipAuth ==>
                && StoredTokenLive()
                && (retries == 1 <==> !loggedOut && network == Works(NO_FAULTS) && old(CanRefresh(now)))
                && (verdict == Resolve <==> retries == 1 && retryWorks)
                && (storage.refresh.Some? <==> verdict == Resolve)
      ensures retries <= 1
    {
      if status != 401 || alreadyRetried || skipAuth {
        return PassError, 0;
      }
      var ok := RefreshOnce(now, network);
      if !ok {
        storage.Clear();
        return PassError, 0;
      }
      if loggedOut {
        storage.Clear();
      }
      if storage.access.None? {
        return PassError, 0;
      }
      if retryWorks {
        return Resolve, 1;
      }
      storage.Clear();
      return PassError, 1;
    }
  }

  /**
   A request whose consuming transaction goes through takes the presented token with it, and none touches any other
   token; on success one new token, now stored, replaces it for the same user.
   */
  ghost predicate Exchanged(before: map<nat, TokenRow>, after: map<nat, TokenRow>, presented: nat,
                            stored: Option<nat>, ok: bool, now: Instant, network: Network)
  {
    match network
    case LosesRequest => after == before
    case LosesResponse(faults) =>
      && (faults.consume.GoesThrough? ==> presented !in after)
      && forall t :: t in before && t != presented ==> t in after && after[t] == before[t]
    case Works(faults) =>
      if ok then
        && stored.Some? && presented in before && stored.value !in before
        && after == (before - {presented})[stored.value := TokenRow(before[presented].user, now + REFRESH_TTL)]
      else after == if faults.consume.GoesThrough? then before - {presented} else before
  }
}
