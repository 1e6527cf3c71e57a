/**
  `AuthenticationInterceptor` as an object: its lock-protected fields, the serial queue it dispatches
  to, and the completions it calls.  Each method is one locked block or one piece of a queued block,
  and is proved against the functions of AuthState.dfy.
 */
module AuthInterceptor {
  import opened Wrappers
  import opened AuthState

  class AuthenticationInterceptor {
    var credential: Option<Credential>
    var isRefreshing: bool
    var refreshTimestamps: seq<real>
    const refreshWindow: Option<RefreshWindow>
    var adaptOperations: seq<nat>
    var requestsToRetry: seq<nat>

    var queue: seq<Block>     // blocks dispatched to the queue and not yet run
    var calls: seq<Call>      // completions called so far

    function State(): MutableState
      reads this
    {
      MutableState(credential, isRefreshing, refreshTimestamps, refreshWindow, adaptOperations, requestsToRetry)
    }

    constructor (credential: Option<Credential>, refreshWindow: Option<RefreshWindow>)
      ensures State() == MutableState(credential, false, [], refreshWindow, [], [])
      ensures queue == [] && calls == []
    {
      this.credential := credential;
      this.refreshWindow := refreshWindow;
      isRefreshing := false;
      refreshTimestamps := [];
      adaptOperations := [];
      requestsToRetry := [];
      queue := [];
      calls := [];
    }

    /** `isRefreshExcessive`: counts the timestamps inside the window that ends now. */
    method IsRefreshExcessive(now: real) returns (excessive: bool)
      ensures excessive == Excessive(State(), now)
      ensures excessive <==>
        && refreshWindow.Some?
        && |set i: nat | i < |refreshTimestamps| && now - refreshWindow.value.interval <= refreshTimestamps[i]|
           >= refreshWindow.value.maximumAttempts
    {
      if refreshWindow.None? {
        return false;
      }
      var refreshWindowMin := now - refreshWindow.value.interval;
      var attempts: nat := 0;
      for i := 0 to |refreshTimestamps|
        invariant attempts == CountSince(refreshTimestamps[..i], refreshWindowMin)
      {
        assert refreshTimestamps[..i+1][..i] == refreshTimestamps[..i];
        if refreshWindowMin <= refreshTimestamps[i] {
          attempts := attempts + 1;
        }
      }
      assert refreshTimestamps[..|refreshTimestamps|] == refreshTimestamps;
      CountsRecent(refreshTimestamps, refreshWindowMin);
      excessive := attempts >= refreshWindow.value.maximumAttempts;
    }

    /** `handleRefreshSuccess`. */
    method HandleRefreshSuccess(newCredential: Credential)
      modifies this
      ensures var (m, block) := AfterSuccess(old(State()), newCredential);
        State() == m && queue == old(queue) + [block] && calls == old(calls)
    {
      credential := Some(newCredential);
      var adapts, retries := adaptOperations, requestsToRetry;
      adaptOperations := [];
      requestsToRetry := [];
      isRefreshing := false;
      queue := queue + [Resume(adapts, retries)];
    }

    /** `handleRefreshFailure`. */
    method HandleRefreshFailure(error: AuthError)
      modifies this
      ensures var (m, block) := AfterFailure(old(State()), error);
        State() == m && queue == old(queue) + [block] && calls == old(calls)
    {
      var adapts, retries := adaptOperations, requestsToRetry;
      adaptOperations := [];
      requestsToRetry := [];
      isRefreshing := false;
      queue := queue + [Fail(error, adapts, retries)];
    }

    /** `refresh(_:for:insideLock:)`; the two clock readings are parameters. */
    method Refresh(c: Credential, checked: real, started: real)
      modifies this
      ensures var (m, block) := AfterRefresh(old(State()), c, checked, started);
        State() == m && queue == old(queue) + [block] && calls == old(calls)
    {
      var excessive := IsRefreshExcessive(checked);
      if excessive {
        HandleRefreshFailure(ExcessiveRefresh);
        return;
      }
      var ticket := |refreshTimestamps|;
      refreshTimestamps := refreshTimestamps + [started];
      isRefreshing := true;
      queue := queue + [AskAuthenticator(ticket, c)];
    }

    /** The completion that `refresh` passes to the authenticator: everyone who waits is moved into one block. */
    method RefreshCompleted(result: Result<Credential, AuthError>)
      modifies this
      ensures !isRefreshing && adaptOperations == [] && requestsToRetry == []
      ensures refreshTimestamps == old(refreshTimestamps) && calls == old(calls)
      ensures credential == match result case Success(c) => Some(c) case Failure(_) => old(credential)
      ensures queue == old(queue) +
        match result
        case Success(_) => [Resume(old(adaptOperations), old(requestsToRetry))]
        case Failure(error) => [Fail(error, old(adaptOperations), old(requestsToRetry))]
    {
      match result
      case Success(newCredential) => HandleRefreshSuccess(newCredential);
      case Failure(error) => HandleRefreshFailure(error);
    }

    /** The locked block of `adapt`. */
    method AdaptLocked(id: nat, checked: real, started: real) returns (result: AdaptResult)
      modifies this
      ensures var (m, blocks, r) := AfterAdapt(old(State()), id, checked, started);
        State() == m && queue == old(queue) + blocks && result == r && calls == old(calls)
      ensures result.AdaptDeferred? <==>
        old(isRefreshing) || (old(credential).Some? && old(credential).value.requiresRefresh)
      ensures result.Adapt? ==> Some(result.credential) == old(credential) && State() == old(State())
      ensures result.DoNotAdapt? ==> result.error == MissingCredential && old(credential).None? && State() == old(State())
    {
      if isRefreshing {
        adaptOperations := adaptOperations + [id];
        return AdaptDeferred;
      }
      if credential.None? {
        return DoNotAdapt(MissingCredential);
      }
      if credential.value.requiresRefresh {
        adaptOperations := adaptOperations + [id];
        Refresh(credential.value, checked, started);
        return AdaptDeferred;
      }
      return Adapt(credential.value);
    }

    /** The switch after the locked block of `adapt`. */
    method FinishAdapt(id: nat, result: AdaptResult)
      modifies this`calls
      ensures calls == old(calls) + AdaptCalls(id, result)
    {
      match result
      case Adapt(c) => calls := calls + [Call(id, Adapted(c))];
      case DoNotAdapt(e) => calls := calls + [Call(id, AdaptFailed(e))];
      case AdaptDeferred =>
    }

    /**
      The part of `retry` before the lock.  The three flags are what the request and the
      authenticator answer; a result is the credential that the locked block will use.
     */
    method RetryChecks(id: nat, hasResponse: bool, authFailure: bool, authenticatedWith: Credential -> bool)
      returns (rejected: Option<Credential>)
      modifies this`calls
      ensures rejected == RejectedCredential(State(), hasResponse, authFailure, authenticatedWith)
      ensures calls == old(calls) +
        (if rejected.Some? then [] else [Call(id, RetryReply(State(), hasResponse, authFailure))])
      // only a request that failed for the current credential goes on; a request with an older one is retried
      ensures rejected.Some? <==>
        hasResponse && authFailure && credential.Some? && authenticatedWith(credential.value)
      ensures rejected.Some? ==> rejected == credential && calls == old(calls)
      ensures !hasResponse || !authFailure ==> calls == old(calls) + [Call(id, DoNotRetry)]
      ensures hasResponse && authFailure && credential.None? ==>
        calls == old(calls) + [Call(id, DoNotRetryWithError(MissingCredential))]
      ensures hasResponse && authFailure && credential.Some? && !authenticatedWith(credential.value) ==>
        calls == old(calls) + [Call(id, RetryRequest)]
    {
      if !hasResponse {
        calls := calls + [Call(id, DoNotRetry)];
        return None;
      }
      if !authFailure {
        calls := calls + [Call(id, DoNotRetry)];
        return None;
      }
      if credential.None? {
        calls := calls + [Call(id, DoNotRetryWithError(MissingCredential))];
        return None;
      }
      if !authenticatedWith(credential.value) {
        calls := calls + [Call(id, RetryRequest)];
        return None;
      }
      return credential;
    }

    /** The locked block of `retry`. */
    method RetryLocked(id: nat, c: Credential, checked: real, started: real)
      modifies this
      ensures var (m, blocks) := AfterRetry(old(State()), id, c, checked, started);
        State() == m && queue == old(queue) + blocks && calls == old(calls)
    {
      requestsToRetry := requestsToRetry + [id];
      if isRefreshing {
        return;
      }
      Refresh(c, checked, started);
    }

    /** The next piece of the block at the head of the serial queue. */
    method RunQueueItem(checked: real, started: real)
      requires queue != []
      modifies this
      ensures var (m, blocks, made) := AfterQueueItem(old(State()), old(queue), checked, started);
        State() == m && queue == blocks && calls == old(calls) + made
      // a completion is called with the outcome that its block stands for
      ensures var b := old(queue)[0]; b.Resume? && b.adapts == [] && b.retries != [] ==>
        calls == old(calls) + [Call(b.retries[0], RetryRequest)] && State() == old(State())
      ensures var b := old(queue)[0]; b.Fail? && b.adapts != [] ==>
        calls == old(calls) + [Call(b.adapts[0], AdaptFailed(b.error))] && State() == old(State())
      ensures var b := old(queue)[0]; b.Fail? && b.adapts == [] && b.retries != [] ==>
        calls == old(calls) + [Call(b.retries[0], DoNotRetryWithError(b.error))] && State() == old(State())
    {
      var block := queue[0];
      match block
      case AskAuthenticator(_, _) =>
        queue := queue[1..];
      case Resume(adapts, retries) =>
        if adapts != [] {
          queue := [Resume(adapts[1..], retries)] + queue[1..];
          var result := AdaptLocked(adapts[0], checked, started);
          FinishAdapt(adapts[0], result);
        } else if retries != [] {
          queue := [Resume([], retries[1..])] + queue[1..];
          calls := calls + [Call(retries[0], RetryRequest)];
        } else {
          queue := queue[1..];
        }
      case Fail(error, adapts, retries) =>
        if adapts != [] {
          queue := [Fail(error, adapts[1..], retries)] + queue[1..];
          calls := calls + [Call(adapts[0], AdaptFailed(error))];
        } else if retries != [] {
          queue := [Fail(error, [], retries[1..])] + queue[1..];
          calls := calls + [Call(retries[0], DoNotRetryWithError(error))];
        } else {
          queue := queue[1..];
        }
    }
  }
}
