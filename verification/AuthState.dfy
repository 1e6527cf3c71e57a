/**
  The state that `AuthenticationInterceptor` keeps under its lock, and what each locked block of the
  class does to it, as functions.  AuthInterceptor.dfy proves the class against these functions;
  AuthProtocol.dfy proves properties of all their interleavings.

  A completion closure is represented by a number: the call that it belongs to.
 */
module AuthState {
  import opened Wrappers

  /** `requiresRefresh` is a property of the credential. */
  datatype Credential = Credential(name: nat, requiresRefresh: bool)

  datatype AuthError = MissingCredential | ExcessiveRefresh | AuthenticatorError(code: int)

  datatype RefreshWindow = RefreshWindow(interval: real, maximumAttempts: int)

  datatype MutableState = MutableState(
    credential: Option<Credential>,
    isRefreshing: bool,
    refreshTimestamps: seq<real>,
    refreshWindow: Option<RefreshWindow>,
    adaptOperations: seq<nat>,
    requestsToRetry: seq<nat>)

  /** What a completion is called with. */
  datatype Reply =
    | Adapted(with: Credential)
    | AdaptFailed(error: AuthError)
    | RetryRequest
    | DoNotRetry
    | DoNotRetryWithError(error: AuthError)

  datatype Call = Call(id: nat, reply: Reply)

  /** A block dispatched to the serial queue. */
  datatype Block =
    | AskAuthenticator(ticket: nat, credential: Credential)
    | Resume(adapts: seq<nat>, retries: seq<nat>)                      // after a successful refresh
    | Fail(error: AuthError, adapts: seq<nat>, retries: seq<nat>)      // after a failed one

  datatype AdaptResult = Adapt(credential: Credential) | DoNotAdapt(error: AuthError) | AdaptDeferred

  // ---------------------------------------------------------------------------------------------

  /** How many timestamps lie at or after `since`. */
  function CountSince(timestamps: seq<real>, since: real): nat {
    if timestamps == [] then 0
    else CountSince(timestamps[..|timestamps|-1], since) + (if since <= timestamps[|timestamps|-1] then 1 else 0)
  }

  /** The positions of the timestamps at or after `since`. */
  function Recent(timestamps: seq<real>, since: real): set<nat> {
    set i: nat | i < |timestamps| && since <= timestamps[i]
  }

  lemma {:induction false} CountsRecent(timestamps: seq<real>, since: real)
    ensures CountSince(timestamps, since) == |Recent(timestamps, since)|
  {
    if timestamps != [] {
      var n := |timestamps| - 1;
      CountsRecent(timestamps[..n], since);
      assert Recent(timestamps, since) == Recent(timestamps[..n], since) + if since <= timestamps[n] then {n} else {};
    }
  }

  predicate Excessive(m: MutableState, now: real) {
    && m.refreshWindow.Some?
    && CountSince(m.refreshTimestamps, now - m.refreshWindow.value.interval) >= m.refreshWindow.value.maximumAttempts
  }

  /** The pending completions move into one block. */
  function Flushed(m: MutableState): MutableState {
    m.(adaptOperations := [], requestsToRetry := [], isRefreshing := false)
  }

  /** `handleRefreshSuccess`. */
  function AfterSuccess(m: MutableState, credential: Credential): (MutableState, Block) {
    (Flushed(m.(credential := Some(credential))), Resume(m.adaptOperations, m.requestsToRetry))
  }

  /** `handleRefreshFailure`. */
  function AfterFailure(m: MutableState, error: AuthError): (MutableState, Block) {
    (Flushed(m), Fail(error, m.adaptOperations, m.requestsToRetry))
  }

  /**
    `refresh`, inside the lock: the window is checked at clock reading `checked`, the timestamp is
    taken at `started`.  The refresh's ticket is the position of its timestamp.
   */
  function AfterRefresh(m: MutableState, credential: Credential, checked: real, started: real): (MutableState, Block) {
    if Excessive(m, checked) then AfterFailure(m, ExcessiveRefresh)
    else
      (m.(refreshTimestamps := m.refreshTimestamps + [started], isRefreshing := true),
       AskAuthenticator(|m.refreshTimestamps|, credential))
  }

  /** The locked block of `adapt`. */
  function AfterAdapt(m: MutableState, id: nat, checked: real, started: real): (MutableState, seq<Block>, AdaptResult) {
    if m.isRefreshing then
      (m.(adaptOperations := m.adaptOperations + [id]), [], AdaptDeferred)
    else if m.credential.None? then
      (m, [], DoNotAdapt(MissingCredential))
    else if m.credential.value.requiresRefresh then
      var (m', block) := AfterRefresh(m.(adaptOperations := m.adaptOperations + [id]), m.credential.value, checked, started);
      (m', [block], AdaptDeferred)
    else
      (m, [], Adapt(m.credential.value))
  }

  /** The locked block of `retry`; `credential` was read before the lock was taken. */
  function AfterRetry(m: MutableState, id: nat, credential: Credential, checked: real, started: real)
    : (MutableState, seq<Block>)
  {
    var m1 := m.(requestsToRetry := m.requestsToRetry + [id]);
    if m.isRefreshing then (m1, [])
    else
      var (m', block) := AfterRefresh(m1, credential, checked, started);
      (m', [block])
  }

  /** When `retry` goes on to its locked block, and with which credential. */
  function RejectedCredential(m: MutableState, hasResponse: bool, authFailure: bool, authenticatedWith: Credential -> bool)
    : Option<Credential>
  {
    if hasResponse && authFailure && m.credential.Some? && authenticatedWith(m.credential.value) then m.credential
    else None
  }

  /** The answer of a `retry` that does not go on. */
  function RetryReply(m: MutableState, hasResponse: bool, authFailure: bool): Reply {
    if !hasResponse || !authFailure then DoNotRetry
    else if m.credential.None? then DoNotRetryWithError(MissingCredential)
    else RetryRequest
  }

  /** The completion calls that follow the locked block of `adapt`. */
  function AdaptCalls(id: nat, result: AdaptResult): seq<Call> {
    match result
    case Adapt(c) => [Call(id, Adapted(c))]
    case DoNotAdapt(e) => [Call(id, AdaptFailed(e))]
    case AdaptDeferred => []
  }

  /**
    The serial queue does the next piece of its first block: it hands a refresh to the authenticator,
    adapts one deferred request again, or calls one completion; an exhausted block is left behind.
   */
  function AfterQueueItem(m: MutableState, queue: seq<Block>, checked: real, started: real)
    : (MutableState, seq<Block>, seq<Call>)
    requires queue != []
  {
    match queue[0]
    case AskAuthenticator(_, _) => (m, queue[1..], [])
    case Resume(adapts, retries) =>
      if adapts != [] then
        var (m', blocks, result) := AfterAdapt(m, adapts[0], checked, started);
        (m', [Resume(adapts[1..], retries)] + queue[1..] + blocks, AdaptCalls(adapts[0], result))
      else if retries != [] then
        (m, [Resume([], retries[1..])] + queue[1..], [Call(retries[0], RetryRequest)])
      else
        (m, queue[1..], [])
    case Fail(error, adapts, retries) =>
      if adapts != [] then
        (m, [Fail(error, adapts[1..], retries)] + queue[1..], [Call(adapts[0], AdaptFailed(error))])
      else if retries != [] then
        (m, [Fail(error, [], retries[1..])] + queue[1..], [Call(retries[0], DoNotRetryWithError(error))])
      else
        (m, queue[1..], [])
  }
}
