/**
  When a refresh is allowed: exactly when fewer than the maximum number of timestamps lie in the window that
  ends now.  Timestamps that have left the window do not count.
 */
module AuthWindow {
  import opened Wrappers
  import opened AuthState
  import opened AuthProtocol
  import opened AuthProperties

  /** `CountIn` counts positions. */
  lemma {:induction false} CountsPositions(ts: seq<real>, lo: real, hi: real)
    ensures CountIn(ts, lo, hi) == |set i: nat | i < |ts| && lo <= ts[i] <= hi|
  {
    if ts != [] {
      var n := |ts| - 1;
      CountsPositions(ts[..n], lo, hi);
      assert (set i: nat | i < |ts| && lo <= ts[i] <= hi)
          == (set i: nat | i < |ts[..n]| && lo <= ts[..n][i] <= hi) + if lo <= ts[n] <= hi then {n} else {};
    }
  }

  lemma {:induction false} CountSinceIn(ts: seq<real>, lo: real, now: real)
    requires forall i :: 0 <= i < |ts| ==> ts[i] <= now
    ensures CountSince(ts, lo) == CountIn(ts, lo, now)
  {
    if ts != [] {
      CountSinceIn(ts[..|ts|-1], lo, now);
    }
  }

  /** The window is exhausted exactly if the interval that ends now holds the maximum number of timestamps. */
  lemma {:induction false} ExcessiveExactly(m: MutableState, now: real)
    requires forall i :: 0 <= i < |m.refreshTimestamps| ==> m.refreshTimestamps[i] <= now
    ensures Excessive(m, now) <==>
      && m.refreshWindow.Some?
      && CountIn(m.refreshTimestamps, now - m.refreshWindow.value.interval, now) >= m.refreshWindow.value.maximumAttempts
  {
    if m.refreshWindow.Some? {
      CountSinceIn(m.refreshTimestamps, now - m.refreshWindow.value.interval, now);
    }
  }

  // ---------------------------------------------------------------------------------------------
  // Over the steps of a run

  /** No timestamp lies in the future. */
  predicate Past(w: World) {
    forall i :: 0 <= i < |w.m.refreshTimestamps| ==> w.m.refreshTimestamps[i] <= w.clock
  }

  lemma PastStep(w: World, s: Step)
    requires Enabled(w, s) && Past(w)
    ensures Past(Next(w, s))
  {
  }

  lemma {:induction false} PastAlways(w: World, steps: seq<Step>)
    requires Past(w) && Run(w, steps)
    ensures Past(After(w, steps))
    decreases |steps|
  {
    if steps != [] {
      PastStep(w, steps[0]);
      PastAlways(Next(w, steps[0]), steps[1..]);
    }
  }

  /** An adapt, first or deferred, that finds a credential to be refreshed, or a retry that takes the lock. */
  predicate WantsRefresh(w: World, s: Step) {
    && !w.m.isRefreshing
    && match s
       case SubmitAdapt(_, _, _) => w.m.credential.Some? && w.m.credential.value.requiresRefresh
       case LockRetry(_, _, _) => true
       case RunQueue(_, _) =>
         && w.queue != [] && w.queue[0].Resume? && w.queue[0].adapts != []
         && w.m.credential.Some? && w.m.credential.value.requiresRefresh
       case _ => false
  }

  /** The window that ends at the clock reading of the check has room for one more refresh. */
  predicate RoomAt(m: MutableState, checked: real) {
    m.refreshWindow.Some? ==>
      CountIn(m.refreshTimestamps, checked - m.refreshWindow.value.interval, checked)
      < m.refreshWindow.value.maximumAttempts
  }

  predicate RoomFor(w: World, s: Step) {
    match s
    case SubmitAdapt(_, checked, _) => RoomAt(w.m, checked)
    case LockRetry(_, checked, _) => RoomAt(w.m, checked)
    case RunQueue(checked, _) => RoomAt(w.m, checked)
    case _ => false
  }

  lemma StepStartsExactly(w: World, s: Step)
    requires Enabled(w, s) && Past(w)
    ensures |Next(w, s).m.refreshTimestamps| > |w.m.refreshTimestamps| <==> WantsRefresh(w, s) && RoomFor(w, s)
  {
    hide CountIn, CountSince, Excessive;
    match s {
      case SubmitAdapt(id, checked, _) => ExcessiveAt(w.m.(adaptOperations := w.m.adaptOperations + [id]), checked);
      case LockRetry(id, checked, _) => ExcessiveAt(w.m.(requestsToRetry := w.m.requestsToRetry + [id]), checked);
      case RunQueue(checked, _) =>
        if w.queue[0].Resume? && w.queue[0].adapts != [] {
          ExcessiveAt(w.m.(adaptOperations := w.m.adaptOperations + [w.queue[0].adapts[0]]), checked);
        }
      case _ =>
    }
  }

  lemma ExcessiveAt(m: MutableState, checked: real)
    requires forall i :: 0 <= i < |m.refreshTimestamps| ==> m.refreshTimestamps[i] <= checked
    ensures Excessive(m, checked) <==> !RoomAt(m, checked)
  {
    ExcessiveExactly(m, checked);
  }

  /**
    In every run: a step starts a refresh if and only if it is an adapt that finds a credential to be
    refreshed or a retry that takes the lock, no refresh is under way, and fewer than the maximum number of
    refreshes were started in the window that ends at its check.
   */
  lemma {:induction false} RefreshStartsExactly(credential: Option<Credential>, window: Option<RefreshWindow>, clock: real,
                                                steps: seq<Step>, s: Step)
    requires Run(Initial(credential, window, clock), steps)
    requires Enabled(After(Initial(credential, window, clock), steps), s)
    ensures var w := After(Initial(credential, window, clock), steps);
      |Next(w, s).m.refreshTimestamps| > |w.m.refreshTimestamps| <==> WantsRefresh(w, s) && RoomFor(w, s)
  {
    hide Past, WantsRefresh, RoomFor, Next;
    var w0 := Initial(credential, window, clock);
    NothingPast(w0);
    PastAlways(w0, steps);
    StepStartsExactly(After(w0, steps), s);
  }

  lemma NothingPast(w: World)
    requires w.m.refreshTimestamps == []
    ensures Past(w)
  {
  }

  /** An allowed refresh is noted at the time at which it starts, and nothing else is ever noted. */
  lemma StartIsNoted(w: World, s: Step)
    requires Enabled(w, s)
    ensures Next(w, s).m.refreshTimestamps == w.m.refreshTimestamps + match s
      case SubmitAdapt(_, _, started) => Noting(w, s, started)
      case LockRetry(_, _, started) => Noting(w, s, started)
      case RunQueue(_, started) => Noting(w, s, started)
      case _ => []
  {
  }

  function Noting(w: World, s: Step, started: real): seq<real>
    requires Enabled(w, s)
  {
    if |Next(w, s).m.refreshTimestamps| > |w.m.refreshTimestamps| then [started] else []
  }

  /** A window slides: timestamps that all lie before it leave room. */
  lemma {:induction false} OldRefreshesDoNotCount(ts: seq<real>, lo: real, now: real)
    requires forall i :: 0 <= i < |ts| ==> ts[i] < lo
    ensures CountIn(ts, lo, now) == 0
  {
    if ts != [] {
      OldRefreshesDoNotCount(ts[..|ts|-1], lo, now);
    }
  }
}
