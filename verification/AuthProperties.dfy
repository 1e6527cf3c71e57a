/**
  Properties of every run of the protocol in AuthProtocol.dfy: the refresh phase, the sliding window,
  bounded waiting, and the end of internal activity.
 */
module AuthProperties {
  import opened Wrappers
  import opened AuthState
  import opened AuthProtocol

  // ---------------------------------------------------------------------------------------------
  // Refresh phase

  /** A non-empty pending list implies that a refresh is under way. */
  predicate Phase(w: World) {
    w.m.adaptOperations != [] || w.m.requestsToRetry != [] ==> w.m.isRefreshing
  }

  lemma PhaseStep(w: World, s: Step)
    requires Enabled(w, s) && Phase(w)
    ensures Phase(Next(w, s))
  {
  }

  lemma {:induction false} PhaseAlways(w: World, steps: seq<Step>)
    requires Phase(w) && Run(w, steps)
    ensures Phase(After(w, steps))
    decreases |steps|
  {
    if steps != [] {
      PhaseStep(w, steps[0]);
      PhaseAlways(Next(w, steps[0]), steps[1..]);
    }
  }

  /** The authenticator completes each refresh at most once. */
  predicate RunOnce(w: World, steps: seq<Step>)
    decreases |steps|
  {
    steps == [] ||
    ( && Enabled(w, steps[0])
      && (steps[0].CompleteRefresh? ==> steps[0].ticket !in w.completed)
      && RunOnce(Next(w, steps[0]), steps[1..]))
  }

  predicate AsksBelow(queue: seq<Block>, n: nat) {
    forall i :: 0 <= i < |queue| && queue[i].AskAuthenticator? ==> queue[i].ticket < n
  }

  predicate AskQueued(queue: seq<Block>, ticket: nat) {
    exists i :: 0 <= i < |queue| && queue[i].AskAuthenticator? && queue[i].ticket == ticket
  }

  /** Refreshes are started one after the other; the last one is outstanding while `isRefreshing`. */
  predicate Tickets(w: World) {
    var n := |w.m.refreshTimestamps|;
    && AsksBelow(w.queue, n)
    && (forall t :: t in w.asked ==> t < n)
    && (forall t :: t in w.completed ==> t < n)
    && (w.m.isRefreshing ==>
          && n > 0 && n - 1 !in w.completed
          && (n - 1 in w.asked || AskQueued(w.queue, n - 1)))
    && (forall t :: 0 <= t < n ==> t in w.completed || (w.m.isRefreshing && t == n - 1))
  }

  /** The refreshes that have been started and not completed. */
  function Outstanding(w: World): set<nat> {
    set t | 0 <= t < |w.m.refreshTimestamps| && t !in w.completed
  }

  lemma AskStays(queue: seq<Block>, blocks: seq<Block>, ticket: nat)
    requires AskQueued(queue, ticket)
    ensures AskQueued(queue + blocks, ticket)
  {
    var i :| 0 <= i < |queue| && queue[i].AskAuthenticator? && queue[i].ticket == ticket;
    assert (queue + blocks)[i] == queue[i];
  }

  lemma AskAdded(queue: seq<Block>, b: Block)
    requires b.AskAuthenticator?
    ensures AskQueued(queue + [b], b.ticket)
  {
    assert (queue + [b])[|queue|] == b;
  }

  lemma AskTail(queue: seq<Block>, ticket: nat)
    requires AskQueued(queue, ticket) && !(queue[0].AskAuthenticator? && queue[0].ticket == ticket)
    ensures AskQueued(queue[1..], ticket)
  {
    var i :| 0 <= i < |queue| && queue[i].AskAuthenticator? && queue[i].ticket == ticket;
    assert queue[1..][i-1] == queue[i];
  }

  lemma AskBehind(b: Block, queue: seq<Block>, ticket: nat)
    requires AskQueued(queue, ticket)
    ensures AskQueued([b] + queue, ticket)
  {
    var i :| 0 <= i < |queue| && queue[i].AskAuthenticator? && queue[i].ticket == ticket;
    assert ([b] + queue)[i+1] == queue[i];
  }

  lemma TicketsStep(w: World, s: Step)
    requires Enabled(w, s) && Tickets(w)
    requires s.CompleteRefresh? ==> s.ticket !in w.completed
    ensures Tickets(Next(w, s))
  {
    var n := |w.m.refreshTimestamps|;
    match s {
      case SetCredential(_) =>
      case SubmitRetry(_, _) =>
      case Deliver(_) =>
      case SubmitAdapt(id, checked, started) =>
        var (m, blocks, _) := AfterAdapt(w.m, id, checked, started);
        GrowTickets(w, m, w.queue, blocks);
      case LockRetry(id, checked, started) =>
        var (m, blocks) := AfterRetry(w.m, id, w.reading[id], checked, started);
        GrowTickets(w, m, w.queue, blocks);
      case CompleteRefresh(ticket, outcome) =>
      case RunQueue(checked, started) => QueueTickets(w, checked, started);
    }
  }

  lemma QueueTickets(w: World, checked: real, started: real)
    requires Enabled(w, RunQueue(checked, started)) && Tickets(w)
    ensures Tickets(Next(w, RunQueue(checked, started)))
  {
    var n, block := |w.m.refreshTimestamps|, w.queue[0];
    var next := Next(w, RunQueue(checked, started));
    if w.m.isRefreshing && n - 1 !in w.asked && !(block.AskAuthenticator? && block.ticket == n - 1) {
      AskTail(w.queue, n - 1);
      if !block.AskAuthenticator? && (block.adapts != [] || block.retries != []) {
        AskBehind(next.queue[0], w.queue[1..], n - 1);
      }
    }
    if block.Resume? && block.adapts != [] {
      var (m, blocks, _) := AfterAdapt(w.m, block.adapts[0], checked, started);
      GrowTickets(w, m, [Resume(block.adapts[1..], block.retries)] + w.queue[1..], blocks);
    }
  }

  /** An adapt or a retry adds at most one block, and starts a refresh only when none is under way. */
  lemma GrowTickets(w: World, m: MutableState, queue: seq<Block>, blocks: seq<Block>)
    requires Tickets(w) && AsksBelow(queue, |w.m.refreshTimestamps|)
    requires var n := |w.m.refreshTimestamps|;
      w.m.isRefreshing && n - 1 !in w.asked ==> AskQueued(queue, n - 1)
    requires
      || (m.isRefreshing == w.m.isRefreshing && |m.refreshTimestamps| == |w.m.refreshTimestamps|
          && forall i :: 0 <= i < |blocks| ==> !blocks[i].AskAuthenticator?)
      || (!w.m.isRefreshing && m.isRefreshing && |m.refreshTimestamps| == |w.m.refreshTimestamps| + 1
          && |blocks| == 1 && blocks[0].AskAuthenticator? && blocks[0].ticket == |w.m.refreshTimestamps|)
    ensures Tickets(w.(m := m, queue := queue + blocks))
  {
    var n := |w.m.refreshTimestamps|;
    if w.m.isRefreshing {
      if n - 1 !in w.asked { AskStays(queue, blocks, n - 1); }
    } else if m.isRefreshing {
      AskAdded(queue, blocks[0]);
      assert queue + [blocks[0]] == queue + blocks;
    }
  }

  lemma {:induction false} TicketsAlways(w: World, steps: seq<Step>)
    requires Tickets(w) && RunOnce(w, steps)
    ensures Run(w, steps) && Tickets(After(w, steps))
    decreases |steps|
  {
    if steps != [] {
      TicketsStep(w, steps[0]);
      TicketsAlways(Next(w, steps[0]), steps[1..]);
    }
  }

  /** With at most one completion per refresh, one refresh is outstanding exactly while `isRefreshing`. */
  lemma OneOutstanding(credential: Option<Credential>, window: Option<RefreshWindow>, clock: real, steps: seq<Step>)
    requires RunOnce(Initial(credential, window, clock), steps)
    ensures Run(Initial(credential, window, clock), steps)
    ensures var w := After(Initial(credential, window, clock), steps);
      && Phase(w)
      && |Outstanding(w)| == if w.m.isRefreshing then 1 else 0
  {
    var w0 := Initial(credential, window, clock);
    TicketsAlways(w0, steps);
    PhaseAlways(w0, steps);
    var w := After(w0, steps);
    if w.m.isRefreshing {
      assert Outstanding(w) == {|w.m.refreshTimestamps| - 1};
    } else {
      assert Outstanding(w) == {};
    }
  }

  // ---------------------------------------------------------------------------------------------
  // Sliding window

  /** How many timestamps lie in the closed window from lo to hi. */
  function CountIn(timestamps: seq<real>, lo: real, hi: real): nat {
    if timestamps == [] then 0
    else CountIn(timestamps[..|timestamps|-1], lo, hi)
         + (if lo <= timestamps[|timestamps|-1] <= hi then 1 else 0)
  }

  function CountFrom(timestamps: seq<real>, lo: real, interval: real): nat {
    CountIn(timestamps, lo, lo + interval)
  }

  function Allowed(window: RefreshWindow): nat {
    if window.maximumAttempts < 0 then 0 else window.maximumAttempts
  }

  /** Every closed window of the given length holds at most the allowed number of refreshes. */
  ghost predicate Windowed(m: MutableState) {
    m.refreshWindow.Some? ==>
      forall x: real :: CountFrom(m.refreshTimestamps, x, m.refreshWindow.value.interval)
                        <= Allowed(m.refreshWindow.value)
  }

  lemma {:induction false} CountSinceMonotone(ts: seq<real>, a: real, b: real)
    requires a <= b
    ensures CountSince(ts, b) <= CountSince(ts, a)
  {
    if ts != [] { CountSinceMonotone(ts[..|ts|-1], a, b); }
  }

  lemma {:induction false} CountInSince(ts: seq<real>, lo: real, hi: real)
    ensures CountIn(ts, lo, hi) <= CountSince(ts, lo)
  {
    if ts != [] { CountInSince(ts[..|ts|-1], lo, hi); }
  }

  lemma RefreshKeepsWindow(m: MutableState, c: Credential, checked: real, started: real)
    requires Windowed(m) && checked <= started
    ensures Windowed(AfterRefresh(m, c, checked, started).0)
  {
    if m.refreshWindow.Some? && !Excessive(m, checked) {
      var window, ts := m.refreshWindow.value, m.refreshTimestamps;
      assert (ts + [started])[..|ts|] == ts;
      forall x: real ensures CountFrom(ts + [started], x, window.interval) <= Allowed(window) {
        assert CountFrom(ts, x, window.interval) <= Allowed(window);
        if x <= started <= x + window.interval {
          CountInSince(ts, x, x + window.interval);
          CountSinceMonotone(ts, checked - window.interval, x);
        }
      }
    }
  }

  lemma WindowStep(w: World, s: Step)
    requires Enabled(w, s) && Windowed(w.m)
    ensures Windowed(Next(w, s).m)
  {
    match s {
      case SetCredential(_) =>
      case SubmitRetry(_, _) =>
      case Deliver(_) =>
      case CompleteRefresh(_, _) =>
      case SubmitAdapt(id, checked, started) => AdaptKeepsWindow(w.m, id, checked, started);
      case LockRetry(id, checked, started) =>
        if !w.m.isRefreshing {
          RefreshKeepsWindow(w.m.(requestsToRetry := w.m.requestsToRetry + [id]), w.reading[id], checked, started);
        }
      case RunQueue(checked, started) =>
        if w.queue[0].Resume? && w.queue[0].adapts != [] {
          AdaptKeepsWindow(w.m, w.queue[0].adapts[0], checked, started);
        }
    }
  }

  lemma AdaptKeepsWindow(m: MutableState, id: nat, checked: real, started: real)
    requires Windowed(m) && checked <= started
    ensures Windowed(AfterAdapt(m, id, checked, started).0)
  {
    if !m.isRefreshing && m.credential.Some? {
      RefreshKeepsWindow(m.(adaptOperations := m.adaptOperations + [id]), m.credential.value, checked, started);
    }
  }

  /** The sliding-window bound, over whole runs, wherever the window starts. */
  lemma {:induction false} SlidingWindow(w: World, steps: seq<Step>)
    requires Windowed(w.m) && Run(w, steps)
    ensures Windowed(After(w, steps).m)
    decreases |steps|
  {
    if steps != [] {
      WindowStep(w, steps[0]);
      SlidingWindow(Next(w, steps[0]), steps[1..]);
    }
  }

  lemma InitialWindowed(credential: Option<Credential>, window: Option<RefreshWindow>, clock: real)
    ensures Windowed(Initial(credential, window, clock).m)
  {
    if window.Some? {
      forall x: real ensures CountFrom([], x, window.value.interval) <= Allowed(window.value) {
      }
    }
  }

  // ---------------------------------------------------------------------------------------------
  // Bounded waiting

  predicate Increasing(ts: seq<nat>) {
    forall i, j :: 0 <= i < j < |ts| ==> ts[i] < ts[j]
  }

  predicate Ordered(ts: seq<real>) {
    forall i, j :: 0 <= i < j < |ts| ==> ts[i] <= ts[j]
  }

  /** The tickets on which call id has waited, one after the other, the current one only while pending. */
  predicate WaitsWell(w: World, id: nat)
    requires id in w.waits
  {
    var ws, n := w.waits[id], |w.m.refreshTimestamps|;
    && ws != [] && Increasing(ws) && ws[|ws|-1] < n
    && (w.m.isRefreshing && ws[|ws|-1] == n - 1 ==> Occ(w.m.adaptOperations, id) > 0)
  }

  ghost predicate Waiting(w: World) {
    && (forall id :: id in w.waits ==> id in w.submitted && WaitsWell(w, id))
    && (w.m.isRefreshing ==> w.m.refreshTimestamps != [])
    && Ordered(w.m.refreshTimestamps)
    && (forall i :: 0 <= i < |w.m.refreshTimestamps| ==> w.m.refreshTimestamps[i] <= w.clock)
  }

  /** What an adapt leaves behind, as far as `Waiting` looks at it. */
  function Left(w: World, id: nat, checked: real, started: real): World {
    var (m, _, result) := AfterAdapt(w.m, id, checked, started);
    w.(m := m, clock := started, submitted := w.submitted + {id},
       waits := if result.AdaptDeferred? then Noted(w.waits, id, m) else w.waits)
  }

  /** One deferral, or refusal, of an adapt that is not pending. */
  lemma AdaptWaits(w: World, id: nat, checked: real, started: real)
    requires Waiting(w) && Phase(w) && Timely(w, checked, started) && Occ(w.m.adaptOperations, id) == 0
    ensures Waiting(Left(w, id, checked, started))
  {
    var next := Left(w, id, checked, started);
    assert next.m.refreshTimestamps == w.m.refreshTimestamps || next.m.refreshTimestamps == w.m.refreshTimestamps + [started];
    forall x | x in next.waits ensures x in next.submitted && WaitsWell(next, x) {
      if x == id {
        OwnWait(w, id, checked, started);
      } else {
        OtherWait(w, id, checked, started, x);
      }
    }
    hide WaitsWell, AfterAdapt;
  }

  lemma OwnWait(w: World, id: nat, checked: real, started: real)
    requires Phase(w) && Occ(w.m.adaptOperations, id) == 0 && (id in w.waits ==> WaitsWell(w, id))
    requires w.m.isRefreshing ==> w.m.refreshTimestamps != []
    ensures var next := Left(w, id, checked, started); id in next.waits ==> WaitsWell(next, id)
  {
    OccAppend(w.m.adaptOperations, id, id);
  }

  lemma OtherWait(w: World, id: nat, checked: real, started: real, x: nat)
    requires Phase(w) && x != id && x in w.waits && WaitsWell(w, x)
    ensures var next := Left(w, id, checked, started); x in next.waits && WaitsWell(next, x)
  {
    OccAppend(w.m.adaptOperations, id, x);
  }

  lemma RetryWaits(w: World, id: nat, c: Credential, checked: real, started: real)
    requires Waiting(w) && Phase(w) && Timely(w, checked, started)
    ensures Waiting(w.(m := AfterRetry(w.m, id, c, checked, started).0, clock := started))
  {
    var next := w.(m := AfterRetry(w.m, id, c, checked, started).0, clock := started);
    forall x | x in next.waits ensures WaitsWell(next, x) {
      assert WaitsWell(w, x);
    }
  }

  lemma QueuedNotPending(w: World)
    requires Conserved(w) && w.queue != [] && w.queue[0].Resume? && w.queue[0].adapts != []
    ensures Occ(w.m.adaptOperations, w.queue[0].adapts[0]) == 0 && w.queue[0].adapts[0] in w.submitted
  {
    var x := w.queue[0].adapts[0];
    assert Places(w, x) == if x in w.submitted then 1 else 0;
    OccHead(w.queue[0].adapts, x);
  }

  /** `Waiting` looks at a few parts of the world only. */
  lemma SameWaiting(v: World, w: World)
    requires Waiting(v)
    requires w.waits == v.waits && v.submitted <= w.submitted && v.clock <= w.clock
    requires w.m.refreshTimestamps == v.m.refreshTimestamps
    requires !w.m.isRefreshing || (w.m.isRefreshing == v.m.isRefreshing && w.m.adaptOperations == v.m.adaptOperations)
    ensures Waiting(w)
  {
    forall x | x in w.waits ensures WaitsWell(w, x) {
      assert WaitsWell(v, x);
    }
  }

  lemma QueueWaits(w: World, checked: real, started: real)
    requires Enabled(w, RunQueue(checked, started)) && Waiting(w) && Phase(w) && Conserved(w)
    ensures Waiting(Next(w, RunQueue(checked, started)))
  {
    hide Waiting, Conserved;
    var next := Next(w, RunQueue(checked, started));
    if w.queue[0].Resume? && w.queue[0].adapts != [] {
      var id := w.queue[0].adapts[0];
      QueuedNotPending(w);
      AdaptWaits(w, id, checked, started);
      CallsTellResult(w.m, id, checked, started);
      SameWaiting(Left(w, id, checked, started), next);
    } else {
      SameWaiting(w, next);
    }
  }

  lemma WaitingStep(w: World, s: Step)
    requires Enabled(w, s) && Waiting(w) && Phase(w) && Conserved(w)
    ensures Waiting(Next(w, s))
  {
    var next := Next(w, s);
    match s {
      case SubmitAdapt(id, checked, started) =>
        assert Places(w, id) == 0;
        hide Waiting, Conserved;
        AdaptWaits(w, id, checked, started);
        SameWaiting(Left(w, id, checked, started), next);
      case LockRetry(id, checked, started) =>
        hide Waiting, Conserved;
        RetryWaits(w, id, w.reading[id], checked, started);
        SameWaiting(w.(m := next.m, clock := started), next);
      case RunQueue(checked, started) =>
        QueueWaits(w, checked, started);
      case _ =>
        SameWaiting(w, next);
    }
  }

  lemma CallsTellResult(m: MutableState, id: nat, checked: real, started: real)
    ensures var (_, _, result) := AfterAdapt(m, id, checked, started);
      AdaptCalls(id, result) == [] <==> result.AdaptDeferred?
  {
  }

  lemma {:induction false} WaitingAlways(w: World, steps: seq<Step>)
    requires Waiting(w) && Phase(w) && Conserved(w) && Run(w, steps)
    ensures Waiting(After(w, steps))
    decreases |steps|
  {
    if steps != [] {
      WaitingStep(w, steps[0]);
      PhaseStep(w, steps[0]);
      SingleStep(w, steps[0]);
      Conservation(w, [steps[0]]);
      WaitingAlways(Next(w, steps[0]), steps[1..]);
    }
  }

  /** Distinct positions inside a window are counted. */
  lemma {:induction false} CountDistinct(ts: seq<real>, ws: seq<nat>, lo: real, hi: real)
    requires Increasing(ws)
    requires forall i :: 0 <= i < |ws| ==> ws[i] < |ts| && lo <= ts[ws[i]] <= hi
    ensures |ws| <= CountIn(ts, lo, hi)
    decreases |ts|
  {
    hide CountIn;
    if ws != [] {
      assert ws[0] < |ts|;
      var last := |ts| - 1;
      CountLast(ts, lo, hi);
      if ws[|ws|-1] == last {
        var init := ws[..|ws|-1];
        WithoutLast(ts, ws, init, lo, hi);
        CountDistinct(ts[..last], init, lo, hi);
      } else {
        WithoutLast(ts, ws, ws, lo, hi);
        CountDistinct(ts[..last], ws, lo, hi);
      }
    }
  }

  lemma CountLast(ts: seq<real>, lo: real, hi: real)
    requires ts != []
    ensures CountIn(ts, lo, hi) == CountIn(ts[..|ts|-1], lo, hi) + if lo <= ts[|ts|-1] <= hi then 1 else 0
  {
  }

  /** Positions before the last one are positions of the rest. */
  lemma WithoutLast(ts: seq<real>, ws: seq<nat>, init: seq<nat>, lo: real, hi: real)
    requires ts != [] && init <= ws && Increasing(ws)
    requires forall i :: 0 <= i < |ws| ==> ws[i] < |ts| && lo <= ts[ws[i]] <= hi
    requires if init == ws then ws != [] && ws[|ws|-1] != |ts| - 1 else |init| < |ws|
    ensures Increasing(init)
    ensures forall i :: 0 <= i < |init| ==> init[i] < |ts[..|ts|-1]| && lo <= ts[..|ts|-1][init[i]] <= hi
  {
    forall i | 0 <= i < |init| ensures init[i] < |ts| - 1 {
      assert init[i] == ws[i];
      if i < |ws| - 1 {
        assert ws[i] < ws[|ws|-1];
      }
    }
  }

  /**
    Bounded waiting, for any stretch of the clock: if all but the first k refreshes that a deferred adapt has
    waited on were started from `lo` on, and the clock has not passed `lo` by more than `interval`, then it
    has waited on at most k + `maximumAttempts` refreshes, even if every new credential again requires one.
   */
  lemma BoundedWaiting(credential: Option<Credential>, window: RefreshWindow, clock: real, steps: seq<Step>,
                       id: nat, k: nat, lo: real)
    requires Run(Initial(credential, Some(window), clock), steps)
    requires id in After(Initial(credential, Some(window), clock), steps).waits
    ensures var w := After(Initial(credential, Some(window), clock), steps);
      var ws, ts := w.waits[id], w.m.refreshTimestamps;
      && ws != [] && (forall i :: 0 <= i < |ws| ==> ws[i] < |ts|)
      && ((forall i :: k <= i < |ws| ==> lo <= ts[ws[i]]) && w.clock <= lo + window.interval
          ==> |ws| <= k + Allowed(window))
  {
    var w0 := Initial(credential, Some(window), clock);
    InitialWindowed(credential, Some(window), clock);
    InitialConserved(credential, Some(window), clock);
    SlidingWindow(w0, steps);
    WaitingAlways(w0, steps);
    WindowIsConstant(w0, steps);
    var w := After(w0, steps);
    hide Run, After;
    var ws, ts := w.waits[id], w.m.refreshTimestamps;
    assert WaitsWell(w, id);
    assert forall i :: 0 <= i < |ws| ==> ws[i] <= ws[|ws|-1];
    if k < |ws| && (forall i :: k <= i < |ws| ==> lo <= ts[ws[i]]) && w.clock <= lo + window.interval {
      var rest := ws[k..];
      forall i | 0 <= i < |rest| ensures rest[i] < |ts| && lo <= ts[rest[i]] <= lo + window.interval {
        assert rest[i] == ws[k+i];
      }
      CountDistinct(ts, rest, lo, lo + window.interval);
      assert CountFrom(ts, lo, window.interval) <= Allowed(window);
    }
  }

  /** What happens after some point: timestamps are added at the end, none earlier, and waits grow at the end. */
  predicate Later(v: World, w: World) {
    && v.clock <= w.clock
    && v.m.refreshTimestamps <= w.m.refreshTimestamps
    && (forall i :: |v.m.refreshTimestamps| <= i < |w.m.refreshTimestamps| ==> v.clock <= w.m.refreshTimestamps[i])
    && (forall id :: id in v.waits ==> id in w.waits && v.waits[id] <= w.waits[id])
  }

  lemma StepIsLater(w: World, s: Step)
    requires Enabled(w, s)
    ensures Later(w, Next(w, s))
  {
  }

  lemma LaterThenLater(u: World, v: World, w: World)
    requires Later(u, v) && Later(v, w)
    ensures Later(u, w)
  {
    forall i | |u.m.refreshTimestamps| <= i < |w.m.refreshTimestamps| ensures u.clock <= w.m.refreshTimestamps[i] {
      if i < |v.m.refreshTimestamps| {
        assert v.m.refreshTimestamps[i] == w.m.refreshTimestamps[i];
      }
    }
    forall id | id in u.waits ensures id in w.waits && u.waits[id] <= w.waits[id] {
      assert v.waits[id] <= w.waits[id];
    }
  }

  lemma {:induction false} RunIsLater(w: World, steps: seq<Step>)
    requires Run(w, steps)
    ensures Later(w, After(w, steps))
    decreases |steps|
  {
    if steps != [] {
      hide Later;
      StepIsLater(w, steps[0]);
      RunIsLater(Next(w, steps[0]), steps[1..]);
      LaterThenLater(w, Next(w, steps[0]), After(w, steps));
    } else {
      assert After(w, steps) == w;
    }
  }

  /**
    Counted from its deferral: within `interval` an adapt waits on the refresh it was deferred for, which may
    have been under way for long, and on at most `maximumAttempts` further ones.
   */
  lemma WaitingSinceDeferral(credential: Option<Credential>, window: RefreshWindow, clock: real,
                             before: seq<Step>, id: nat, checked: real, started: real, more: seq<Step>)
    requires Run(Initial(credential, Some(window), clock), before)
    requires var u := After(Initial(credential, Some(window), clock), before);
      && Enabled(u, SubmitAdapt(id, checked, started))
      && id in Next(u, SubmitAdapt(id, checked, started)).waits
      && Run(Next(u, SubmitAdapt(id, checked, started)), more)
    ensures var u := After(Initial(credential, Some(window), clock), before);
      var w := After(Next(u, SubmitAdapt(id, checked, started)), more);
      && id in w.waits
      && (w.clock <= started + window.interval ==> |w.waits[id]| <= 1 + Allowed(window))
  {
    var w0, s := Initial(credential, Some(window), clock), SubmitAdapt(id, checked, started);
    var u := After(w0, before);
    var v := Next(u, s);
    var w := After(v, more);
    InitialConserved(credential, Some(window), clock);
    WaitingAlways(w0, before);
    assert id !in u.waits;
    assert v.waits[id] == [|v.m.refreshTimestamps| - 1] && v.clock == started;
    RunIsLater(v, more);
    SingleStep(u, s);
    RunAppend(w0, before, [s]);
    RunAppend(w0, before + [s], more);
    hide Run, After, Next, Enabled;
    BoundedWaiting(credential, window, clock, before + [s] + more, id, 1, started);
    WaitingAlways(w0, before + [s] + more);
    var ws, ts := w.waits[id], w.m.refreshTimestamps;
    assert WaitsWell(w, id) && ws[0] == |v.m.refreshTimestamps| - 1;
    forall i | 1 <= i < |ws| ensures started <= ts[ws[i]] {
      assert ws[0] < ws[i];
    }
  }

  lemma {:induction false} WindowIsConstant(w: World, steps: seq<Step>)
    requires Run(w, steps)
    ensures After(w, steps).m.refreshWindow == w.m.refreshWindow
    decreases |steps|
  {
    if steps != [] {
      WindowIsConstant(Next(w, steps[0]), steps[1..]);
    }
  }
}
