/**
  What the interceptor does when no new calls come in: its own activity ends if there is a refresh
  window, and then every completion has been called.  Without a window neither holds.
 */
module AuthLiveness {
  import opened Wrappers
  import opened AuthState
  import opened AuthProtocol
  import opened AuthProperties

  // ---------------------------------------------------------------------------------------------
  // Quiescence

  /** Nothing is left to do: no queued block, no call in hand, no retry on its way, no refresh uncompleted. */
  predicate Quiescent(w: World) {
    w.queue == [] && w.hands == [] && w.reading == map[] && w.asked <= w.completed
  }

  lemma {:induction false} CalledFor(calls: seq<Call>, x: nat)
    requires CallOcc(calls, x) > 0
    ensures exists i :: 0 <= i < |calls| && calls[i].id == x
  {
    if calls[0].id != x {
      CalledFor(calls[1..], x);
      var i :| 0 <= i < |calls[1..]| && calls[1..][i].id == x;
      assert calls[i+1].id == x;
    }
  }

  /** At quiescence the completion of every adapt and every retry has been called. */
  lemma AllCalled(credential: Option<Credential>, window: Option<RefreshWindow>, clock: real, steps: seq<Step>, x: nat)
    requires RunOnce(Initial(credential, window, clock), steps)
    ensures Run(Initial(credential, window, clock), steps)
    ensures var w := After(Initial(credential, window, clock), steps);
      Quiescent(w) && x in w.submitted ==> exists i :: 0 <= i < |w.called| && w.called[i].id == x
  {
    var w0 := Initial(credential, window, clock);
    TicketsAlways(w0, steps);
    PhaseAlways(w0, steps);
    Conservation(w0, steps);
    var w := After(w0, steps);
    if Quiescent(w) && x in w.submitted {
      assert !w.m.isRefreshing;
      assert Places(w, x) == if x in w.submitted then 1 else 0;
      CalledFor(w.called, x);
    }
  }

  // ---------------------------------------------------------------------------------------------
  // Internal activity ends

  /** Steps that need no new call from outside. */
  predicate Internal(s: Step) {
    s.LockRetry? || s.RunQueue? || s.CompleteRefresh? || s.Deliver?
  }

  /** The clock readings of a step lie in the closed stretch of the window's length from `from`. */
  predicate InStretch(s: Step, from: real, interval: real) {
    match s
    case SubmitAdapt(_, checked, started) => from <= started && checked <= from + interval
    case LockRetry(_, checked, started) => from <= started && checked <= from + interval
    case RunQueue(checked, started) => from <= started && checked <= from + interval
    case _ => true
  }

  /** How many more refreshes the window lets start during the stretch. */
  function Budget(m: MutableState, window: RefreshWindow, from: real): nat {
    var used := CountSince(m.refreshTimestamps, from);
    if used < Allowed(window) then Allowed(window) - used else 0
  }

  function BlockWork(b: Block): nat {
    match b
    case AskAuthenticator(_, _) => 1
    case Resume(adapts, retries) => 1 + 4 * |adapts| + 2 * |retries|
    case Fail(_, adapts, retries) => 1 + 2 * |adapts| + 2 * |retries|
  }

  function QueueWork(queue: seq<Block>): nat {
    if queue == [] then 0 else BlockWork(queue[0]) + QueueWork(queue[1..])
  }

  function Work(w: World): nat {
    5 * |w.reading| + QueueWork(w.queue) + |w.hands|
  }

  lemma {:induction false} QueueWorkAppend(a: seq<Block>, b: seq<Block>)
    ensures QueueWork(a + b) == QueueWork(a) + QueueWork(b)
  {
    if a == [] {
      assert a + b == b;
    } else {
      QueueWorkAppend(a[1..], b);
      assert (a + b)[1..] == a[1..] + b;
    }
  }

  lemma QueueWorkOne(b: Block)
    ensures QueueWork([b]) == BlockWork(b)
  {
    assert QueueWork([b]) == BlockWork(b) + QueueWork([]);
  }

  function Busy(w: World): nat { if w.m.isRefreshing then 1 else 0 }

  /** The measure: refreshes the window still allows, then whether one is under way, then queued work. */
  predicate Lower(v: World, w: World, window: RefreshWindow, from: real) {
    || Budget(v.m, window, from) < Budget(w.m, window, from)
    || (Budget(v.m, window, from) == Budget(w.m, window, from)
        && (Busy(v) < Busy(w) || (Busy(v) == Busy(w) && Work(v) < Work(w))))
  }

  /** What a refresh attempt does, when none is under way and `m` has one pending completion. */
  lemma RefreshAttempt(m: MutableState, c: Credential, checked: real, started: real, window: RefreshWindow, from: real)
    requires m.refreshWindow == Some(window) && from <= started && checked <= from + window.interval
    requires !m.isRefreshing && |m.adaptOperations| + |m.requestsToRetry| == 1
    ensures var (m', block) := AfterRefresh(m, c, checked, started);
      || Budget(m', window, from) < Budget(m, window, from)
      || (Budget(m', window, from) == Budget(m, window, from) && !m'.isRefreshing && BlockWork(block) == 3)
  {
    if !Excessive(m, checked) {
      CountSinceMonotone(m.refreshTimestamps, checked - window.interval, from);
      assert (m.refreshTimestamps + [started])[..|m.refreshTimestamps|] == m.refreshTimestamps;
    }
  }

  lemma AdaptAttempt(m: MutableState, id: nat, checked: real, started: real, window: RefreshWindow, from: real)
    requires m.refreshWindow == Some(window) && from <= started && checked <= from + window.interval
    requires !m.isRefreshing ==> m.adaptOperations == [] && m.requestsToRetry == []
    ensures var (m', blocks, result) := AfterAdapt(m, id, checked, started);
      || Budget(m', window, from) < Budget(m, window, from)
      || (Budget(m', window, from) == Budget(m, window, from) && m'.isRefreshing == m.isRefreshing
          && QueueWork(blocks) + |AdaptCalls(id, result)| <= 3)
  {
    if !m.isRefreshing && m.credential.Some? && m.credential.value.requiresRefresh {
      RefreshAttempt(m.(adaptOperations := m.adaptOperations + [id]), m.credential.value, checked, started, window, from);
      QueueWorkOne(AfterAdapt(m, id, checked, started).1[0]);
    }
  }

  lemma QueueItemLowers(w: World, checked: real, started: real, window: RefreshWindow, from: real)
    requires var s := RunQueue(checked, started); Enabled(w, s) && InStretch(s, from, window.interval)
    requires Phase(w) && w.m.refreshWindow == Some(window)
    ensures Lower(Next(w, RunQueue(checked, started)), w, window, from)
  {
    var block, rest := w.queue[0], w.queue[1..];
    var v := Next(w, RunQueue(checked, started));
    if !block.AskAuthenticator? && (block.adapts != [] || block.retries != []) {
      if block.Resume? && block.adapts != [] {
        var (_, blocks, _) := AfterAdapt(w.m, block.adapts[0], checked, started);
        AdaptAttempt(w.m, block.adapts[0], checked, started, window, from);
        QueueWorkAppend([v.queue[0]] + rest, blocks);
      }
      QueueWorkAppend([v.queue[0]], rest);
      QueueWorkOne(v.queue[0]);
    }
  }

  lemma RetryLowers(w: World, id: nat, checked: real, started: real, window: RefreshWindow, from: real)
    requires var s := LockRetry(id, checked, started); Enabled(w, s) && InStretch(s, from, window.interval)
    requires Phase(w) && w.m.refreshWindow == Some(window)
    ensures Lower(Next(w, LockRetry(id, checked, started)), w, window, from)
  {
    var (_, blocks) := AfterRetry(w.m, id, w.reading[id], checked, started);
    QueueWorkAppend(w.queue, blocks);
    var left := w.reading - {id};
    assert w.reading == left[id := w.reading[id]];
    assert |w.reading| == |left| + 1;
    if !w.m.isRefreshing {
      RefreshAttempt(w.m.(requestsToRetry := w.m.requestsToRetry + [id]), w.reading[id], checked, started, window, from);
      QueueWorkOne(blocks[0]);
    }
  }

  /** Every internal step lowers the measure. */
  lemma InternalStepLowers(w: World, s: Step, window: RefreshWindow, from: real)
    requires Enabled(w, s) && Internal(s) && InStretch(s, from, window.interval)
    requires s.CompleteRefresh? ==> s.ticket !in w.completed
    requires Phase(w) && Tickets(w) && w.m.refreshWindow == Some(window)
    ensures Lower(Next(w, s), w, window, from)
  {
    match s {
      case LockRetry(id, checked, started) => RetryLowers(w, id, checked, started, window, from);
      case RunQueue(checked, started) => QueueItemLowers(w, checked, started, window, from);
      case CompleteRefresh(ticket, _) => assert w.m.isRefreshing;
      case Deliver(_) =>
    }
  }

  /**
    With a refresh window there is no endless internal activity within a stretch of the clock no
    longer than the window: no infinite sequence of internal steps exists, whatever credentials the
    authenticator returns.
   */
  lemma {:induction false} NoEndlessActivity(worlds: nat -> World, steps: nat -> Step, n: nat, window: RefreshWindow, from: real)
    requires forall i :: i >= n ==>
      && Enabled(worlds(i), steps(i)) && Internal(steps(i)) && InStretch(steps(i), from, window.interval)
      && (steps(i).CompleteRefresh? ==> steps(i).ticket !in worlds(i).completed)
      && worlds(i + 1) == Next(worlds(i), steps(i))
    requires Phase(worlds(n)) && Tickets(worlds(n)) && worlds(n).m.refreshWindow == Some(window)
    ensures false
    decreases Budget(worlds(n).m, window, from), Busy(worlds(n)), Work(worlds(n))
  {
    InternalStepLowers(worlds(n), steps(n), window, from);
    PhaseStep(worlds(n), steps(n));
    TicketsStep(worlds(n), steps(n));
    NoEndlessActivity(worlds, steps, n + 1, window, from);
  }

  /** As long as something is left, an internal step is enabled: it waits for no new call. */
  lemma Progress(w: World, now: real)
    requires Tickets(w) && w.clock <= now
    ensures Quiescent(w) || exists s :: Internal(s) && Enabled(w, s) && (s.CompleteRefresh? ==> s.ticket !in w.completed)
  {
    if w.queue != [] {
      assert Internal(RunQueue(now, now)) && Enabled(w, RunQueue(now, now));
    } else if w.hands != [] {
      assert Internal(Deliver(0)) && Enabled(w, Deliver(0));
    } else if id :| id in w.reading {
      assert Internal(LockRetry(id, now, now)) && Enabled(w, LockRetry(id, now, now));
    } else if t :| t in w.asked && t !in w.completed {
      assert Internal(CompleteRefresh(t, RefreshFailed(0))) && Enabled(w, CompleteRefresh(t, RefreshFailed(0)));
    }
  }

  // ---------------------------------------------------------------------------------------------
  // Without a window

  const STALE := Credential(0, true)

  /** The state just before the authenticator is asked for refresh number n. */
  predicate AboutToAsk(w: World, n: nat) {
    && w.m == MutableState(Some(STALE), true, w.m.refreshTimestamps, None, [7], [])
    && |w.m.refreshTimestamps| == n + 1
    && w.queue == [AskAuthenticator(n, STALE)]
    && w.hands == [] && w.called == []
  }

  function OneRound(n: nat, clock: real): seq<Step> {
    [RunQueue(clock, clock), CompleteRefresh(n, Refreshed(STALE)), RunQueue(clock, clock), RunQueue(clock, clock)]
  }

  /** A run from one world to another. */
  predicate Leads(w: World, steps: seq<Step>, last: World) {
    Run(w, steps) && After(w, steps) == last
  }

  lemma NoStep(w: World)
    ensures Leads(w, [], w)
  {
  }

  lemma OneStep(w: World, s: Step)
    requires Enabled(w, s)
    ensures Leads(w, [s], Next(w, s))
  {
    SingleStep(w, s);
  }

  lemma Extend(w: World, steps: seq<Step>, last: World, s: Step)
    requires Leads(w, steps, last) && Enabled(last, s)
    ensures Leads(w, steps + [s], Next(last, s))
  {
    hide Enabled, Next;
    OneStep(last, s);
    RunAppend(w, steps, [s]);
  }

  lemma RoundAgain(w: World, n: nat)
    requires AboutToAsk(w, n)
    ensures Run(w, OneRound(n, w.clock)) && AboutToAsk(After(w, OneRound(n, w.clock)), n + 1)
    ensures After(w, OneRound(n, w.clock)).clock == w.clock
  {
    hide Leads, Run, After;
    var run, refreshed := RunQueue(w.clock, w.clock), CompleteRefresh(n, Refreshed(STALE));
    NoStep(w);
    Extend(w, [], w, run);
    var w1 := Next(w, run);
    Extend(w, [] + [run], w1, refreshed);
    var w2 := Next(w1, refreshed);
    assert w2.queue == [Resume([7], [])];
    assert [7][1..] == [];
    Extend(w, [] + [run] + [refreshed], w2, run);
    var w3 := Next(w2, run);
    assert w3.queue == [Resume([], []), AskAuthenticator(n + 1, STALE)];
    Extend(w, [] + [run] + [refreshed] + [run], w3, run);
    assert [] + [run] + [refreshed] + [run] + [run] == OneRound(n, w.clock);
    LeadsTo(w, OneRound(n, w.clock), Next(w3, run));
  }

  lemma LeadsTo(w: World, steps: seq<Step>, last: World)
    requires Leads(w, steps, last)
    ensures Run(w, steps) && After(w, steps) == last
  {
  }

  /**
    Without a refresh window the refreshes can go on forever at one instant: for every n there is a
    run in which n + 1 refreshes have been started and the one adapt still has not been answered.
   */
  lemma {:induction false} EndlessRefresh(n: nat, clock: real) returns (steps: seq<Step>)
    ensures Run(Initial(Some(STALE), None, clock), steps)
    ensures var w := After(Initial(Some(STALE), None, clock), steps);
      AboutToAsk(w, n) && w.clock == clock && 7 in w.submitted
  {
    var w0 := Initial(Some(STALE), None, clock);
    if n == 0 {
      steps := [SubmitAdapt(7, clock, clock)];
      OneStep(w0, steps[0]);
    } else {
      var before := EndlessRefresh(n - 1, clock);
      RoundAgain(After(w0, before), n - 1);
      RunAppend(w0, before, OneRound(n - 1, clock));
      steps := before + OneRound(n - 1, clock);
      SubmittedGrows(After(w0, before), OneRound(n - 1, clock), 7);
    }
  }

  lemma {:induction false} SubmittedGrows(w: World, steps: seq<Step>, x: nat)
    requires Run(w, steps) && x in w.submitted
    ensures x in After(w, steps).submitted
    decreases |steps|
  {
    if steps != [] {
      SubmittedGrows(Next(w, steps[0]), steps[1..], x);
    }
  }

  // ---------------------------------------------------------------------------------------------
  // A retry may refresh a credential that has been replaced

  /** The step starts a refresh of credential c: it takes the next ticket and is handed to the queue. */
  predicate Starts(w: World, s: Step, c: Credential)
    requires Enabled(w, s)
  {
    var next, n := Next(w, s), |w.m.refreshTimestamps|;
    && |next.m.refreshTimestamps| == n + 1
    && next.queue != [] && next.queue[|next.queue|-1] == AskAuthenticator(n, c)
  }

  /** No step takes a ticket in another way. */
  lemma EveryTicketIsAStart(w: World, s: Step)
    requires Enabled(w, s)
    ensures |Next(w, s).m.refreshTimestamps| == |w.m.refreshTimestamps| || exists c :: Starts(w, s, c)
  {
    match s {
      case SetCredential(_) =>
      case SubmitRetry(_, _) =>
      case CompleteRefresh(_, _) =>
      case Deliver(_) =>
      case SubmitAdapt(id, _, _) =>
        if w.m.credential.Some? {
          assert |Next(w, s).m.refreshTimestamps| == |w.m.refreshTimestamps| || Starts(w, s, w.m.credential.value);
        }
      case LockRetry(id, _, _) =>
        assert |Next(w, s).m.refreshTimestamps| == |w.m.refreshTimestamps| || Starts(w, s, w.reading[id]);
      case RunQueue(_, _) =>
        if w.m.credential.Some? {
          assert |Next(w, s).m.refreshTimestamps| == |w.m.refreshTimestamps| || Starts(w, s, w.m.credential.value);
        }
    }
  }

  /** The step starts a refresh of a credential that is not the current one. */
  ghost predicate StartsReplaced(w: World, s: Step)
    requires Enabled(w, s)
  {
    exists c :: Starts(w, s, c) && Next(w, s).m.credential != Some(c)
  }

  /** When that happens: a check of the step and the state before it. */
  predicate RetriesReplaced(w: World, s: Step)
    requires Enabled(w, s)
  {
    s.LockRetry? && w.m.credential != Some(w.reading[s.id]) && !w.m.isRefreshing && !Excessive(w.m, s.checked)
  }

  /**
    Of all steps of the protocol, only the locked block of a retry starts a refresh of a credential that is no
    longer the current one, and it does so exactly if the credential was replaced after the retry had read it,
    no refresh is under way, and the window allows one.
   */
  lemma ReplacedExactly(w: World, s: Step)
    requires Enabled(w, s)
    ensures StartsReplaced(w, s) <==> RetriesReplaced(w, s)
  {
    match s {
      case LockRetry(id, _, _) =>
        if RetriesReplaced(w, s) {
          assert Starts(w, s, w.reading[id]);
        }
      case SetCredential(_) =>
      case SubmitRetry(_, _) =>
      case CompleteRefresh(_, _) =>
      case Deliver(_) =>
      case SubmitAdapt(_, _, _) => AdaptStartsCurrent(w, s);
      case RunQueue(_, _) => AdaptStartsCurrent(w, s);
    }
  }

  lemma AdaptStartsCurrent(w: World, s: Step)
    requires Enabled(w, s) && (s.SubmitAdapt? || s.RunQueue?)
    ensures forall c :: Starts(w, s, c) ==> Next(w, s).m.credential == Some(c)
  {
  }

  /** Two retries that read the same credential: the second refreshes it again after it was replaced. */
  lemma RejectedCredentialRefreshedTwice(window: Option<RefreshWindow>) returns (steps: seq<Step>)
    requires window.Some? ==> window.value.maximumAttempts >= 2
    ensures var w0 := Initial(Some(Credential(1, false)), window, 0.0);
      && Run(w0, steps)
      && var w := After(w0, steps);
      && w.m.credential == Some(Credential(2, false))
      && AskAuthenticator(1, Credential(1, false)) in w.queue
      && w.asked == {0} && |w.m.refreshTimestamps| == 2
  {
    hide Leads, Run, After;
    var rejected, renewed := Credential(1, false), Credential(2, false);
    var w0 := Initial(Some(rejected), window, 0.0);
    NoStep(w0);
    steps := [];
    var w2 := BothRead(w0, rejected);
    steps := [SubmitRetry(10, None), SubmitRetry(11, None)];
    var w5 := FirstRefresh(w2, rejected, renewed);
    var more := [LockRetry(10, 0.0, 0.0), RunQueue(0.0, 0.0), CompleteRefresh(0, Refreshed(renewed))];
    LeadsTwice(w0, steps, w2, more, w5);
    steps := steps + more;
    NotExcessive(w5.m);
    Extend(w0, steps, w5, LockRetry(11, 0.0, 0.0));
    steps := steps + [LockRetry(11, 0.0, 0.0)];
    var w := Next(w5, LockRetry(11, 0.0, 0.0));
    LeadsTo(w0, steps, w);
    assert w.queue == w5.queue + [AskAuthenticator(1, rejected)];
  }

  lemma LeadsTwice(w: World, a: seq<Step>, v: World, b: seq<Step>, last: World)
    requires Leads(w, a, v) && Leads(v, b, last)
    ensures Leads(w, a + b, last)
  {
    RunAppend(w, a, b);
  }

  /** Both retries read the credential before either takes the lock. */
  lemma BothRead(w: World, rejected: Credential) returns (last: World)
    requires w.m.credential == Some(rejected) && w.reading == map[] && w.submitted == {}
    ensures Leads(w, [SubmitRetry(10, None), SubmitRetry(11, None)], last)
    ensures last == w.(reading := map[10 := rejected, 11 := rejected], submitted := {10, 11})
  {
    hide Leads;
    var read1, read2 := SubmitRetry(10, None), SubmitRetry(11, None);
    OneStep(w, read1);
    var w1 := Next(w, read1);
    Extend(w, [read1], w1, read2);
    assert [read1] + [read2] == [read1, read2];
    last := Next(w1, read2);
  }

  /** The first retry's refresh runs to its end. */
  lemma FirstRefresh(w: World, rejected: Credential, renewed: Credential) returns (last: World)
    requires w.reading == map[10 := rejected, 11 := rejected] && w.queue == [] && w.clock == 0.0
    requires w.m == MutableState(Some(rejected), false, [], w.m.refreshWindow, [], [])
    requires w.m.refreshWindow.Some? ==> w.m.refreshWindow.value.maximumAttempts >= 2
    requires w.asked == {} && w.completed == {}
    ensures Leads(w, [LockRetry(10, 0.0, 0.0), RunQueue(0.0, 0.0), CompleteRefresh(0, Refreshed(renewed))], last)
    ensures last.m == MutableState(Some(renewed), false, [0.0], w.m.refreshWindow, [], [])
    ensures 11 in last.reading && last.reading[11] == rejected && last.asked == {0} && last.clock == 0.0
  {
    hide Leads;
    var lock, run, done := LockRetry(10, 0.0, 0.0), RunQueue(0.0, 0.0), CompleteRefresh(0, Refreshed(renewed));
    OneStep(w, lock);
    var w1 := Next(w, lock);
    assert w1.queue == [AskAuthenticator(0, rejected)] && w1.m.refreshTimestamps == [0.0];
    Extend(w, [lock], w1, run);
    var w2 := Next(w1, run);
    Extend(w, [lock] + [run], w2, done);
    assert [lock] + [run] + [done] == [lock, run, done];
    last := Next(w2, done);
  }

  lemma NotExcessive(m: MutableState)
    requires m.refreshTimestamps == [0.0] && (m.refreshWindow.Some? ==> m.refreshWindow.value.maximumAttempts >= 2)
    ensures !Excessive(m, 0.0)
  {
    if m.refreshWindow.Some? {
      var since := 0.0 - m.refreshWindow.value.interval;
      assert [0.0][..0] == [];
      assert CountSince([0.0], since) <= CountSince([0.0][..0], since) + 1;
    }
  }
}
