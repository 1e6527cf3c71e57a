/**
  With what each completion is called.  A deferred completion waits for one refresh; once that refresh has
  ended, its reply is settled, whatever happens before the queue comes to it.
 */
module AuthReplies {
  import opened Wrappers
  import opened AuthState
  import opened AuthProtocol
  import opened AuthProperties
  import opened AuthWindow

  // ---------------------------------------------------------------------------------------------
  // Settled replies

  /** The block's piece for call x calls it with `reply`. */
  predicate Answers(b: Block, x: nat, reply: Reply) {
    match b
    case AskAuthenticator(_, _) => false
    case Resume(_, retries) => x in retries && reply == RetryRequest
    case Fail(error, adapts, retries) =>
      (x in adapts && reply == AdaptFailed(error)) || (x in retries && reply == DoNotRetryWithError(error))
  }

  predicate QueuedFor(queue: seq<Block>, x: nat, reply: Reply) {
    exists i :: 0 <= i < |queue| && Answers(queue[i], x, reply)
  }

  /** Call x is queued for this reply, or has it. */
  predicate Settled(w: World, x: nat, reply: Reply) {
    QueuedFor(w.queue, x, reply) || Call(x, reply) in w.hands || Call(x, reply) in w.called
  }

  lemma QueuedBehind(queue: seq<Block>, blocks: seq<Block>, x: nat, reply: Reply)
    requires QueuedFor(queue, x, reply)
    ensures QueuedFor(queue + blocks, x, reply)
  {
    var i :| 0 <= i < |queue| && Answers(queue[i], x, reply);
    assert (queue + blocks)[i] == queue[i];
  }

  lemma QueuedLast(queue: seq<Block>, b: Block, x: nat, reply: Reply)
    requires Answers(b, x, reply)
    ensures QueuedFor(queue + [b], x, reply)
  {
    assert (queue + [b])[|queue|] == b;
  }

  lemma QueuedFirst(b: Block, rest: seq<Block>, x: nat, reply: Reply)
    ensures QueuedFor([b] + rest, x, reply) <==> Answers(b, x, reply) || QueuedFor(rest, x, reply)
  {
    var all := [b] + rest;
    if Answers(b, x, reply) {
      assert Answers(all[0], x, reply);
    }
    if QueuedFor(rest, x, reply) {
      var i :| 0 <= i < |rest| && Answers(rest[i], x, reply);
      assert Answers(all[i+1], x, reply);
    }
    if QueuedFor(all, x, reply) && !Answers(b, x, reply) {
      var i :| 0 <= i < |all| && Answers(all[i], x, reply);
      assert Answers(rest[i-1], x, reply);
    }
  }

  /** One piece of the queue leaves a settled reply settled. */
  lemma PieceKeepsSettled(m: MutableState, queue: seq<Block>, checked: real, started: real, x: nat, reply: Reply)
    requires queue != [] && QueuedFor(queue, x, reply)
    ensures var (_, queue', calls) := AfterQueueItem(m, queue, checked, started);
      QueuedFor(queue', x, reply) || Call(x, reply) in calls
  {
    hide QueuedFor;
    var b, rest := queue[0], queue[1..];
    assert queue == [b] + rest;
    QueuedFirst(b, rest, x, reply);
    var (_, queue', calls) := AfterQueueItem(m, queue, checked, started);
    if !b.AskAuthenticator? {
      if b.adapts != [] {
        assert b.adapts == [b.adapts[0]] + b.adapts[1..];
        var b' := if b.Resume? then Resume(b.adapts[1..], b.retries) else Fail(b.error, b.adapts[1..], b.retries);
        QueuedFirst(b', rest, x, reply);
        if b.Resume? && QueuedFor([b'] + rest, x, reply) {
          QueuedBehind([b'] + rest, AfterAdapt(m, b.adapts[0], checked, started).1, x, reply);
        }
      } else if b.retries != [] {
        assert b.retries == [b.retries[0]] + b.retries[1..];
        QueuedFirst(if b.Resume? then Resume([], b.retries[1..]) else Fail(b.error, [], b.retries[1..]), rest, x, reply);
      }
    }
  }

  lemma SettledStep(w: World, s: Step, x: nat, reply: Reply)
    requires Enabled(w, s) && Settled(w, x, reply)
    ensures Settled(Next(w, s), x, reply)
  {
    hide QueuedFor, AfterAdapt, AfterRetry, AfterQueueItem, AfterSuccess, AfterFailure;
    if QueuedFor(w.queue, x, reply) {
      match s {
        case SubmitAdapt(id, checked, started) =>
          QueuedBehind(w.queue, AfterAdapt(w.m, id, checked, started).1, x, reply);
        case LockRetry(id, checked, started) =>
          QueuedBehind(w.queue, AfterRetry(w.m, id, w.reading[id], checked, started).1, x, reply);
        case RunQueue(checked, started) => PieceKeepsSettled(w.m, w.queue, checked, started, x, reply);
        case CompleteRefresh(_, _) =>
          QueuedBehind(w.queue, [Next(w, s).queue[|w.queue|]], x, reply);
        case _ =>
      }
    } else if s.Deliver? {
      assert w.hands == w.hands[..s.i] + [w.hands[s.i]] + w.hands[s.i+1..];
    }
  }

  lemma {:induction false} SettledAlways(w: World, steps: seq<Step>, x: nat, reply: Reply)
    requires Run(w, steps) && Settled(w, x, reply)
    ensures Settled(After(w, steps), x, reply)
    decreases |steps|
  {
    hide Settled;
    if steps != [] {
      SettledStep(w, steps[0], x, reply);
      SettledAlways(Next(w, steps[0]), steps[1..], x, reply);
    }
  }

  lemma {:induction false} OccursInCalls(calls: seq<Call>, c: Call)
    requires c in calls
    ensures CallOcc(calls, c.id) > 0
  {
    if calls[0] != c {
      OccursInCalls(calls[1..], c);
    }
  }

  lemma {:induction false} OccursInQueue(queue: seq<Block>, x: nat, reply: Reply)
    requires QueuedFor(queue, x, reply)
    ensures QueueOcc(queue, x) > 0
  {
    var b, rest := queue[0], queue[1..];
    assert queue == [b] + rest;
    QueuedFirst(b, rest, x, reply);
    if !Answers(b, x, reply) {
      OccursInQueue(rest, x, reply);
    }
  }

  /** A settled completion is called with that reply and no other. */
  lemma CalledAsSettled(w: World, x: nat, reply: Reply, k: nat)
    requires Conserved(w) && Settled(w, x, reply) && k < |w.called| && w.called[k].id == x
    ensures w.called[k].reply == reply
  {
    hide QueuedFor, QueueOcc, CallOcc;
    assert Places(w, x) == if x in w.submitted then 1 else 0;
    OccursInCalls(w.called, w.called[k]);
    if QueuedFor(w.queue, x, reply) {
      OccursInQueue(w.queue, x, reply);
    } else if Call(x, reply) in w.hands {
      OccursInCalls(w.hands, Call(x, reply));
    } else {
      var j :| 0 <= j < |w.called| && w.called[j] == Call(x, reply);
      if j < k {
        TwoCalls(w.called, j, k);
      } else if k < j {
        TwoCalls(w.called, k, j);
      }
    }
  }

  // ---------------------------------------------------------------------------------------------
  // What settles a reply

  /** The end of a refresh settles the replies of all that waited for it, but for adapts to be tried again. */
  lemma CompletionSettles(w: World, s: Step, x: nat)
    requires Enabled(w, s) && s.CompleteRefresh?
    ensures x in w.m.requestsToRetry ==>
      Settled(Next(w, s), x,
              match s.outcome
              case Refreshed(_) => RetryRequest
              case RefreshFailed(code) => DoNotRetryWithError(AuthenticatorError(code)))
    ensures x in w.m.adaptOperations && s.outcome.RefreshFailed? ==>
      Settled(Next(w, s), x, AdaptFailed(AuthenticatorError(s.outcome.code)))
  {
    hide QueuedFor;
    var block := Next(w, s).queue[|w.queue|];
    forall reply | Answers(block, x, reply) ensures QueuedFor(w.queue + [block], x, reply) {
      QueuedLast(w.queue, block, x, reply);
    }
  }

  /** The call whose request makes the step want a refresh. */
  function Wanting(w: World, s: Step): nat
    requires WantsRefresh(w, s)
  {
    match s
    case SubmitAdapt(id, _, _) => id
    case LockRetry(id, _, _) => id
    case RunQueue(_, _) => w.queue[0].adapts[0]
  }

  /** A refresh that is wanted and not allowed settles the reply of the call that wants it. */
  lemma ExhaustionSettles(w: World, s: Step)
    requires Enabled(w, s) && Past(w) && Phase(w) && WantsRefresh(w, s) && !RoomFor(w, s)
    ensures Settled(Next(w, s), Wanting(w, s),
                    if s.LockRetry? then DoNotRetryWithError(ExcessiveRefresh) else AdaptFailed(ExcessiveRefresh))
  {
    hide QueuedFor, CountSince, CountIn, RoomFor;
    StepStartsExactly(w, s);
    var v, id := Next(w, s), Wanting(w, s);
    var block := v.queue[|v.queue|-1];
    var reply := if s.LockRetry? then DoNotRetryWithError(ExcessiveRefresh) else AdaptFailed(ExcessiveRefresh);
    assert v.queue == v.queue[..|v.queue|-1] + [block];
    assert Answers(block, id, reply);
    QueuedLast(v.queue[..|v.queue|-1], block, id, reply);
  }

  /** Until the refresh is completed, whoever waits for it goes on waiting. */
  lemma PendingStays(w: World, s: Step, x: nat)
    requires Enabled(w, s) && Phase(w) && !s.CompleteRefresh?
    ensures x in w.m.requestsToRetry ==> x in Next(w, s).m.requestsToRetry
    ensures x in w.m.adaptOperations ==> x in Next(w, s).m.adaptOperations
  {
  }

  /** Taking the lock, a retry either waits for a refresh or is refused because of the window. */
  lemma RetryWaitsOrFails(w: World, s: Step)
    requires Enabled(w, s) && s.LockRetry? && Past(w) && Phase(w)
    ensures s.id in Next(w, s).m.requestsToRetry || Settled(Next(w, s), s.id, DoNotRetryWithError(ExcessiveRefresh))
    ensures s.id in Next(w, s).m.requestsToRetry <==> w.m.isRefreshing || RoomFor(w, s)
  {
    hide CountSince, CountIn, RoomFor, Settled;
    StepStartsExactly(w, s);
    if !w.m.isRefreshing && !RoomFor(w, s) {
      ExhaustionSettles(w, s);
    }
  }

  // ---------------------------------------------------------------------------------------------
  // Over runs

  lemma {:induction false} RunSplit(w: World, a: seq<Step>, b: seq<Step>)
    requires Run(w, a + b)
    ensures Run(w, a) && Run(After(w, a), b) && After(w, a + b) == After(After(w, a), b)
    decreases |a|
  {
    if a == [] {
      assert a + b == b;
    } else {
      assert (a + b)[1..] == a[1..] + b;
      RunSplit(Next(w, a[0]), a[1..], b);
    }
  }

  /** A reply that a step settles is the one with which the completion is called, however the run goes on. */
  lemma RepliesStay(w: World, s: Step, more: seq<Step>, x: nat, reply: Reply, k: nat)
    requires Conserved(w) && Enabled(w, s) && Run(Next(w, s), more) && Settled(Next(w, s), x, reply)
    requires var last := After(Next(w, s), more); k < |last.called| && last.called[k].id == x
    ensures After(Next(w, s), more).called[k].reply == reply
  {
    hide Settled;
    forall y ensures Places(Next(w, s), y) == if y in Next(w, s).submitted then 1 else 0 {
      StepConserves(w, s, y);
    }
    Conservation(Next(w, s), more);
    SettledAlways(Next(w, s), more, x, reply);
    CalledAsSettled(After(Next(w, s), more), x, reply, k);
  }

  /**
    In every run: a retry that waits when a refresh is completed is called with `RetryRequest` if the refresh
    succeeded and with its error if it failed; a waiting adapt is called with the same error if it failed.
   */
  lemma {:induction false} RefreshDecidesReplies(credential: Option<Credential>, window: Option<RefreshWindow>, clock: real,
                                                 steps: seq<Step>, s: Step, more: seq<Step>, k: nat)
    requires var w0 := Initial(credential, window, clock);
      && Run(w0, steps) && Enabled(After(w0, steps), s) && s.CompleteRefresh?
      && Run(Next(After(w0, steps), s), more)
    requires k < |After(Next(After(Initial(credential, window, clock), steps), s), more).called|
    ensures var w := After(Initial(credential, window, clock), steps);
      var call := After(Next(w, s), more).called[k];
      && (call.id in w.m.requestsToRetry ==>
            match s.outcome
            case Refreshed(_) => call.reply == RetryRequest
            case RefreshFailed(code) => call.reply == DoNotRetryWithError(AuthenticatorError(code)))
      && (call.id in w.m.adaptOperations ==>
            match s.outcome
            case Refreshed(_) => true
            case RefreshFailed(code) => call.reply == AdaptFailed(AuthenticatorError(code)))
  {
    hide Settled, Enabled, Next, Run, Conserved;
    var w0 := Initial(credential, window, clock);
    InitialConserved(credential, window, clock);
    Conservation(w0, steps);
    var w := After(w0, steps);
    var x := After(Next(w, s), more).called[k].id;
    CompletionSettles(w, s, x);
    if x in w.m.requestsToRetry {
      var reply := match s.outcome
                   case Refreshed(_) => RetryRequest
                   case RefreshFailed(code) => DoNotRetryWithError(AuthenticatorError(code));
      RepliesStay(w, s, more, x, reply, k);
    }
    if x in w.m.adaptOperations && s.outcome.RefreshFailed? {
      RepliesStay(w, s, more, x, AdaptFailed(AuthenticatorError(s.outcome.code)), k);
    }
  }

  /** In every run: a call that wants a refresh for which the window has no room is answered with that error. */
  lemma {:induction false} ExhaustionDecidesReplies(credential: Option<Credential>, window: Option<RefreshWindow>, clock: real,
                                                    steps: seq<Step>, s: Step, more: seq<Step>, k: nat)
    requires var w0 := Initial(credential, window, clock);
      && Run(w0, steps) && Enabled(After(w0, steps), s)
      && WantsRefresh(After(w0, steps), s) && !RoomFor(After(w0, steps), s)
      && Run(Next(After(w0, steps), s), more)
    requires var last := After(Next(After(Initial(credential, window, clock), steps), s), more);
      k < |last.called| && last.called[k].id == Wanting(After(Initial(credential, window, clock), steps), s)
    ensures After(Next(After(Initial(credential, window, clock), steps), s), more).called[k].reply
         == if s.LockRetry? then DoNotRetryWithError(ExcessiveRefresh) else AdaptFailed(ExcessiveRefresh)
  {
    hide Settled, Enabled, Next, Run, Conserved, WantsRefresh, RoomFor, Wanting;
    var w0 := Initial(credential, window, clock);
    InitialConserved(credential, window, clock);
    Conservation(w0, steps);
    PastAlways(w0, steps);
    PhaseAlways(w0, steps);
    var w := After(w0, steps);
    ExhaustionSettles(w, s);
    RepliesStay(w, s, more, Wanting(w, s),
                if s.LockRetry? then DoNotRetryWithError(ExcessiveRefresh) else AdaptFailed(ExcessiveRefresh), k);
  }
}
