/**
  All interleavings of the blocks of `AuthenticationInterceptor`: callers on any threads, the serial
  queue, an authenticator that completes each refresh whenever and as often as it likes, and a clock.

  Every locked block and every piece of a queued block is one atomic step.
 */
module AuthProtocol {
  import opened Wrappers
  import opened AuthState

  datatype World = World(
    m: MutableState,
    queue: seq<Block>,
    hands: seq<Call>,                 // decided calls that a thread is about to make
    called: seq<Call>,                // completions that have been called
    reading: map<nat, Credential>,    // retries between reading the credential and taking the lock
    submitted: set<nat>,              // every adapt or retry so far
    asked: set<nat>,                  // tickets handed to the authenticator
    completed: set<nat>,              // tickets it has completed at least once
    clock: real,
    waits: map<nat, seq<nat>>)        // the tickets that each deferred adapt has waited on

  datatype Outcome = Refreshed(credential: Credential) | RefreshFailed(code: int)

  datatype Step =
    | SetCredential(credential: Option<Credential>)
    | SubmitAdapt(id: nat, checked: real, started: real)
    | SubmitRetry(id: nat, answer: Option<Reply>)        // None: it goes on to the locked block
    | LockRetry(id: nat, checked: real, started: real)
    | RunQueue(checked: real, started: real)
    | CompleteRefresh(ticket: nat, outcome: Outcome)
    | Deliver(i: nat)

  function Initial(credential: Option<Credential>, window: Option<RefreshWindow>, clock: real): World {
    World(MutableState(credential, false, [], window, [], []), [], [], [], map[], {}, {}, {}, clock, map[])
  }

  /** The clock does not run backwards. */
  predicate Timely(w: World, checked: real, started: real) {
    w.clock <= checked <= started
  }

  /** What the checks of `retry` before the lock can come to; None: it goes on with the credential it read. */
  predicate PossibleAnswer(m: MutableState, answer: Option<Reply>) {
    if m.credential.None? then answer == Some(DoNotRetry) || answer == Some(DoNotRetryWithError(MissingCredential))
    else answer == None || answer == Some(DoNotRetry) || answer == Some(RetryRequest)
  }

  /** The answer that `retry` arrives at before the lock; the flags are those of `RetryChecks`. */
  function Answer(m: MutableState, hasResponse: bool, authFailure: bool, authenticatedWith: Credential -> bool): Option<Reply> {
    if RejectedCredential(m, hasResponse, authFailure, authenticatedWith).Some? then None
    else Some(RetryReply(m, hasResponse, authFailure))
  }

  predicate Arises(m: MutableState, answer: Option<Reply>, hasResponse: bool, authFailure: bool, authenticated: bool) {
    answer == Answer(m, hasResponse, authFailure, _ => authenticated)
  }

  /**
    The protocol admits exactly the answers that the checks of `retry` can come to, and a retry that goes on
    does so with the credential of the state in which it made the checks.
   */
  lemma RetryAnswers(m: MutableState, answer: Option<Reply>)
    ensures PossibleAnswer(m, answer) <==> exists h, f, a :: Arises(m, answer, h, f, a)
    ensures forall h, f, a :: Arises(m, None, h, f, a) ==>
      m.credential.Some? && RejectedCredential(m, h, f, _ => a) == m.credential
  {
    assert answer == Some(DoNotRetry) ==> Arises(m, answer, false, false, false);
    if m.credential.None? {
      assert answer == Some(DoNotRetryWithError(MissingCredential)) ==> Arises(m, answer, true, true, false);
    } else {
      assert answer == None ==> Arises(m, answer, true, true, true);
      assert answer == Some(RetryRequest) ==> Arises(m, answer, true, true, false);
    }
  }

  predicate Enabled(w: World, s: Step) {
    match s
    case SetCredential(_) => true
    case SubmitAdapt(id, checked, started) => id !in w.submitted && Timely(w, checked, started)
    case SubmitRetry(id, answer) => id !in w.submitted && PossibleAnswer(w.m, answer)
    case LockRetry(id, checked, started) => id in w.reading && Timely(w, checked, started)
    case RunQueue(checked, started) => w.queue != [] && Timely(w, checked, started)
    case CompleteRefresh(ticket, _) => ticket in w.asked
    case Deliver(i) => i < |w.hands|
  }

  function Noted(waits: map<nat, seq<nat>>, id: nat, m: MutableState): map<nat, seq<nat>> {
    if m.isRefreshing && m.refreshTimestamps != [] then
      waits[id := (if id in waits then waits[id] else []) + [|m.refreshTimestamps| - 1]]
    else waits
  }

  function Next(w: World, s: Step): World
    requires Enabled(w, s)
  {
    match s
    case SetCredential(c) => w.(m := w.m.(credential := c))
    case SubmitAdapt(id, checked, started) =>
      var (m, blocks, result) := AfterAdapt(w.m, id, checked, started);
      w.(m := m, queue := w.queue + blocks, hands := w.hands + AdaptCalls(id, result),
         submitted := w.submitted + {id}, clock := started,
         waits := if result.AdaptDeferred? then Noted(w.waits, id, m) else w.waits)
    case SubmitRetry(id, answer) =>
      (match answer
       case Some(reply) => w.(hands := w.hands + [Call(id, reply)], submitted := w.submitted + {id})
       case None => w.(reading := w.reading[id := w.m.credential.value], submitted := w.submitted + {id}))
    case LockRetry(id, checked, started) =>
      var (m, blocks) := AfterRetry(w.m, id, w.reading[id], checked, started);
      w.(m := m, queue := w.queue + blocks, reading := w.reading - {id}, clock := started)
    case RunQueue(checked, started) =>
      var (m, queue, calls) := AfterQueueItem(w.m, w.queue, checked, started);
      w.(m := m, queue := queue, hands := w.hands + calls, clock := started,
         asked := if w.queue[0].AskAuthenticator? then w.asked + {w.queue[0].ticket} else w.asked,
         waits := if w.queue[0].Resume? && w.queue[0].adapts != [] && calls == []
                  then Noted(w.waits, w.queue[0].adapts[0], m) else w.waits)
    case CompleteRefresh(ticket, outcome) =>
      var (m, block) := match outcome
                        case Refreshed(c) => AfterSuccess(w.m, c)
                        case RefreshFailed(code) => AfterFailure(w.m, AuthenticatorError(code));
      w.(m := m, queue := w.queue + [block], completed := w.completed + {ticket})
    case Deliver(i) =>
      w.(hands := w.hands[..i] + w.hands[i+1..], called := w.called + [w.hands[i]])
  }

  /** A run: every step is enabled when it is taken. */
  predicate Run(w: World, steps: seq<Step>)
    decreases |steps|
  {
    steps == [] || (Enabled(w, steps[0]) && Run(Next(w, steps[0]), steps[1..]))
  }

  function After(w: World, steps: seq<Step>): World
    requires Run(w, steps)
    decreases |steps|
  {
    if steps == [] then w else After(Next(w, steps[0]), steps[1..])
  }

  lemma SingleStep(w: World, s: Step)
    requires Enabled(w, s)
    ensures Run(w, [s]) && After(w, [s]) == Next(w, s)
  {
    hide Enabled, Next;
    var next := Next(w, s);
    assert [s][1..] == [];
    assert Run(next, []) && After(next, []) == next;
  }

  lemma {:induction false} RunAppend(w: World, a: seq<Step>, b: seq<Step>)
    requires Run(w, a) && Run(After(w, a), b)
    ensures Run(w, a + b) && After(w, a + b) == After(After(w, a), b)
    decreases |a|
  {
    if a == [] {
      assert a + b == b;
    } else {
      RunAppend(Next(w, a[0]), a[1..], b);
      assert (a + b)[1..] == a[1..] + b;
    }
  }

  // ---------------------------------------------------------------------------------------------
  // Completion conservation

  function Occ(s: seq<nat>, x: nat): nat { multiset(s)[x] }

  function CallOcc(calls: seq<Call>, x: nat): nat {
    if calls == [] then 0 else (if calls[0].id == x then 1 else 0) + CallOcc(calls[1..], x)
  }

  function BlockOcc(b: Block, x: nat): nat {
    match b
    case AskAuthenticator(_, _) => 0
    case Resume(adapts, retries) => Occ(adapts, x) + Occ(retries, x)
    case Fail(_, adapts, retries) => Occ(adapts, x) + Occ(retries, x)
  }

  function QueueOcc(queue: seq<Block>, x: nat): nat {
    if queue == [] then 0 else BlockOcc(queue[0], x) + QueueOcc(queue[1..], x)
  }

  function PendingOcc(m: MutableState, x: nat): nat {
    Occ(m.adaptOperations, x) + Occ(m.requestsToRetry, x)
  }

  /** In how many places the completion of call x is: pending, queued, in hand, called, or being read for. */
  function Places(w: World, x: nat): nat {
    PendingOcc(w.m, x) + QueueOcc(w.queue, x) + CallOcc(w.hands, x) + CallOcc(w.called, x)
    + (if x in w.reading then 1 else 0)
  }

  lemma {:induction false} CallOccAppend(a: seq<Call>, b: seq<Call>, x: nat)
    ensures CallOcc(a + b, x) == CallOcc(a, x) + CallOcc(b, x)
  {
    if a == [] {
      assert a + b == b;
    } else {
      CallOccAppend(a[1..], b, x);
      assert (a + b)[1..] == a[1..] + b;
    }
  }

  lemma {:induction false} QueueOccAppend(a: seq<Block>, b: seq<Block>, x: nat)
    ensures QueueOcc(a + b, x) == QueueOcc(a, x) + QueueOcc(b, x)
  {
    if a == [] {
      assert a + b == b;
    } else {
      QueueOccAppend(a[1..], b, x);
      assert (a + b)[1..] == a[1..] + b;
    }
  }

  lemma OccAppend(s: seq<nat>, id: nat, x: nat)
    ensures Occ(s + [id], x) == Occ(s, x) + if id == x then 1 else 0
  {
  }

  lemma OccHead(s: seq<nat>, x: nat)
    requires s != []
    ensures Occ(s, x) == Occ(s[1..], x) + if s[0] == x then 1 else 0
  {
    assert s == [s[0]] + s[1..];
  }

  lemma QueueOccOne(b: Block, x: nat)
    ensures QueueOcc([b], x) == BlockOcc(b, x)
  {
    assert QueueOcc([b], x) == BlockOcc(b, x) + QueueOcc([], x);
  }

  lemma CallOccOne(c: Call, x: nat)
    ensures CallOcc([c], x) == if c.id == x then 1 else 0
  {
    assert CallOcc([c], x) == (if c.id == x then 1 else 0) + CallOcc([], x);
  }

  lemma FlushKeeps(m: MutableState, b: Block, x: nat)
    requires !b.AskAuthenticator? && b.adapts == m.adaptOperations && b.retries == m.requestsToRetry
    ensures PendingOcc(Flushed(m), x) + BlockOcc(b, x) == PendingOcc(m, x)
  {
  }

  lemma RefreshKeeps(m: MutableState, c: Credential, checked: real, started: real, x: nat)
    ensures var (m', block) := AfterRefresh(m, c, checked, started);
      PendingOcc(m', x) + QueueOcc([block], x) == PendingOcc(m, x)
  {
    var (m', block) := AfterRefresh(m, c, checked, started);
    QueueOccOne(block, x);
    if Excessive(m, checked) { FlushKeeps(m, block, x); }
  }

  lemma AdaptKeeps(m: MutableState, id: nat, checked: real, started: real, x: nat)
    ensures var (m', blocks, result) := AfterAdapt(m, id, checked, started);
      PendingOcc(m', x) + QueueOcc(blocks, x) + CallOcc(AdaptCalls(id, result), x)
      == PendingOcc(m, x) + if id == x then 1 else 0
  {
    var (m', blocks, result) := AfterAdapt(m, id, checked, started);
    OccAppend(m.adaptOperations, id, x);
    if result.AdaptDeferred? {
      if !m.isRefreshing {
        RefreshKeeps(m.(adaptOperations := m.adaptOperations + [id]), m.credential.value, checked, started, x);
      }
    } else {
      CallOccOne(AdaptCalls(id, result)[0], x);
    }
  }

  lemma RetryKeeps(m: MutableState, id: nat, c: Credential, checked: real, started: real, x: nat)
    ensures var (m', blocks) := AfterRetry(m, id, c, checked, started);
      PendingOcc(m', x) + QueueOcc(blocks, x) == PendingOcc(m, x) + if id == x then 1 else 0
  {
    OccAppend(m.requestsToRetry, id, x);
    if !m.isRefreshing {
      RefreshKeeps(m.(requestsToRetry := m.requestsToRetry + [id]), c, checked, started, x);
    }
  }

  lemma QueueItemKeeps(m: MutableState, queue: seq<Block>, checked: real, started: real, x: nat)
    requires queue != []
    ensures var (m', queue', calls) := AfterQueueItem(m, queue, checked, started);
      PendingOcc(m', x) + QueueOcc(queue', x) + CallOcc(calls, x) == PendingOcc(m, x) + QueueOcc(queue, x)
  {
    var (m', queue', calls) := AfterQueueItem(m, queue, checked, started);
    var block, rest := queue[0], queue[1..];
    if !block.AskAuthenticator? && (block.adapts != [] || block.retries != []) {
      if block.adapts != [] { OccHead(block.adapts, x); } else { OccHead(block.retries, x); }
      if block.Resume? && block.adapts != [] {
        var (_, blocks, result) := AfterAdapt(m, block.adapts[0], checked, started);
        AdaptKeeps(m, block.adapts[0], checked, started, x);
        var b := Resume(block.adapts[1..], block.retries);
        QueueOccAppend([b] + rest, blocks, x);
        QueueOccAppend([b], rest, x);
        QueueOccOne(b, x);
      } else {
        QueueOccAppend([queue'[0]], rest, x);
        QueueOccOne(queue'[0], x);
        CallOccOne(calls[0], x);
      }
    }
  }

  /** The completion of every submitted call is in exactly one place, and there are no others. */
  ghost predicate Conserved(w: World) {
    forall x :: Places(w, x) == if x in w.submitted then 1 else 0
  }

  lemma StepConserves(w: World, s: Step, x: nat)
    requires Enabled(w, s) && Conserved(w)
    ensures Places(Next(w, s), x) == if x in Next(w, s).submitted then 1 else 0
  {
    hide AfterAdapt, AfterRetry, AfterQueueItem, CallOcc, QueueOcc;
    assert Places(w, x) == if x in w.submitted then 1 else 0;
    match s {
      case SetCredential(_) =>
      case SubmitAdapt(id, checked, started) =>
        var (m, blocks, result) := AfterAdapt(w.m, id, checked, started);
        AdaptKeeps(w.m, id, checked, started, x);
        QueueOccAppend(w.queue, blocks, x);
        CallOccAppend(w.hands, AdaptCalls(id, result), x);
      case SubmitRetry(id, answer) =>
        if answer.Some? {
          CallOccAppend(w.hands, [Call(id, answer.value)], x);
          CallOccOne(Call(id, answer.value), x);
        }
      case LockRetry(id, checked, started) =>
        var (m, blocks) := AfterRetry(w.m, id, w.reading[id], checked, started);
        RetryKeeps(w.m, id, w.reading[id], checked, started, x);
        QueueOccAppend(w.queue, blocks, x);
      case RunQueue(checked, started) =>
        var (m, queue, calls) := AfterQueueItem(w.m, w.queue, checked, started);
        QueueItemKeeps(w.m, w.queue, checked, started, x);
        CallOccAppend(w.hands, calls, x);
      case CompleteRefresh(ticket, outcome) =>
        var b := Next(w, s).queue[|w.queue|];
        FlushKeeps(w.m, b, x);
        QueueOccAppend(w.queue, [b], x);
        QueueOccOne(b, x);
      case Deliver(i) => CallDelivered(w.hands, w.called, i, x);
    }
  }

  lemma CallDelivered(hands: seq<Call>, called: seq<Call>, i: nat, x: nat)
    requires i < |hands|
    ensures CallOcc(hands[..i] + hands[i+1..], x) + CallOcc(called + [hands[i]], x) == CallOcc(hands, x) + CallOcc(called, x)
    ensures CallOcc(called + [hands[i]], x) == CallOcc(called, x) + if hands[i].id == x then 1 else 0
  {
    assert hands == hands[..i] + ([hands[i]] + hands[i+1..]);
    CallOccAppend(hands[..i], [hands[i]] + hands[i+1..], x);
    CallOccAppend([hands[i]], hands[i+1..], x);
    CallOccAppend(hands[..i], hands[i+1..], x);
    CallOccAppend(called, [hands[i]], x);
    CallOccOne(hands[i], x);
  }

  /**
    Completion conservation: in every run, whatever the authenticator does, the completion of every
    call is in exactly one place, so none is lost and none is called twice.
   */
  lemma {:induction false} Conservation(w: World, steps: seq<Step>)
    requires Conserved(w) && Run(w, steps)
    ensures Conserved(After(w, steps))
    decreases |steps|
  {
    if steps != [] {
      var next := Next(w, steps[0]);
      forall x ensures Places(next, x) == if x in next.submitted then 1 else 0 {
        StepConserves(w, steps[0], x);
      }
      Conservation(next, steps[1..]);
    }
  }

  lemma InitialConserved(credential: Option<Credential>, window: Option<RefreshWindow>, clock: real)
    ensures Conserved(Initial(credential, window, clock))
  {
  }

  /** No completion is ever called twice. */
  lemma CalledAtMostOnce(credential: Option<Credential>, window: Option<RefreshWindow>, clock: real,
                         steps: seq<Step>, i: nat, j: nat)
    requires Run(Initial(credential, window, clock), steps)
    requires i < j < |After(Initial(credential, window, clock), steps).called|
    ensures var called := After(Initial(credential, window, clock), steps).called; called[i].id != called[j].id
  {
    var w := After(Initial(credential, window, clock), steps);
    InitialConserved(credential, window, clock);
    Conservation(Initial(credential, window, clock), steps);
    var x := w.called[i].id;
    assert Places(w, x) == if x in w.submitted then 1 else 0;
    if w.called[j].id == x {
      TwoCalls(w.called, i, j);
    }
  }

  lemma TwoCalls(calls: seq<Call>, i: nat, j: nat)
    requires i < j < |calls| && calls[i].id == calls[j].id
    ensures CallOcc(calls, calls[i].id) >= 2
  {
    var x := calls[i].id;
    assert calls == calls[..i] + ([calls[i]] + (calls[i+1..j] + ([calls[j]] + calls[j+1..])));
    CallOccAppend(calls[..i], [calls[i]] + (calls[i+1..j] + ([calls[j]] + calls[j+1..])), x);
    CallOccAppend([calls[i]], calls[i+1..j] + ([calls[j]] + calls[j+1..]), x);
    CallOccAppend(calls[i+1..j], [calls[j]] + calls[j+1..], x);
    CallOccAppend([calls[j]], calls[j+1..], x);
    CallOccOne(calls[i], x);
    CallOccOne(calls[j], x);
  }
}
