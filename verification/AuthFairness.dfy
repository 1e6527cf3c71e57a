/**
  What the interceptor promises while new calls keep coming in: if the serial queue is served, started
  refreshes are completed and every thread goes on, then a call that is never answered means that
  refreshes are started without end.
 */
module AuthFairness {
  import opened Wrappers
  import opened AuthState
  import opened AuthProtocol
  import opened AuthProperties
  import opened AuthLiveness

  // ---------------------------------------------------------------------------------------------
  // Where a deferred call stands

  predicate Pending(m: MutableState, x: nat) {
    x in m.adaptOperations || x in m.requestsToRetry
  }

  predicate Holds(b: Block, x: nat) {
    !b.AskAuthenticator? && (x in b.adapts || x in b.retries)
  }

  predicate InQueue(queue: seq<Block>, x: nat) {
    queue != [] && (Holds(queue[0], x) || InQueue(queue[1..], x))
  }

  predicate Deferred(w: World, x: nat) {
    Pending(w.m, x) || InQueue(w.queue, x)
  }

  /** Its completion is about to be called, or has been called. */
  predicate Decided(w: World, x: nat) {
    CallOcc(w.hands, x) > 0 || CallOcc(w.called, x) > 0
  }

  /** How many pieces of the queue a block takes. */
  function Pieces(b: Block): nat {
    if b.AskAuthenticator? then 1 else 1 + |b.adapts| + |b.retries|
  }

  function Index(s: seq<nat>, x: nat): nat {
    if s == [] || s[0] == x then 0 else 1 + Index(s[1..], x)
  }

  function IndexIn(b: Block, x: nat): nat {
    if b.AskAuthenticator? then 0
    else if x in b.adapts then Index(b.adapts, x)
    else |b.adapts| + Index(b.retries, x)
  }

  /** How many pieces come before the one of call x. */
  function Ahead(queue: seq<Block>, x: nat): nat {
    if queue == [] then 0
    else if Holds(queue[0], x) then IndexIn(queue[0], x)
    else Pieces(queue[0]) + Ahead(queue[1..], x)
  }

  /** Call x is an adapt that is to be tried again. */
  predicate ToAdapt(queue: seq<Block>, x: nat) {
    queue != [] &&
    if Holds(queue[0], x) then queue[0].Resume? && x in queue[0].adapts else ToAdapt(queue[1..], x)
  }

  predicate IsAsk(b: Block, ticket: nat) {
    b.AskAuthenticator? && b.ticket == ticket
  }

  /** How many pieces come before the one that hands the refresh to the authenticator. */
  function AheadOfAsk(queue: seq<Block>, ticket: nat): nat {
    if queue == [] || IsAsk(queue[0], ticket) then 0 else Pieces(queue[0]) + AheadOfAsk(queue[1..], ticket)
  }

  lemma {:induction false} QueueGrows(queue: seq<Block>, blocks: seq<Block>, x: nat)
    requires InQueue(queue, x)
    ensures InQueue(queue + blocks, x)
    ensures Ahead(queue + blocks, x) == Ahead(queue, x) && ToAdapt(queue + blocks, x) == ToAdapt(queue, x)
  {
    assert (queue + blocks)[1..] == queue[1..] + blocks;
    if !Holds(queue[0], x) {
      QueueGrows(queue[1..], blocks, x);
    }
  }

  lemma {:induction false} BehindQueue(queue: seq<Block>, b: Block, x: nat)
    requires Holds(b, x)
    ensures InQueue(queue + [b], x)
    ensures !InQueue(queue, x) ==> ToAdapt(queue + [b], x) == (b.Resume? && x in b.adapts)
  {
    if queue == [] {
      assert queue + [b] == [b];
    } else {
      BehindQueue(queue[1..], b, x);
      assert (queue + [b])[1..] == queue[1..] + [b];
    }
  }

  lemma QueueFront(b: Block, rest: seq<Block>, x: nat)
    ensures InQueue([b] + rest, x) == (Holds(b, x) || InQueue(rest, x))
    ensures Ahead([b] + rest, x) == if Holds(b, x) then IndexIn(b, x) else Pieces(b) + Ahead(rest, x)
    ensures ToAdapt([b] + rest, x) == if Holds(b, x) then b.Resume? && x in b.adapts else ToAdapt(rest, x)
  {
    assert ([b] + rest)[1..] == rest;
  }

  lemma {:induction false} AskGrows(queue: seq<Block>, blocks: seq<Block>, ticket: nat)
    requires AskQueued(queue, ticket)
    ensures AheadOfAsk(queue + blocks, ticket) == AheadOfAsk(queue, ticket)
  {
    assert (queue + blocks)[1..] == queue[1..] + blocks;
    if !IsAsk(queue[0], ticket) {
      AskTail(queue, ticket);
      AskGrows(queue[1..], blocks, ticket);
    }
  }

  lemma AskFront(b: Block, rest: seq<Block>, ticket: nat)
    ensures AheadOfAsk([b] + rest, ticket) == if IsAsk(b, ticket) then 0 else Pieces(b) + AheadOfAsk(rest, ticket)
  {
    assert ([b] + rest)[1..] == rest;
  }

  // ---------------------------------------------------------------------------------------------
  // The measure

  /**
    How far a deferred call is from its answer: an adapt queued while a refresh is under way will be deferred
    again, a pending call waits for the refresh, an adapt queued while none is under way is tried, and
    whatever else is queued is answered.
   */
  function Level(w: World, x: nat): nat {
    if Pending(w.m, x) then 2
    else if ToAdapt(w.queue, x) then if w.m.isRefreshing then 3 else 1
    else 0
  }

  function LastTicket(w: World): int { |w.m.refreshTimestamps| - 1 }

  /** The pieces before the one that matters next; 0 if it is the authenticator's turn. */
  function Distance(w: World, x: nat): nat {
    if !Pending(w.m, x) then Ahead(w.queue, x)
    else if LastTicket(w) in w.asked || LastTicket(w) < 0 then 0
    else 1 + AheadOfAsk(w.queue, LastTicket(w))
  }

  predicate Under(v: World, w: World, x: nat) {
    || |v.m.refreshTimestamps| > |w.m.refreshTimestamps|
    || (|v.m.refreshTimestamps| == |w.m.refreshTimestamps|
        && (Level(v, x) < Level(w, x) || (Level(v, x) == Level(w, x) && Distance(v, x) < Distance(w, x))))
  }

  predicate Even(v: World, w: World, x: nat) {
    |v.m.refreshTimestamps| == |w.m.refreshTimestamps| && Level(v, x) == Level(w, x) && Distance(v, x) == Distance(w, x)
  }

  /** It is the authenticator's turn: the refresh that x waits on has been handed to it. */
  predicate AuthenticatorsTurn(w: World, x: nat) {
    Level(w, x) == 2 && Distance(w, x) == 0
  }

  predicate Serves(w: World, s: Step, x: nat) {
    if AuthenticatorsTurn(w, x) then s.CompleteRefresh? else s.RunQueue?
  }

  ghost predicate Sound(w: World) {
    Phase(w) && Tickets(w) && Conserved(w)
  }

  predicate Once(w: World, s: Step) {
    s.CompleteRefresh? ==> s.ticket !in w.completed
  }

  lemma InitialIsSound(credential: Option<Credential>, window: Option<RefreshWindow>, clock: real)
    ensures Sound(Initial(credential, window, clock))
  {
  }

  lemma SoundStep(w: World, s: Step)
    requires Enabled(w, s) && Once(w, s) && Sound(w)
    ensures Sound(Next(w, s))
  {
    hide Phase, Tickets, Enabled, Next;
    PhaseStep(w, s);
    TicketsStep(w, s);
    forall x ensures Places(Next(w, s), x) == if x in Next(w, s).submitted then 1 else 0 {
      StepConserves(w, s, x);
    }
  }

  // ---------------------------------------------------------------------------------------------
  // One step

  /** A step brings x its answer, or closer to it, or leaves it where it is without serving it. */
  predicate Moves(w: World, s: Step, x: nat)
    requires Enabled(w, s)
  {
    var v := Next(w, s);
    Decided(v, x) || (Deferred(v, x) && (Under(v, w, x) || (Even(v, w, x) && !Serves(w, s, x))))
  }

  /** What the other calls do to the state: a refresh is started, or all is as before for x. */
  predicate Aside(m': MutableState, m: MutableState, x: nat) {
    && (Pending(m, x) ==> Pending(m', x))
    && (|m'.refreshTimestamps| <= |m.refreshTimestamps| ==>
          && m'.refreshTimestamps == m.refreshTimestamps && m'.isRefreshing == m.isRefreshing
          && Pending(m', x) == Pending(m, x))
  }

  lemma AdaptAside(m: MutableState, id: nat, checked: real, started: real, x: nat)
    requires m.adaptOperations != [] || m.requestsToRetry != [] ==> m.isRefreshing
    requires id != x
    ensures Aside(AfterAdapt(m, id, checked, started).0, m, x)
  {
  }

  lemma RetryAside(m: MutableState, id: nat, c: Credential, checked: real, started: real, x: nat)
    requires m.adaptOperations != [] || m.requestsToRetry != [] ==> m.isRefreshing
    requires id != x
    ensures Aside(AfterRetry(m, id, c, checked, started).0, m, x)
  {
  }

  /** The refresh that a pending call waits for is queued or has been handed over. */
  predicate AskKnown(w: World, x: nat) {
    Pending(w.m, x) ==> LastTicket(w) >= 0 && (LastTicket(w) in w.asked || AskQueued(w.queue, LastTicket(w)))
  }

  /** Blocks behind the queue do not matter to a deferred call. */
  lemma Appended(w: World, v: World, blocks: seq<Block>, x: nat)
    requires AskKnown(w, x) && Deferred(w, x)
    requires v.queue == w.queue + blocks && v.asked == w.asked && Aside(v.m, w.m, x)
    ensures Deferred(v, x) && (Under(v, w, x) || Even(v, w, x))
  {
    if Pending(w.m, x) {
      if LastTicket(w) !in w.asked {
        AskGrows(w.queue, blocks, LastTicket(w));
      }
    } else {
      QueueGrows(w.queue, blocks, x);
    }
  }

  /** A block without its first piece; None if that was all. */
  function Rest(b: Block): Option<Block> {
    match b
    case AskAuthenticator(_, _) => None
    case Resume(adapts, retries) =>
      if adapts != [] then Some(Resume(adapts[1..], retries))
      else if retries != [] then Some(Resume([], retries[1..])) else None
    case Fail(error, adapts, retries) =>
      if adapts != [] then Some(Fail(error, adapts[1..], retries))
      else if retries != [] then Some(Fail(error, [], retries[1..])) else None
  }

  /** The call whose piece comes first. */
  predicate First(b: Block, x: nat) {
    !b.AskAuthenticator? &&
    if b.adapts != [] then b.adapts[0] == x else b.retries != [] && b.retries[0] == x
  }

  function Popped(queue: seq<Block>): seq<Block>
    requires queue != []
  {
    match Rest(queue[0])
    case None => queue[1..]
    case Some(b) => [b] + queue[1..]
  }

  lemma RestOfBlock(b: Block, x: nat)
    requires !First(b, x)
    ensures Rest(b).None? ==> !Holds(b, x) && Pieces(b) == 1
    ensures Rest(b).Some? ==>
      var b' := Rest(b).value;
      && Pieces(b') == Pieces(b) - 1 && Holds(b', x) == Holds(b, x) && !b'.AskAuthenticator?
      && b'.Resume? == b.Resume? && (x in b'.adapts <==> x in b.adapts)
      && (Holds(b, x) ==> IndexIn(b', x) == IndexIn(b, x) - 1)
  {
    if Rest(b).Some? {
      if b.adapts != [] {
        assert b.adapts == [b.adapts[0]] + b.adapts[1..];
      } else {
        assert b.retries == [b.retries[0]] + b.retries[1..];
      }
    }
  }

  /** One piece of the queue that is not the one of x. */
  lemma PieceDone(w: World, x: nat)
    requires w.queue != [] && !First(w.queue[0], x) && AskKnown(w, x) && Deferred(w, x)
    ensures var u := w.(queue := Popped(w.queue),
                        asked := if w.queue[0].AskAuthenticator? then w.asked + {w.queue[0].ticket} else w.asked);
      && Deferred(u, x) && AskKnown(u, x)
      && if AuthenticatorsTurn(w, x) then Even(u, w, x) else Under(u, w, x)
  {
    var b, rest, t := w.queue[0], w.queue[1..], LastTicket(w);
    RestOfBlock(b, x);
    if Rest(b).Some? {
      QueueFront(Rest(b).value, rest, x);
      if Pending(w.m, x) && t !in w.asked {
        AskTail(w.queue, t);
        AskBehind(Rest(b).value, rest, t);
        AskFront(Rest(b).value, rest, t);
      }
    } else if Pending(w.m, x) && t !in w.asked && !IsAsk(b, t) {
      AskTail(w.queue, t);
    }
  }

  lemma {:induction false} QueuedOcc(queue: seq<Block>, x: nat)
    ensures InQueue(queue, x) <==> QueueOcc(queue, x) > 0
  {
    if queue != [] {
      QueuedOcc(queue[1..], x);
    }
  }

  /** A deferred call has been submitted, and its completion is nowhere else. */
  lemma OnePlace(w: World, x: nat)
    requires Conserved(w) && Deferred(w, x)
    ensures x in w.submitted && x !in w.reading && !Decided(w, x)
    ensures !(Pending(w.m, x) && InQueue(w.queue, x))
  {
    QueuedOcc(w.queue, x);
    assert Places(w, x) == if x in w.submitted then 1 else 0;
  }

  lemma FirstIsOnly(w: World, x: nat)
    requires Conserved(w) && w.queue != [] && First(w.queue[0], x)
    ensures Deferred(w, x) && !Pending(w.m, x) && !InQueue(Popped(w.queue), x)
    ensures ToAdapt(w.queue, x) == (w.queue[0].Resume? && w.queue[0].adapts != [])
  {
    var b, rest := w.queue[0], w.queue[1..];
    QueuedOcc(w.queue, x);
    QueuedOcc(rest, x);
    assert Places(w, x) == if x in w.submitted then 1 else 0;
    if b.adapts != [] { OccHead(b.adapts, x); } else { OccHead(b.retries, x); }
    QueueFront(Rest(b).value, rest, x);
  }

  lemma DecidedByCall(w: World, v: World, x: nat, reply: Reply)
    requires v.hands == w.hands + [Call(x, reply)]
    ensures Decided(v, x)
  {
    CallOccAppend(w.hands, [Call(x, reply)], x);
    CallOccOne(Call(x, reply), x);
  }

  /** The turn of x: it is answered, or deferred again. */
  lemma OwnPiece(w: World, checked: real, started: real, x: nat)
    requires Enabled(w, RunQueue(checked, started)) && Sound(w) && First(w.queue[0], x)
    ensures Moves(w, RunQueue(checked, started), x)
  {
    var b, v := w.queue[0], Next(w, RunQueue(checked, started));
    FirstIsOnly(w, x);
    if b.Resume? && b.adapts != [] {
      var (m, blocks, result) := AfterAdapt(w.m, x, checked, started);
      assert v.queue == Popped(w.queue) + blocks && v.m == m && v.hands == w.hands + AdaptCalls(x, result);
      if result.AdaptDeferred? {
        if !w.m.isRefreshing && Excessive(w.m.(adaptOperations := [x]), checked) {
          BehindQueue(Popped(w.queue), blocks[0], x);
        }
      } else {
        DecidedByCall(w, v, x, AdaptCalls(x, result)[0].reply);
      }
    } else {
      var reply := if b.Resume? then RetryRequest
                   else if b.adapts != [] then AdaptFailed(b.error) else DoNotRetryWithError(b.error);
      DecidedByCall(w, v, x, reply);
    }
  }

  lemma QueueMoves(w: World, checked: real, started: real, x: nat)
    requires Enabled(w, RunQueue(checked, started)) && Sound(w) && Deferred(w, x)
    ensures Moves(w, RunQueue(checked, started), x)
  {
    var b, v := w.queue[0], Next(w, RunQueue(checked, started));
    if First(b, x) {
      OwnPiece(w, checked, started, x);
    } else {
      var asked := if b.AskAuthenticator? then w.asked + {b.ticket} else w.asked;
      var u := w.(queue := Popped(w.queue), asked := asked);
      PieceDone(w, x);
      if b.Resume? && b.adapts != [] {
        AdaptAside(w.m, b.adapts[0], checked, started, x);
        Appended(u, v, AfterAdapt(w.m, b.adapts[0], checked, started).1, x);
      } else {
        assert v.queue == u.queue + [];
        Appended(u, v, [], x);
      }
    }
  }

  lemma CompletionMoves(w: World, s: Step, x: nat)
    requires Enabled(w, s) && s.CompleteRefresh? && Once(w, s) && Sound(w) && Deferred(w, x)
    ensures Moves(w, s, x)
  {
    var v := Next(w, s);
    var block := v.queue[|w.queue|];
    OnePlace(w, x);
    assert w.m.isRefreshing && !v.m.isRefreshing;
    if Pending(w.m, x) {
      BehindQueue(w.queue, block, x);
    } else {
      QueueGrows(w.queue, [block], x);
    }
  }

  /** The locked block of another call. */
  lemma LockedMoves(w: World, s: Step, id: nat, blocks: seq<Block>, x: nat)
    requires Enabled(w, s) && Sound(w) && Deferred(w, x)
    requires
      || (s.SubmitAdapt? && s.id == id && blocks == AfterAdapt(w.m, id, s.checked, s.started).1)
      || (s.LockRetry? && s.id == id && blocks == AfterRetry(w.m, id, w.reading[id], s.checked, s.started).1)
    ensures Moves(w, s, x)
  {
    hide AfterAdapt, AfterRetry, Aside, Under, Even, Level, Distance, Deferred;
    OnePlace(w, x);
    if s.SubmitAdapt? {
      AdaptAside(w.m, id, s.checked, s.started, x);
    } else {
      RetryAside(w.m, id, w.reading[id], s.checked, s.started, x);
    }
    Appended(w, Next(w, s), blocks, x);
  }

  lemma IdleMoves(w: World, s: Step, x: nat)
    requires Enabled(w, s) && Deferred(w, x)
    requires s.SetCredential? || s.SubmitRetry? || s.Deliver?
    ensures Moves(w, s, x)
  {
  }

  /** Every step of anyone moves a deferred call on or leaves it; the steps that serve it move it on. */
  lemma EveryStepMoves(w: World, s: Step, x: nat)
    requires Enabled(w, s) && Once(w, s) && Sound(w) && Deferred(w, x)
    ensures Moves(w, s, x)
  {
    hide Moves, Sound, Deferred, Next, Timely, AfterAdapt, AfterRetry;
    match s {
      case RunQueue(checked, started) => QueueMoves(w, checked, started, x);
      case CompleteRefresh(_, _) => CompletionMoves(w, s, x);
      case SubmitAdapt(id, checked, started) => LockedMoves(w, s, id, AfterAdapt(w.m, id, checked, started).1, x);
      case LockRetry(id, checked, started) => LockedMoves(w, s, id, AfterRetry(w.m, id, w.reading[id], checked, started).1, x);
      case _ => IdleMoves(w, s, x);
    }
  }

  // ---------------------------------------------------------------------------------------------
  // Fair behaviours

  /** An endless behaviour: anyone may take the next step, new calls included. */
  ghost predicate Continues(worlds: nat -> World, steps: nat -> Step, i: nat) {
    Enabled(worlds(i), steps(i)) && Once(worlds(i), steps(i)) && worlds(i + 1) == Next(worlds(i), steps(i))
  }

  ghost predicate QueueServed(worlds: nat -> World, steps: nat -> Step, i: nat) {
    worlds(i).queue != [] ==> exists j :: j >= i && steps(j).RunQueue?
  }

  ghost predicate RefreshCompleted(worlds: nat -> World, steps: nat -> Step, i: nat) {
    !(worlds(i).asked <= worlds(i).completed) ==> exists j :: j >= i && steps(j).CompleteRefresh?
  }

  /** The thread of call x takes the lock, or calls the completion that it holds. */
  predicate ThreadStep(w: World, s: Step, x: nat) {
    (s.LockRetry? && s.id == x) || (s.Deliver? && s.i < |w.hands| && w.hands[s.i].id == x)
  }

  ghost predicate ThreadGoesOn(worlds: nat -> World, steps: nat -> Step, i: nat, x: nat) {
    x in worlds(i).reading || CallOcc(worlds(i).hands, x) > 0 ==>
      exists j :: j >= i && ThreadStep(worlds(j), steps(j), x)
  }

  /** From a sound state on, the queue, the authenticator and the thread of x are never left waiting forever. */
  ghost predicate Fair(worlds: nat -> World, steps: nat -> Step, x: nat) {
    && Sound(worlds(0))
    && (forall i: nat :: Continues(worlds, steps, i))
    && (forall i: nat :: QueueServed(worlds, steps, i))
    && (forall i: nat :: RefreshCompleted(worlds, steps, i))
    && (forall i: nat :: ThreadGoesOn(worlds, steps, i, x))
  }

  lemma {:induction false} SoundAt(worlds: nat -> World, steps: nat -> Step, x: nat, i: nat)
    requires Fair(worlds, steps, x)
    ensures Sound(worlds(i)) && Continues(worlds, steps, i)
  {
    hide Sound, Enabled, Next;
    if i > 0 {
      SoundAt(worlds, steps, x, i - 1);
      SoundStep(worlds(i - 1), steps(i - 1));
    }
    assert Continues(worlds, steps, i);
  }

  /** The next step that serves x, as things stand. */
  lemma NextServing(worlds: nat -> World, steps: nat -> Step, x: nat, n: nat) returns (t: nat)
    requires Fair(worlds, steps, x) && Deferred(worlds(n), x)
    ensures t >= n && if AuthenticatorsTurn(worlds(n), x) then steps(t).CompleteRefresh? else steps(t).RunQueue?
  {
    hide Conserved, Enabled, Next;
    SoundAt(worlds, steps, x, n);
    var w := worlds(n);
    if AuthenticatorsTurn(w, x) {
      assert LastTicket(w) in w.asked && LastTicket(w) !in w.completed;
      assert RefreshCompleted(worlds, steps, n);
      t :| t >= n && steps(t).CompleteRefresh?;
    } else {
      assert w.queue != [];
      assert QueueServed(worlds, steps, n);
      t :| t >= n && steps(t).RunQueue?;
    }
  }

  /** A deferred call is decided: its measure never rises, and each step that serves it lowers it. */
  lemma {:induction false} DeferredIsDecided(worlds: nat -> World, steps: nat -> Step, x: nat, bound: nat, n: nat, t: nat)
    returns (j: nat)
    requires Fair(worlds, steps, x) && Deferred(worlds(n), x)
    requires forall i: nat :: |worlds(i).m.refreshTimestamps| <= bound
    requires t >= n && if AuthenticatorsTurn(worlds(n), x) then steps(t).CompleteRefresh? else steps(t).RunQueue?
    ensures j >= n && Decided(worlds(j), x)
    decreases bound - |worlds(n).m.refreshTimestamps|, Level(worlds(n), x), Distance(worlds(n), x), t - n
  {
    hide Fair, Sound, Enabled, Next, Deferred, Decided, Level, Distance;
    SoundAt(worlds, steps, x, n);
    EveryStepMoves(worlds(n), steps(n), x);
    var v := worlds(n + 1);
    if Decided(v, x) {
      j := n + 1;
    } else if Under(v, worlds(n), x) {
      var t' := NextServing(worlds, steps, x, n + 1);
      j := DeferredIsDecided(worlds, steps, x, bound, n + 1, t');
    } else {
      j := DeferredIsDecided(worlds, steps, x, bound, n + 1, t);
    }
  }

  lemma HandStays(w: World, s: Step, x: nat)
    requires Enabled(w, s) && Sound(w) && CallOcc(w.hands, x) > 0
    ensures CallOcc(Next(w, s).hands, x) > 0 || CallOcc(Next(w, s).called, x) > 0
    ensures ThreadStep(w, s, x) ==> CallOcc(Next(w, s).called, x) > 0
  {
    assert Places(w, x) == if x in w.submitted then 1 else 0;
    match s {
      case SubmitAdapt(id, checked, started) =>
        CallOccAppend(w.hands, AdaptCalls(id, AfterAdapt(w.m, id, checked, started).2), x);
      case SubmitRetry(id, answer) =>
        if answer.Some? { CallOccAppend(w.hands, [Call(id, answer.value)], x); }
      case RunQueue(checked, started) =>
        CallOccAppend(w.hands, AfterQueueItem(w.m, w.queue, checked, started).2, x);
      case Deliver(i) => CallDelivered(w.hands, w.called, i, x);
      case _ =>
    }
  }

  /** A decided completion is called. */
  lemma {:induction false} HandIsCalled(worlds: nat -> World, steps: nat -> Step, x: nat, n: nat, t: nat) returns (j: nat)
    requires Fair(worlds, steps, x) && CallOcc(worlds(n).hands, x) > 0
    requires t >= n && ThreadStep(worlds(t), steps(t), x)
    ensures j >= n && CallOcc(worlds(j).called, x) > 0
    decreases t - n
  {
    hide Fair, Sound, Enabled, Next;
    SoundAt(worlds, steps, x, n);
    HandStays(worlds(n), steps(n), x);
    if CallOcc(worlds(n + 1).called, x) > 0 {
      j := n + 1;
    } else {
      j := HandIsCalled(worlds, steps, x, n + 1, t);
    }
  }

  lemma ReadingStays(w: World, s: Step, x: nat)
    requires Enabled(w, s) && Sound(w) && x in w.reading
    ensures x in Next(w, s).submitted
    ensures x in Next(w, s).reading <==> !ThreadStep(w, s, x)
  {
    assert Places(w, x) == if x in w.submitted then 1 else 0;
    if s.Deliver? {
      CallDelivered(w.hands, w.called, s.i, x);
    }
  }

  /** A retry that has read the credential takes the lock. */
  lemma {:induction false} ReadingIsLocked(worlds: nat -> World, steps: nat -> Step, x: nat, n: nat, t: nat) returns (j: nat)
    requires Fair(worlds, steps, x) && x in worlds(n).reading
    requires t >= n && ThreadStep(worlds(t), steps(t), x)
    ensures j >= n && x in worlds(j).submitted && x !in worlds(j).reading
    decreases t - n
  {
    hide Fair, Sound, Enabled, Next;
    SoundAt(worlds, steps, x, n);
    ReadingStays(worlds(n), steps(n), x);
    if x in worlds(n + 1).reading {
      j := ReadingIsLocked(worlds, steps, x, n + 1, t);
    } else {
      j := n + 1;
    }
  }

  lemma SomePlace(w: World, x: nat)
    requires Conserved(w) && x in w.submitted
    ensures x in w.reading || Deferred(w, x) || Decided(w, x)
  {
    assert Places(w, x) == if x in w.submitted then 1 else 0;
    QueuedOcc(w.queue, x);
  }

  /**
    Every call is answered, however many new calls keep coming in, in a fair behaviour in which no more than
    some number of refreshes are ever started.
   */
  lemma EveryCallIsAnswered(worlds: nat -> World, steps: nat -> Step, x: nat, bound: nat, n: nat) returns (j: nat)
    requires Fair(worlds, steps, x) && x in worlds(n).submitted
    requires forall i: nat :: |worlds(i).m.refreshTimestamps| <= bound
    ensures j >= n && exists k :: 0 <= k < |worlds(j).called| && worlds(j).called[k].id == x
  {
    hide Deferred, Enabled, Next, Phase, Tickets;
    j := n;
    if x in worlds(j).reading {
      assert ThreadGoesOn(worlds, steps, j, x);
      var t :| t >= j && ThreadStep(worlds(t), steps(t), x);
      j := ReadingIsLocked(worlds, steps, x, j, t);
    }
    SoundAt(worlds, steps, x, j);
    SomePlace(worlds(j), x);
    if Deferred(worlds(j), x) {
      var t := NextServing(worlds, steps, x, j);
      j := DeferredIsDecided(worlds, steps, x, bound, j, t);
    }
    if CallOcc(worlds(j).called, x) == 0 {
      assert ThreadGoesOn(worlds, steps, j, x);
      var t :| t >= j && ThreadStep(worlds(t), steps(t), x);
      j := HandIsCalled(worlds, steps, x, j, t);
    }
    CalledFor(worlds(j).called, x);
  }

  // ---------------------------------------------------------------------------------------------
  // With a refresh window

  /** What the window still allows is spent by the refreshes that are started. */
  predicate Spends(m': MutableState, m: MutableState, window: RefreshWindow, from: real) {
    && m'.refreshWindow == Some(window)
    && |m'.refreshTimestamps| + Budget(m', window, from) <= |m.refreshTimestamps| + Budget(m, window, from)
  }

  lemma RefreshSpends(m: MutableState, c: Credential, checked: real, started: real, window: RefreshWindow, from: real)
    requires m.refreshWindow == Some(window) && from <= started && checked <= from + window.interval
    ensures Spends(AfterRefresh(m, c, checked, started).0, m, window, from)
  {
    if !Excessive(m, checked) {
      CountSinceMonotone(m.refreshTimestamps, checked - window.interval, from);
      assert (m.refreshTimestamps + [started])[..|m.refreshTimestamps|] == m.refreshTimestamps;
    }
  }

  lemma AdaptSpends(m: MutableState, id: nat, checked: real, started: real, window: RefreshWindow, from: real)
    requires m.refreshWindow == Some(window) && from <= started && checked <= from + window.interval
    ensures Spends(AfterAdapt(m, id, checked, started).0, m, window, from)
  {
    hide AfterRefresh;
    if m.credential.Some? {
      RefreshSpends(m.(adaptOperations := m.adaptOperations + [id]), m.credential.value, checked, started, window, from);
    }
  }

  lemma RetrySpends(m: MutableState, id: nat, c: Credential, checked: real, started: real, window: RefreshWindow, from: real)
    requires m.refreshWindow == Some(window) && from <= started && checked <= from + window.interval
    ensures Spends(AfterRetry(m, id, c, checked, started).0, m, window, from)
  {
    hide AfterRefresh;
    RefreshSpends(m.(requestsToRetry := m.requestsToRetry + [id]), c, checked, started, window, from);
  }

  lemma StepSpends(w: World, s: Step, window: RefreshWindow, from: real)
    requires Enabled(w, s) && InStretch(s, from, window.interval) && w.m.refreshWindow == Some(window)
    ensures Spends(Next(w, s).m, w.m, window, from)
  {
    hide AfterAdapt, AfterRetry;
    match s {
      case SubmitAdapt(id, checked, started) => AdaptSpends(w.m, id, checked, started, window, from);
      case LockRetry(id, checked, started) => RetrySpends(w.m, id, w.reading[id], checked, started, window, from);
      case RunQueue(checked, started) =>
        if w.queue[0].Resume? && w.queue[0].adapts != [] {
          AdaptSpends(w.m, w.queue[0].adapts[0], checked, started, window, from);
        }
      case _ =>
    }
  }

  lemma {:induction false} SpentAt(worlds: nat -> World, steps: nat -> Step, x: nat, window: RefreshWindow, from: real, i: nat)
    requires Fair(worlds, steps, x) && worlds(0).m.refreshWindow == Some(window)
    requires forall i: nat :: InStretch(steps(i), from, window.interval)
    ensures worlds(i).m.refreshWindow == Some(window)
    ensures var m, m0 := worlds(i).m, worlds(0).m;
      |m.refreshTimestamps| + Budget(m, window, from) <= |m0.refreshTimestamps| + Budget(m0, window, from)
  {
    hide Sound, Enabled, Next, Budget, InStretch;
    if i > 0 {
      SpentAt(worlds, steps, x, window, from, i - 1);
      assert Continues(worlds, steps, i - 1);
      StepSpends(worlds(i - 1), steps(i - 1), window, from);
    }
  }

  /**
    With a refresh window, every call is answered before the clock leaves a stretch of the window's length:
    a fair behaviour that stays within one leaves no call unanswered, whatever else is submitted.
   */
  lemma AnsweredWithinStretch(worlds: nat -> World, steps: nat -> Step, x: nat, window: RefreshWindow, from: real, n: nat)
    returns (j: nat)
    requires Fair(worlds, steps, x) && worlds(0).m.refreshWindow == Some(window) && x in worlds(n).submitted
    requires forall i: nat :: InStretch(steps(i), from, window.interval)
    ensures j >= n && exists k :: 0 <= k < |worlds(j).called| && worlds(j).called[k].id == x
  {
    hide Fair, Budget;
    var bound := |worlds(0).m.refreshTimestamps| + Budget(worlds(0).m, window, from);
    forall i: nat ensures |worlds(i).m.refreshTimestamps| <= bound {
      SpentAt(worlds, steps, x, window, from, i);
    }
    j := EveryCallIsAnswered(worlds, steps, x, bound, n);
  }
}
