/**
  Which credential a request is adapted with, and the order in which waiting retries are answered.
 */
module AuthCredentials {
  import opened Wrappers
  import opened AuthState
  import opened AuthProtocol
  import opened AuthProperties
  import opened AuthReplies

  // ---------------------------------------------------------------------------------------------
  // The current credential

  /** What was last set, or last returned by a successful refresh. */
  function LastWritten(credential: Option<Credential>, steps: seq<Step>): Option<Credential> {
    if steps == [] then credential
    else
      match steps[|steps|-1]
      case SetCredential(c) => c
      case CompleteRefresh(_, Refreshed(c)) => Some(c)
      case _ => LastWritten(credential, steps[..|steps|-1])
  }

  lemma CredentialStep(w: World, s: Step)
    requires Enabled(w, s)
    ensures Next(w, s).m.credential ==
      match s
      case SetCredential(c) => c
      case CompleteRefresh(_, Refreshed(c)) => Some(c)
      case _ => w.m.credential
  {
  }

  /** In every run the current credential is the one that was last set or last returned by a refresh. */
  lemma {:induction false} CredentialIsLastWritten(w: World, steps: seq<Step>)
    requires Run(w, steps)
    ensures After(w, steps).m.credential == LastWritten(w.m.credential, steps)
    decreases |steps|
  {
    hide Enabled, Next;
    if steps != [] {
      var init, last := steps[..|steps|-1], steps[|steps|-1];
      assert steps == init + [last];
      RunSplit(w, init, [last]);
      CredentialIsLastWritten(w, init);
      CredentialStep(After(w, init), last);
      LastStep(After(w, init), last);
    }
  }

  lemma LastStep(w: World, s: Step)
    requires Run(w, [s])
    ensures Enabled(w, s) && After(w, [s]) == Next(w, s)
  {
    assert [s][1..] == [];
    assert After(Next(w, s), []) == Next(w, s);
  }

  // ---------------------------------------------------------------------------------------------
  // Adapted requests

  /** A request can be adapted with c: it is the current credential, it is good, and no refresh is under way. */
  predicate Usable(m: MutableState, c: Credential) {
    m.credential == Some(c) && !c.requiresRefresh && !m.isRefreshing
  }

  /** The replies to an adapt whose turn comes in state m: at most one, none if it is deferred. */
  predicate AdaptReplies(m: MutableState, id: nat, calls: seq<Call>) {
    if m.isRefreshing then calls == []
    else if m.credential.None? then calls == [Call(id, AdaptFailed(MissingCredential))]
    else if m.credential.value.requiresRefresh then calls == []
    else calls == [Call(id, Adapted(m.credential.value))]
  }

  /** The calls that a step adds: an adapt is answered by its state, everything else as its block says. */
  lemma NewCalls(w: World, s: Step)
    requires Enabled(w, s) && !s.Deliver?
    ensures w.hands <= Next(w, s).hands && Next(w, s).called == w.called
    ensures s.SubmitAdapt? ==> AdaptReplies(w.m, s.id, Next(w, s).hands[|w.hands|..])
    ensures s.RunQueue? && w.queue[0].Resume? && w.queue[0].adapts != [] ==>
      AdaptReplies(w.m, w.queue[0].adapts[0], Next(w, s).hands[|w.hands|..])
    ensures forall c, i :: |w.hands| <= i < |Next(w, s).hands| && Next(w, s).hands[i].reply == Adapted(c) ==> Usable(w.m, c)
  {
  }

  /** The step decides to adapt request x with c. */
  predicate Adapts(w: World, s: Step, x: nat, c: Credential)
    requires Enabled(w, s)
  {
    && Usable(w.m, c)
    && Call(x, Adapted(c)) !in w.hands && Call(x, Adapted(c)) !in w.called
    && Call(x, Adapted(c)) in Next(w, s).hands
  }

  lemma AdaptedByStep(w: World, s: Step, x: nat, c: Credential)
    requires Enabled(w, s)
    requires Call(x, Adapted(c)) !in w.hands && Call(x, Adapted(c)) !in w.called
    requires Call(x, Adapted(c)) in Next(w, s).hands || Call(x, Adapted(c)) in Next(w, s).called
    ensures Adapts(w, s, x, c)
  {
    if !s.Deliver? {
      NewCalls(w, s);
    }
  }

  /**
    In every run, a request that has been adapted was adapted with the credential that was current at the
    step that decided so, which did not require a refresh, and at that step no refresh was under way.
   */
  lemma {:induction false} AdaptedWithCurrent(w: World, steps: seq<Step>, x: nat, c: Credential)
      returns (before: seq<Step>, s: Step, more: seq<Step>)
    requires Run(w, steps) && w.hands == [] && w.called == []
    requires Call(x, Adapted(c)) in After(w, steps).hands || Call(x, Adapted(c)) in After(w, steps).called
    ensures steps == before + [s] + more
    ensures Run(w, before) && Enabled(After(w, before), s) && Adapts(After(w, before), s, x, c)
    decreases |steps|
  {
    hide Enabled, Next, Adapts;
    assert steps != [];
    var init, last := steps[..|steps|-1], steps[|steps|-1];
    assert steps == init + [last];
    RunSplit(w, init, [last]);
    LastStep(After(w, init), last);
    if Call(x, Adapted(c)) in After(w, init).hands || Call(x, Adapted(c)) in After(w, init).called {
      before, s, more := AdaptedWithCurrent(w, init, x, c);
      more := more + [last];
    } else {
      AdaptedByStep(After(w, init), last, x, c);
      before, s, more := init, last, [];
    }
  }

  // ---------------------------------------------------------------------------------------------
  // The order of waiting retries

  predicate InOrder(s: seq<nat>, x: nat, y: nat) {
    exists i, j :: 0 <= i < j < |s| && s[i] == x && s[j] == y
  }

  predicate BlockInOrder(b: Block, x: nat, y: nat) {
    !b.AskAuthenticator? && InOrder(b.retries, x, y)
  }

  /** Retry x waits before retry y, for the same refresh or in the same block. */
  predicate WaitsBefore(w: World, x: nat, y: nat) {
    InOrder(w.m.requestsToRetry, x, y) || exists i :: 0 <= i < |w.queue| && BlockInOrder(w.queue[i], x, y)
  }

  /** A retry that takes the lock waits behind those that wait already. */
  lemma WaitsBehind(w: World, s: Step, x: nat)
    requires Enabled(w, s) && s.LockRetry? && w.m.isRefreshing && x in w.m.requestsToRetry
    ensures WaitsBefore(Next(w, s), x, s.id)
  {
    var i :| 0 <= i < |w.m.requestsToRetry| && w.m.requestsToRetry[i] == x;
    var list := Next(w, s).m.requestsToRetry;
    assert list[i] == x && list[|w.m.requestsToRetry|] == s.id;
  }

  lemma OrderBehind(w: World, v: World, blocks: seq<Block>, x: nat, y: nat)
    requires WaitsBefore(w, x, y) && v.queue == w.queue + blocks
    requires InOrder(w.m.requestsToRetry, x, y) ==> WaitsBefore(v, x, y)
    ensures WaitsBefore(v, x, y)
  {
    hide BlockInOrder, InOrder;
    if !InOrder(w.m.requestsToRetry, x, y) {
      var i :| 0 <= i < |w.queue| && BlockInOrder(w.queue[i], x, y);
      assert v.queue[i] == w.queue[i];
    }
  }

  lemma OrderInTail(s: seq<nat>, x: nat, y: nat)
    requires InOrder(s, x, y) && s[0] != x
    ensures InOrder(s[1..], x, y)
  {
    var i, j :| 0 <= i < j < |s| && s[i] == x && s[j] == y;
    assert s[1..][i-1] == x && s[1..][j-1] == y;
  }

  lemma OrderGrows(s: seq<nat>, id: nat, x: nat, y: nat)
    requires InOrder(s, x, y)
    ensures InOrder(s + [id], x, y)
  {
    var i, j :| 0 <= i < j < |s| && s[i] == x && s[j] == y;
    assert (s + [id])[i] == x && (s + [id])[j] == y;
  }

  /** One piece of the queue leaves the order as it is, unless it is the piece of x. */
  lemma PieceKeepsOrder(w: World, checked: real, started: real, x: nat, y: nat)
    requires Enabled(w, RunQueue(checked, started)) && Phase(w) && WaitsBefore(w, x, y)
    ensures var v := Next(w, RunQueue(checked, started));
      WaitsBefore(v, x, y) || exists reply :: Call(x, reply) in v.hands
  {
    hide InOrder;
    var b, v := w.queue[0], Next(w, RunQueue(checked, started));
    if InOrder(w.m.requestsToRetry, x, y) {
      assert v.m.requestsToRetry == w.m.requestsToRetry || !w.m.isRefreshing;
      NotEmpty(w.m.requestsToRetry, x, y);
    } else {
      var i :| 0 <= i < |w.queue| && BlockInOrder(w.queue[i], x, y);
      if i > 0 {
        var at := |v.queue|;
        if b.AskAuthenticator? || (b.adapts == [] && b.retries == []) {
          assert v.queue[i-1] == w.queue[i];
        } else {
          assert v.queue[i] == w.queue[i];
        }
      } else if b.adapts != [] {
        assert v.queue[0].retries == b.retries;
      } else {
        NotEmpty(b.retries, x, y);
        if b.retries[0] != x {
          OrderInTail(b.retries, x, y);
          assert BlockInOrder(v.queue[0], x, y);
        } else {
          assert v.hands[|w.hands|].id == x;
          assert Call(x, v.hands[|w.hands|].reply) in v.hands;
        }
      }
    }
  }

  lemma NotEmpty(s: seq<nat>, x: nat, y: nat)
    requires InOrder(s, x, y)
    ensures s != []
  {
  }

  lemma OrderStep(w: World, s: Step, x: nat, y: nat)
    requires Enabled(w, s) && Phase(w) && WaitsBefore(w, x, y)
    ensures WaitsBefore(Next(w, s), x, y) || exists reply :: Call(x, reply) in Next(w, s).hands
  {
    hide InOrder, CountSince;
    var v := Next(w, s);
    match s {
      case RunQueue(checked, started) => PieceKeepsOrder(w, checked, started, x, y);
      case SubmitAdapt(id, checked, started) =>
        if InOrder(w.m.requestsToRetry, x, y) { NotEmpty(w.m.requestsToRetry, x, y); }
        OrderBehind(w, v, AfterAdapt(w.m, id, checked, started).1, x, y);
      case LockRetry(id, checked, started) =>
        if InOrder(w.m.requestsToRetry, x, y) {
          NotEmpty(w.m.requestsToRetry, x, y);
          OrderGrows(w.m.requestsToRetry, id, x, y);
        }
        OrderBehind(w, v, AfterRetry(w.m, id, w.reading[id], checked, started).1, x, y);
      case CompleteRefresh(_, _) =>
        assert InOrder(w.m.requestsToRetry, x, y) ==> BlockInOrder(v.queue[|w.queue|], x, y);
        OrderBehind(w, v, [v.queue[|w.queue|]], x, y);
      case SetCredential(_) =>
      case SubmitRetry(_, _) =>
      case Deliver(_) =>
    }
  }

  predicate Decided(w: World, call: Call) {
    call in w.hands || call in w.called
  }

  lemma DecidedStays(w: World, s: Step, call: Call)
    requires Enabled(w, s) && Decided(w, call)
    ensures Decided(Next(w, s), call)
  {
    if s.Deliver? {
      assert w.hands == w.hands[..s.i] + [w.hands[s.i]] + w.hands[s.i+1..];
    }
  }

  /** Whoever waits has not been answered. */
  lemma WaitingUndecided(w: World, x: nat, y: nat, reply: Reply)
    requires Conserved(w) && WaitsBefore(w, x, y)
    ensures !Decided(w, Call(y, reply))
  {
    hide QueueOcc, CallOcc;
    assert Places(w, y) == if y in w.submitted then 1 else 0;
    if Decided(w, Call(y, reply)) {
      if Call(y, reply) in w.hands {
        OccursInCalls(w.hands, Call(y, reply));
      } else {
        OccursInCalls(w.called, Call(y, reply));
      }
      if !InOrder(w.m.requestsToRetry, x, y) {
        var i :| 0 <= i < |w.queue| && BlockInOrder(w.queue[i], x, y);
        var due := if w.queue[i].Resume? then RetryRequest else DoNotRetryWithError(w.queue[i].error);
        assert Answers(w.queue[i], y, due);
        OccursInQueue(w.queue, y, due);
      }
    }
  }

  lemma {:induction false} OrderAlways(w: World, steps: seq<Step>, x: nat, y: nat)
    requires Run(w, steps) && Phase(w)
    requires WaitsBefore(w, x, y) || exists reply :: Decided(w, Call(x, reply))
    ensures WaitsBefore(After(w, steps), x, y) || exists reply :: Decided(After(w, steps), Call(x, reply))
    decreases |steps|
  {
    hide WaitsBefore, Enabled, Next, Phase;
    if steps != [] {
      PhaseStep(w, steps[0]);
      if WaitsBefore(w, x, y) {
        OrderStep(w, steps[0], x, y);
      } else {
        var reply :| Decided(w, Call(x, reply));
        DecidedStays(w, steps[0], Call(x, reply));
      }
      OrderAlways(Next(w, steps[0]), steps[1..], x, y);
    }
  }

  /** In every run, of two waiting retries the one that waits behind the other is not answered before it. */
  lemma {:induction false} RetriesAreAnsweredInOrder(w: World, steps: seq<Step>, x: nat, y: nat, reply: Reply)
    requires Run(w, steps) && Phase(w) && Conserved(w) && WaitsBefore(w, x, y)
    requires Decided(After(w, steps), Call(y, reply))
    ensures exists answer :: Decided(After(w, steps), Call(x, answer))
  {
    hide WaitsBefore, Decided, Run;
    OrderAlways(w, steps, x, y);
    Conservation(w, steps);
    if WaitsBefore(After(w, steps), x, y) {
      WaitingUndecided(After(w, steps), x, y, reply);
    }
  }
}
