/**
  A run over the tables of LemonFragment.dfy: `BEGIN TRANSACTION abort ;` is accepted, where ABORT is
  read as an identifier because it falls back to one.
 */
module FragmentRun {
  import opened Wrappers
  import opened LemonGrammar
  import opened LalrMachine
  import opened LalrRuns
  import opened LemonFragment

  /** A stack with the given states. */
  ghost predicate On(a: Automaton, c: Certificate, depth: nat, st: Stack, path: seq<PState>) {
    Ready(a, c, depth, st) && States(st) == path
  }

  function States(st: Stack): (path: seq<PState>)
    ensures |path| == |st|
    ensures forall i :: 0 <= i < |st| ==> path[i] == st[i].state
  {
    seq(|st|, i requires 0 <= i < |st| => st[i].state)
  }

  ghost predicate ActionIs(a: Automaton, s: PState, tok: nat, act: PAct) {
    |a.rows| == |a.defaults| && (s.Real? ==> s.n < |a.rows|) && Action(a, s, tok) == act
  }

  ghost predicate GotoIs(a: Automaton, s: PState, sym: nat, to: PState) {
    s.Real? && s.n < |a.gotos| && Goto(a, s.n, sym) == Some(to)
  }

  /** What feeding the token comes to. */
  ghost predicate Ends(a: Automaton, c: Certificate, depth: nat, st: Stack, tok: Token, verdict: Verdict, path: seq<PState>) {
    && Ready(a, c, depth, st)
    && Feed(a, c, depth, st, tok).verdict == verdict
    && On(a, c, depth, Feed(a, c, depth, st, tok).stack, path)
  }

  lemma ShiftStep(a: Automaton, c: Certificate, depth: nat, st: Stack, path: seq<PState>, tok: Token, to: PState)
    requires On(a, c, depth, st, path) && 0 < |path| < depth && tok.code < a.g.tokens
    requires ActionIs(a, path[|path|-1], tok.code, PShift(to))
    ensures Ends(a, c, depth, st, tok, Shifted, path + [to])
  {
    hide Ready, Feed, Action;
    FeedUnfolds(a, c, depth, st, tok);
    FeedKeeps(a, c, depth, st, tok);
  }

  lemma AcceptStep(a: Automaton, c: Certificate, depth: nat, st: Stack, path: seq<PState>, tok: Token)
    requires On(a, c, depth, st, path) && |path| == 2 && path[0] == Real(0) && tok.code < a.g.tokens
    requires ActionIs(a, path[1], tok.code, PAccept)
    ensures Ends(a, c, depth, st, tok, Accepted, [Real(0)])
  {
    hide Ready, Feed, Action;
    FeedUnfolds(a, c, depth, st, tok);
    FeedKeeps(a, c, depth, st, tok);
  }

  /** A reduction by a rule with `size` symbols on its right. */
  lemma ReduceStep(a: Automaton, c: Certificate, depth: nat, st: Stack, path: seq<PState>, tok: Token,
                   r: nat, size: nat, lhs: nat, to: PState)
      returns (next: Stack)
    requires On(a, c, depth, st, path) && size < |path| && (size == 0 ==> |path| < depth) && tok.code < a.g.tokens
    requires ActionIs(a, path[|path|-1], tok.code, PReduce(r))
    requires r < |a.g.rules| && |a.g.rules[r].rhs| == size && a.g.rules[r].lhs == lhs
    requires GotoIs(a, path[|path|-1-size], lhs, to)
    ensures On(a, c, depth, next, path[..|path|-size] + [to])
    ensures forall verdict, last :: Ends(a, c, depth, next, tok, verdict, last) ==> Ends(a, c, depth, st, tok, verdict, last)
  {
    hide Ready, Feed, Action, Goto;
    FeedUnfolds(a, c, depth, st, tok);
    next := ReduceStack(a, st, r);
  }

  // ---------------------------------------------------------------------------------------------
  // The actions on the way

  lemma OnBegin()
    ensures ActionIs(AUTOMATON, Real(0), 5, PShift(Real(4)))
  {
  }

  lemma OnTransaction()
    ensures ActionIs(AUTOMATON, Real(4), 6, PReduce(3)) && GotoIs(AUTOMATON, Real(4), 161, Real(5))
    ensures ActionIs(AUTOMATON, Real(5), 6, PShift(Real(6)))
  {
  }

  /** ABORT has no entry in state 6; its fallback, 59, has one. */
  lemma OnAbort()
    ensures FALLBACK[27] == 59 && 27 !in AUTOMATON.rows[6]
    ensures ActionIs(AUTOMATON, Real(6), 27, PShift(Complete(15)))
  {
  }

  lemma OnSemi()
    ensures ActionIs(AUTOMATON, Complete(15), 1, PReduce(15)) && GotoIs(AUTOMATON, Real(6), 163, Complete(14))
    ensures ActionIs(AUTOMATON, Complete(14), 1, PReduce(14)) && GotoIs(AUTOMATON, Real(5), 162, Complete(2))
    ensures ActionIs(AUTOMATON, Complete(2), 1, PReduce(2)) && GotoIs(AUTOMATON, Real(0), 160, Complete(1))
    ensures ActionIs(AUTOMATON, Complete(1), 1, PReduce(1)) && GotoIs(AUTOMATON, Real(0), 158, Real(2))
    ensures ActionIs(AUTOMATON, Real(2), 1, PShift(Complete(10)))
  {
  }

  lemma OnEnd()
    ensures ActionIs(AUTOMATON, Complete(10), 0, PReduce(10)) && GotoIs(AUTOMATON, Real(0), 157, Real(1))
    ensures ActionIs(AUTOMATON, Real(1), 0, PReduce(6)) && GotoIs(AUTOMATON, Real(0), 155, Final)
    ensures ActionIs(AUTOMATON, Final, 0, PAccept)
  {
  }

  // ---------------------------------------------------------------------------------------------
  // Token by token

  lemma FeedTransaction(depth: nat, st: Stack, tok: Token)
    requires depth >= 6 && tok.code == 6 && On(AUTOMATON, CERTIFICATE, depth, st, [Real(0), Real(4)])
    ensures Ends(AUTOMATON, CERTIFICATE, depth, st, tok, Shifted, [Real(0), Real(4), Real(5), Real(6)])
  {
    hide ActionIs, GotoIs, On, Ends;
    OnTransaction();
    var path := [Real(0), Real(4)];
    assert path[..2] + [Real(5)] == [Real(0), Real(4), Real(5)];
    var next := ReduceStep(AUTOMATON, CERTIFICATE, depth, st, path, tok, 3, 0, 161, Real(5));
    assert [Real(0), Real(4), Real(5)] + [Real(6)] == [Real(0), Real(4), Real(5), Real(6)];
    ShiftStep(AUTOMATON, CERTIFICATE, depth, next, [Real(0), Real(4), Real(5)], tok, Real(6));
  }

  lemma FeedSemi(depth: nat, st: Stack, tok: Token)
    requires depth >= 6 && tok.code == 1
    requires On(AUTOMATON, CERTIFICATE, depth, st, [Real(0), Real(4), Real(5), Real(6), Complete(15)])
    ensures Ends(AUTOMATON, CERTIFICATE, depth, st, tok, Shifted, [Real(0), Real(2), Complete(10)])
  {
    hide ActionIs, GotoIs, On, Ends;
    OnSemi();
    var path0 := [Real(0), Real(4), Real(5), Real(6), Complete(15)];
    var path1 := [Real(0), Real(4), Real(5), Real(6), Complete(14)];
    var path2 := [Real(0), Real(4), Real(5), Complete(2)];
    var path3 := [Real(0), Complete(1)];
    var path4 := [Real(0), Real(2)];
    assert path0[..4] + [Complete(14)] == path1 && path1[..3] + [Complete(2)] == path2;
    assert path2[..1] + [Complete(1)] == path3 && path3[..1] + [Real(2)] == path4;
    var s1 := ReduceStep(AUTOMATON, CERTIFICATE, depth, st, path0, tok, 15, 1, 163, Complete(14));
    var s2 := ReduceStep(AUTOMATON, CERTIFICATE, depth, s1, path1, tok, 14, 2, 162, Complete(2));
    var s3 := ReduceStep(AUTOMATON, CERTIFICATE, depth, s2, path2, tok, 2, 3, 160, Complete(1));
    var s4 := ReduceStep(AUTOMATON, CERTIFICATE, depth, s3, path3, tok, 1, 1, 158, Real(2));
    assert path4 + [Complete(10)] == [Real(0), Real(2), Complete(10)];
    ShiftStep(AUTOMATON, CERTIFICATE, depth, s4, path4, tok, Complete(10));
  }

  lemma FeedEnd(depth: nat, st: Stack, tok: Token)
    requires depth >= 6 && tok.code == 0 && On(AUTOMATON, CERTIFICATE, depth, st, [Real(0), Real(2), Complete(10)])
    ensures Ends(AUTOMATON, CERTIFICATE, depth, st, tok, Accepted, [Real(0)])
  {
    hide ActionIs, GotoIs, On, Ends;
    OnEnd();
    var path0, path1, path2 := [Real(0), Real(2), Complete(10)], [Real(0), Real(1)], [Real(0), Final];
    assert path0[..1] + [Real(1)] == path1 && path1[..1] + [Final] == path2;
    var s1 := ReduceStep(AUTOMATON, CERTIFICATE, depth, st, path0, tok, 10, 2, 157, Real(1));
    var s2 := ReduceStep(AUTOMATON, CERTIFICATE, depth, s1, path1, tok, 6, 1, 155, Final);
    AcceptStep(AUTOMATON, CERTIFICATE, depth, s2, path2, tok);
  }

  /** One token of a run. */
  lemma RunStep(a: Automaton, c: Certificate, depth: nat, toks: seq<Token>, tok: Token,
                verdict: Verdict, path: seq<PState>)
    requires Valid(a, c) && depth > 0 && tok.code < a.g.tokens
    requires forall i :: 0 <= i < |toks| ==> toks[i].code < a.g.tokens
    requires Ends(a, c, depth, RunStack(a, c, depth, toks), tok, verdict, path)
    ensures On(a, c, depth, RunStack(a, c, depth, toks + [tok]), path)
  {
    hide Valid, Feed, On;
    assert (toks + [tok])[..|toks|] == toks;
  }

  const BEGIN := Token(5, "BEGIN")
  const TRANSACTION := Token(6, "TRANSACTION")
  const ABORT := Token(27, "abort")
  const SEMI := Token(1, ";")
  const END_OF_INPUT := Token(0, "")

  /** The stack after `BEGIN TRANSACTION abort`. */
  lemma UpToAbort(depth: nat)
    requires depth >= 6 && Valid(AUTOMATON, CERTIFICATE)
    ensures On(AUTOMATON, CERTIFICATE, depth, RunStack(AUTOMATON, CERTIFICATE, depth, [BEGIN, TRANSACTION, ABORT]),
               [Real(0), Real(4), Real(5), Real(6), Complete(15)])
  {
    hide ActionIs, GotoIs, Valid, Feed, RunStack, Ready, On, Ends;
    var t0: seq<Token> := [];
    var t1, t2, t3 := [BEGIN], [BEGIN, TRANSACTION], [BEGIN, TRANSACTION, ABORT];
    assert t0 + [BEGIN] == t1 && t1 + [TRANSACTION] == t2 && t2 + [ABORT] == t3;
    StartsEmpty(depth);
    OnBegin();
    assert [Real(0)] + [Real(4)] == [Real(0), Real(4)];
    ShiftStep(AUTOMATON, CERTIFICATE, depth, RunStack(AUTOMATON, CERTIFICATE, depth, t0), [Real(0)], BEGIN, Real(4));
    RunStep(AUTOMATON, CERTIFICATE, depth, t0, BEGIN, Shifted, [Real(0), Real(4)]);
    FeedTransaction(depth, RunStack(AUTOMATON, CERTIFICATE, depth, t1), TRANSACTION);
    var path2 := [Real(0), Real(4), Real(5), Real(6)];
    RunStep(AUTOMATON, CERTIFICATE, depth, t1, TRANSACTION, Shifted, path2);
    OnAbort();
    assert path2 + [Complete(15)] == [Real(0), Real(4), Real(5), Real(6), Complete(15)];
    ShiftStep(AUTOMATON, CERTIFICATE, depth, RunStack(AUTOMATON, CERTIFICATE, depth, t2), path2, ABORT, Complete(15));
    RunStep(AUTOMATON, CERTIFICATE, depth, t2, ABORT, Shifted, path2 + [Complete(15)]);
  }

  /** `BEGIN TRANSACTION abort ;` is accepted, with ABORT read as the identifier that it falls back to. */
  lemma {:induction false} FallbackIsRead(depth: nat)
    requires depth >= 6
    ensures Valid(AUTOMATON, CERTIFICATE)
    ensures var st := RunStack(AUTOMATON, CERTIFICATE, depth, [BEGIN, TRANSACTION, ABORT, SEMI]);
      && Ready(AUTOMATON, CERTIFICATE, depth, st)
      && Feed(AUTOMATON, CERTIFICATE, depth, st, END_OF_INPUT).verdict == Accepted
  {
    hide ActionIs, GotoIs, Valid, Feed, RunStack, Ready, On;
    FragmentIsValid();
    UpToAbort(depth);
    var t3, t4 := [BEGIN, TRANSACTION, ABORT], [BEGIN, TRANSACTION, ABORT, SEMI];
    assert t3 + [SEMI] == t4;
    FeedSemi(depth, RunStack(AUTOMATON, CERTIFICATE, depth, t3), SEMI);
    RunStep(AUTOMATON, CERTIFICATE, depth, t3, SEMI, Shifted, [Real(0), Real(2), Complete(10)]);
    FeedEnd(depth, RunStack(AUTOMATON, CERTIFICATE, depth, t4), END_OF_INPUT);
  }

  lemma FragmentIsValid()
    ensures Valid(AUTOMATON, CERTIFICATE) && GRAMMAR.tokens == 155
  {
    hide Valid;
    FragmentIsGood();
  }

  lemma StartsEmpty(depth: nat)
    requires Valid(AUTOMATON, CERTIFICATE) && depth > 0
    ensures On(AUTOMATON, CERTIFICATE, depth, RunStack(AUTOMATON, CERTIFICATE, depth, []), [Real(0)])
  {
    hide Valid, Feed, Ready;
  }
}
