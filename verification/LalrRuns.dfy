/**
  Whole runs of the plain machine of LalrMachine.dfy under a bounded stack: one call per token, as
  parse.c is driven.  Every call ends; every reachable stack is viable; whatever is accepted is
  derivable.
 */
module LalrRuns {
  import opened Wrappers
  import opened LemonGrammar
  import opened LalrMachine

  // ---------------------------------------------------------------------------------------------
  // A bound on the trees over a given number of tokens
  //
  // It needs that no nonterminal derives itself, which the rank in the certificate shows.

  /** The number of rule nodes in a tree. */
  function Size(t: Tree): nat
    decreases t, 1
  {
    match t
    case Leaf(_) => 0
    case Node(_, children) => 1 + ForestSize(children)
  }

  function ForestSize(ts: seq<Tree>): nat
    decreases ts, 0
  {
    if ts == [] then 0 else Size(ts[0]) + ForestSize(ts[1..])
  }

  lemma {:induction false} ForestSizeAppend(ts: seq<Tree>, us: seq<Tree>)
    ensures ForestSize(ts + us) == ForestSize(ts) + ForestSize(us)
  {
    if ts == [] {
      assert ts + us == us;
    } else {
      ForestSizeAppend(ts[1..], us);
      assert (ts + us)[1..] == ts[1..] + us;
    }
  }

  /** A bound on the size of a tree over n tokens whose root has rank at most k. */
  ghost function Bound(c: Certificate, n: nat, k: nat): nat
    decreases n, k
  {
    1 + c.maxRhs * Below(c, n, k)
  }

  ghost function Below(c: Certificate, n: nat, k: nat): nat
    decreases n, k, 0
  {
    (if k > 0 then Bound(c, n, k - 1) else 0) + (if n > 0 then Bound(c, n - 1, c.maxRank) else 0)
  }

  lemma TimesAtLeast(m: nat, x: nat, y: nat)
    requires m > 0 && x <= y
    ensures x <= m * y
  {
    assert m * y == y + (m - 1) * y;
  }

  lemma {:induction false} BoundGrowsWithRank(c: Certificate, n: nat, k: nat, k': nat)
    requires k <= k' && 0 < c.maxRhs
    ensures Bound(c, n, k) <= Bound(c, n, k')
    decreases k'
  {
    if k < k' {
      BoundGrowsWithRank(c, n, k, k' - 1);
      TimesAtLeast(c.maxRhs, Bound(c, n, k' - 1), Below(c, n, k'));
    }
  }

  lemma {:induction false} BoundGrowsWithTokens(c: Certificate, n: nat, k: nat, n': nat)
    requires n < n' && k <= c.maxRank && 0 < c.maxRhs
    ensures Bound(c, n, k) <= Bound(c, n' - 1, c.maxRank)
    decreases n'
  {
    if n == n' - 1 {
      BoundGrowsWithRank(c, n, k, c.maxRank);
    } else {
      BoundGrowsWithTokens(c, n, k, n' - 1);
      TimesAtLeast(c.maxRhs, Bound(c, n' - 2, c.maxRank), Below(c, n' - 1, c.maxRank));
    }
  }

  lemma {:induction false} YieldAround(ts: seq<Tree>, i: nat)
    requires i < |ts|
    ensures Yield(ts) == Yield(ts[..i]) + Frontier(ts[i]) + Yield(ts[i+1..])
  {
    assert ts == ts[..i] + [ts[i]] + ts[i+1..];
    YieldAppend(ts[..i] + [ts[i]], ts[i+1..]);
    YieldAppend(ts[..i], [ts[i]]);
    YieldSingle(ts[i]);
  }

  lemma EmptyYield(ts: seq<Tree>, i: nat)
    requires i < |ts| && Yield(ts) == []
    ensures Frontier(ts[i]) == []
  {
    YieldAround(ts, i);
  }

  lemma {:induction false} CoversKeeps(a: Automaton, c: Certificate, want: nat, have: nat)
    requires Valid(a, c) && Covers(a.g, c.rank, want, have)
    ensures Rank(c.rank, have) <= Rank(c.rank, want)
    ensures have in c.nullable ==> want in c.nullable
    ensures have >= a.g.tokens ==> want >= a.g.tokens
    decreases Rank(c.rank, want)
  {
    if want != have {
      var r, b :| 0 <= r < |a.g.rules| && a.g.rules[r].lhs == want && IsUnit(a.g, r, b)
        && b in a.g.rules[r].rhs[0]
        && Rank(c.rank, b) < Rank(c.rank, want) && Covers(a.g, c.rank, b, have);
      CoversKeeps(a, c, b, have);
      assert ValidRule(a, c, r);
      if have in c.nullable {
        assert PositionNullable(c, a.g.rules[r].rhs[0]);
      }
    }
  }

  /** Only nullable nonterminals have a tree without tokens. */
  lemma {:induction false} EmptyIsNullable(a: Automaton, c: Certificate, t: Tree)
    requires Valid(a, c) && DriverTree(a.g, c.rank, t) && Frontier(t) == []
    ensures t.Node? && a.g.rules[t.rule].lhs in c.nullable
    decreases t, 0
  {
    var Node(r, children) := t;
    forall i | 0 <= i < |children| ensures PositionNullable(c, a.g.rules[r].rhs[i]) {
      EmptyYield(children, i);
      EmptyFills(a, c, children[i], a.g.rules[r].rhs[i]);
    }
    assert ValidRule(a, c, r);
  }

  lemma {:induction false} EmptyFills(a: Automaton, c: Certificate, t: Tree, position: set<nat>)
    requires Valid(a, c) && DriverTree(a.g, c.rank, t) && Frontier(t) == []
    requires FillsUpToUnits(a.g, c.rank, t, position)
    ensures PositionNullable(c, position)
    decreases t, 1
  {
    EmptyIsNullable(a, c, t);
    var want :| want in position && Covers(a.g, c.rank, want, a.g.rules[t.rule].lhs);
    CoversKeeps(a, c, want, a.g.rules[t.rule].lhs);
  }

  /** A child that holds all the tokens of its parent has a smaller rank. */
  lemma WholeChildRank(a: Automaton, c: Certificate, t: Tree, i: nat)
    requires Valid(a, c) && DriverTree(a.g, c.rank, t) && t.Node?
    requires i < |t.children| && t.children[i].Node?
    requires |Frontier(t.children[i])| == |Frontier(t)|
    ensures Rank(c.rank, a.g.rules[t.children[i].rule].lhs) < Rank(c.rank, a.g.rules[t.rule].lhs)
  {
    var Node(r, children) := t;
    var rhs := a.g.rules[r].rhs;
    YieldAround(children, i);
    forall j | 0 <= j < |rhs| && j != i ensures PositionNullable(c, rhs[j]) {
      if j < i { EmptyYield(children[..i], j); } else { EmptyYield(children[i+1..], j - i - 1); }
      EmptyFills(a, c, children[j], rhs[j]);
    }
    assert OthersNullable(c, rhs, i);
    assert FillsUpToUnits(a.g, c.rank, children[i], rhs[i]);
    var want :| want in rhs[i] && Covers(a.g, c.rank, want, a.g.rules[children[i].rule].lhs);
    CoversKeeps(a, c, want, a.g.rules[children[i].rule].lhs);
    assert ValidRule(a, c, r);
  }

  lemma BoundStep(c: Certificate, m: nat, j: nat, n: nat, k: nat)
    requires 0 < c.maxRhs && j <= c.maxRank
    requires m < n || (m == n && j < k)
    ensures Bound(c, m, j) <= Below(c, n, k)
  {
    if m < n {
      BoundGrowsWithTokens(c, m, j, n);
    } else {
      BoundGrowsWithRank(c, n, j, k - 1);
    }
  }

  lemma RankIsBounded(a: Automaton, c: Certificate, r: nat)
    requires Valid(a, c) && IsRule(a, r)
    ensures Rank(c.rank, a.g.rules[r].lhs) <= c.maxRank && |a.g.rules[r].rhs| <= c.maxRhs
  {
    assert ValidRule(a, c, r);
  }

  lemma Times(m: nat, m': nat, b: nat)
    requires m <= m'
    ensures m * b <= m' * b
  {
  }

  lemma {:induction false} TreeIsBounded(a: Automaton, c: Certificate, t: Tree)
    requires Valid(a, c) && DriverTree(a.g, c.rank, t) && t.Node?
    ensures Size(t) <= Bound(c, |Frontier(t)|, Rank(c.rank, a.g.rules[t.rule].lhs))
    decreases t
  {
    var Node(r, children) := t;
    var b := Below(c, |Frontier(t)|, Rank(c.rank, a.g.rules[r].lhs));
    forall i | 0 <= i < |children| ensures Size(children[i]) <= b {
      if children[i].Node? {
        TreeIsBounded(a, c, children[i]);
        ChildIsBounded(a, c, t, i);
      }
    }
    ForestIsBounded(children, b);
    RankIsBounded(a, c, r);
    Times(|children|, c.maxRhs, b);
  }

  lemma ChildIsBounded(a: Automaton, c: Certificate, t: Tree, i: nat)
    requires Valid(a, c) && DriverTree(a.g, c.rank, t) && t.Node?
    requires i < |t.children| && t.children[i].Node?
    ensures t.children[i].rule < |a.g.rules|
    ensures Bound(c, |Frontier(t.children[i])|, Rank(c.rank, a.g.rules[t.children[i].rule].lhs))
         <= Below(c, |Frontier(t)|, Rank(c.rank, a.g.rules[t.rule].lhs))
  {
    var child := t.children[i];
    YieldAround(t.children, i);
    if |Frontier(child)| == |Frontier(t)| {
      WholeChildRank(a, c, t, i);
    }
    RankIsBounded(a, c, child.rule);
    BoundStep(c, |Frontier(child)|, Rank(c.rank, a.g.rules[child.rule].lhs),
              |Frontier(t)|, Rank(c.rank, a.g.rules[t.rule].lhs));
  }

  lemma {:induction false} ForestIsBounded(ts: seq<Tree>, b: nat)
    requires forall i :: 0 <= i < |ts| ==> Size(ts[i]) <= b
    ensures ForestSize(ts) <= |ts| * b
  {
    if ts != [] {
      ForestIsBounded(ts[1..], b);
      assert |ts| * b == b + |ts[1..]| * b;
    }
  }

  /** How many rule nodes a viable stack can hold at most. */
  ghost function Capacity(c: Certificate, depth: nat, n: nat): nat {
    depth * Bound(c, n, c.maxRank)
  }

  lemma EntryIsBounded(a: Automaton, c: Certificate, st: Stack, i: nat)
    requires Valid(a, c) && Viable(a, c, st) && i + 1 < |st|
    ensures Size(st[i+1].tree) <= Bound(c, |StackYield(st)|, c.maxRank)
  {
    var t := st[i+1].tree;
    assert Linked(a, c, st, i + 1);
    YieldAround(Trees(st[1..]), i);
    if t.Node? {
      TreeIsBounded(a, c, t);
      RankIsBounded(a, c, t.rule);
      BoundGrowsWithTokens(c, |Frontier(t)|, Rank(c.rank, a.g.rules[t.rule].lhs), |StackYield(st)| + 1);
    }
  }

  lemma StackIsBounded(a: Automaton, c: Certificate, st: Stack, depth: nat)
    requires Valid(a, c) && Viable(a, c, st) && |st| <= depth
    ensures ForestSize(Trees(st[1..])) <= Capacity(c, depth, |StackYield(st)|)
  {
    var ts, b := Trees(st[1..]), Bound(c, |StackYield(st)|, c.maxRank);
    forall i | 0 <= i < |ts| ensures Size(ts[i]) <= b {
      EntryIsBounded(a, c, st, i);
    }
    ForestIsBounded(ts, b);
    Times(|ts|, depth, b);
  }

  /** How many more reductions the stack has room for. */
  ghost function Slack(a: Automaton, c: Certificate, depth: nat, st: Stack): nat
    requires Valid(a, c) && Viable(a, c, st) && |st| <= depth
  {
    StackIsBounded(a, c, st, depth);
    Capacity(c, depth, |StackYield(st)|) - ForestSize(Trees(st[1..]))
  }

  // ---------------------------------------------------------------------------------------------
  // One call

  datatype Verdict = Shifted | Accepted | Rejected | Overflowed

  datatype Outcome = Outcome(stack: Stack, verdict: Verdict, reductions: seq<nat>)

  /** The stack and the bound under which the machine may be called. */
  ghost predicate Ready(a: Automaton, c: Certificate, depth: nat, st: Stack) {
    Valid(a, c) && Viable(a, c, st) && |st| <= depth
  }

  /** The stack has room for the result of reducing by r; only an empty right-hand side needs any. */
  predicate Fits(a: Automaton, depth: nat, st: Stack, r: nat)
    requires IsRule(a, r)
  {
    a.g.rules[r].rhs == [] ==> |st| < depth
  }

  /** A reduction adds one node to the forest of the stack. */
  lemma ReduceGrows(a: Automaton, st: Stack, r: nat)
    requires Reducible(a, st, r)
    ensures ForestSize(Trees(ReduceStack(a, st, r)[1..])) == ForestSize(Trees(st[1..])) + 1
  {
    hide Goto, ForestSize;
    var keep := |st| - |a.g.rules[r].rhs|;
    var next := ReduceStack(a, st, r);
    var below, kids := Trees(st[1..keep]), Trees(st[keep..]);
    assert Trees(st[1..]) == below + kids;
    assert Trees(next[1..]) == below + [Node(r, kids)];
    ForestSizeAppend(below, kids);
    ForestSizeAppend(below, [Node(r, kids)]);
    OneTree(r, kids);
  }

  lemma OneTree(r: nat, kids: seq<Tree>)
    ensures ForestSize([Node(r, kids)]) == 1 + ForestSize(kids)
  {
    assert ForestSize([Node(r, kids)]) == Size(Node(r, kids)) + ForestSize([]);
  }

  lemma ReduceFits(a: Automaton, c: Certificate, depth: nat, st: Stack, tok: nat, r: nat)
    requires Ready(a, c, depth, st)
    requires var top := st[|st|-1].state; top.Real? ==> top.n < |a.rows|
    requires Action(a, st[|st|-1].state, tok) == PReduce(r)
    ensures Reducible(a, st, r)
    ensures Fits(a, depth, st, r) ==>
      && Ready(a, c, depth, ReduceStack(a, st, r))
      && Slack(a, c, depth, ReduceStack(a, st, r)) < Slack(a, c, depth, st)
  {
    hide Valid, Viable, Action, ForestSize, Trees, Yield, Capacity;
    ReduceIsSafe(a, c, st, tok, r);
    ReduceGrows(a, st, r);
    StackIsBounded(a, c, st, depth);
    if Fits(a, depth, st, r) {
      StackIsBounded(a, c, ReduceStack(a, st, r), depth);
    }
  }

  /** One call with one token: reductions, then a shift, an acceptance, a rejection, or an overflow. */
  ghost function Feed(a: Automaton, c: Certificate, depth: nat, st: Stack, tok: Token): Outcome
    requires Ready(a, c, depth, st)
    decreases Slack(a, c, depth, st)
  {
    TopState(a, c, st);
    match Action(a, st[|st|-1].state, tok.code)
    case PShift(to) =>
      if |st| < depth then Outcome(st + [Frame(to, tok.code, Leaf(tok))], Shifted, [])
      else Outcome(st[..1], Overflowed, [])
    case PReduce(r) =>
      ReduceFits(a, c, depth, st, tok.code, r);
      if Fits(a, depth, st, r) then
        var rest := Feed(a, c, depth, ReduceStack(a, st, r), tok);
        rest.(reductions := [r] + rest.reductions)
      else Outcome(st[..1], Overflowed, [])
    case PAccept => Outcome(st[..|st|-1], Accepted, [])
    case PError => Outcome(st, Rejected, [])
  }

  /** One round of a call. */
  lemma FeedUnfolds(a: Automaton, c: Certificate, depth: nat, st: Stack, tok: Token)
    requires Ready(a, c, depth, st)
    ensures st[|st|-1].state.Real? ==> st[|st|-1].state.n < |a.rows|
    ensures var act, o := Action(a, st[|st|-1].state, tok.code), Feed(a, c, depth, st, tok);
      && (act.PShift? && |st| < depth ==> o == Outcome(st + [Frame(act.to, tok.code, Leaf(tok))], Shifted, []))
      && (act.PShift? && |st| >= depth ==> o == Outcome([SENTINEL], Overflowed, []))
      && (act.PAccept? ==> o == Outcome(st[..|st|-1], Accepted, []))
      && (act.PError? ==> o == Outcome(st, Rejected, []))
    ensures var act, o := Action(a, st[|st|-1].state, tok.code), Feed(a, c, depth, st, tok);
      act.PReduce? ==>
        && Reducible(a, st, act.rule)
        && (!Fits(a, depth, st, act.rule) ==> o == Outcome([SENTINEL], Overflowed, []))
        && (Fits(a, depth, st, act.rule) ==>
              var next := ReduceStack(a, st, act.rule);
              && Ready(a, c, depth, next)
              && Slack(a, c, depth, next) < Slack(a, c, depth, st)
              && var rest := Feed(a, c, depth, next, tok);
              && o == Outcome(rest.stack, rest.verdict, [act.rule] + rest.reductions))
  {
    TopState(a, c, st);
    assert st[..1] == [SENTINEL];
    if Action(a, st[|st|-1].state, tok.code).PReduce? {
      ReduceFits(a, c, depth, st, tok.code, Action(a, st[|st|-1].state, tok.code).rule);
    }
  }

  /** What every call keeps and what each verdict means for the tokens below the stack. */
  lemma {:induction false} FeedKeeps(a: Automaton, c: Certificate, depth: nat, st: Stack, tok: Token)
    requires Ready(a, c, depth, st) && tok.code < a.g.tokens
    ensures var o := Feed(a, c, depth, st, tok);
      && Ready(a, c, depth, o.stack)
      && match o.verdict
         case Shifted => StackYield(o.stack) == StackYield(st) + [tok]
         case Accepted => o.stack == [SENTINEL] && Derives(a.g, a.g.start, StackYield(st))
         case Rejected => StackYield(o.stack) == StackYield(st)
         case Overflowed => o.stack == [SENTINEL] && |st| > 0
    decreases Slack(a, c, depth, st)
  {
    TopState(a, c, st);
    match Action(a, st[|st|-1].state, tok.code)
    case PShift(to) =>
      ShiftIsSafe(a, c, st, tok, to);
    case PReduce(r) =>
      ReduceFits(a, c, depth, st, tok.code, r);
      ReduceIsSafe(a, c, st, tok.code, r);
      if Fits(a, depth, st, r) {
        FeedKeeps(a, c, depth, ReduceStack(a, st, r), tok);
      }
    case PAccept =>
      AcceptOnlyFinal(a, c, st, tok.code);
      assert Linked(a, c, st, 1);
      assert Trees(st[1..]) == [st[1].tree];
      YieldSingle(st[1].tree);
      DriverTreeDerives(a.g, c.rank, st[1].tree, a.g.start);
    case PError =>
  }

  lemma TableNeverAccepts(a: Automaton, c: Certificate, n: nat, tok: nat)
    requires Valid(a, c) && n < |a.rows|
    ensures Action(a, Real(n), tok) != PAccept
  {
    assert ValidState(a, c, n);
  }

  lemma AcceptOnlyFinal(a: Automaton, c: Certificate, st: Stack, tok: nat)
    requires Valid(a, c) && Viable(a, c, st)
    requires var top := st[|st|-1].state; top.Real? ==> top.n < |a.rows|
    requires Action(a, st[|st|-1].state, tok) == PAccept
    ensures st[|st|-1].state == Final
    ensures |st| == 2 && st[1].sym == a.g.start && st[1].tree.Node?
  {
    TopState(a, c, st);
    if n: nat :| st[|st|-1].state == Real(n) {
      TableNeverAccepts(a, c, n, tok);
    }
  }

  // ---------------------------------------------------------------------------------------------
  // Runs

  /** The stack after a fresh machine has been fed the tokens one by one. */
  ghost function RunStack(a: Automaton, c: Certificate, depth: nat, toks: seq<Token>): (st: Stack)
    requires Valid(a, c) && depth > 0
    requires forall i :: 0 <= i < |toks| ==> toks[i].code < a.g.tokens
    ensures Ready(a, c, depth, st)
  {
    if toks == [] then [SENTINEL]
    else
      var st := RunStack(a, c, depth, toks[..|toks|-1]);
      FeedKeeps(a, c, depth, st, toks[|toks|-1]);
      Feed(a, c, depth, st, toks[|toks|-1]).stack
  }

  /** The tokens taken since the last acceptance or overflow; a rejected token is dropped. */
  ghost function Consumed(a: Automaton, c: Certificate, depth: nat, toks: seq<Token>): seq<Token>
    requires Valid(a, c) && depth > 0
    requires forall i :: 0 <= i < |toks| ==> toks[i].code < a.g.tokens
  {
    if toks == [] then []
    else
      var before, tok := toks[..|toks|-1], toks[|toks|-1];
      match Feed(a, c, depth, RunStack(a, c, depth, before), tok).verdict
      case Shifted => Consumed(a, c, depth, before) + [tok]
      case Rejected => Consumed(a, c, depth, before)
      case Accepted => []
      case Overflowed => []
  }

  /** In every reachable state the yields of the stack entries concatenate to the tokens consumed so far. */
  lemma {:induction false} YieldIsConsumed(a: Automaton, c: Certificate, depth: nat, toks: seq<Token>)
    requires Valid(a, c) && depth > 0
    requires forall i :: 0 <= i < |toks| ==> toks[i].code < a.g.tokens
    ensures StackYield(RunStack(a, c, depth, toks)) == Consumed(a, c, depth, toks)
  {
    if toks != [] {
      var before, tok := toks[..|toks|-1], toks[|toks|-1];
      YieldIsConsumed(a, c, depth, before);
      FeedKeeps(a, c, depth, RunStack(a, c, depth, before), tok);
    }
  }

  /** Parser soundness: whatever any run accepts is derivable from the start symbol. */
  lemma {:induction false} Soundness(a: Automaton, c: Certificate, depth: nat, toks: seq<Token>, tok: Token)
    requires Valid(a, c) && depth > 0 && tok.code < a.g.tokens
    requires forall i :: 0 <= i < |toks| ==> toks[i].code < a.g.tokens
    requires Feed(a, c, depth, RunStack(a, c, depth, toks), tok).verdict == Accepted
    ensures Derives(a.g, a.g.start, Consumed(a, c, depth, toks))
    ensures RunStack(a, c, depth, toks + [tok]) == [SENTINEL]
  {
    YieldIsConsumed(a, c, depth, toks);
    FeedKeeps(a, c, depth, RunStack(a, c, depth, toks), tok);
    assert (toks + [tok])[..|toks|] == toks;
  }
}
