/**
  The push-down automaton that the tables of parse.c encode, as a plain LR machine: a shift always
  goes to a state, and every reduction is an action of a state.  LemonDriver.dfy proves that the
  fused, numeric, in-place driver of parse.c computes the same thing.

  `Valid` is the condition on tables that parse.c leaves to the table generator and to its asserts.
  It is checkable: besides the tables it reads a certificate, namely the LR(0) items of each state,
  the nullable nonterminals, and a rank that shows the grammar has no cycle A =>+ A.
 */
module LalrMachine {
  import opened Wrappers
  import opened LemonGrammar

  // ---------------------------------------------------------------------------------------------
  // Tables, as two-dimensional rows

  /** The action codes of parse.c, decoded. */
  datatype Act = Shift(state: nat) | ShiftReduce(rule: nat) | Reduce(rule: nat) | Accept | Error

  datatype Automaton = Automaton(
    g: Grammar,
    rows: seq<map<nat, Act>>,    // for each state, its explicit actions on terminals
    gotos: seq<map<nat, Act>>,   // for each state, its actions on nonterminals
    defaults: seq<Act>)

  /** A rule with a dot before position `dot` of its right-hand side. */
  datatype Item = Item(rule: nat, dot: nat)

  datatype Certificate = Certificate(
    items: seq<set<Item>>,
    nullable: set<nat>,
    rank: map<nat, nat>,
    maxRank: nat,
    maxRhs: nat)

  /** The row entry that decides about `tok`: its own, else its fallback's, else the wildcard's. */
  function Column(a: Automaton, s: nat, tok: nat): (sym: Option<nat>)
    requires s < |a.rows|
    ensures sym.Some? ==> sym.value in a.rows[s] && ReadAs(a.g, tok, sym.value)
  {
    if tok in a.rows[s] then Some(tok)
    else if HasFallback(a.g, tok) && a.g.fallback[tok] in a.rows[s] then Some(a.g.fallback[tok])
    else if a.g.wildcard in a.rows[s] && (tok > 0 || HasFallback(a.g, tok)) then Some(a.g.wildcard)
    else None
  }

  /** The default decides only about tokens that cannot be read as any symbol that the row has an entry for. */
  lemma DefaultComesLast(a: Automaton, s: nat, tok: nat)
    requires s < |a.rows|
    ensures Column(a, s, tok).None? <==> forall sym :: sym in a.rows[s] ==> !ReadAs(a.g, tok, sym)
  {
  }

  /** The two-dimensional meaning of the packed action tables. */
  function Lookup(a: Automaton, s: nat, tok: nat): Act
    requires s < |a.rows| == |a.defaults|
  {
    match Column(a, s, tok)
    case Some(sym) => a.rows[s][sym]
    case None => a.defaults[s]
  }

  // ---------------------------------------------------------------------------------------------
  // Validity

  predicate IsRule(a: Automaton, r: nat) { r < |a.g.rules| }

  predicate Shaped(a: Automaton, c: Certificate) {
    && 0 < |a.rows| == |a.gotos| == |a.defaults| == |c.items|
    && a.g.wildcard < a.g.tokens
    && 0 < c.maxRhs
    && |a.g.fallback| <= a.g.tokens
    && FallbacksEnd(a.g.fallback)
    && (forall r :: 0 <= r < |a.g.rules| ==> a.g.rules[r].lhs >= a.g.tokens && |a.g.rules[r].rhs| <= c.maxRhs)
  }

  /** `Item(r, dot)` is an item of state s with `sym` right after the dot. */
  predicate Expects(a: Automaton, c: Certificate, s: nat, r: nat, dot: nat, sym: nat)
    requires s < |c.items|
  {
    && Item(r, dot) in c.items[s]
    && IsRule(a, r) && dot < |a.g.rules[r].rhs|
    && SymbolFits(a, c, sym, a.g.rules[r].rhs[dot])
  }

  predicate SymbolFits(a: Automaton, c: Certificate, sym: nat, position: set<nat>) {
    if sym < a.g.tokens then sym in position
    else exists want :: want in position && Covers(a.g, c.rank, want, sym)
  }

  /** After `sym`, every advanced item of the target comes from an item of the source. */
  predicate TargetFollows(a: Automaton, c: Certificate, s: nat, sym: nat, target: nat)
    requires s < |c.items|
  {
    && 0 < target < |c.items|
    && forall it :: it in c.items[target] ==> it.dot == 0 || Expects(a, c, s, it.rule, it.dot - 1, sym)
  }

  /** After `sym`, rule r is complete. */
  predicate RuleCompletes(a: Automaton, c: Certificate, s: nat, sym: nat, r: nat)
    requires s < |c.items|
  {
    && IsRule(a, r) && |a.g.rules[r].rhs| > 0
    && Expects(a, c, s, r, |a.g.rules[r].rhs| - 1, sym)
  }

  predicate ReducesIn(a: Automaton, c: Certificate, s: nat, r: nat)
    requires s < |c.items|
  {
    IsRule(a, r) && Item(r, |a.g.rules[r].rhs|) in c.items[s]
  }

  /** An explicit action on a terminal. */
  predicate ValidAction(a: Automaton, c: Certificate, s: nat, sym: nat, act: Act)
    requires s < |c.items|
  {
    match act
    case Shift(target) => TargetFollows(a, c, s, sym, target)
    case ShiftReduce(r) => RuleCompletes(a, c, s, sym, r)
    case Reduce(r) => ReducesIn(a, c, s, r)
    case Accept => false
    case Error => true
  }

  predicate ValidRow(a: Automaton, c: Certificate, s: nat)
    requires Shaped(a, c) && s < |a.rows|
  {
    forall sym :: sym in a.rows[s] ==> sym < a.g.tokens && ValidAction(a, c, s, sym, a.rows[s][sym])
  }

  predicate ValidDefault(a: Automaton, c: Certificate, s: nat)
    requires Shaped(a, c) && s < |a.rows|
  {
    match a.defaults[s]
    case Reduce(r) => ReducesIn(a, c, s, r)
    case Error => true
    case _ => false
  }

  /** Nonterminals lead to a state or to a pending reduction; only state 0 accepts. */
  predicate ValidGoto(a: Automaton, c: Certificate, s: nat, sym: nat, act: Act)
    requires s < |c.items|
  {
    match act
    case Shift(target) => TargetFollows(a, c, s, sym, target)
    case Reduce(r) => RuleCompletes(a, c, s, sym, r)
    case Accept => s == 0 && sym == a.g.start
    case ShiftReduce(_) => false
    case Error => false
  }

  predicate ValidGotos(a: Automaton, c: Certificate, s: nat)
    requires Shaped(a, c) && s < |a.rows|
  {
    forall sym :: sym in a.gotos[s] ==> sym >= a.g.tokens && ValidGoto(a, c, s, sym, a.gotos[s][sym])
  }

  /** Items are well formed, and wherever a rule can start its left-hand side has a goto. */
  predicate ValidItems(a: Automaton, c: Certificate, s: nat)
    requires Shaped(a, c) && s < |a.rows|
  {
    forall it :: it in c.items[s] ==>
      && IsRule(a, it.rule) && it.dot <= |a.g.rules[it.rule].rhs|
      && (s == 0 ==> it.dot == 0)
      && (it.dot == 0 ==> a.g.rules[it.rule].lhs in a.gotos[s])
  }

  predicate ValidState(a: Automaton, c: Certificate, s: nat)
    requires Shaped(a, c) && s < |a.rows|
  {
    ValidRow(a, c, s) && ValidDefault(a, c, s) && ValidGotos(a, c, s) && ValidItems(a, c, s)
  }

  predicate PositionNullable(c: Certificate, position: set<nat>) {
    exists sym :: sym in position && sym in c.nullable
  }

  /** Every position but number i can vanish. */
  predicate OthersNullable(c: Certificate, rhs: seq<set<nat>>, i: nat) {
    forall j :: 0 <= j < |rhs| && j != i ==> PositionNullable(c, rhs[j])
  }

  /** `nullable` is closed under the rule; the rank drops to any symbol that can stand for the whole rule. */
  predicate ValidRule(a: Automaton, c: Certificate, r: nat)
    requires IsRule(a, r)
  {
    var rule := a.g.rules[r];
    && ((forall i :: 0 <= i < |rule.rhs| ==> PositionNullable(c, rule.rhs[i])) ==> rule.lhs in c.nullable)
    && Rank(c.rank, rule.lhs) <= c.maxRank
    && (forall i, sym :: 0 <= i < |rule.rhs| && sym in rule.rhs[i] ==>
          sym >= a.g.tokens && OthersNullable(c, rule.rhs, i) ==> Rank(c.rank, sym) < Rank(c.rank, rule.lhs))
  }

  predicate Valid(a: Automaton, c: Certificate) {
    && Shaped(a, c)
    && (forall s :: 0 <= s < |a.rows| ==> ValidState(a, c, s))
    && (forall r :: 0 <= r < |a.g.rules| ==> ValidRule(a, c, r))
    && (forall sym :: sym in c.nullable ==> sym >= a.g.tokens)
  }

  // ---------------------------------------------------------------------------------------------
  // The plain machine

  /** A state of the table, or the state in which exactly one rule is complete, or the final state. */
  datatype PState = Real(n: nat) | Complete(rule: nat) | Final

  datatype PAct = PShift(to: PState) | PReduce(rule: nat) | PAccept | PError

  function Action(a: Automaton, s: PState, tok: nat): PAct
    requires |a.rows| == |a.defaults|
    requires s.Real? ==> s.n < |a.rows|
  {
    match s
    case Complete(r) => PReduce(r)
    case Final => PAccept
    case Real(n) =>
      match Lookup(a, n, tok)
      case Shift(m) => PShift(Real(m))
      case ShiftReduce(r) => PShift(Complete(r))
      case Reduce(r) => PReduce(r)
      case Accept => PAccept
      case Error => PError
  }

  function Goto(a: Automaton, n: nat, sym: nat): Option<PState>
    requires n < |a.gotos|
  {
    if sym !in a.gotos[n] then None
    else match a.gotos[n][sym]
      case Shift(m) => Some(Real(m))
      case Reduce(r) => Some(Complete(r))
      case Accept => Some(Final)
      case ShiftReduce(_) => None
      case Error => None
  }

  datatype Frame = Frame(state: PState, sym: nat, tree: Tree)

  const SENTINEL := Frame(Real(0), 0, Leaf(Token(0, "")))

  type Stack = seq<Frame>

  function Trees(st: Stack): (ts: seq<Tree>)
    ensures |ts| == |st|
    ensures forall i :: 0 <= i < |st| ==> ts[i] == st[i].tree
  {
    seq(|st|, i requires 0 <= i < |st| => st[i].tree)
  }

  /** The tokens below the stack, the sentinel excluded. */
  function StackYield(st: Stack): seq<Token>
    requires |st| > 0
  {
    Yield(Trees(st[1..]))
  }

  // ---------------------------------------------------------------------------------------------
  // The viable-prefix invariant

  /** The state of `to` is where the automaton goes from state `from` on the symbol of `to`. */
  predicate Edge(a: Automaton, from: PState, to: Frame)
    requires |a.rows| == |a.defaults| == |a.gotos|
  {
    && from.Real? && from.n < |a.rows|
    && if to.sym < a.g.tokens then
         Column(a, from.n, to.sym).Some? && Action(a, from, to.sym) == PShift(to.state)
       else
         Goto(a, from.n, to.sym) == Some(to.state)
  }

  predicate GoodTree(a: Automaton, c: Certificate, f: Frame) {
    && DriverTree(a.g, c.rank, f.tree)
    && match f.tree
       case Leaf(token) => f.sym == token.code < a.g.tokens
       case Node(r, _) => IsRule(a, r) && f.sym == a.g.rules[r].lhs
  }

  /** The entry at k is where the entry below leads, and carries a tree of its symbol. */
  predicate Linked(a: Automaton, c: Certificate, st: Stack, k: nat)
    requires |a.rows| == |a.defaults| == |a.gotos| && 0 < k < |st|
  {
    Edge(a, st[k-1].state, st[k]) && GoodTree(a, c, st[k])
  }

  /** The stack is a path of the automaton from the sentinel; only its top may hold a pending reduction. */
  predicate Viable(a: Automaton, c: Certificate, st: Stack)
    requires |a.rows| == |a.defaults| == |a.gotos|
  {
    && |st| > 0 && st[0] == SENTINEL
    && forall k :: 0 < k < |st| ==> Linked(a, c, st, k)
  }

  lemma ViablePrefix(a: Automaton, c: Certificate, st: Stack, n: nat)
    requires |a.rows| == |a.defaults| == |a.gotos| && Viable(a, c, st) && 0 < n <= |st|
    ensures Viable(a, c, st[..n])
  {
    forall k | 0 < k < n ensures Linked(a, c, st[..n], k) {
      assert Linked(a, c, st, k);
    }
  }

  lemma ViablePush(a: Automaton, c: Certificate, st: Stack, f: Frame)
    requires |a.rows| == |a.defaults| == |a.gotos| && Viable(a, c, st)
    requires Edge(a, st[|st|-1].state, f) && GoodTree(a, c, f)
    ensures Viable(a, c, st + [f])
  {
    forall k | 0 < k < |st| + 1 ensures Linked(a, c, st + [f], k) {
      if k < |st| { assert Linked(a, c, st, k); }
    }
  }

  /** The items a state stands for. */
  predicate HasItem(a: Automaton, c: Certificate, s: PState, r: nat, d: nat) {
    match s
    case Real(n) => n < |c.items| && Item(r, d) in c.items[n]
    case Complete(r') => r == r' && IsRule(a, r) && d == |a.g.rules[r].rhs|
    case Final => false
  }

  lemma EdgeTarget(a: Automaton, c: Certificate, from: PState, to: Frame)
    requires Valid(a, c) && Edge(a, from, to)
    ensures from.n < |c.items|
    ensures to.state.Real? ==> 0 < to.state.n < |a.rows|
    ensures to.state.Complete? ==> IsRule(a, to.state.rule)
    ensures to.state.Final? ==> from == Real(0) && to.sym == a.g.start
    ensures forall r: nat, d: nat :: d > 0 && HasItem(a, c, to.state, r, d) ==>
              Item(r, d - 1) in c.items[from.n] && IsRule(a, r) && d - 1 < |a.g.rules[r].rhs|
    ensures forall r: nat, d: nat :: HasItem(a, c, to.state, r, d) ==> IsRule(a, r)
  {
    assert ValidState(a, c, from.n);
    if to.state.Real? {
      assert ValidState(a, c, to.state.n);
    }
  }

  /** The tree on an edge fills the position that any item of the target has just passed. */
  lemma EdgeSymbol(a: Automaton, c: Certificate, from: PState, to: Frame, r: nat, d: nat)
    requires Valid(a, c) && Edge(a, from, to) && GoodTree(a, c, to)
    requires d > 0 && HasItem(a, c, to.state, r, d)
    ensures IsRule(a, r) && d - 1 < |a.g.rules[r].rhs|
    ensures FillsUpToUnits(a.g, c.rank, to.tree, a.g.rules[r].rhs[d-1])
  {
    assert ValidState(a, c, from.n);
    EdgeTarget(a, c, from, to);
    if to.sym < a.g.tokens {
      var sym := Column(a, from.n, to.sym).value;
      assert Expects(a, c, from.n, r, d - 1, sym);
    } else {
      assert Expects(a, c, from.n, r, d - 1, to.sym);
    }
  }

  /** Walking down a viable stack walks the dot of an item back to the start of its rule. */
  lemma {:induction false} ItemPath(a: Automaton, c: Certificate, st: Stack, k: nat, r: nat, d: nat)
    requires Valid(a, c) && Viable(a, c, st) && k < |st|
    requires HasItem(a, c, st[k].state, r, d)
    ensures d <= k && IsRule(a, r) && d <= |a.g.rules[r].rhs|
    ensures d == 0 || st[k-d].state.Real?
    ensures HasItem(a, c, st[k-d].state, r, 0)
    ensures forall j :: 0 <= j < d ==> FillsUpToUnits(a.g, c.rank, st[k-d+1+j].tree, a.g.rules[r].rhs[j])
    decreases d
  {
    if k == 0 {
      assert ValidState(a, c, 0);
    } else {
      assert Linked(a, c, st, k);
      EdgeTarget(a, c, st[k-1].state, st[k]);
      if d > 0 {
        ItemPath(a, c, st, k - 1, r, d - 1);
        EdgeSymbol(a, c, st[k-1].state, st[k], r, d);
      }
    }
  }

  /** The state on top of a viable stack. */
  lemma TopState(a: Automaton, c: Certificate, st: Stack)
    requires Valid(a, c) && Viable(a, c, st)
    ensures st[|st|-1].state.Real? ==> st[|st|-1].state.n < |a.rows|
    ensures st[|st|-1].state.Complete? ==> IsRule(a, st[|st|-1].state.rule)
    ensures st[|st|-1].state.Final? ==> |st| == 2 && st[1].sym == a.g.start && st[1].tree.Node?
  {
    var k := |st| - 1;
    if k > 0 {
      assert Linked(a, c, st, k);
      EdgeTarget(a, c, st[k-1].state, st[k]);
      if st[k].state.Final? {
        if k > 1 {
          assert Linked(a, c, st, k - 1);
          EdgeTarget(a, c, st[k-2].state, st[k-1]);
        }
        assert ValidState(a, c, 0);
        assert a.g.start in a.gotos[0];
      }
    }
  }

  // ---------------------------------------------------------------------------------------------
  // Reducing

  /** The right-hand side lies above the sentinel and the state below it has a goto. */
  predicate Reducible(a: Automaton, st: Stack, r: nat) {
    && IsRule(a, r) && |a.g.rules[r].rhs| < |st|
    && var base := st[|st| - 1 - |a.g.rules[r].rhs|].state;
    && base.Real? && base.n < |a.gotos| && Goto(a, base.n, a.g.rules[r].lhs).Some?
  }

  /** Pops the right-hand side of rule r and pushes its left-hand side. */
  function ReduceStack(a: Automaton, st: Stack, r: nat): Stack
    requires Reducible(a, st, r)
  {
    var keep := |st| - |a.g.rules[r].rhs|;
    st[..keep] + [Frame(Goto(a, st[keep-1].state.n, a.g.rules[r].lhs).value,
                        a.g.rules[r].lhs,
                        Node(r, Trees(st[keep..])))]
  }

  /**
    Whenever the machine asks for a reduction, the right-hand side is on the stack above the
    sentinel, the goto exists, and reducing keeps the stack viable.
   */
  lemma ReduceIsSafe(a: Automaton, c: Certificate, st: Stack, tok: nat, r: nat)
    requires Valid(a, c) && Viable(a, c, st)
    requires var top := st[|st|-1].state; top.Real? ==> top.n < |a.rows|
    requires Action(a, st[|st|-1].state, tok) == PReduce(r)
    ensures Reducible(a, st, r)
    ensures Viable(a, c, ReduceStack(a, st, r))
    ensures StackYield(ReduceStack(a, st, r)) == StackYield(st)
    ensures |ReduceStack(a, st, r)| > 1
  {
    var k := |st| - 1;
    TopState(a, c, st);
    var top := st[k].state;
    if top.Real? {
      assert ValidState(a, c, top.n);
    }
    var n := |a.g.rules[r].rhs|;
    ItemPath(a, c, st, k, r, n);
    var base := st[k-n].state;
    if k - n > 0 {
      assert Linked(a, c, st, k - n);
      EdgeTarget(a, c, st[k-n-1].state, st[k-n]);
    }
    if n == 0 && top.Complete? {
      assert Linked(a, c, st, k);
      CompleteIsNonempty(a, c, st[k-1].state, st[k]);
    }
    assert ValidState(a, c, base.n);
    ReduceIsViable(a, c, st, r);
  }

  lemma CompleteIsNonempty(a: Automaton, c: Certificate, from: PState, to: Frame)
    requires Valid(a, c) && Edge(a, from, to) && to.state.Complete?
    ensures IsRule(a, to.state.rule) && |a.g.rules[to.state.rule].rhs| > 0
  {
    assert ValidState(a, c, from.n);
  }

  lemma ReduceIsViable(a: Automaton, c: Certificate, st: Stack, r: nat)
    requires Valid(a, c) && Viable(a, c, st)
    requires Reducible(a, st, r)
    requires forall j :: 0 <= j < |a.g.rules[r].rhs| ==>
      FillsUpToUnits(a.g, c.rank, st[|st| - |a.g.rules[r].rhs| + j].tree, a.g.rules[r].rhs[j])
    ensures Viable(a, c, ReduceStack(a, st, r))
    ensures StackYield(ReduceStack(a, st, r)) == StackYield(st)
    ensures |ReduceStack(a, st, r)| > 1
  {
    var rule := a.g.rules[r];
    var keep := |st| - |rule.rhs|;
    var next := ReduceStack(a, st, r);
    var kids := Trees(st[keep..]);
    forall i | 0 <= i < |kids|
      ensures FillsUpToUnits(a.g, c.rank, kids[i], rule.rhs[i]) && DriverTree(a.g, c.rank, kids[i])
    {
      assert kids[i] == st[keep + i].tree;
      assert Linked(a, c, st, keep + i);
    }
    ViablePrefix(a, c, st, keep);
    ViablePush(a, c, st[..keep], next[keep]);
    // the yield
    var below, above := Trees(st[1..keep]), [Node(r, kids)];
    assert Trees(next[1..]) == below + above;
    assert Trees(st[1..]) == below + kids;
    YieldAppend(below, above);
    YieldAppend(below, kids);
    YieldSingle(Node(r, kids));
  }

  lemma ShiftIsSafe(a: Automaton, c: Certificate, st: Stack, tok: Token, to: PState)
    requires Valid(a, c) && Viable(a, c, st) && tok.code < a.g.tokens
    requires var top := st[|st|-1].state; top.Real? ==> top.n < |a.rows|
    requires Action(a, st[|st|-1].state, tok.code) == PShift(to)
    ensures Viable(a, c, st + [Frame(to, tok.code, Leaf(tok))])
    ensures StackYield(st + [Frame(to, tok.code, Leaf(tok))]) == StackYield(st) + [tok]
  {
    var top := st[|st|-1].state;
    assert ValidState(a, c, top.n);
    var next := st + [Frame(to, tok.code, Leaf(tok))];
    assert Trees(next[1..]) == Trees(st[1..]) + [Leaf(tok)];
    YieldAppend(Trees(st[1..]), [Leaf(tok)]);
    YieldSingle(Leaf(tok));
    ViablePush(a, c, st, next[|st|]);
  }
}
