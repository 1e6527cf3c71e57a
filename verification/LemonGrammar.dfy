/**
  The grammar side of the LEMON parser in parse.c: rules, token fallback, the wildcard token,
  parse trees, and what it means for a token sequence to be derivable.

  A right-hand-side position is a set of symbols, because a rule such as
  `cmd ::= COMMIT|END trans_opt` has a position that any of several tokens fills.
 */
module LemonGrammar {
  import opened Wrappers

  datatype Rule = Rule(lhs: nat, rhs: seq<set<nat>>)

  /** Symbol codes below `tokens` are terminals, the others are nonterminals. */
  datatype Grammar = Grammar(
    tokens: nat,
    rules: seq<Rule>,
    start: nat,
    fallback: seq<nat>,   // 0 means that the token has no fallback
    wildcard: nat)

  /** A token as the tokenizer delivers it: its code and its text. */
  datatype Token = Token(code: nat, text: string)

  /** The semantic value of a stack entry: the most general one, a parse tree. */
  datatype Tree = Leaf(token: Token) | Node(rule: nat, children: seq<Tree>)

  predicate HasFallback(g: Grammar, tok: nat) {
    tok < |g.fallback| && g.fallback[tok] != 0
  }

  /** A fallback has no fallback of its own. */
  predicate FallbackEnds(fallback: seq<nat>, tok: nat) {
    tok < |fallback| ==> fallback[tok] < |fallback| && fallback[fallback[tok]] == 0
  }

  predicate FallbacksEnd(fallback: seq<nat>) {
    forall tok :: 0 <= tok < |fallback| ==> FallbackEnds(fallback, tok)
  }

  /** The symbols that a token may be read as: itself, its fallback, or the wildcard. */
  predicate ReadAs(g: Grammar, tok: nat, sym: nat) {
    || sym == tok
    || (HasFallback(g, tok) && sym == g.fallback[tok])
    || (sym == g.wildcard && (tok > 0 || HasFallback(g, tok)))
  }

  // ---------------------------------------------------------------------------------------------
  // Trees

  /** The tokens at the leaves of a tree, left to right. */
  function Frontier(t: Tree): seq<Token>
    decreases t, 1
  {
    match t
    case Leaf(token) => [token]
    case Node(_, children) => Yield(children)
  }

  function Yield(ts: seq<Tree>): seq<Token>
    decreases ts, 0
  {
    if ts == [] then [] else Frontier(ts[0]) + Yield(ts[1..])
  }

  lemma {:induction false} YieldAppend(a: seq<Tree>, b: seq<Tree>)
    ensures Yield(a + b) == Yield(a) + Yield(b)
  {
    hide Frontier;
    if a == [] {
      assert a + b == b;
    } else {
      YieldAppend(a[1..], b);
      assert (a + b)[0] == a[0] && (a + b)[1..] == a[1..] + b;
      assert Yield(a + b) == Frontier(a[0]) + (Yield(a[1..]) + Yield(b));
    }
  }

  lemma YieldSingle(t: Tree)
    ensures Yield([t]) == Frontier(t)
  {
    assert Yield([t]) == Frontier(t) + Yield([]);
  }

  /** The tree fills a position of a right-hand side, exactly as the grammar writes it. */
  predicate Fills(g: Grammar, t: Tree, position: set<nat>) {
    match t
    case Leaf(token) => exists sym :: sym in position && sym < g.tokens && ReadAs(g, token.code, sym)
    case Node(r, _) => r < |g.rules| && g.rules[r].lhs in position
  }

  /** A parse tree of the grammar: every node is an instance of its rule. */
  predicate ParseTree(g: Grammar, t: Tree)
    decreases t
  {
    match t
    case Leaf(_) => true
    case Node(r, children) =>
      && r < |g.rules|
      && |children| == |g.rules[r].rhs|
      && (forall i :: 0 <= i < |children| ==> Fills(g, children[i], g.rules[r].rhs[i]))
      && (forall i :: 0 <= i < |children| ==> ParseTree(g, children[i]))
  }

  /** `input` derives `ws` : there is a parse tree for it. */
  ghost predicate Derives(g: Grammar, sym: nat, ws: seq<Token>) {
    exists t :: ParseTree(g, t) && t.Node? && g.rules[t.rule].lhs == sym && Frontier(t) == ws
  }

  // ---------------------------------------------------------------------------------------------
  // Unit rules the table generator has optimised out
  //
  // For a rule `A ::= B` without an action the generator lets a state go straight from B to where
  // A leads.  The stack then holds a B where the grammar asks for an A.

  predicate IsUnit(g: Grammar, r: nat, b: nat)
    requires r < |g.rules|
  {
    |g.rules[r].rhs| == 1 && b in g.rules[r].rhs[0] && b >= g.tokens
  }

  /** `have` reaches `want` through unit rules; `rank` decreases from a rule's left to its right. */
  predicate Covers(g: Grammar, rank: map<nat, nat>, want: nat, have: nat)
    decreases Rank(rank, want)
  {
    || want == have
    || exists r, b :: 0 <= r < |g.rules| && g.rules[r].lhs == want && IsUnit(g, r, b)
         && b in g.rules[r].rhs[0]
         && Rank(rank, b) < Rank(rank, want) && Covers(g, rank, b, have)
  }

  function Rank(rank: map<nat, nat>, sym: nat): nat {
    if sym in rank then rank[sym] else 0
  }

  /** The tree fills a position once optimised-out unit rules are put back above it. */
  predicate FillsUpToUnits(g: Grammar, rank: map<nat, nat>, t: Tree, position: set<nat>) {
    match t
    case Leaf(token) => exists sym :: sym in position && sym < g.tokens && ReadAs(g, token.code, sym)
    case Node(r, _) =>
      r < |g.rules| && exists want :: want in position && Covers(g, rank, want, g.rules[r].lhs)
  }

  /** The trees the driver builds: parse trees that lack the optimised-out unit nodes. */
  predicate DriverTree(g: Grammar, rank: map<nat, nat>, t: Tree)
    decreases t
  {
    match t
    case Leaf(_) => true
    case Node(r, children) =>
      && r < |g.rules|
      && |children| == |g.rules[r].rhs|
      && (forall i :: 0 <= i < |children| ==> FillsUpToUnits(g, rank, children[i], g.rules[r].rhs[i]))
      && (forall i :: 0 <= i < |children| ==> DriverTree(g, rank, children[i]))
  }

  /** Puts unit nodes above `t` until its root is `want`. */
  lemma {:induction false} RestoreUnits(g: Grammar, rank: map<nat, nat>, t: Tree, want: nat) returns (full: Tree)
    requires ParseTree(g, t) && t.Node? && Covers(g, rank, want, g.rules[t.rule].lhs)
    ensures ParseTree(g, full) && full.Node? && g.rules[full.rule].lhs == want
    ensures Frontier(full) == Frontier(t)
    decreases Rank(rank, want)
  {
    if want == g.rules[t.rule].lhs {
      full := t;
    } else {
      var r, b :| 0 <= r < |g.rules| && g.rules[r].lhs == want && IsUnit(g, r, b)
        && b in g.rules[r].rhs[0]
        && Rank(rank, b) < Rank(rank, want) && Covers(g, rank, b, g.rules[t.rule].lhs);
      var below := RestoreUnits(g, rank, t, b);
      full := Node(r, [below]);
      YieldSingle(below);
    }
  }

  /** Every tree the driver builds is a parse tree of the same tokens once its unit nodes are restored. */
  lemma {:induction false} RestoreTree(g: Grammar, rank: map<nat, nat>, t: Tree) returns (full: Tree)
    requires DriverTree(g, rank, t)
    ensures ParseTree(g, full) && Frontier(full) == Frontier(t)
    ensures full.Node? == t.Node?
    ensures match t case Leaf(_) => full == t case Node(r, _) => full.rule == r
    decreases t, 1
  {
    match t {
      case Leaf(_) => full := t;
      case Node(r, children) =>
        var fulls := RestoreForest(g, rank, children, g.rules[r].rhs);
        full := Node(r, fulls);
    }
  }

  lemma {:induction false} RestoreForest(g: Grammar, rank: map<nat, nat>, ts: seq<Tree>, rhs: seq<set<nat>>)
    returns (fulls: seq<Tree>)
    requires |ts| == |rhs|
    requires forall i :: 0 <= i < |ts| ==> FillsUpToUnits(g, rank, ts[i], rhs[i]) && DriverTree(g, rank, ts[i])
    ensures |fulls| == |ts| && Yield(fulls) == Yield(ts)
    ensures forall i :: 0 <= i < |fulls| ==> Fills(g, fulls[i], rhs[i]) && ParseTree(g, fulls[i])
    decreases ts, 0
  {
    if ts == [] {
      fulls := [];
    } else {
      var first := RestoreTree(g, rank, ts[0]);
      assert FillsUpToUnits(g, rank, ts[0], rhs[0]);
      if first.Node? {
        var want :| want in rhs[0] && Covers(g, rank, want, g.rules[first.rule].lhs);
        first := RestoreUnits(g, rank, first, want);
      }
      var rest := RestoreForest(g, rank, ts[1..], rhs[1..]);
      fulls := [first] + rest;
      assert fulls[1..] == rest;
    }
  }

  /** A driver tree with root `sym` shows that its tokens are derivable from `sym`. */
  lemma DriverTreeDerives(g: Grammar, rank: map<nat, nat>, t: Tree, sym: nat)
    requires DriverTree(g, rank, t) && t.Node? && g.rules[t.rule].lhs == sym
    ensures Derives(g, sym, Frontier(t))
  {
    var full := RestoreTree(g, rank, t);
    assert ParseTree(g, full) && full.Node? && g.rules[full.rule].lhs == sym && Frontier(full) == Frontier(t);
  }
}
