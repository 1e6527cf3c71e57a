/**
  A textbook LR parser: its stack holds state numbers only, it shifts, reduces, accepts or rejects, and
  it knows no shift-reduce actions.  It is read off the tables of parse.c by giving every rule a state of its
  own, in which nothing can be done but reduce by that rule, and a last state for acceptance.
  `FusedRefinesPlain` says that this parser does what the machine of LalrRuns.dfy does, and with it the driver
  of LemonDriver.dfy.
 */
module PlainLr {
  import opened Wrappers
  import opened LemonGrammar
  import opened LalrMachine
  import opened LalrRuns

  datatype LrAction = ShiftTo(state: nat) | ReduceBy(rule: nat) | AcceptInput | Reject

  /** ACTION */
  function LrAct(a: Automaton, s: nat, tok: nat): LrAction
    requires |a.rows| == |a.defaults|
  {
    if s < |a.rows| then
      match Lookup(a, s, tok)
      case Shift(m) => ShiftTo(m)
      case ShiftReduce(r) => ShiftTo(|a.rows| + r)
      case Reduce(r) => ReduceBy(r)
      case Accept => AcceptInput
      case Error => Reject
    else if s < |a.rows| + |a.g.rules| then ReduceBy(s - |a.rows|)
    else AcceptInput
  }

  /** GOTO */
  function LrGoto(a: Automaton, s: nat, sym: nat): Option<nat> {
    if s >= |a.gotos| || sym !in a.gotos[s] then None
    else
      match a.gotos[s][sym]
      case Shift(m) => Some(m)
      case Reduce(r) => Some(|a.rows| + r)
      case Accept => Some(|a.rows| + |a.g.rules|)
      case ShiftReduce(_) => None
      case Error => None
  }

  datatype LrOutcome = LrOutcome(stack: seq<nat>, verdict: Verdict, reductions: seq<nat>)

  /** One token is fed to the parser; None if the steps do not suffice, or if it is stuck. */
  function LrFeed(a: Automaton, depth: nat, st: seq<nat>, tok: nat, steps: nat): Option<LrOutcome>
    requires |a.rows| == |a.defaults|
    decreases steps
  {
    if steps == 0 || st == [] then None
    else
      match LrAct(a, st[|st|-1], tok)
      case ShiftTo(s) =>
        if |st| < depth then Some(LrOutcome(st + [s], Shifted, [])) else Some(LrOutcome(st[..1], Overflowed, []))
      case AcceptInput => Some(LrOutcome(st[..|st|-1], Accepted, []))
      case Reject => Some(LrOutcome(st, Rejected, []))
      case ReduceBy(r) =>
        if r >= |a.g.rules| || |a.g.rules[r].rhs| >= |st| then None
        else if a.g.rules[r].rhs == [] && |st| >= depth then Some(LrOutcome(st[..1], Overflowed, []))
        else
          var below := st[..|st| - |a.g.rules[r].rhs|];
          match LrGoto(a, below[|below|-1], a.g.rules[r].lhs)
          case None => None
          case Some(s) =>
            match LrFeed(a, depth, below + [s], tok, steps - 1)
            case None => None
            case Some(o) => Some(LrOutcome(o.stack, o.verdict, [r] + o.reductions))
  }

  // ---------------------------------------------------------------------------------------------

  function Number(a: Automaton, s: PState): nat {
    match s
    case Real(n) => n
    case Complete(r) => |a.rows| + r
    case Final => |a.rows| + |a.g.rules|
  }

  function Numbers(a: Automaton, st: Stack): (r: seq<nat>)
    ensures |r| == |st| && forall i :: 0 <= i < |st| ==> r[i] == Number(a, st[i].state)
  {
    seq(|st|, i requires 0 <= i < |st| => Number(a, st[i].state))
  }

  lemma SameAction(a: Automaton, c: Certificate, st: Stack, tok: nat)
    requires Valid(a, c) && Viable(a, c, st)
    ensures st[|st|-1].state.Real? ==> st[|st|-1].state.n < |a.rows|
    ensures LrAct(a, Number(a, st[|st|-1].state), tok) ==
      match Action(a, st[|st|-1].state, tok)
      case PShift(to) => ShiftTo(Number(a, to))
      case PReduce(r) => ReduceBy(r)
      case PAccept => AcceptInput
      case PError => Reject
  {
    TopState(a, c, st);
  }

  lemma Base(a: Automaton, c: Certificate, st: Stack)
    requires Valid(a, c) && Viable(a, c, st)
    ensures |a.rows| == |a.defaults|
    ensures st != [] && Numbers(a, st)[..1] == Numbers(a, [SENTINEL])
  {
  }

  lemma SameReduction(a: Automaton, st: Stack, r: nat)
    requires Reducible(a, st, r)
    ensures var below := Numbers(a, st)[..|st| - |a.g.rules[r].rhs|];
      && below != []
      && LrGoto(a, below[|below|-1], a.g.rules[r].lhs).Some?
      && below + [LrGoto(a, below[|below|-1], a.g.rules[r].lhs).value] == Numbers(a, ReduceStack(a, st, r))
  {
    hide Trees;
    var keep := |st| - |a.g.rules[r].rhs|;
    var next := ReduceStack(a, st, r);
    assert Numbers(a, next)[..keep] == Numbers(a, st)[..keep];
  }

  /**
    The textbook parser, given enough steps, ends with the same verdict, after the same reductions, and on the
    same states.
   */
  lemma {:induction false} FusedRefinesPlain(a: Automaton, c: Certificate, depth: nat, st: Stack, tok: Token, steps: nat)
    requires Ready(a, c, depth, st)
    requires steps > |Feed(a, c, depth, st, tok).reductions|
    ensures var o := Feed(a, c, depth, st, tok);
      LrFeed(a, depth, Numbers(a, st), tok.code, steps) == Some(LrOutcome(Numbers(a, o.stack), o.verdict, o.reductions))
    decreases steps
  {
    hide Valid, Viable, Feed, Slack, LrAct, LrGoto, Reducible, ReduceStack, Numbers, Action;
    Base(a, c, st);
    FeedUnfolds(a, c, depth, st, tok);
    SameAction(a, c, st, tok.code);
    var act, o := Action(a, st[|st|-1].state, tok.code), Feed(a, c, depth, st, tok);
    match act
    case PShift(to) =>
      assert |st| < depth ==> Numbers(a, st) + [Number(a, to)] == Numbers(a, o.stack);
    case PReduce(r) =>
      SameReduction(a, st, r);
      if Fits(a, depth, st, r) {
        FusedRefinesPlain(a, c, depth, ReduceStack(a, st, r), tok, steps - 1);
      }
    case PAccept =>
      assert Numbers(a, st)[..|st|-1] == Numbers(a, st[..|st|-1]);
    case PError =>
  }
}
