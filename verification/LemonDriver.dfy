/**
  The driver of parse.c: a fixed array used as a stack, action codes that are plain numbers, shifts
  fused with the reduction that follows, and pending reductions stored as state numbers.

  Every method is proved against the plain LR machine: `model` is the plain stack that the array
  represents, and `Parse` leaves exactly the stack, the reductions and the verdict of `LalrRuns.Feed`.
 */
module LemonDriver {
  import opened Wrappers
  import opened LemonGrammar
  import opened LalrMachine
  import opened LalrRuns
  import opened LemonTables
  import opened StackLog

  /** `yyStackEntry`; `stateno` is a state number, or a pending reduction, or the accept action. */
  datatype StackEntry = StackEntry(stateno: nat, major: nat, minor: Tree)

  datatype Message = SyntaxError(near: Token) | ParserStackOverflow

  /** The message that goes with a verdict. */
  function Report(v: Verdict, tok: Token): seq<Message> {
    match v
    case Shifted => []
    case Accepted => []
    case Rejected => [SyntaxError(tok)]
    case Overflowed => [ParserStackOverflow]
  }

  function Minors(es: seq<StackEntry>): (ts: seq<Tree>)
    ensures |ts| == |es|
    ensures forall i :: 0 <= i < |es| ==> ts[i] == es[i].minor
  {
    seq(|es|, i requires 0 <= i < |es| => es[i].minor)
  }

  // ---------------------------------------------------------------------------------------------
  // What the array represents

  predicate Represents(t: Tables, e: StackEntry, f: Frame) {
    e.stateno == StateCode(t, f.state) && e.major == f.sym && e.minor == f.tree
  }

  /** The lower part of the array represents the stack. */
  predicate Encodes(t: Tables, es: seq<StackEntry>, st: Stack) {
    |st| <= |es| && forall i :: 0 <= i < |st| ==> Represents(t, es[i], st[i])
  }

  /** Tables for which the driver is proved correct. */
  predicate Good(t: Tables, a: Automaton, c: Certificate) {
    Packing(t, a) && Valid(a, c)
  }

  /** The numeric comparisons of the driver loop read off the action of the plain machine. */
  lemma {:induction false} DecodeAction(t: Tables, a: Automaton, c: Certificate, s: PState, tok: nat, yyact: nat)
    requires Good(t, a, c) && tok < a.g.tokens
    requires s.Real? ==> s.n < |a.rows| && yyact == Code(t, Lookup(a, s.n, tok))
    requires !s.Real? ==> yyact == StateCode(t, s)
    ensures yyact >= t.minReduce <==> Action(a, s, tok).PReduce?
    ensures yyact >= t.minReduce ==> Action(a, s, tok) == PReduce(yyact - t.minReduce)
    ensures yyact <= t.maxShiftReduce <==> Action(a, s, tok).PShift?
    ensures yyact <= t.maxShiftReduce ==>
      StateCode(t, Action(a, s, tok).to) == if yyact > t.maxShift then yyact + t.minReduce - t.minShiftReduce else yyact
    ensures yyact == t.acceptAction <==> Action(a, s, tok).PAccept?
    ensures yyact == t.errorAction <==> Action(a, s, tok).PError?
  {
    if s.Real? {
      assert ValidState(a, c, s.n);
      var col := Column(a, s.n, tok);
      if col.Some? {
        assert ShiftPlaced(t, a, s.n, col.value);
      }
    }
  }

  /** What `FindShiftAction` and `Action` expect of the tables. */
  lemma LookupReady(t: Tables, a: Automaton, c: Certificate)
    requires Good(t, a, c)
    ensures a.g.tokens == t.nToken && FallbacksEnd(t.fallback) && |t.fallback| <= t.nToken
    ensures |a.rows| == |a.defaults|
  {
  }

  /** The number in the array is the one that `FindShiftAction` compares with the largest state. */
  lemma TopCode(t: Tables, a: Automaton, c: Certificate, st: Stack)
    requires Good(t, a, c) && Viable(a, c, st)
    ensures var s := st[|st|-1].state;
      && (s.Real? ==> s.n < |a.rows| && StateCode(t, s) <= t.maxShift)
      && (!s.Real? ==> StateCode(t, s) > t.maxShift)
  {
    TopState(a, c, st);
  }

  /** A goto's code is the state number of the plain machine's goto, and is never a shift-reduce or an error. */
  lemma GotoCode(t: Tables, a: Automaton, c: Certificate, n: nat, sym: nat)
    requires Good(t, a, c) && n < |a.gotos| && sym in a.gotos[n] && Coded(t, a, a.gotos[n][sym])
    ensures Goto(a, n, sym).Some? && Code(t, a.gotos[n][sym]) == StateCode(t, Goto(a, n, sym).value)
    ensures var yyact := Code(t, a.gotos[n][sym]);
      !(t.maxShift < yyact <= t.maxShiftReduce) && yyact != t.errorAction
  {
    assert ValidState(a, c, n);
    assert ValidGoto(a, c, n, sym, a.gotos[n][sym]);
  }

  // ---------------------------------------------------------------------------------------------
  // Ownership

  /** The log starts with the sentinel alone and leaves the stack. */
  predicate Owned(log: Log<Frame>, st: Stack) {
    Base(log) == [SENTINEL] && Replay(log) == Some(st)
  }

  /** What `yy_reduce` finds in the array and the tables, and that its asserts hold. */
  lemma ReduceCode(t: Tables, a: Automaton, c: Certificate, es: seq<StackEntry>, st: Stack, tok: nat, r: nat)
    requires Good(t, a, c) && Viable(a, c, st) && Encodes(t, es, st)
    requires var top := st[|st|-1].state; top.Real? ==> top.n < |a.rows|
    requires Action(a, st[|st|-1].state, tok) == PReduce(r)
    ensures IsRule(a, r) && r < |t.ruleLhs| == |t.ruleNRhs|
    ensures t.ruleNRhs[r] == -|a.g.rules[r].rhs| && t.ruleLhs[r] == a.g.rules[r].lhs
    ensures var keep := |st| + t.ruleNRhs[r];
      && 0 < keep <= |st|
      && es[keep-1].stateno < |a.gotos| && t.ruleLhs[r] in a.gotos[es[keep-1].stateno]
      && st[keep-1].state == Real(es[keep-1].stateno)
      && Goto(a, es[keep-1].stateno, t.ruleLhs[r]).Some?
  {
    ReduceIsSafe(a, c, st, tok, r);
    var keep := |st| - |a.g.rules[r].rhs|;
    assert Represents(t, es[keep-1], st[keep-1]);
  }

  /** The entry that `yy_reduce` stores makes the array represent the reduced stack. */
  lemma ReduceEntry(t: Tables, a: Automaton, es: seq<StackEntry>, st: Stack, r: nat, keep: nat, yyact: nat)
    requires IsRule(a, r) && keep == |st| - |a.g.rules[r].rhs| && 0 < keep <= |st|
    requires Encodes(t, es, st)
    requires st[keep-1].state.Real? && st[keep-1].state.n < |a.gotos|
    requires Goto(a, st[keep-1].state.n, a.g.rules[r].lhs).Some?
    requires yyact == StateCode(t, Goto(a, st[keep-1].state.n, a.g.rules[r].lhs).value)
    ensures var next := ReduceStack(a, st, r);
      && |next| == keep + 1 && next[..keep] == st[..keep]
      && Represents(t, StackEntry(yyact, a.g.rules[r].lhs, Node(r, Minors(es[keep..|st|]))), next[keep])
  {
    assert Minors(es[keep..|st|]) == Trees(st[keep..]);
  }

  lemma OwnedReduce(log: Log<Frame>, st: Stack, keep: nat, next: Stack)
    requires Owned(log, st) && 0 < keep <= |st|
    requires |next| == keep + 1 && next[..keep] == st[..keep]
    ensures Owned(Push(Pop(log, st[keep..], Consumed), next[keep]), next)
  {
    assert next == st[..keep] + [next[keep]];
  }

  /** After a call the stack is back at the sentinel without a message exactly if the call accepted. */
  lemma AcceptanceShows(a: Automaton, c: Certificate, depth: nat, st: Stack, tok: Token)
    requires Ready(a, c, depth, st) && tok.code < a.g.tokens
    ensures var o := Feed(a, c, depth, st, tok);
      && (|o.stack| == 1 && Report(o.verdict, tok) == [] <==> o.verdict == Accepted)
      && (o.verdict == Accepted ==> Derives(a.g, a.g.start, StackYield(st)))
  {
    hide Feed, Ready, Derives;
    FeedKeeps(a, c, depth, st, tok);
    var o := Feed(a, c, depth, st, tok);
    if |o.stack| == 1 {
      assert StackYield(o.stack) == [];
    }
  }

  /** Everything that makes replacing a right-hand side by its left-hand side correct. */
  lemma HandleIsReplaced(t: Tables, a: Automaton, c: Certificate, es: seq<StackEntry>, st: Stack, log: Log<Frame>,
                         tok: nat, r: nat)
    requires Good(t, a, c) && Viable(a, c, st) && Encodes(t, es, st) && Owned(log, st)
    requires var top := st[|st|-1].state; top.Real? ==> top.n < |a.rows|
    requires Action(a, st[|st|-1].state, tok) == PReduce(r)
    ensures Packing(t, a) && IsRule(a, r) && r < |t.ruleLhs| == |t.ruleNRhs| && Reducible(a, st, r)
    ensures t.ruleNRhs[r] == -|a.g.rules[r].rhs|
    ensures var keep := |st| + t.ruleNRhs[r];
      && 0 < keep <= |st|
      && es[keep-1].stateno < |a.gotos| && t.ruleLhs[r] in a.gotos[es[keep-1].stateno]
      && var yyact := Code(t, a.gotos[es[keep-1].stateno][t.ruleLhs[r]]);
      && !(t.maxShift < yyact <= t.maxShiftReduce) && yyact != t.errorAction
      && var next := ReduceStack(a, st, r);
      && |next| == keep + 1 && next[..keep] == st[..keep] && Viable(a, c, next)
      && Represents(t, StackEntry(yyact, t.ruleLhs[r], Node(r, Minors(es[keep..|st|]))), next[keep])
      && Owned(Push(Pop(log, st[keep..], Consumed), next[keep]), next)
  {
    hide Viable, Owned, Lookup;
    ReduceCode(t, a, c, es, st, tok, r);
    ReduceIsSafe(a, c, st, tok, r);
    var keep := |st| + t.ruleNRhs[r];
    var n, yygoto := es[keep-1].stateno, t.ruleLhs[r];
    assert GotoPlaced(t, a, n, yygoto);
    GotoCode(t, a, c, n, yygoto);
    ReduceEntry(t, a, es, st, r, keep, Code(t, a.gotos[n][yygoto]));
    OwnedReduce(log, st, keep, ReduceStack(a, st, r));
  }

  // ---------------------------------------------------------------------------------------------
  // The parser object

  class Parser {
    const t: Tables
    ghost const a: Automaton
    ghost const c: Certificate

    var yytos: nat                     // index of the top entry
    const yystack: array<StackEntry>
    var errors: seq<Message>           // what went to sqlite3ErrorMsg
    var reduced: seq<nat>              // the rules whose actions have run

    ghost var model: Stack
    ghost var log: Log<Frame>

    ghost predicate Valid()
      reads this, yystack
    {
      && Good(t, a, c)
      && |model| == yytos + 1
      && Encodes(t, yystack[..], model)
      && Viable(a, c, model)
      && Owned(log, model)
    }

    /** `sqlite3ParserInit`. */
    constructor (t: Tables, ghost a: Automaton, ghost c: Certificate, depth: nat)
      requires Good(t, a, c) && depth > 0
      ensures Valid() && fresh(yystack)
      ensures this.t == t && this.a == a && this.c == c && yystack.Length == depth
      ensures model == [SENTINEL] && errors == [] && reduced == []
      ensures log == Start([SENTINEL])
    {
      this.t := t;
      this.a := a;
      this.c := c;
      yystack := new StackEntry[depth](_ => StackEntry(0, 0, Leaf(Token(0, ""))));
      yytos := 0;
      errors := [];
      reduced := [];
      model := [SENTINEL];
      log := Start([SENTINEL]);
    }

    /** `yy_pop_parser_stack`. */
    method PopParserStack()
      requires Valid() && yytos > 0
      modifies this`yytos, this`model, this`log
      ensures Valid()
      ensures yytos == old(yytos) - 1
      ensures model == old(model)[..|old(model)|-1]
      ensures log == Pop(old(log), [old(model)[|old(model)|-1]], Destroyed)
    {
      ViablePrefix(a, c, model, yytos);
      assert model[yytos..] == [model[yytos]];
      log := Pop(log, [model[yytos]], Destroyed);
      yytos := yytos - 1;
      model := model[..yytos + 1];
    }

    /** The loop of `yyStackOverflow` and of `sqlite3ParserFinalize`. */
    method PopAll()
      requires Valid()
      modifies this`yytos, this`model, this`log
      ensures Valid()
      ensures model == [SENTINEL] && yytos == 0
      ensures log == PopEach(old(log), old(model)[1..], Destroyed)
    {
      ghost var all := model;
      while yytos > 0
        invariant Valid()
        invariant yytos < |all| && model == all[..yytos + 1]
        invariant log == PopEach(old(log), all[yytos + 1..], Destroyed)
        decreases yytos
      {
        PopParserStack();
      }
    }

    /** `yyStackOverflow`: every entry above the sentinel is destroyed. */
    method StackOverflow()
      requires Valid()
      modifies this`yytos, this`model, this`log, this`errors
      ensures Valid()
      ensures model == [SENTINEL] && yytos == 0
      ensures log == PopEach(old(log), old(model)[1..], Destroyed)
      ensures errors == old(errors) + [ParserStackOverflow]
    {
      PopAll();
      errors := errors + [ParserStackOverflow];
    }

    /** `sqlite3ParserFinalize`: nothing is left that was not consumed, destroyed or accepted. */
    method Finalize()
      requires Valid()
      modifies this`yytos, this`model, this`log
      ensures Valid() && model == [SENTINEL]
      ensures log == PopEach(old(log), old(model)[1..], Destroyed)
      ensures forall f :: Pushes(log, f) == Pops(log, Consumed, f) + Pops(log, Destroyed, f) + Pops(log, Dropped, f)
    {
      PopAll();
      forall f {
        Ownership(log, f);
      }
    }

    /** Stores an entry at position pos and makes it the top. */
    method Store(pos: nat, e: StackEntry, ghost st: Stack, ghost after: Log<Frame>)
      requires Valid() && 0 < pos <= yytos + 1 && pos < yystack.Length
      requires |st| == pos + 1 && st[..pos] == model[..pos] && Represents(t, e, st[pos])
      requires Viable(a, c, st) && Owned(after, st)
      modifies this`yytos, this`model, this`log, yystack
      ensures Valid() && model == st && log == after && yytos == pos && yystack[yytos] == e
    {
      yytos := pos;
      yystack[pos] := e;
      assert yystack[..] == old(yystack[..])[pos := e];
      forall i | 0 <= i < pos ensures Represents(t, yystack[..][i], st[i]) {
        assert Represents(t, old(yystack[..])[i], old(model)[..pos][i]);
      }
      model := st;
      log := after;
    }

    /** `yy_shift`: pushes the state, or the pending reduction, unless the stack is full. */
    method YyShift(yyNewState: nat, yyMajor: nat, yyMinor: Token, ghost to: PState)
      requires Valid()
      requires yyMajor == yyMinor.code < a.g.tokens
      requires model[yytos].state.Real? ==> model[yytos].state.n < |a.rows|
      requires Action(a, model[yytos].state, yyMajor) == PShift(to)
      requires StateCode(t, to) ==
        if yyNewState > t.maxShift then yyNewState + t.minReduce - t.minShiftReduce else yyNewState
      modifies this`yytos, this`model, this`log, this`errors, yystack
      ensures Valid()
      ensures old(|model|) < yystack.Length ==>
        var f := Frame(to, yyMajor, Leaf(yyMinor));
        && model == old(model) + [f] && errors == old(errors)
        && log == Push(old(log), f)
      ensures old(|model|) >= yystack.Length ==>
        && model == [SENTINEL] && errors == old(errors) + [ParserStackOverflow]
        && log == PopEach(old(log), old(model)[1..], Destroyed)
    {
      yytos := yytos + 1;
      if yytos > yystack.Length - 1 {
        yytos := yytos - 1;
        StackOverflow();
        return;
      }
      var newState := yyNewState;
      if newState > t.maxShift {
        newState := newState + (t.minReduce - t.minShiftReduce);
      }
      ghost var f := Frame(to, yyMajor, Leaf(yyMinor));
      ShiftIsSafe(a, c, model, yyMinor, to);
      yytos := yytos - 1;
      Store(yytos + 1, StackEntry(newState, yyMajor, Leaf(yyMinor)), model + [f], Push(log, f));
    }

    /** The part of `yy_reduce` that replaces the right-hand side by the left-hand side. */
    method ReplaceHandle(yyruleno: nat, ghost yyLookahead: nat) returns (yyact: nat)
      requires Valid()
      requires model[yytos].state.Real? ==> model[yytos].state.n < |a.rows|
      requires Action(a, model[yytos].state, yyLookahead) == PReduce(yyruleno)
      requires IsRule(a, yyruleno) && Fits(a, yystack.Length, model, yyruleno)
      modifies this`yytos, this`model, this`log, yystack
      ensures Valid() && yyact == yystack[yytos].stateno && yytos > 0
      ensures Reducible(a, old(model), yyruleno) && model == ReduceStack(a, old(model), yyruleno)
      ensures log == Push(Pop(old(log), old(model)[yytos..], Consumed), model[yytos])
    {
      hide Packing, LalrMachine.Valid, Viable, Owned, Action, Goto, Reducible, ReduceStack;
      HandleIsReplaced(t, a, c, yystack[..], model, log, yyLookahead, yyruleno);
      var yygoto := t.ruleLhs[yyruleno];
      var yysize := t.ruleNRhs[yyruleno];
      var yymsp := yytos + yysize + 1;
      yyact := FindReduceAction(t, a, yystack[yymsp - 1].stateno, yygoto);
      assert !(t.maxShift < yyact <= t.maxShiftReduce);
      assert yyact != t.errorAction;
      ghost var next := ReduceStack(a, model, yyruleno);
      assert yystack[..][yymsp..yytos + 1] == yystack[yymsp..yytos + 1];
      var e := StackEntry(yyact, yygoto, Node(yyruleno, Minors(yystack[yymsp..yytos + 1])));
      Store(yymsp, e, next, Push(Pop(log, model[yymsp..], Consumed), next[yymsp]));
    }

    /** `yy_reduce`: a reduction by an empty right-hand side may find the stack full. */
    method YyReduce(yyruleno: nat, ghost yyLookahead: nat) returns (yyact: nat)
      requires Valid()
      requires model[yytos].state.Real? ==> model[yytos].state.n < |a.rows|
      requires Action(a, model[yytos].state, yyLookahead) == PReduce(yyruleno)
      modifies this`yytos, this`model, this`log, this`errors, this`reduced, yystack
      ensures Valid() && IsRule(a, yyruleno)
      ensures Fits(a, yystack.Length, old(model), yyruleno) ==>
        && Reducible(a, old(model), yyruleno) && model == ReduceStack(a, old(model), yyruleno)
        && yyact == yystack[yytos].stateno && yytos > 0
        && errors == old(errors) && reduced == old(reduced) + [yyruleno]
        && log == Push(Pop(old(log), old(model)[yytos..], Consumed), model[yytos])
      ensures !Fits(a, yystack.Length, old(model), yyruleno) ==>
        && model == [SENTINEL] && yytos == 0
        && errors == old(errors) + [ParserStackOverflow] && reduced == old(reduced)
        && log == PopEach(old(log), old(model)[1..], Destroyed)
    {
      hide Packing, LalrMachine.Valid, Viable, Owned;
      ReduceCode(t, a, c, yystack[..], model, yyLookahead, yyruleno);
      if t.ruleNRhs[yyruleno] == 0 {
        if yytos >= yystack.Length - 1 {
          StackOverflow();
          return 0;
        }
      }
      reduced := reduced + [yyruleno];
      yyact := ReplaceHandle(yyruleno, yyLookahead);
    }

    /** `yy_accept`, after the `input` entry has been dropped. */
    method YyAccept(ghost yyLookahead: nat)
      requires Valid()
      requires model[yytos].state.Real? ==> model[yytos].state.n < |a.rows|
      requires Action(a, model[yytos].state, yyLookahead) == PAccept
      modifies this`yytos, this`model, this`log
      ensures Valid()
      ensures |old(model)| == 2 && model == old(model)[..1] && yytos == 0
      ensures log == Pop(old(log), old(model)[1..], Dropped)
    {
      AcceptOnlyFinal(a, c, model, yyLookahead);
      ViablePrefix(a, c, model, yytos);
      log := Pop(log, model[yytos..], Dropped);
      yytos := yytos - 1;
      model := model[..yytos + 1];
      assert yytos == 0;   // asserted by the C code
    }

    /** One round of the loop of `sqlite3Parser`; `again` when it goes on with the same token. */
    method Round(yymajor: nat, yyminor: Token, yystate: nat) returns (again: bool, yyact: nat)
      requires Valid() && yymajor == yyminor.code < a.g.tokens && yystate == yystack[yytos].stateno
      modifies this`yytos, this`model, this`log, this`errors, this`reduced, yystack
      ensures Valid()
      ensures var o := Feed(a, c, yystack.Length, old(model), yyminor);
        if again then
          var rest := Feed(a, c, yystack.Length, model, yyminor);
          && yyact == yystack[yytos].stateno && errors == old(errors)
          && Slack(a, c, yystack.Length, model) < Slack(a, c, yystack.Length, old(model))
          && o.stack == rest.stack && o.verdict == rest.verdict
          && |o.reductions| > 0 && o.reductions[1..] == rest.reductions
          && reduced == old(reduced) + o.reductions[..1]
        else
          && model == o.stack
          && reduced == old(reduced) + o.reductions
          && errors == old(errors) + Report(o.verdict, yyminor)
    {
      hide Feed, Slack, Packing, LalrMachine.Valid, Viable, Owned, Lookup, ReduceStack, Reducible;
      LookupReady(t, a, c);
      TopCode(t, a, c, model);
      FeedUnfolds(a, c, yystack.Length, model, yyminor);
      ghost var top := model[yytos].state;
      assert Represents(t, yystack[..][yytos], model[yytos]);
      ghost var rounds;
      yyact, rounds := FindShiftAction(t, a, yymajor, yystate);
      DecodeAction(t, a, c, top, yymajor, yyact);
      if yyact >= t.minReduce {
        yyact := YyReduce(yyact - t.minReduce, yymajor);
        again := yytos > 0;
      } else if yyact <= t.maxShiftReduce {
        YyShift(yyact, yymajor, yyminor, Action(a, top, yymajor).to);
        again := false;
      } else if yyact == t.acceptAction {
        YyAccept(yymajor);
        again := false;
      } else {
        assert yyact == t.errorAction;
        errors := errors + [SyntaxError(yyminor)];
        again := false;
      }
    }

    /**
      `sqlite3Parser`: one call with one token.  It ends, it reduces by the same rules as the plain
      machine, and leaves the same stack and the same verdict.  If it accepts, which shows in the stack
      alone, then the tokens below the stack are derivable from the start symbol.
     */
    method Parse(yymajor: nat, yyminor: Token)
      requires Valid() && yymajor == yyminor.code < a.g.tokens
      modifies this`yytos, this`model, this`log, this`errors, this`reduced, yystack
      ensures Valid()
      ensures var o := Feed(a, c, yystack.Length, old(model), yyminor);
        && model == o.stack
        && reduced == old(reduced) + o.reductions
        && errors == old(errors) + Report(o.verdict, yyminor)
        && (yytos == 0 && errors == old(errors) <==> o.verdict == Accepted)
        && (o.verdict == Rejected ==> errors == old(errors) + [SyntaxError(yyminor)])
        && (o.verdict == Overflowed ==> errors == old(errors) + [Message.ParserStackOverflow])
      ensures yytos == 0 && errors == old(errors) ==> Derives(a.g, a.g.start, StackYield(old(model)))
    {
      hide Feed, Slack;
      AcceptanceShows(a, c, yystack.Length, model, yyminor);
      var again, yyact := true, yystack[yytos].stateno;
      ghost var goal := Feed(a, c, yystack.Length, model, yyminor);
      ghost var left := goal;   // what the remaining rounds have to do
      while again
        invariant Valid()
        invariant again ==>
          && yyact == yystack[yytos].stateno && errors == old(errors)
          && left == Feed(a, c, yystack.Length, model, yyminor)
          && left.stack == goal.stack && left.verdict == goal.verdict
          && reduced + left.reductions == old(reduced) + goal.reductions
        invariant !again ==>
          && model == goal.stack
          && reduced == old(reduced) + goal.reductions
          && errors == old(errors) + Report(goal.verdict, yyminor)
        decreases again, Slack(a, c, yystack.Length, model)
      {
        again, yyact := Round(yymajor, yyminor, yyact);
        if again {
          left := Feed(a, c, yystack.Length, model, yyminor);
        }
      }
    }
  }

  // ---------------------------------------------------------------------------------------------
  // A whole parse

  /** The rules by which the plain machine reduces when it is fed the tokens one by one. */
  ghost function Reductions(a: Automaton, c: Certificate, depth: nat, toks: seq<Token>): seq<nat>
    requires LalrMachine.Valid(a, c) && depth > 0
    requires forall i :: 0 <= i < |toks| ==> toks[i].code < a.g.tokens
  {
    if toks == [] then []
    else
      var before := toks[..|toks|-1];
      Reductions(a, c, depth, before) + Feed(a, c, depth, RunStack(a, c, depth, before), toks[|toks|-1]).reductions
  }

  /** The messages that go with its verdicts. */
  ghost function Reports(a: Automaton, c: Certificate, depth: nat, toks: seq<Token>): seq<Message>
    requires LalrMachine.Valid(a, c) && depth > 0
    requires forall i :: 0 <= i < |toks| ==> toks[i].code < a.g.tokens
  {
    if toks == [] then []
    else
      var before, tok := toks[..|toks|-1], toks[|toks|-1];
      Reports(a, c, depth, before) + Report(Feed(a, c, depth, RunStack(a, c, depth, before), tok).verdict, tok)
  }

  lemma FedOneMore(a: Automaton, c: Certificate, depth: nat, toks: seq<Token>, i: nat)
    requires LalrMachine.Valid(a, c) && depth > 0 && i < |toks|
    requires forall i :: 0 <= i < |toks| ==> toks[i].code < a.g.tokens
    ensures var o := Feed(a, c, depth, RunStack(a, c, depth, toks[..i]), toks[i]);
      && RunStack(a, c, depth, toks[..i+1]) == o.stack
      && Reductions(a, c, depth, toks[..i+1]) == Reductions(a, c, depth, toks[..i]) + o.reductions
      && Reports(a, c, depth, toks[..i+1]) == Reports(a, c, depth, toks[..i]) + Report(o.verdict, toks[i])
  {
    hide Feed, LalrMachine.Valid, Report;
    assert toks[..i+1][..i] == toks[..i];
  }

  /**
    `sqlite3RunParser`, for the tokens that the tokenizer delivers: it feeds them until a call reports an
    error, and finalizes the parser.  If the last call accepted, then the tokens before it are derivable from
    the start symbol.  Every entry ever pushed above the sentinel has been consumed by a reduction, handed to
    the destructor, or dropped at an acceptance, exactly once.
   */
  method RunParser(t: Tables, ghost a: Automaton, ghost c: Certificate, depth: nat, toks: seq<Token>)
      returns (p: Parser, n: nat, accepted: bool)
    requires Good(t, a, c) && depth > 0
    requires forall i :: 0 <= i < |toks| ==> toks[i].code < a.g.tokens
    ensures n <= |toks| && p.errors == Reports(a, c, depth, toks[..n]) && p.reduced == Reductions(a, c, depth, toks[..n])
    ensures n < |toks| ==> p.errors != []
    ensures n > 0 ==> Reports(a, c, depth, toks[..n-1]) == []
    ensures accepted <==>
      n > 0 && Feed(a, c, depth, RunStack(a, c, depth, toks[..n-1]), toks[n-1]).verdict == Accepted
    ensures accepted ==> n > 0 && Derives(a.g, a.g.start, LalrRuns.Consumed(a, c, depth, toks[..n-1]))
    ensures p.Valid() && p.model == [SENTINEL]
    ensures forall f ::
      Pushes(p.log, f) == Pops(p.log, StackLog.Consumed, f) + Pops(p.log, Destroyed, f) + Pops(p.log, Dropped, f)
  {
    hide Feed, Good, LalrMachine.Valid, Report, Reports, Reductions, RunStack, Pushes, Pops, PopEach, Derives,
         LalrRuns.Consumed, StackYield;
    GoodIsValid(t, a, c);
    NothingFed(a, c, depth);
    p := new Parser(t, a, c, depth);
    n, accepted := 0, false;
    assert toks[..0] == [];
    while n < |toks| && p.errors == []
      invariant n <= |toks|
      invariant p.t == t && p.a == a && p.c == c && p.yystack.Length == depth && fresh(p) && fresh(p.yystack)
      invariant p.Valid() && p.model == RunStack(a, c, depth, toks[..n])
      invariant p.errors == Reports(a, c, depth, toks[..n]) && p.reduced == Reductions(a, c, depth, toks[..n])
      invariant n > 0 ==> Reports(a, c, depth, toks[..n-1]) == []
      invariant accepted <==>
        n > 0 && Feed(a, c, depth, RunStack(a, c, depth, toks[..n-1]), toks[n-1]).verdict == Accepted
      invariant accepted ==> n > 0 && Derives(a.g, a.g.start, LalrRuns.Consumed(a, c, depth, toks[..n-1]))
    {
      FedOneMore(a, c, depth, toks, n);
      YieldIsConsumed(a, c, depth, toks[..n]);
      p.Parse(toks[n].code, toks[n]);
      accepted := p.yytos == 0 && p.errors == [];
      n := n + 1;
    }
    p.Finalize();
  }

  lemma GoodIsValid(t: Tables, a: Automaton, c: Certificate)
    requires Good(t, a, c)
    ensures LalrMachine.Valid(a, c)
  {
  }

  lemma NothingFed(a: Automaton, c: Certificate, depth: nat)
    requires LalrMachine.Valid(a, c) && depth > 0
    ensures RunStack(a, c, depth, []) == [SENTINEL] && Reductions(a, c, depth, []) == [] && Reports(a, c, depth, []) == []
  {
  }
}
