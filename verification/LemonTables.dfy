/**
  The packed tables of parse.c: one action array in which the rows of all states overlap, a parallel
  array of lookaheads that tells the rows apart, and an offset for each state.

  `Packing` says how a generator may lay rows into the arrays.  `PackingIsExact` shows that a lookup
  through the arrays then never sees another row's entry.
 */
module LemonTables {
  import opened Wrappers
  import opened LemonGrammar
  import opened LalrMachine

  datatype Tables = Tables(
    action: seq<nat>,
    lookahead: seq<nat>,
    shiftOfst: seq<nat>,
    reduceOfst: seq<int>,     // may be negative
    defaults: seq<nat>,
    fallback: seq<nat>,
    ruleLhs: seq<nat>,
    ruleNRhs: seq<int>,       // minus the length of the right-hand side
    nToken: nat,
    noCode: nat,
    wildcard: nat,
    maxShift: nat,
    minShiftReduce: nat,
    maxShiftReduce: nat,
    errorAction: nat,
    acceptAction: nat,
    noAction: nat,
    minReduce: nat,
    maxReduce: nat)

  /** The ranges of action codes, in the order in which they are numbered. */
  predicate Numbered(t: Tables, a: Automaton) {
    && |a.rows| == |a.gotos| == |a.defaults| == t.maxShift + 1
    && t.maxShift < t.minShiftReduce
    && t.maxShiftReduce + 1 == t.minShiftReduce + |a.g.rules|
    && t.maxShiftReduce < t.errorAction
    && t.errorAction + 1 == t.acceptAction
    && t.acceptAction + 1 == t.noAction
    && t.noAction + 1 == t.minReduce
    && t.maxReduce + 1 == t.minReduce + |a.g.rules|
  }

  /** The number that stands for an action. */
  function Code(t: Tables, act: Act): nat {
    match act
    case Shift(n) => n
    case ShiftReduce(r) => t.minShiftReduce + r
    case Error => t.errorAction
    case Accept => t.acceptAction
    case Reduce(r) => t.minReduce + r
  }

  /** Action codes in range. */
  predicate Coded(t: Tables, a: Automaton, act: Act) {
    match act
    case Shift(n) => n <= t.maxShift
    case ShiftReduce(r) => r < |a.g.rules|
    case Reduce(r) => r < |a.g.rules|
    case Error => true
    case Accept => true
  }

  predicate SameGrammar(t: Tables, a: Automaton) {
    && t.nToken == a.g.tokens && t.wildcard == a.g.wildcard && t.fallback == a.g.fallback
    && t.wildcard < t.nToken <= t.noCode
    && |t.ruleLhs| == |t.ruleNRhs| == |a.g.rules|
    && forall r :: 0 <= r < |a.g.rules| ==>
         t.ruleLhs[r] == a.g.rules[r].lhs && t.ruleNRhs[r] == -|a.g.rules[r].rhs|
  }

  /** Entry `sym` of the shift row of state s is in its slot. */
  predicate ShiftPlaced(t: Tables, a: Automaton, s: nat, sym: nat)
    requires s < |a.rows| && s < |t.shiftOfst| && sym in a.rows[s]
  {
    var i := t.shiftOfst[s] + sym;
    sym < t.nToken && i < |t.action| && i < |t.lookahead| && t.lookahead[i] == sym
    && t.action[i] == Code(t, a.rows[s][sym]) && Coded(t, a, a.rows[s][sym])
  }

  predicate GotoPlaced(t: Tables, a: Automaton, s: nat, sym: nat)
    requires s < |a.gotos| && sym in a.gotos[s]
  {
    && s < |t.reduceOfst|
    && var i := t.reduceOfst[s] + sym;
    && sym >= t.nToken && sym < t.noCode && 0 <= i < |t.action| && i < |t.lookahead| && t.lookahead[i] == sym
    && t.action[i] == Code(t, a.gotos[s][sym]) && Coded(t, a, a.gotos[s][sym])
  }

  /** A slot that carries a terminal belongs to some row of that offset. */
  predicate SlotOwned(t: Tables, a: Automaton, i: nat)
    requires i < |t.lookahead| && |t.shiftOfst| <= |a.rows|
  {
    t.lookahead[i] < t.nToken ==>
      exists s :: 0 <= s < |t.shiftOfst| && t.shiftOfst[s] + t.lookahead[i] == i && t.lookahead[i] in a.rows[s]
  }

  /** Every entry is in its slot, and every slot with a terminal belongs to a row. */
  predicate Laid(t: Tables, a: Automaton) {
    && Numbered(t, a) && SameGrammar(t, a)
    && |t.shiftOfst| == |t.defaults| == |a.rows|
    && |t.reduceOfst| <= |a.gotos|
    && |t.action| <= |t.lookahead|
    && (forall s :: 0 <= s < |a.rows| ==> Coded(t, a, a.defaults[s]) && t.defaults[s] == Code(t, a.defaults[s]))
    && (forall s :: 0 <= s < |a.rows| ==> forall sym :: sym in a.rows[s] ==> ShiftPlaced(t, a, s, sym))
    && (forall s :: 0 <= s < |a.gotos| ==> forall sym :: sym in a.gotos[s] ==> GotoPlaced(t, a, s, sym))
    && (forall i :: 0 <= i < |t.lookahead| ==> SlotOwned(t, a, i))
  }

  /** Two states share an offset only if their rows are the same. */
  predicate SeparateOffsets(t: Tables, a: Automaton)
    requires |t.shiftOfst| == |a.rows|
  {
    forall s, s' :: 0 <= s < |a.rows| && 0 <= s' < |a.rows| && t.shiftOfst[s] == t.shiftOfst[s'] ==>
      a.rows[s] == a.rows[s']
  }

  /** A row-displacement packing of the rows into the arrays. */
  predicate Packing(t: Tables, a: Automaton) {
    Laid(t, a) && SeparateOffsets(t, a)
  }

  /** What the C code tests: the slot at the state's offset carries the token. */
  predicate Present(t: Tables, s: nat, tok: nat)
    requires s < |t.shiftOfst|
  {
    t.shiftOfst[s] + tok < |t.lookahead| && t.lookahead[t.shiftOfst[s] + tok] == tok
  }

  /** The test on the lookahead array holds exactly for the explicit entries of the state's own row. */
  lemma PackingIsExact(t: Tables, a: Automaton, s: nat, tok: nat)
    requires Packing(t, a) && s < |a.rows| && tok < t.nToken
    ensures Present(t, s, tok) <==> tok in a.rows[s]
    ensures Present(t, s, tok) ==>
      && t.shiftOfst[s] + tok < |t.action|
      && t.action[t.shiftOfst[s] + tok] == Code(t, a.rows[s][tok])
  {
    var i := t.shiftOfst[s] + tok;
    if Present(t, s, tok) {
      assert SlotOwned(t, a, i);
      // the owner's offset is i - tok as well, so its row is the row of s
      var owner :| 0 <= owner < |t.shiftOfst| && t.shiftOfst[owner] + t.lookahead[i] == i
        && t.lookahead[i] in a.rows[owner];
    }
    if tok in a.rows[s] {
      assert ShiftPlaced(t, a, s, tok);
    }
  }

  /** An action code stands for one action only. */
  lemma CodeIsInjective(t: Tables, a: Automaton, x: Act, y: Act)
    requires Numbered(t, a) && Coded(t, a, x) && Coded(t, a, y) && Code(t, x) == Code(t, y)
    ensures x == y
  {
  }

  /** The condition on offsets cannot be dropped: wherever the test is exact, it holds. */
  lemma ExactNeedsSeparateOffsets(t: Tables, a: Automaton)
    requires Laid(t, a)
    requires forall s, tok :: 0 <= s < |a.rows| && 0 <= tok < t.nToken ==> (Present(t, s, tok) <==> tok in a.rows[s])
    ensures SeparateOffsets(t, a)
  {
    forall s, s' | 0 <= s < |a.rows| && 0 <= s' < |a.rows| && t.shiftOfst[s] == t.shiftOfst[s']
      ensures a.rows[s] == a.rows[s']
    {
      forall tok ensures tok in a.rows[s] <==> tok in a.rows[s'] {
        if tok in a.rows[s] { assert ShiftPlaced(t, a, s, tok) && Present(t, s', tok); }
        if tok in a.rows[s'] { assert ShiftPlaced(t, a, s', tok) && Present(t, s, tok); }
      }
      forall tok | tok in a.rows[s] ensures a.rows[s][tok] == a.rows[s'][tok] {
        assert ShiftPlaced(t, a, s, tok) && ShiftPlaced(t, a, s', tok);
        CodeIsInjective(t, a, a.rows[s][tok], a.rows[s'][tok]);
      }
    }
  }

  /** A state as it is stored in the `stateno` field of a stack entry. */
  function StateCode(t: Tables, s: PState): nat {
    match s
    case Real(n) => n
    case Complete(r) => t.minReduce + r
    case Final => t.acceptAction
  }

  /** `sqlite3ParserFallback`: the token that may stand in for iToken, or 0. */
  function ParserFallback(t: Tables, iToken: nat): nat {
    if iToken < |t.fallback| then t.fallback[iToken] else 0
  }

  /** It is 0 exactly for the tokens without a fallback; the token may be read as it; and it has none itself. */
  lemma FallbackIsFinal(t: Tables, a: Automaton, iToken: nat)
    requires Packing(t, a) && FallbacksEnd(t.fallback)
    ensures ParserFallback(t, iToken) != 0 <==> HasFallback(a.g, iToken)
    ensures ParserFallback(t, iToken) != 0 ==>
      ReadAs(a.g, iToken, ParserFallback(t, iToken)) && ParserFallback(t, ParserFallback(t, iToken)) == 0
  {
    assert iToken < |t.fallback| ==> FallbackEnds(t.fallback, iToken);
  }

  /** `yy_find_shift_action`: one round for the token, at most one more for its fallback. */
  method FindShiftAction(t: Tables, ghost a: Automaton, iLookAhead: nat, stateno: nat)
    returns (yyact: nat, ghost rounds: nat)
    requires Packing(t, a) && iLookAhead < t.nToken
    requires FallbacksEnd(t.fallback)
    requires |t.fallback| <= t.nToken
    ensures stateno > t.maxShift ==> yyact == stateno
    ensures stateno <= t.maxShift ==> yyact == Code(t, Lookup(a, stateno, iLookAhead))
    // the token's own entry comes first, then its fallback's, then the wildcard's, then the default
    ensures stateno <= t.maxShift ==>
      var row, fallback := a.rows[stateno], if iLookAhead < |t.fallback| then t.fallback[iLookAhead] else 0;
      && (iLookAhead in row ==> yyact == Code(t, row[iLookAhead]))
      && (iLookAhead !in row && fallback != 0 && fallback in row ==> yyact == Code(t, row[fallback]))
      && (iLookAhead !in row && (fallback == 0 || fallback !in row) ==>
            yyact == if t.wildcard in row && (iLookAhead > 0 || fallback != 0) then Code(t, row[t.wildcard])
                     else t.defaults[stateno])
    ensures stateno <= t.maxShift && (forall sym :: sym in a.rows[stateno] ==> !ReadAs(a.g, iLookAhead, sym)) ==>
      yyact == t.defaults[stateno]
    ensures rounds <= 2
  {
    rounds := 0;
    if stateno > t.maxShift {
      return stateno, 0;
    }
    var look: nat := iLookAhead;
    while true
      invariant look < t.nToken
      invariant rounds <= if HasFallback(a.g, look) then 0 else 1
      invariant Lookup(a, stateno, look) == Lookup(a, stateno, iLookAhead)
      decreases if HasFallback(a.g, look) then 1 else 0
    {
      rounds := rounds + 1;
      var i := t.shiftOfst[stateno] + look;
      PackingIsExact(t, a, stateno, look);
      if i >= |t.lookahead| || t.lookahead[i] != look {
        var iFallback := ParserFallback(t, look);
        if iFallback != 0 {
          FallbackIsFinal(t, a, look);
          FallbackIsFinal(t, a, iFallback);
          assert ParserFallback(t, iFallback) == 0;   // asserted by the C code
          assert iFallback == t.fallback[look] && FallbackEnds(t.fallback, look);
          look := iFallback;
          continue;
        }
        var j := i - look + t.wildcard;
        PackingIsExact(t, a, stateno, t.wildcard);
        if j < |t.lookahead| && t.lookahead[j] == t.wildcard && look > 0 {
          return t.action[j], rounds;
        }
        return t.defaults[stateno], rounds;
      } else {
        return t.action[i], rounds;
      }
    }
  }

  /** `yy_find_reduce_action`, under the conditions that it asserts. */
  method FindReduceAction(t: Tables, ghost a: Automaton, stateno: nat, iLookAhead: nat) returns (yyact: nat)
    requires Packing(t, a) && stateno < |a.gotos| && iLookAhead in a.gotos[stateno]
    ensures yyact == Code(t, a.gotos[stateno][iLookAhead]) && Coded(t, a, a.gotos[stateno][iLookAhead])
  {
    assert GotoPlaced(t, a, stateno, iLookAhead);
    assert stateno < |t.reduceOfst|;
    var i := t.reduceOfst[stateno];
    assert iLookAhead != t.noCode;
    i := i + iLookAhead;
    assert 0 <= i < |t.action|;
    assert t.lookahead[i] == iLookAhead;
    yyact := t.action[i];
  }
}
