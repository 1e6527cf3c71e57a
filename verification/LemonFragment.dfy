/**
  A small instance of the tables: the command-list rules of parse.c (rules 311 to 316) with the
  transaction rules 0, 2, 3, 4, 5, 8, 317 to 319 and 325, in the numbering of the symbols of parse.c.

  It shows that the conditions of LemonTables and LalrMachine can be met, with overlapping rows, a
  shared offset, an optimised-out unit rule (313), fallback tokens and pending reductions.
 */
module LemonFragment {
  import opened LemonGrammar
  import opened LalrMachine
  import opened LalrRuns
  import opened LemonTables
  import opened LemonDriver

  /** `yyFallback`: the tokens without a fallback; all others among the first 91 fall back to ID. */
  const NO_FALLBACK: set<nat> :=
    {0, 1, 6, 10, 15, 16, 17, 19, 20, 22, 23, 24, 26, 43, 44, 45, 48, 49, 50, 51, 52, 53, 54, 55, 56, 57, 58, 59}

  function Fallbacks(): (fallback: seq<nat>)
    ensures |fallback| == 91
    ensures forall i :: 0 <= i < 91 ==> fallback[i] == if i in NO_FALLBACK then 0 else 59
  {
    seq(91, i requires 0 <= i < 91 => if i in NO_FALLBACK then 0 else 59)
  }

  const FALLBACK := Fallbacks()

  const RULES: seq<Rule> := [
    Rule(159, [{2}]),                    //  0: explain ::= EXPLAIN
    Rule(158, [{160}]),                  //  1: cmdx ::= cmd
    Rule(160, [{5}, {161}, {162}]),      //  2: cmd ::= BEGIN transtype trans_opt
    Rule(161, []),                       //  3: transtype ::=
    Rule(161, [{7}]),                    //  4: transtype ::= DEFERRED
    Rule(160, [{10, 11}, {162}]),        //  5: cmd ::= COMMIT|END trans_opt
    Rule(155, [{156}]),                  //  6: input ::= cmdlist
    Rule(156, [{156}, {157}]),           //  7: cmdlist ::= cmdlist ecmd
    Rule(156, [{157}]),                  //  8: cmdlist ::= ecmd, optimised out
    Rule(157, [{1}]),                    //  9: ecmd ::= SEMI
    Rule(157, [{158}, {1}]),             // 10: ecmd ::= cmdx SEMI
    Rule(157, [{159}, {158}]),           // 11: ecmd ::= explain cmdx
    Rule(162, []),                       // 12: trans_opt ::=
    Rule(162, [{6}]),                    // 13: trans_opt ::= TRANSACTION
    Rule(162, [{6}, {163}]),             // 14: trans_opt ::= TRANSACTION nm
    Rule(163, [{59, 105}])               // 15: nm ::= ID|INDEXED
  ]

  const GRAMMAR := Grammar(155, RULES, 155, FALLBACK, 91)

  const AUTOMATON := Automaton(
    GRAMMAR,
    [ map[1 := ShiftReduce(9), 2 := ShiftReduce(0), 5 := Shift(4), 10 := Shift(7), 11 := Shift(7)],
      map[0 := Reduce(6), 1 := ShiftReduce(9), 2 := ShiftReduce(0), 5 := Shift(4), 10 := Shift(7), 11 := Shift(7)],
      map[1 := ShiftReduce(10)],
      map[5 := Shift(4), 10 := Shift(7), 11 := Shift(7)],
      map[7 := ShiftReduce(4)],
      map[6 := Shift(6)],
      map[59 := ShiftReduce(15)],
      map[6 := Shift(6)] ],
    [ map[155 := Accept, 156 := Shift(1), 157 := Shift(1), 158 := Shift(2), 159 := Shift(3), 160 := Reduce(1)],
      map[157 := Reduce(7), 158 := Shift(2), 159 := Shift(3), 160 := Reduce(1)],
      map[],
      map[158 := Reduce(11), 160 := Reduce(1)],
      map[161 := Shift(5)],
      map[162 := Reduce(2)],
      map[163 := Reduce(14)],
      map[162 := Reduce(5)] ],
    [Error, Error, Error, Error, Reduce(3), Reduce(12), Reduce(13), Reduce(12)])

  const CERTIFICATE := Certificate(
    [ {Item(6, 0), Item(7, 0), Item(8, 0), Item(9, 0), Item(10, 0), Item(11, 0), Item(0, 0), Item(1, 0), Item(2, 0), Item(5, 0)},
      {Item(6, 1), Item(7, 1), Item(9, 0), Item(10, 0), Item(11, 0), Item(0, 0), Item(1, 0), Item(2, 0), Item(5, 0)},
      {Item(10, 1)},
      {Item(11, 1), Item(1, 0), Item(2, 0), Item(5, 0)},
      {Item(2, 1), Item(3, 0), Item(4, 0)},
      {Item(2, 2), Item(12, 0), Item(13, 0), Item(14, 0)},
      {Item(13, 1), Item(14, 1), Item(15, 0)},
      {Item(5, 1), Item(12, 0), Item(13, 0), Item(14, 0)} ],
    {161, 162},
    map[155 := 2, 156 := 1, 158 := 1],
    2,
    3)

  /** The symbols in the slots of the packed arrays; slots 33 to 61 are unused. */
  function SlotSymbol(i: nat): nat {
    if i < 17 then SlotSymbolLow(i)
    else if i < 33 then SlotSymbolHigh(i)
    else if i == 62 then 59 else 278
  }

  function SlotSymbolLow(i: nat): nat {
    if i == 0 then 0
    else if i == 1 then 1
    else if i == 2 then 2
    else if i == 3 then 1
    else if i == 4 then 2
    else if i == 5 then 5
    else if i == 6 then 1
    else if i == 7 then 5
    else if i == 8 then 7
    else if i == 9 then 5
    else if i == 10 then 10
    else if i == 11 then 11
    else if i == 12 then 10
    else if i == 13 then 11
    else if i == 14 then 10
    else if i == 15 then 11
    else if i == 16 then 6
    else 278
  }

  function SlotSymbolHigh(i: nat): nat {
    if i == 17 then 155
    else if i == 18 then 156
    else if i == 19 then 157
    else if i == 20 then 158
    else if i == 21 then 159
    else if i == 22 then 160
    else if i == 23 then 157
    else if i == 24 then 158
    else if i == 25 then 159
    else if i == 26 then 160
    else if i == 27 then 158
    else if i == 28 then 161
    else if i == 29 then 160
    else if i == 30 then 162
    else if i == 31 then 163
    else if i == 32 then 162
    else 278
  }

  /** The action codes in the slots. */
  function SlotAction(i: nat): nat {
    if i < 17 then SlotActionLow(i)
    else if i < 33 then SlotActionHigh(i)
    else if i == 62 then 23 else 26
  }

  function SlotActionLow(i: nat): nat {
    if i == 0 then 33
    else if i == 1 then 17
    else if i == 2 then 8
    else if i == 3 then 17
    else if i == 4 then 8
    else if i == 5 then 4
    else if i == 6 then 18
    else if i == 7 then 4
    else if i == 8 then 12
    else if i == 9 then 4
    else if i == 10 then 7
    else if i == 11 then 7
    else if i == 12 then 7
    else if i == 13 then 7
    else if i == 14 then 7
    else if i == 15 then 7
    else if i == 16 then 6
    else 26
  }

  function SlotActionHigh(i: nat): nat {
    if i == 17 then 25
    else if i == 18 then 1
    else if i == 19 then 1
    else if i == 20 then 2
    else if i == 21 then 3
    else if i == 22 then 28
    else if i == 23 then 34
    else if i == 24 then 2
    else if i == 25 then 3
    else if i == 26 then 28
    else if i == 27 then 38
    else if i == 28 then 5
    else if i == 29 then 28
    else if i == 30 then 29
    else if i == 31 then 41
    else if i == 32 then 32
    else 26
  }

  function Actions(): (actions: seq<nat>)
    ensures |actions| == 63 && forall i :: 0 <= i < 63 ==> actions[i] == SlotAction(i)
  {
    seq(63, i requires 0 <= i < 63 => SlotAction(i))
  }

  function Lookaheads(): (symbols: seq<nat>)
    ensures |symbols| == 63 && forall i :: 0 <= i < 63 ==> symbols[i] == SlotSymbol(i)
  {
    seq(63, i requires 0 <= i < 63 => SlotSymbol(i))
  }

  const TABLES := Tables(
    Actions(),
    Lookaheads(),
    [2, 0, 5, 4, 1, 10, 3, 10],
    [-138, -134, 0, -131, -133, -132, -132, -130],
    [24, 24, 24, 24, 30, 39, 40, 39],
    FALLBACK,
    [159, 158, 160, 161, 161, 160, 155, 156, 156, 157, 157, 157, 162, 162, 162, 163],
    [-1, -1, -3, 0, -1, -2, -1, -2, -1, -1, -2, -2, 0, -1, -2, -1],
    155, 278, 91, 7, 8, 23, 24, 25, 26, 27, 42)

  lemma Shapes()
    ensures Shaped(AUTOMATON, CERTIFICATE)
  {
  }

  /** The unit rule that the generator optimised out: an ecmd on the stack serves as a cmdlist. */
  lemma UnitRule()
    ensures Covers(GRAMMAR, CERTIFICATE.rank, 156, 157)
  {
    assert RULES[8].lhs == 156 && IsUnit(GRAMMAR, 8, 157);
    assert Rank(CERTIFICATE.rank, 157) < Rank(CERTIFICATE.rank, 156);
  }

  lemma State0OnCmdlist()
    ensures TargetFollows(AUTOMATON, CERTIFICATE, 0, 156, 1)
  {
    hide Fallbacks;
  }

  lemma State0OnEcmd()
    ensures TargetFollows(AUTOMATON, CERTIFICATE, 0, 157, 1)
  {
    hide Fallbacks;
    UnitRule();
    hide Covers;
    assert Expects(AUTOMATON, CERTIFICATE, 0, 6, 0, 157) && Expects(AUTOMATON, CERTIFICATE, 0, 7, 0, 157);
    hide Expects;
  }

  lemma State0OnOthers()
    ensures TargetFollows(AUTOMATON, CERTIFICATE, 0, 158, 2)
    ensures TargetFollows(AUTOMATON, CERTIFICATE, 0, 159, 3)
  {
    hide Fallbacks;
  }

  lemma State0Fused()
    ensures Shaped(AUTOMATON, CERTIFICATE)
    ensures ValidAction(AUTOMATON, CERTIFICATE, 0, 1, ShiftReduce(9))
    ensures ValidAction(AUTOMATON, CERTIFICATE, 0, 2, ShiftReduce(0))
  {
    hide Shaped, Fallbacks;
    Shapes();
  }

  lemma State0OnBegin()
    ensures Shaped(AUTOMATON, CERTIFICATE)
    ensures ValidAction(AUTOMATON, CERTIFICATE, 0, 5, Shift(4))
  {
    hide Shaped, Fallbacks;
    Shapes();
  }

  lemma State0OnCommit()
    ensures Shaped(AUTOMATON, CERTIFICATE)
    ensures ValidAction(AUTOMATON, CERTIFICATE, 0, 10, Shift(7))
  {
    hide Shaped, Fallbacks;
    Shapes();
  }

  lemma State0OnEnd()
    ensures Shaped(AUTOMATON, CERTIFICATE)
    ensures ValidAction(AUTOMATON, CERTIFICATE, 0, 11, Shift(7))
  {
    hide Shaped, Fallbacks;
    Shapes();
  }

  lemma State0Row()
    ensures Shaped(AUTOMATON, CERTIFICATE) && ValidRow(AUTOMATON, CERTIFICATE, 0)
  {
    State0OnBegin();
    State0OnCommit();
    State0OnEnd();
    State0Fused();
    hide ValidAction;
  }

  lemma State0Gotos()
    ensures Shaped(AUTOMATON, CERTIFICATE) && ValidGotos(AUTOMATON, CERTIFICATE, 0)
  {
    hide Shaped, Fallbacks;
    Shapes();
    State0OnCmdlist();
    State0OnEcmd();
    State0OnOthers();
    hide TargetFollows;
  }

  lemma State0Items()
    ensures Shaped(AUTOMATON, CERTIFICATE) && ValidItems(AUTOMATON, CERTIFICATE, 0)
  {
    hide Shaped, Fallbacks;
    Shapes();
  }

  lemma State1Fused()
    ensures Shaped(AUTOMATON, CERTIFICATE)
    ensures ValidAction(AUTOMATON, CERTIFICATE, 1, 1, ShiftReduce(9))
    ensures ValidAction(AUTOMATON, CERTIFICATE, 1, 2, ShiftReduce(0))
    ensures ValidAction(AUTOMATON, CERTIFICATE, 1, 0, Reduce(6))
  {
    hide Shaped, Fallbacks;
    Shapes();
  }

  lemma State1OnBegin()
    ensures Shaped(AUTOMATON, CERTIFICATE)
    ensures ValidAction(AUTOMATON, CERTIFICATE, 1, 5, Shift(4))
  {
    hide Shaped, Fallbacks;
    Shapes();
  }

  lemma State1OnCommit()
    ensures Shaped(AUTOMATON, CERTIFICATE)
    ensures ValidAction(AUTOMATON, CERTIFICATE, 1, 10, Shift(7))
  {
    hide Shaped, Fallbacks;
    Shapes();
  }

  lemma State1OnEnd()
    ensures Shaped(AUTOMATON, CERTIFICATE)
    ensures ValidAction(AUTOMATON, CERTIFICATE, 1, 11, Shift(7))
  {
    hide Shaped, Fallbacks;
    Shapes();
  }

  lemma State1Row()
    ensures Shaped(AUTOMATON, CERTIFICATE) && ValidRow(AUTOMATON, CERTIFICATE, 1)
  {
    State1OnBegin();
    State1OnCommit();
    State1OnEnd();
    State1Fused();
    hide ValidAction;
  }

  lemma State1OnNonterminals()
    ensures ValidGoto(AUTOMATON, CERTIFICATE, 1, 157, Reduce(7))
    ensures ValidGoto(AUTOMATON, CERTIFICATE, 1, 160, Reduce(1))
  {
    hide Shaped, Fallbacks;
  }

  lemma State1OnCmdx()
    ensures ValidGoto(AUTOMATON, CERTIFICATE, 1, 158, Shift(2))
  {
    hide Shaped, Fallbacks;
  }

  lemma State1OnExplain()
    ensures ValidGoto(AUTOMATON, CERTIFICATE, 1, 159, Shift(3))
  {
    hide Shaped, Fallbacks;
  }

  lemma State1Gotos()
    ensures Shaped(AUTOMATON, CERTIFICATE) && ValidGotos(AUTOMATON, CERTIFICATE, 1)
  {
    hide ValidGoto;
    Shapes();
    State1OnNonterminals();
    State1OnCmdx();
    State1OnExplain();
  }

  lemma State1Items()
    ensures Shaped(AUTOMATON, CERTIFICATE) && ValidItems(AUTOMATON, CERTIFICATE, 1)
  {
    hide Shaped, Fallbacks;
    Shapes();
  }

  lemma State2Row()
    ensures Shaped(AUTOMATON, CERTIFICATE) && ValidRow(AUTOMATON, CERTIFICATE, 2)
  {
    hide Shaped, Fallbacks;
    Shapes();
  }

  lemma State2Gotos()
    ensures Shaped(AUTOMATON, CERTIFICATE) && ValidGotos(AUTOMATON, CERTIFICATE, 2)
  {
    hide Shaped, Fallbacks;
    Shapes();
  }

  lemma State2Items()
    ensures Shaped(AUTOMATON, CERTIFICATE) && ValidItems(AUTOMATON, CERTIFICATE, 2)
  {
    hide Shaped, Fallbacks;
    Shapes();
  }

  lemma State3OnBegin()
    ensures Shaped(AUTOMATON, CERTIFICATE)
    ensures ValidAction(AUTOMATON, CERTIFICATE, 3, 5, Shift(4))
  {
    hide Shaped, Fallbacks;
    Shapes();
  }

  lemma State3OnCommit()
    ensures Shaped(AUTOMATON, CERTIFICATE)
    ensures ValidAction(AUTOMATON, CERTIFICATE, 3, 10, Shift(7))
  {
    hide Shaped, Fallbacks;
    Shapes();
  }

  lemma State3OnEnd()
    ensures Shaped(AUTOMATON, CERTIFICATE)
    ensures ValidAction(AUTOMATON, CERTIFICATE, 3, 11, Shift(7))
  {
    hide Shaped, Fallbacks;
    Shapes();
  }

  lemma State3Row()
    ensures Shaped(AUTOMATON, CERTIFICATE) && ValidRow(AUTOMATON, CERTIFICATE, 3)
  {
    hide ValidAction;
    State3OnBegin();
    State3OnCommit();
    State3OnEnd();
  }

  lemma State3Gotos()
    ensures Shaped(AUTOMATON, CERTIFICATE) && ValidGotos(AUTOMATON, CERTIFICATE, 3)
  {
    hide Shaped, Fallbacks;
    Shapes();
  }

  lemma State3Items()
    ensures Shaped(AUTOMATON, CERTIFICATE) && ValidItems(AUTOMATON, CERTIFICATE, 3)
  {
    hide Shaped, Fallbacks;
    Shapes();
  }

  lemma State4Row()
    ensures Shaped(AUTOMATON, CERTIFICATE) && ValidRow(AUTOMATON, CERTIFICATE, 4)
  {
    hide Shaped, Fallbacks;
    Shapes();
  }

  lemma State4Gotos()
    ensures Shaped(AUTOMATON, CERTIFICATE) && ValidGotos(AUTOMATON, CERTIFICATE, 4)
  {
    hide Shaped, Fallbacks;
    Shapes();
  }

  lemma State4Items()
    ensures Shaped(AUTOMATON, CERTIFICATE) && ValidItems(AUTOMATON, CERTIFICATE, 4)
  {
    hide Shaped, Fallbacks;
    Shapes();
  }

  lemma State5Row()
    ensures Shaped(AUTOMATON, CERTIFICATE) && ValidRow(AUTOMATON, CERTIFICATE, 5)
  {
    hide Shaped, Fallbacks;
    Shapes();
  }

  lemma State5Gotos()
    ensures Shaped(AUTOMATON, CERTIFICATE) && ValidGotos(AUTOMATON, CERTIFICATE, 5)
  {
    hide Shaped, Fallbacks;
    Shapes();
  }

  lemma State5Items()
    ensures Shaped(AUTOMATON, CERTIFICATE) && ValidItems(AUTOMATON, CERTIFICATE, 5)
  {
    hide Shaped, Fallbacks;
    Shapes();
  }

  lemma State6Row()
    ensures Shaped(AUTOMATON, CERTIFICATE) && ValidRow(AUTOMATON, CERTIFICATE, 6)
  {
    hide Shaped, Fallbacks;
    Shapes();
  }

  lemma State6Gotos()
    ensures Shaped(AUTOMATON, CERTIFICATE) && ValidGotos(AUTOMATON, CERTIFICATE, 6)
  {
    hide Shaped, Fallbacks;
    Shapes();
  }

  lemma State6Items()
    ensures Shaped(AUTOMATON, CERTIFICATE) && ValidItems(AUTOMATON, CERTIFICATE, 6)
  {
    hide Shaped, Fallbacks;
    Shapes();
  }

  lemma State7Row()
    ensures Shaped(AUTOMATON, CERTIFICATE) && ValidRow(AUTOMATON, CERTIFICATE, 7)
  {
    hide Shaped, Fallbacks;
    Shapes();
  }

  lemma State7Gotos()
    ensures Shaped(AUTOMATON, CERTIFICATE) && ValidGotos(AUTOMATON, CERTIFICATE, 7)
  {
    hide Shaped, Fallbacks;
    Shapes();
  }

  lemma State7Items()
    ensures Shaped(AUTOMATON, CERTIFICATE) && ValidItems(AUTOMATON, CERTIFICATE, 7)
  {
    hide Shaped, Fallbacks;
    Shapes();
  }

  lemma State(s: nat)
    requires s < 8
    ensures Shaped(AUTOMATON, CERTIFICATE)
    ensures ValidRow(AUTOMATON, CERTIFICATE, s)
    ensures ValidGotos(AUTOMATON, CERTIFICATE, s)
    ensures ValidItems(AUTOMATON, CERTIFICATE, s)
  {
    hide *;
    State0Row(); State0Gotos(); State0Items();
    State1Row(); State1Gotos(); State1Items();
    State2Row(); State2Gotos(); State2Items();
    State3Row(); State3Gotos(); State3Items();
    State4Row(); State4Gotos(); State4Items();
    State5Row(); State5Gotos(); State5Items();
    State6Row(); State6Gotos(); State6Items();
    State7Row(); State7Gotos(); State7Items();
    assert s == 0 || s == 1 || s == 2 || s == 3 || s == 4 || s == 5 || s == 6 || s == 7;
  }

  lemma StateDefaults()
    ensures Shaped(AUTOMATON, CERTIFICATE)
    ensures forall s :: 0 <= s < 8 ==> ValidDefault(AUTOMATON, CERTIFICATE, s)
  {
    hide Shaped, Fallbacks;
    Shapes();
  }

  lemma States()
    ensures Shaped(AUTOMATON, CERTIFICATE)
    ensures forall s :: 0 <= s < 8 ==> ValidState(AUTOMATON, CERTIFICATE, s)
  {
    hide Shaped, ValidRow, ValidDefault, ValidGotos, ValidItems;
    StateDefaults();
    forall s | 0 <= s < 8 ensures ValidState(AUTOMATON, CERTIFICATE, s) {
      State(s);
    }
  }

  lemma Rules()
    ensures forall r :: 0 <= r < |RULES| ==> ValidRule(AUTOMATON, CERTIFICATE, r)
  {
    forall r | 0 <= r < |RULES| ensures ValidRule(AUTOMATON, CERTIFICATE, r) {
      if r < 8 { RulesLow(r); } else { RulesHigh(r); }
    }
  }

  lemma RulesLow(r: nat)
    requires 0 <= r < 8
    ensures ValidRule(AUTOMATON, CERTIFICATE, r)
  {
    hide Fallbacks;
    if r == 0 {
      assert !PositionNullable(CERTIFICATE, RULES[0].rhs[0]);
    }
    else if r == 1 {
      assert !PositionNullable(CERTIFICATE, RULES[1].rhs[0]);
    }
    else if r == 2 {
      assert !PositionNullable(CERTIFICATE, RULES[2].rhs[0]);
    }
    else if r == 3 {
    }
    else if r == 4 {
      assert !PositionNullable(CERTIFICATE, RULES[4].rhs[0]);
    }
    else if r == 5 {
      assert !PositionNullable(CERTIFICATE, RULES[5].rhs[0]);
    }
    else if r == 6 {
      assert !PositionNullable(CERTIFICATE, RULES[6].rhs[0]);
    }
    else if r == 7 {
      assert !PositionNullable(CERTIFICATE, RULES[7].rhs[0]) && !PositionNullable(CERTIFICATE, RULES[7].rhs[1]);
    }
  }

  lemma RulesHigh(r: nat)
    requires 8 <= r < 16
    ensures ValidRule(AUTOMATON, CERTIFICATE, r)
  {
    hide Fallbacks;
    if r == 8 {
      assert !PositionNullable(CERTIFICATE, RULES[8].rhs[0]);
    }
    else if r == 9 {
      assert !PositionNullable(CERTIFICATE, RULES[9].rhs[0]);
    }
    else if r == 10 {
      assert !PositionNullable(CERTIFICATE, RULES[10].rhs[0]) && !PositionNullable(CERTIFICATE, RULES[10].rhs[1]);
    }
    else if r == 11 {
      assert !PositionNullable(CERTIFICATE, RULES[11].rhs[0]) && !PositionNullable(CERTIFICATE, RULES[11].rhs[1]);
    }
    else if r == 12 {
    }
    else if r == 13 {
      assert !PositionNullable(CERTIFICATE, RULES[13].rhs[0]);
    }
    else if r == 14 {
      assert !PositionNullable(CERTIFICATE, RULES[14].rhs[0]) && !PositionNullable(CERTIFICATE, RULES[14].rhs[1]);
    }
    else if r == 15 {
      assert !PositionNullable(CERTIFICATE, RULES[15].rhs[0]);
    }
  }

  lemma Placed0()
    ensures forall sym :: sym in AUTOMATON.rows[0] ==> ShiftPlaced(TABLES, AUTOMATON, 0, sym)
    ensures forall sym :: sym in AUTOMATON.gotos[0] ==> GotoPlaced(TABLES, AUTOMATON, 0, sym)
  {
  }

  lemma Placed1()
    ensures forall sym :: sym in AUTOMATON.rows[1] ==> ShiftPlaced(TABLES, AUTOMATON, 1, sym)
    ensures forall sym :: sym in AUTOMATON.gotos[1] ==> GotoPlaced(TABLES, AUTOMATON, 1, sym)
  {
  }

  lemma Placed2()
    ensures forall sym :: sym in AUTOMATON.rows[2] ==> ShiftPlaced(TABLES, AUTOMATON, 2, sym)
    ensures forall sym :: sym in AUTOMATON.gotos[2] ==> GotoPlaced(TABLES, AUTOMATON, 2, sym)
  {
  }

  lemma Placed3()
    ensures forall sym :: sym in AUTOMATON.rows[3] ==> ShiftPlaced(TABLES, AUTOMATON, 3, sym)
    ensures forall sym :: sym in AUTOMATON.gotos[3] ==> GotoPlaced(TABLES, AUTOMATON, 3, sym)
  {
  }

  lemma Placed4()
    ensures forall sym :: sym in AUTOMATON.rows[4] ==> ShiftPlaced(TABLES, AUTOMATON, 4, sym)
    ensures forall sym :: sym in AUTOMATON.gotos[4] ==> GotoPlaced(TABLES, AUTOMATON, 4, sym)
  {
  }

  lemma Placed5()
    ensures forall sym :: sym in AUTOMATON.rows[5] ==> ShiftPlaced(TABLES, AUTOMATON, 5, sym)
    ensures forall sym :: sym in AUTOMATON.gotos[5] ==> GotoPlaced(TABLES, AUTOMATON, 5, sym)
  {
  }

  lemma Placed6()
    ensures forall sym :: sym in AUTOMATON.rows[6] ==> ShiftPlaced(TABLES, AUTOMATON, 6, sym)
    ensures forall sym :: sym in AUTOMATON.gotos[6] ==> GotoPlaced(TABLES, AUTOMATON, 6, sym)
  {
  }

  lemma Placed7()
    ensures forall sym :: sym in AUTOMATON.rows[7] ==> ShiftPlaced(TABLES, AUTOMATON, 7, sym)
    ensures forall sym :: sym in AUTOMATON.gotos[7] ==> GotoPlaced(TABLES, AUTOMATON, 7, sym)
  {
  }

  /** The rows that own the slots with terminals. */
  lemma Slot(i: nat)
    requires i < 63
    ensures SlotOwned(TABLES, AUTOMATON, i)
  {
    if i == 0 {
      assert TABLES.shiftOfst[1] + 0 == i && 0 in AUTOMATON.rows[1];
    }
    if i == 1 {
      assert TABLES.shiftOfst[1] + 1 == i && 1 in AUTOMATON.rows[1];
    }
    if i == 2 {
      assert TABLES.shiftOfst[1] + 2 == i && 2 in AUTOMATON.rows[1];
    }
    if i == 3 {
      assert TABLES.shiftOfst[0] + 1 == i && 1 in AUTOMATON.rows[0];
    }
    if i == 4 {
      assert TABLES.shiftOfst[0] + 2 == i && 2 in AUTOMATON.rows[0];
    }
    if i == 5 {
      assert TABLES.shiftOfst[1] + 5 == i && 5 in AUTOMATON.rows[1];
    }
    if i == 6 {
      assert TABLES.shiftOfst[2] + 1 == i && 1 in AUTOMATON.rows[2];
    }
    if i == 7 {
      assert TABLES.shiftOfst[0] + 5 == i && 5 in AUTOMATON.rows[0];
    }
    if i == 8 {
      assert TABLES.shiftOfst[4] + 7 == i && 7 in AUTOMATON.rows[4];
    }
    if i == 9 {
      assert TABLES.shiftOfst[3] + 5 == i && 5 in AUTOMATON.rows[3];
    }
    if i == 10 {
      assert TABLES.shiftOfst[1] + 10 == i && 10 in AUTOMATON.rows[1];
    }
    if i == 11 {
      assert TABLES.shiftOfst[1] + 11 == i && 11 in AUTOMATON.rows[1];
    }
    if i == 12 {
      assert TABLES.shiftOfst[0] + 10 == i && 10 in AUTOMATON.rows[0];
    }
    if i == 13 {
      assert TABLES.shiftOfst[0] + 11 == i && 11 in AUTOMATON.rows[0];
    }
    if i == 14 {
      assert TABLES.shiftOfst[3] + 10 == i && 10 in AUTOMATON.rows[3];
    }
    if i == 15 {
      assert TABLES.shiftOfst[3] + 11 == i && 11 in AUTOMATON.rows[3];
    }
    if i == 16 {
      assert TABLES.shiftOfst[5] + 6 == i && 6 in AUTOMATON.rows[5];
    }
    if i == 62 {
      assert TABLES.shiftOfst[6] + 59 == i && 59 in AUTOMATON.rows[6];
    }
  }

  lemma SlotsOwned()
    ensures forall i :: 0 <= i < |TABLES.lookahead| ==> SlotOwned(TABLES, AUTOMATON, i)
  {
    forall i | 0 <= i < |TABLES.lookahead| ensures SlotOwned(TABLES, AUTOMATON, i) {
      Slot(i);
    }
  }

  lemma AllPlaced(s: nat)
    requires s < 8
    ensures forall sym :: sym in AUTOMATON.rows[s] ==> ShiftPlaced(TABLES, AUTOMATON, s, sym)
    ensures forall sym :: sym in AUTOMATON.gotos[s] ==> GotoPlaced(TABLES, AUTOMATON, s, sym)
  {
    Placed0(); Placed1(); Placed2(); Placed3(); Placed4(); Placed5(); Placed6(); Placed7();
    assert s == 0 || s == 1 || s == 2 || s == 3 || s == 4 || s == 5 || s == 6 || s == 7;
  }

  lemma Numbers()
    ensures Numbered(TABLES, AUTOMATON) && SameGrammar(TABLES, AUTOMATON)
  {
  }

  lemma Defaults()
    ensures forall s :: 0 <= s < 8 ==>
      Coded(TABLES, AUTOMATON, AUTOMATON.defaults[s]) && TABLES.defaults[s] == Code(TABLES, AUTOMATON.defaults[s])
  {
  }

  /** States 5 and 7 share an offset. */
  lemma Offsets()
    ensures SeparateOffsets(TABLES, AUTOMATON)
  {
    hide Fallbacks, Actions, Lookaheads;
    forall s, s' | 0 <= s < 8 && 0 <= s' < 8 && TABLES.shiftOfst[s] == TABLES.shiftOfst[s']
      ensures AUTOMATON.rows[s] == AUTOMATON.rows[s']
    {
      SharedOffset(s, s');
    }
  }

  lemma SharedOffset(s: nat, s': nat)
    requires s < 8 && s' < 8 && [2, 0, 5, 4, 1, 10, 3, 10][s] == [2, 0, 5, 4, 1, 10, 3, 10][s']
    ensures s == s' || (s == 5 && s' == 7) || (s == 7 && s' == 5)
  {
  }

  /** The conditions under which the driver is proved correct hold of these tables. */
  lemma {:induction false} FragmentIsGood()
    ensures Good(TABLES, AUTOMATON, CERTIFICATE)
  {
    hide ShiftPlaced, GotoPlaced, SlotOwned, ValidState, ValidRule, Numbered, SameGrammar, SeparateOffsets;
    Numbers();
    Defaults();
    Offsets();
    SlotsOwned();
    States();
    Rules();
    forall s | 0 <= s < 8
      ensures forall sym :: sym in AUTOMATON.rows[s] ==> ShiftPlaced(TABLES, AUTOMATON, s, sym)
      ensures forall sym :: sym in AUTOMATON.gotos[s] ==> GotoPlaced(TABLES, AUTOMATON, s, sym)
    {
      AllPlaced(s);
    }
  }

}
