/**
  Compound SELECT statements in parse.c: the actions of the rules for `values`, `selectnowith` and `select`
  build a chain of `Select` objects, and `parserDoubleLinkSelect` closes it.
 */
module SelectChain {
  import opened Wrappers

  datatype SelectOp = PlainSelect | Union | UnionAll | Except | Intersect

  /** The bits of `selFlags` that these rules use. */
  datatype Flags = Flags(values: bool, multiValue: bool, compound: bool)

  class Select {
    const columns: Option<nat>       // stands for everything that is written in one term; None is `*`
    const pFrom: Select?             // a subquery as the only term of the FROM clause
    var op: SelectOp
    var selFlags: Flags
    var pPrior: Select?
    var pNext: Select?
    ghost const inner: seq<Select>   // the chain of the subquery

    /** `sqlite3SelectNew`. */
    constructor (columns: Option<nat>, pFrom: Select?, ghost inner: seq<Select>, selFlags: Flags)
      ensures this.columns == columns && this.pFrom == pFrom && this.inner == inner
      ensures this.selFlags == selFlags && op == PlainSelect && pPrior == null && pNext == null
    {
      this.columns := columns;
      this.pFrom := pFrom;
      this.inner := inner;
      this.selFlags := selFlags;
      op := PlainSelect;
      pPrior := null;
      pNext := null;
    }
  }

  class Parse {
    const compoundLimit: int      // SQLITE_LIMIT_COMPOUND_SELECT
    var errors: nat
    var hasCompound: bool

    constructor (compoundLimit: int)
      ensures this.compoundLimit == compoundLimit && errors == 0 && !hasCompound
    {
      this.compoundLimit := compoundLimit;
      errors := 0;
      hasCompound := false;
    }
  }

  // ---------------------------------------------------------------------------------------------
  // What is written

  /** `oneselect`: a SELECT or the rows of a VALUES clause. */
  datatype One = Core(columns: nat) | Rows(first: nat, more: seq<nat>)

  datatype Operand = Operand(op: SelectOp, one: One)

  /** `selectnowith`: any number of operands behind the first. */
  datatype Query = Query(first: One, rest: seq<Operand>)

  /** What a term of the chain holds. */
  datatype Content = Columns(columns: nat) | Row(columns: nat) | Subquery(rows: seq<nat>)

  datatype Term = Term(op: SelectOp, content: Content)

  function RowTerms(rows: seq<nat>): (terms: seq<Term>)
    ensures |terms| == |rows| && forall i :: 0 <= i < |rows| ==> terms[i] == Term(UnionAll, Row(rows[i]))
  {
    if rows == [] then [] else RowTerms(rows[..|rows|-1]) + [Term(UnionAll, Row(rows[|rows|-1]))]
  }

  /** A leftmost operand contributes each of its rows as a term. */
  function FirstTerms(one: One): seq<Term> {
    match one
    case Core(c) => [Term(PlainSelect, Columns(c))]
    case Rows(first, more) => [Term(PlainSelect, Row(first))] + RowTerms(more)
  }

  /** Any other operand is one term; several rows become a subquery. */
  function NextContent(one: One): Content {
    match one
    case Core(c) => Columns(c)
    case Rows(first, more) => if more == [] then Row(first) else Subquery([first] + more)
  }

  function NextTerm(x: Operand): Term { Term(x.op, NextContent(x.one)) }

  function NextTerms(rest: seq<Operand>): (terms: seq<Term>)
    ensures |terms| == |rest| && forall i :: 0 <= i < |rest| ==> terms[i] == NextTerm(rest[i])
  {
    if rest == [] then [] else NextTerms(rest[..|rest|-1]) + [NextTerm(rest[|rest|-1])]
  }

  /** The terms of a query from left to right. */
  function Terms(q: Query): seq<Term> { FirstTerms(q.first) + NextTerms(q.rest) }

  /** The terms stand in the order of the operands, each with the operator in front of it. */
  lemma {:induction false} TermsAsWritten(q: Query)
    ensures match q.first
            case Core(c) => |Terms(q)| == 1 + |q.rest| && Terms(q)[0] == Term(PlainSelect, Columns(c))
            case Rows(first, more) =>
              && |Terms(q)| == 1 + |more| + |q.rest| && Terms(q)[0] == Term(PlainSelect, Row(first))
              && forall j :: 0 <= j < |more| ==> Terms(q)[1+j] == Term(UnionAll, Row(more[j]))
    ensures forall i :: 0 <= i < |q.rest| ==>
      var term := Terms(q)[|Terms(q)|-|q.rest|+i];
      && term.op == q.rest[i].op
      && match q.rest[i].one
         case Core(c) => term.content == Columns(c)
         case Rows(first, more) => term.content == if |more| == 0 then Row(first) else Subquery([first] + more)
  {
    var firsts := FirstTerms(q.first);
    forall i | 0 <= i < |q.rest| ensures Terms(q)[|firsts|+i] == NextTerm(q.rest[i]) {
      assert Terms(q)[|firsts|+i] == NextTerms(q.rest)[i];
    }
  }

  /** A VALUES clause with at least two rows and nothing else. */
  predicate PureMultiValue(q: Query) { q.rest == [] && q.first.Rows? && q.first.more != [] }

  // ---------------------------------------------------------------------------------------------
  // What is built

  function LeftOf(nodes: seq<Select>, i: nat): Select?
    requires i < |nodes|
  {
    if i > 0 then nodes[i-1] else null
  }

  function RightOf(nodes: seq<Select>, i: nat): Select?
    requires i < |nodes|
  {
    if i + 1 < |nodes| then nodes[i+1] else null
  }

  predicate Distinct(nodes: seq<Select>) {
    forall i, j :: 0 <= i < j < |nodes| ==> nodes[i] != nodes[j]
  }

  /**
    The objects of a chain, listed from left to right as their terms are written.  The chain is held by its
    last object and `pPrior` leads from right to left; as the objects differ, there is no cycle.
   */
  ghost predicate Chain(nodes: seq<Select>)
    reads nodes
  {
    && nodes != []
    && Distinct(nodes)
    && forall i :: 0 <= i < |nodes| ==> nodes[i].pPrior == LeftOf(nodes, i)
  }

  /** `pNext` leads from left to right. */
  ghost predicate DoublyLinked(nodes: seq<Select>)
    reads nodes
  {
    forall i :: 0 <= i < |nodes| ==> nodes[i].pNext == RightOf(nodes, i) && nodes[i].selFlags.compound
  }

  ghost predicate NotLinked(nodes: seq<Select>)
    reads nodes
  {
    forall i :: 0 <= i < |nodes| ==> nodes[i].pNext == null && !nodes[i].selFlags.compound
  }

  /** SF_MultiValue is set on the head or nowhere. */
  ghost predicate HeadMultiValue(nodes: seq<Select>, multi: bool)
    reads nodes
  {
    forall i :: 0 <= i < |nodes| ==> (nodes[i].selFlags.multiValue <==> i == |nodes| - 1 && multi)
  }

  ghost predicate Plain(s: Select, content: Content)
    requires !content.Subquery?
    reads s
  {
    s.columns == Some(content.columns) && s.pFrom == null && s.inner == [] && (s.selFlags.values <==> content.Row?)
  }

  /** The terms of a VALUES clause. */
  ghost predicate IsRowChain(nodes: seq<Select>, rows: seq<nat>)
    reads nodes
  {
    && Chain(nodes) && HeadMultiValue(nodes, |rows| > 1)
    && |nodes| == |rows|
    && forall i :: 0 <= i < |nodes| ==> nodes[i].op == RowOp(i) && Plain(nodes[i], Row(rows[i]))
  }

  function RowOp(i: nat): SelectOp { if i == 0 then PlainSelect else UnionAll }

  ghost predicate IsSubquery(nodes: seq<Select>, rows: seq<nat>)
    reads nodes
  {
    IsRowChain(nodes, rows) && DoublyLinked(nodes)
  }

  ghost predicate Holds(s: Select, content: Content)
    reads s, s.inner
  {
    if content.Subquery? then
      && s.columns == None && !s.selFlags.values
      && s.inner != [] && s.pFrom == s.inner[|s.inner|-1]
      && IsSubquery(s.inner, content.rows)
    else
      Plain(s, content)
  }

  /** What the rules for `oneselect` hand over. */
  ghost predicate IsOne(nodes: seq<Select>, one: One)
    reads nodes
  {
    match one
    case Core(c) =>
      && |nodes| == 1 && Chain(nodes) && HeadMultiValue(nodes, false)
      && nodes[0].op == PlainSelect && Plain(nodes[0], Columns(c))
    case Rows(first, more) => IsRowChain(nodes, [first] + more)
  }

  predicate Apart(a: seq<Select>, b: seq<Select>) {
    forall i, j :: 0 <= i < |a| && 0 <= j < |b| ==> a[i] != b[j]
  }

  predicate Lacks(nodes: seq<Select>, p: Select) {
    forall i :: 0 <= i < |nodes| ==> nodes[i] != p
  }

  ghost function Inner(nodes: seq<Select>): set<Select> {
    set s, x | s in nodes && x in s.inner :: x
  }

  /** The chain holds the terms, and no subquery shares objects with it. */
  ghost predicate Represents(nodes: seq<Select>, terms: seq<Term>)
    reads nodes, Inner(nodes)
  {
    && Chain(nodes) && |nodes| == |terms|
    && (forall i :: 0 <= i < |nodes| ==> Apart(nodes[i].inner, nodes))
    && forall i :: 0 <= i < |nodes| ==> 
         && (forall x :: x in nodes[i].inner ==> x in Inner(nodes))
         && nodes[i].op == terms[i].op && Holds(nodes[i], terms[i].content)
  }

  // ---------------------------------------------------------------------------------------------
  // `parserDoubleLinkSelect`

  /** The loop of `parserDoubleLinkSelect`. */
  method LinkTerms(p: Select, ghost nodes: seq<Select>) returns (cnt: nat)
    requires nodes != [] && Chain(nodes) && nodes[|nodes|-1] == p
    modifies nodes
    ensures Chain(nodes) && DoublyLinked(nodes) && cnt == |nodes|
    ensures forall i :: 0 <= i < |nodes| ==> nodes[i].op == old(nodes[i].op)
    ensures forall i :: 0 <= i < |nodes| ==> nodes[i].selFlags == old(nodes[i].selFlags).(compound := true)
  {
    hide Chain, DoublyLinked, LeftOf, RightOf;
    Unfolded(nodes);
    var pNext: Select?, pLoop: Select? := null, p;
    cnt := 0;
    ghost var n, k := |nodes|, |nodes|;
    while pLoop != null
      invariant 0 <= k <= n && cnt == n - k
      invariant pLoop == if k > 0 then nodes[k-1] else null
      invariant pNext == if k < n then nodes[k] else null
      invariant forall i :: 0 <= i < n ==> nodes[i].pPrior == LeftOf(nodes, i) && nodes[i].op == old(nodes[i].op)
      invariant forall i :: k <= i < n ==>
        nodes[i].pNext == RightOf(nodes, i) && nodes[i].selFlags == old(nodes[i].selFlags).(compound := true)
      invariant forall i :: 0 <= i < k ==> nodes[i].selFlags == old(nodes[i].selFlags)
      decreases k
    {
      Neighbours(nodes, k - 1);
      pLoop.pNext := pNext;
      pLoop.selFlags := pLoop.selFlags.(compound := true);
      pNext, pLoop, cnt := pLoop, pLoop.pPrior, cnt + 1;
      k := k - 1;
    }
    Folded(nodes);
  }

  method ParserDoubleLinkSelect(parse: Parse, p: Select, ghost nodes: seq<Select>)
    requires nodes != [] && Chain(nodes) && nodes[|nodes|-1] == p && NotLinked(nodes)
    modifies parse`errors, nodes
    ensures Chain(nodes)
    ensures if |nodes| > 1 then DoublyLinked(nodes) else NotLinked(nodes)
    ensures forall i :: 0 <= i < |nodes| ==> nodes[i].op == old(nodes[i].op)
    ensures forall i :: 0 <= i < |nodes| ==> nodes[i].selFlags == old(nodes[i].selFlags).(compound := |nodes| > 1)
    ensures parse.errors == old(parse.errors) +
      if !p.selFlags.multiValue && 0 < parse.compoundLimit < |nodes| then 1 else 0
  {
    hide Chain, DoublyLinked, NotLinked, LeftOf, RightOf;
    Unfolded(nodes);
    Neighbours(nodes, |nodes| - 1);
    if p.pPrior != null {
      var cnt := LinkTerms(p, nodes);
      if !p.selFlags.multiValue && parse.compoundLimit > 0 && cnt > parse.compoundLimit {
        parse.errors := parse.errors + 1;
      }
    }
  }

  lemma Unfolded(nodes: seq<Select>)
    requires Chain(nodes)
    ensures nodes != [] && Distinct(nodes) && forall i :: 0 <= i < |nodes| ==> nodes[i].pPrior == LeftOf(nodes, i)
    ensures NotLinked(nodes) ==> forall i :: 0 <= i < |nodes| ==> !nodes[i].selFlags.compound
  {
  }

  lemma Neighbours(nodes: seq<Select>, i: nat)
    requires i < |nodes|
    ensures LeftOf(nodes, i) == if i > 0 then nodes[i-1] else null
    ensures RightOf(nodes, i) == if i + 1 < |nodes| then nodes[i+1] else null
  {
  }

  lemma Folded(nodes: seq<Select>)
    requires nodes != [] && Distinct(nodes)
    requires forall i :: 0 <= i < |nodes| ==> nodes[i].pPrior == LeftOf(nodes, i)
    ensures Chain(nodes)
    ensures (forall i :: 0 <= i < |nodes| ==> nodes[i].pNext == RightOf(nodes, i) && nodes[i].selFlags.compound) ==>
      DoublyLinked(nodes)
  {
  }

  // ---------------------------------------------------------------------------------------------
  // The rules

  /** Rule 89: the first row. */
  method FirstRow(row: nat) returns (p: Select)
    ensures fresh(p) && IsRowChain([p], [row]) && NotLinked([p])
  {
    p := new Select(Some(row), null, [], Flags(true, false, false));
  }

  /** Rule 90: one more row. */
  method NextRow(pLeft: Select, row: nat, ghost nodes: seq<Select>, ghost rows: seq<nat>) returns (pRight: Select)
    requires nodes != [] && IsRowChain(nodes, rows) && NotLinked(nodes) && nodes[|nodes|-1] == pLeft
    modifies pLeft
    ensures fresh(pRight) && IsRowChain(nodes + [pRight], rows + [row]) && NotLinked(nodes + [pRight])
  {
    hide IsRowChain, Chain, NotLinked, LeftOf, RightOf, HeadMultiValue, Distinct, RowOp;
    RowsUnfolded(nodes, rows);
    pRight := new Select(Some(row), null, [], Flags(true, true, false));
    pLeft.selFlags := pLeft.selFlags.(multiValue := false);
    pRight.op := UnionAll;
    pRight.pPrior := pLeft;
    Grown(nodes, pRight);
    LaterOps(|nodes|);
    RowsFolded(nodes + [pRight], rows + [row]);
    StillNotLinked(nodes + [pRight]);
  }

  lemma LaterOps(i: nat)
    ensures RowOp(i) == if i == 0 then PlainSelect else UnionAll
  {
  }

  lemma RowsUnfolded(nodes: seq<Select>, rows: seq<nat>)
    requires IsRowChain(nodes, rows) && NotLinked(nodes)
    ensures |nodes| == |rows| && Distinct(nodes) && Chain(nodes)
    ensures forall i :: 0 <= i < |nodes| ==> nodes[i].op == RowOp(i) && Plain(nodes[i], Row(rows[i]))
    ensures forall i :: 0 <= i < |nodes| ==> nodes[i].pPrior == LeftOf(nodes, i) && nodes[i].pNext == null
    ensures forall i :: 0 <= i < |nodes| ==> !nodes[i].selFlags.compound
    ensures forall i :: 0 <= i < |nodes| ==> (nodes[i].selFlags.multiValue <==> i == |nodes| - 1 && |rows| > 1)
  {
    hide LeftOf, RowOp, Plain;
  }

  lemma Grown(nodes: seq<Select>, p: Select)
    requires nodes != [] && Distinct(nodes) && Lacks(nodes, p) && p.pPrior == nodes[|nodes|-1]
    requires forall i :: 0 <= i < |nodes| ==> nodes[i].pPrior == LeftOf(nodes, i)
    ensures Chain(nodes + [p])
  {
    hide LeftOf;
    var all := nodes + [p];
    forall i | 0 <= i < |all| ensures all[i].pPrior == LeftOf(all, i) {
      Neighbours(all, i);
      if i < |nodes| {
        Neighbours(nodes, i);
      }
    }
  }

  lemma RowsFolded(nodes: seq<Select>, rows: seq<nat>)
    requires Chain(nodes) && |nodes| == |rows|
    requires forall i :: 0 <= i < |nodes| ==> nodes[i].op == RowOp(i) && Plain(nodes[i], Row(rows[i]))
    requires forall i :: 0 <= i < |nodes| ==> (nodes[i].selFlags.multiValue <==> i == |nodes| - 1 && |rows| > 1)
    ensures IsRowChain(nodes, rows)
  {
    hide Chain, Plain, RowOp;
  }

  lemma StillNotLinked(nodes: seq<Select>)
    requires forall i :: 0 <= i < |nodes| ==> nodes[i].pNext == null && !nodes[i].selFlags.compound
    ensures NotLinked(nodes)
  {
  }

  /** The first part of rule 83: several rows are closed as a chain of their own and become a subquery. */
  method AsOneTerm(parse: Parse, pRhs: Select, ghost rhs: seq<Select>, ghost one: One) returns (p: Select)
    requires rhs != [] && IsOne(rhs, one) && NotLinked(rhs) && rhs[|rhs|-1] == pRhs
    modifies parse`errors, rhs
    ensures if NextContent(one).Subquery? then fresh(p) && p.inner == rhs else p == pRhs && p.inner == []
    ensures p.pNext == null && !p.selFlags.compound
    ensures Holds(p, NextContent(one))
    ensures parse.errors == old(parse.errors)
  {
    hide Distinct, LeftOf, RightOf, NotLinked, Chain, HeadMultiValue, DoublyLinked, IsRowChain, RowOp, IsOne;
    OneUnfolded(rhs, one);
    p := pRhs;
    if pRhs.pPrior != null {
      ghost var rows := [one.first] + one.more;
      RowsUnfolded(rhs, rows);
      ParserDoubleLinkSelect(parse, pRhs, rhs);
      RowsFolded(rhs, rows);
      p := new Select(None, pRhs, rhs, Flags(false, false, false));
    }
  }

  lemma OneUnfolded(nodes: seq<Select>, one: One)
    requires IsOne(nodes, one) && NotLinked(nodes)
    ensures nodes != [] && Chain(nodes)
    ensures (nodes[|nodes|-1].pPrior != null) == (one.Rows? && one.more != [])
    ensures one.Rows? ==> IsRowChain(nodes, [one.first] + one.more)
    ensures nodes[|nodes|-1].pNext == null && !nodes[|nodes|-1].selFlags.compound
    ensures nodes[|nodes|-1].inner == []
    ensures !(one.Rows? && one.more != []) ==> Holds(nodes[|nodes|-1], NextContent(one))
  {
  }

  /** The second part of rule 83: the operand goes behind the chain so far. */
  method Attach(parse: Parse, pLhs: Select, op: SelectOp, p: Select,
                ghost lhs: seq<Select>, ghost terms: seq<Term>, ghost multi: bool, ghost content: Content)
    requires lhs != [] && Represents(lhs, terms) && NotLinked(lhs) && HeadMultiValue(lhs, multi) && lhs[|lhs|-1] == pLhs
    requires Holds(p, content) && p.pNext == null && !p.selFlags.compound
    requires Lacks(lhs, p) && Lacks(p.inner, p) && Apart(p.inner, lhs)
    requires forall i :: 0 <= i < |lhs| ==> Lacks(lhs[i].inner, p)
    modifies parse`hasCompound, pLhs, p
    ensures Represents(lhs + [p], terms + [Term(op, content)])
    ensures NotLinked(lhs + [p]) && HeadMultiValue(lhs + [p], false)
    ensures parse.hasCompound == (old(parse.hasCompound) || op != UnionAll)
  {
    hide LeftOf, RightOf, NotLinked, Chain, HeadMultiValue, IsSubquery, Represents;
    RepresentsUnfolded(lhs, terms);
    MultiUnfolded(lhs, multi);
    p.op := op;
    p.pPrior := pLhs;
    pLhs.selFlags := pLhs.selFlags.(multiValue := false);
    p.selFlags := p.selFlags.(multiValue := false);
    if op != UnionAll {
      parse.hasCompound := true;
    }
    Grown(lhs, p);
    RepresentsGrown(lhs, terms, p, Term(op, content));
    FlagsGrown(lhs, p);
  }

  /** Rule 83: one more operand. */
  method NextOperand(parse: Parse, pLhs: Select, op: SelectOp, pRhs: Select,
                     ghost lhs: seq<Select>, ghost terms: seq<Term>, ghost multi: bool,
                     ghost rhs: seq<Select>, ghost one: One)
      returns (p: Select)
    requires lhs != [] && Represents(lhs, terms) && NotLinked(lhs) && HeadMultiValue(lhs, multi) && lhs[|lhs|-1] == pLhs
    requires rhs != [] && IsOne(rhs, one) && NotLinked(rhs) && rhs[|rhs|-1] == pRhs
    requires Apart(lhs, rhs) && forall i :: 0 <= i < |lhs| ==> Apart(lhs[i].inner, rhs)
    modifies parse, pLhs, rhs
    ensures if NextContent(one).Subquery? then fresh(p) && p.inner == rhs else p == pRhs && p.inner == []
    ensures Represents(lhs + [p], terms + [NextTerm(Operand(op, one))])
    ensures NotLinked(lhs + [p]) && HeadMultiValue(lhs + [p], false)
    ensures parse.errors == old(parse.errors) && parse.hasCompound == (old(parse.hasCompound) || op != UnionAll)
  {
    hide LeftOf, RightOf, NotLinked, Chain, HeadMultiValue, IsSubquery, IsOne, Represents, NextContent, Holds;
    InnerApart(lhs, rhs);
    p := AsOneTerm(parse, pRhs, rhs, one);
    Attach(parse, pLhs, op, p, lhs, terms, multi, NextContent(one));
  }

  lemma InnerApart(lhs: seq<Select>, rhs: seq<Select>)
    requires forall i :: 0 <= i < |lhs| ==> Apart(lhs[i].inner, rhs)
    ensures forall x :: x in Inner(lhs) ==> forall j :: 0 <= j < |rhs| ==> x != rhs[j]
  {
  }

  lemma MultiUnfolded(nodes: seq<Select>, multi: bool)
    requires HeadMultiValue(nodes, multi)
    ensures forall i :: 0 <= i < |nodes| ==> (nodes[i].selFlags.multiValue <==> i == |nodes| - 1 && multi)
  {
  }

  lemma RepresentsUnfolded(nodes: seq<Select>, terms: seq<Term>)
    requires Represents(nodes, terms) && NotLinked(nodes)
    ensures |nodes| == |terms| && Distinct(nodes) && Chain(nodes)
    ensures forall i :: 0 <= i < |nodes| ==> nodes[i].op == terms[i].op && Holds(nodes[i], terms[i].content)
    ensures forall i :: 0 <= i < |nodes| ==> Apart(nodes[i].inner, nodes)
    ensures forall i :: 0 <= i < |nodes| ==> nodes[i].pPrior == LeftOf(nodes, i) && nodes[i].pNext == null
    ensures forall i :: 0 <= i < |nodes| ==> !nodes[i].selFlags.compound
  {
    hide LeftOf, Holds;
  }

  lemma RepresentsGrown(nodes: seq<Select>, terms: seq<Term>, p: Select, term: Term)
    requires Chain(nodes + [p]) && |nodes| == |terms|
    requires forall i :: 0 <= i < |nodes| ==> nodes[i].op == terms[i].op && Holds(nodes[i], terms[i].content)
    requires p.op == term.op && Holds(p, term.content)
    requires forall i :: 0 <= i < |nodes| ==> Apart(nodes[i].inner, nodes) && Lacks(nodes[i].inner, p)
    requires Apart(p.inner, nodes) && Lacks(p.inner, p)
    ensures Represents(nodes + [p], terms + [term])
  {
    hide Chain, Holds;
  }

  lemma FlagsGrown(nodes: seq<Select>, p: Select)
    requires forall i :: 0 <= i < |nodes| ==> nodes[i].pNext == null && !nodes[i].selFlags.compound
    requires forall i :: 0 <= i < |nodes| ==> !nodes[i].selFlags.multiValue
    requires p.pNext == null && !p.selFlags.compound && !p.selFlags.multiValue
    ensures NotLinked(nodes + [p]) && HeadMultiValue(nodes + [p], false)
  {
  }

  // ---------------------------------------------------------------------------------------------
  // Whole statements

  /** The reductions that the parser performs for one operand. */
  method BuildOne(one: One) returns (p: Select, ghost nodes: seq<Select>)
    ensures nodes != [] && IsOne(nodes, one) && NotLinked(nodes) && p == nodes[|nodes|-1]
    ensures forall i :: 0 <= i < |nodes| ==> fresh(nodes[i])
  {
    match one
    case Core(c) =>
      p := new Select(Some(c), null, [], Flags(false, false, false));
      nodes := [p];
    case Rows(first, more) =>
      p := FirstRow(first);
      nodes := [p];
      assert [first] + more[..0] == [first];
      for i := 0 to |more|
        invariant nodes != [] && IsRowChain(nodes, [first] + more[..i]) && NotLinked(nodes) && p == nodes[|nodes|-1]
        invariant forall i :: 0 <= i < |nodes| ==> fresh(nodes[i])
      {
        hide IsRowChain, NotLinked;
        p := NextRow(p, more[i], nodes, [first] + more[..i]);
        nodes := nodes + [p];
        assert [first] + more[..i] + [more[i]] == [first] + more[..i+1];
      }
      assert more[..|more|] == more;
  }

  lemma FirstRepresents(nodes: seq<Select>, one: One)
    requires IsOne(nodes, one) && NotLinked(nodes)
    ensures Represents(nodes, FirstTerms(one)) && HeadMultiValue(nodes, PureMultiValue(Query(one, [])))
  {
    hide Chain, NotLinked;
    if one.Rows? {
      forall i | 0 <= i < |nodes|
        ensures nodes[i].op == FirstTerms(one)[i].op && Plain(nodes[i], FirstTerms(one)[i].content)
      {
        assert ([one.first] + one.more)[i] == FirstTerms(one)[i].content.columns;
      }
    }
  }

  /** The reductions for `selectnowith`. */
  method BuildQuery(parse: Parse, q: Query) returns (p: Select, ghost nodes: seq<Select>)
    modifies parse
    ensures nodes != [] && Represents(nodes, Terms(q)) && NotLinked(nodes) && p == nodes[|nodes|-1]
    ensures HeadMultiValue(nodes, PureMultiValue(q))
    ensures forall i :: 0 <= i < |nodes| ==> fresh(nodes[i])
    ensures parse.errors == old(parse.errors)
    ensures parse.hasCompound <==> old(parse.hasCompound) || exists i :: 0 <= i < |q.rest| && q.rest[i].op != UnionAll
  {
    hide Represents, NotLinked, HeadMultiValue, IsOne, FirstTerms, NextTerm;
    p, nodes := BuildOne(q.first);
    FirstRepresents(nodes, q.first);
    assert FirstTerms(q.first) + NextTerms(q.rest[..0]) == FirstTerms(q.first);
    for i := 0 to |q.rest|
      invariant nodes != [] && Represents(nodes, FirstTerms(q.first) + NextTerms(q.rest[..i])) && NotLinked(nodes)
      invariant p == nodes[|nodes|-1] && HeadMultiValue(nodes, PureMultiValue(Query(q.first, q.rest[..i])))
      invariant forall j :: 0 <= j < |nodes| ==> fresh(nodes[j])
      invariant parse.errors == old(parse.errors)
      invariant parse.hasCompound <==> old(parse.hasCompound) || exists j :: 0 <= j < i && q.rest[j].op != UnionAll
    {
      var x := q.rest[i];
      ghost var terms := FirstTerms(q.first) + NextTerms(q.rest[..i]);
      assert forall s :: s in Inner(nodes) ==> allocated(s);
      var rhs, rhsNodes := BuildOne(x.one);
      assert Represents(nodes, terms);
      p := NextOperand(parse, p, x.op, rhs, nodes, terms, PureMultiValue(Query(q.first, q.rest[..i])), rhsNodes, x.one);
      nodes := nodes + [p];
      assert q.rest[..i+1][..i] == q.rest[..i];
      assert terms + [NextTerm(Operand(x.op, x.one))] == FirstTerms(q.first) + NextTerms(q.rest[..i+1]);
    }
    assert q.rest[..|q.rest|] == q.rest;
  }

  /**
    Rules 80 to 82.  The chain holds the terms of the statement; `pNext` is the inverse of `pPrior`; only a
    pure VALUES clause of several rows keeps SF_MultiValue, on its head; and an error is reported exactly
    if the limit is positive and a chain without that mark has more terms.
   */
  method BuildSelect(parse: Parse, q: Query) returns (p: Select, ghost nodes: seq<Select>)
    modifies parse
    ensures nodes != [] && Represents(nodes, Terms(q)) && p == nodes[|nodes|-1]
    ensures if |nodes| > 1 then DoublyLinked(nodes) else NotLinked(nodes)
    ensures HeadMultiValue(nodes, PureMultiValue(q))
    ensures parse.errors == old(parse.errors) +
      if !PureMultiValue(q) && 0 < parse.compoundLimit < |Terms(q)| then 1 else 0
    ensures parse.hasCompound <==> old(parse.hasCompound) || exists i :: 0 <= i < |q.rest| && q.rest[i].op != UnionAll
  {
    hide Represents, NotLinked, HeadMultiValue, Terms, Chain, LeftOf, RightOf, DoublyLinked, IsSubquery;
    p, nodes := BuildQuery(parse, q);
    RepresentsUnfolded(nodes, Terms(q));
    MultiUnfolded(nodes, PureMultiValue(q));
    ParserDoubleLinkSelect(parse, p, nodes);
    RepresentsFolded(nodes, Terms(q));
    MultiFolded(nodes, PureMultiValue(q));
  }

  lemma RepresentsFolded(nodes: seq<Select>, terms: seq<Term>)
    requires Chain(nodes) && |nodes| == |terms|
    requires forall i :: 0 <= i < |nodes| ==> nodes[i].op == terms[i].op && Holds(nodes[i], terms[i].content)
    requires forall i :: 0 <= i < |nodes| ==> Apart(nodes[i].inner, nodes)
    ensures Represents(nodes, terms)
  {
    hide Chain, Holds;
  }

  lemma MultiFolded(nodes: seq<Select>, multi: bool)
    requires forall i :: 0 <= i < |nodes| ==> (nodes[i].selFlags.multiValue <==> i == |nodes| - 1 && multi)
    ensures HeadMultiValue(nodes, multi)
  {
  }

  /**
    A VALUES clause counts as many terms as it has rows when it comes first, and as one term when it comes
    later, so that swapping the operands of a UNION decides whether the limit is exceeded.
   */
  lemma RowsCountOnTheLeftOnly(op: SelectOp, first: nat, more: seq<nat>, core: nat)
    ensures |Terms(Query(Rows(first, more), [Operand(op, Core(core))]))| == |more| + 2
    ensures |Terms(Query(Core(core), [Operand(op, Rows(first, more))]))| == 2
  {
  }
}
