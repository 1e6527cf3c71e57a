/**
  The actions of parse.c for IS, IN, BETWEEN and NOT rewrite what was written into fewer kinds of nodes.
  `MeaningIsKept` says that the rewritten tree evaluates, in three-valued logic and in every environment,
  to what was written.
 */
module ExprDesugar {
  import opened Wrappers

  // ---------------------------------------------------------------------------------------------
  // What is written

  datatype Surface =
    | Column(n: nat)
    | NullWord
    | Number(value: int)
    | NullTest(arg: Surface, negated: bool)                         // ISNULL, NOTNULL, NOT NULL
    | IsTest(left: Surface, right: Surface, negated: bool)          // IS, IS NOT
    | NotTest(arg: Surface)
    | BitNot(arg: Surface)
    | Sign(plus: bool, arg: Surface)
    | BetweenTest(arg: Surface, low: Surface, high: Surface, negated: bool)
    | InTest(arg: Surface, list: seq<Surface>, negated: bool)
    | Comparison(equal: bool, left: Surface, right: Surface)        // = and <>
    | OtherBinary(operator: nat, left: Surface, right: Surface)

  // ---------------------------------------------------------------------------------------------
  // What is built

  /** The token in a node's `op`, with the text of a leaf. */
  datatype Op =
    | TkColumn(n: nat) | TkNull | TkInteger(value: int)
    | TkIsNull | TkNotNull | TkIs | TkIsNot
    | TkNot | TkBitNot | TkUPlus | TkUMinus
    | TkBetween | TkIn | TkEq | TkNe
    | TkOther(operator: nat)

  datatype Tree = Tree(op: Op, left: Option<Tree>, right: Option<Tree>, list: seq<Tree>)

  function Leaf(op: Op): Tree { Tree(op, None, None, []) }

  function Unary(op: Op, arg: Tree): Tree { Tree(op, Some(arg), None, []) }

  function Binary(op: Op, left: Tree, right: Tree): Tree { Tree(op, Some(left), Some(right), []) }

  function Listed(op: Op, arg: Tree, list: seq<Tree>): Tree { Tree(op, Some(arg), None, list) }

  // ---------------------------------------------------------------------------------------------
  // Three-valued logic

  datatype SqlValue = Null | Scalar(n: int)

  datatype Truth = True | False | Unknown

  /** The values of the columns, and what is not fixed here: how scalars compare and the other operators. */
  datatype Environment = Environment(
    column: nat -> SqlValue,
    same: (int, int) -> bool,
    atMost: (int, int) -> bool,
    unary: (Op, SqlValue) -> SqlValue,
    binary: (nat, SqlValue, SqlValue) -> SqlValue)

  function AsValue(t: Truth): SqlValue {
    match t
    case True => Scalar(1)
    case False => Scalar(0)
    case Unknown => Null
  }

  function AsTruth(v: SqlValue): Truth {
    match v
    case Null => Unknown
    case Scalar(n) => if n != 0 then True else False
  }

  function Not(t: Truth): Truth {
    match t
    case True => False
    case False => True
    case Unknown => Unknown
  }

  function And(a: Truth, b: Truth): Truth {
    if a == False || b == False then False else if a == True && b == True then True else Unknown
  }

  function NotIf(negated: bool, t: Truth): Truth { if negated then Not(t) else t }

  function Decided(b: bool): Truth { if b then True else False }

  /** `=` */
  function Equal(env: Environment, a: SqlValue, b: SqlValue): Truth {
    if a.Null? || b.Null? then Unknown else Decided(env.same(a.n, b.n))
  }

  function AtMost(env: Environment, a: SqlValue, b: SqlValue): Truth {
    if a.Null? || b.Null? then Unknown else Decided(env.atMost(a.n, b.n))
  }

  /** IS: like `=`, but never unknown. */
  function Is(env: Environment, a: SqlValue, b: SqlValue): Truth {
    if a.Null? || b.Null? then Decided(a.Null? && b.Null?) else Equal(env, a, b)
  }

  /** Section 8.4 of ISO/IEC 9075-2; over an empty list, which only SQLite admits, it is false. */
  function In(env: Environment, a: SqlValue, list: seq<SqlValue>): Truth {
    if exists v :: v in list && Equal(env, a, v) == True then True
    else if forall v :: v in list ==> Equal(env, a, v) == False then False
    else Unknown
  }

  function Between(env: Environment, a: SqlValue, low: SqlValue, high: SqlValue): Truth {
    And(AtMost(env, low, a), AtMost(env, a, high))
  }

  // ---------------------------------------------------------------------------------------------
  // The meaning of both

  function Meaning(env: Environment, s: Surface): SqlValue
    decreases s
  {
    match s
    case Column(n) => env.column(n)
    case NullWord => Null
    case Number(n) => Scalar(n)
    case NullTest(x, negated) => AsValue(NotIf(negated, Decided(Meaning(env, x).Null?)))
    case IsTest(x, y, negated) => AsValue(NotIf(negated, Is(env, Meaning(env, x), Meaning(env, y))))
    case NotTest(x) => AsValue(Not(AsTruth(Meaning(env, x))))
    case BitNot(x) => env.unary(TkBitNot, Meaning(env, x))
    case Sign(plus, x) => env.unary(if plus then TkUPlus else TkUMinus, Meaning(env, x))
    case BetweenTest(x, low, high, negated) =>
      AsValue(NotIf(negated, Between(env, Meaning(env, x), Meaning(env, low), Meaning(env, high))))
    case InTest(x, list, negated) => AsValue(NotIf(negated, In(env, Meaning(env, x), Meanings(env, list))))
    case Comparison(equal, x, y) => AsValue(NotIf(!equal, Equal(env, Meaning(env, x), Meaning(env, y))))
    case OtherBinary(operator, x, y) => env.binary(operator, Meaning(env, x), Meaning(env, y))
  }

  function Meanings(env: Environment, list: seq<Surface>): (r: seq<SqlValue>)
    ensures |r| == |list|
    decreases list
  {
    if list == [] then [] else [Meaning(env, list[0])] + Meanings(env, list[1..])
  }

  /** A node without the children it should have evaluates to Null. */
  function Eval(env: Environment, t: Tree): SqlValue
    decreases t, 0
  {
    var a, b := EvalChild(env, t.left), EvalChild(env, t.right);
    match t.op
    case TkColumn(n) => env.column(n)
    case TkNull => Null
    case TkInteger(n) => Scalar(n)
    case TkIsNull => AsValue(Decided(a.Null?))
    case TkNotNull => AsValue(Decided(!a.Null?))
    case TkIs => AsValue(Is(env, a, b))
    case TkIsNot => AsValue(Not(Is(env, a, b)))
    case TkNot => AsValue(Not(AsTruth(a)))
    case TkBitNot => env.unary(TkBitNot, a)
    case TkUPlus => env.unary(TkUPlus, a)
    case TkUMinus => env.unary(TkUMinus, a)
    case TkBetween =>
      var list := EvalAll(env, t.list);
      if |list| == 2 then AsValue(Between(env, a, list[0], list[1])) else Null
    case TkIn => AsValue(In(env, a, EvalAll(env, t.list)))
    case TkEq => AsValue(Equal(env, a, b))
    case TkNe => AsValue(Not(Equal(env, a, b)))
    case TkOther(operator) => env.binary(operator, a, b)
  }

  function EvalChild(env: Environment, t: Option<Tree>): SqlValue
    decreases t, 1
  {
    match t
    case None => Null
    case Some(x) => Eval(env, x)
  }

  function EvalAll(env: Environment, list: seq<Tree>): (r: seq<SqlValue>)
    ensures |r| == |list|
    decreases list
  {
    if list == [] then [] else [Eval(env, list[0])] + EvalAll(env, list[1..])
  }

  // ---------------------------------------------------------------------------------------------
  // The actions on values

  /** Rules 192 and 193, with `binaryToUnaryIfNull`. */
  function IsTree(x: Tree, y: Tree, negated: bool): Tree {
    if y.op == TkNull then Unary(if negated then TkNotNull else TkIsNull, x)
    else Binary(if negated then TkIsNot else TkIs, x, y)
  }

  function Negated(negated: bool, t: Tree): Tree { if negated then Unary(TkNot, t) else t }

  /** Rule 202. */
  function InTree(x: Tree, list: seq<Tree>, negated: bool): Tree {
    if list == [] then Leaf(TkInteger(if negated then 1 else 0))
    else if |list| == 1 then Binary(if negated then TkNe else TkEq, x, list[0])
    else Negated(negated, Listed(TkIn, x, list))
  }

  function Desugar(s: Surface): Tree
    decreases s
  {
    match s
    case Column(n) => Leaf(TkColumn(n))
    case NullWord => Leaf(TkNull)
    case Number(n) => Leaf(TkInteger(n))
    case NullTest(x, negated) => Unary(if negated then TkNotNull else TkIsNull, Desugar(x))
    case IsTest(x, y, negated) => IsTree(Desugar(x), Desugar(y), negated)
    case NotTest(x) => Unary(TkNot, Desugar(x))
    case BitNot(x) => Unary(TkBitNot, Desugar(x))
    case Sign(plus, x) => Unary(if plus then TkUPlus else TkUMinus, Desugar(x))
    case BetweenTest(x, low, high, negated) =>
      Negated(negated, Listed(TkBetween, Desugar(x), [Desugar(low), Desugar(high)]))
    case InTest(x, list, negated) => InTree(Desugar(x), DesugarAll(list), negated)
    case Comparison(equal, x, y) => Binary(if equal then TkEq else TkNe, Desugar(x), Desugar(y))
    case OtherBinary(operator, x, y) => Binary(TkOther(operator), Desugar(x), Desugar(y))
  }

  function DesugarAll(list: seq<Surface>): (r: seq<Tree>)
    ensures |r| == |list| && forall i :: 0 <= i < |list| ==> r[i] == Desugar(list[i])
    decreases list
  {
    if list == [] then [] else [Desugar(list[0])] + DesugarAll(list[1..])
  }

  // ---------------------------------------------------------------------------------------------
  // The meaning is kept

  lemma {:induction false} MeaningIsKept(env: Environment, s: Surface)
    ensures Eval(env, Desugar(s)) == Meaning(env, s)
    decreases s
  {
    hide In, Between, Equal, Is, Reduced, IsTree, InTree;
    match s
    case Column(_) =>
    case NullWord =>
    case Number(_) =>
    case NullTest(x, _) => MeaningIsKept(env, x);
    case IsTest(x, y, negated) =>
      MeaningIsKept(env, x);
      MeaningIsKept(env, y);
      IsTreeMeans(env, Desugar(x), Desugar(y), negated);
    case NotTest(x) => MeaningIsKept(env, x);
    case BitNot(x) => MeaningIsKept(env, x);
    case Sign(_, x) => MeaningIsKept(env, x);
    case BetweenTest(x, low, high, negated) =>
      MeaningIsKept(env, x);
      MeaningIsKept(env, low);
      MeaningIsKept(env, high);
      BetweenMeans(env, Desugar(x), Desugar(low), Desugar(high), negated);
    case InTest(x, list, negated) =>
      MeaningIsKept(env, x);
      MeaningsAreKept(env, list);
      InTreeMeans(env, Desugar(x), DesugarAll(list), negated);
    case Comparison(_, x, y) =>
      MeaningIsKept(env, x);
      MeaningIsKept(env, y);
    case OtherBinary(_, x, y) =>
      MeaningIsKept(env, x);
      MeaningIsKept(env, y);
  }

  lemma {:induction false} MeaningsAreKept(env: Environment, list: seq<Surface>)
    ensures EvalAll(env, DesugarAll(list)) == Meanings(env, list)
    decreases list
  {
    if list != [] {
      MeaningIsKept(env, list[0]);
      MeaningsAreKept(env, list[1..]);
      assert DesugarAll(list)[1..] == DesugarAll(list[1..]);
    }
  }

  lemma IsTreeMeans(env: Environment, x: Tree, y: Tree, negated: bool)
    ensures Eval(env, IsTree(x, y, negated)) == AsValue(NotIf(negated, Is(env, Eval(env, x), Eval(env, y))))
  {
  }

  lemma NegatedMeans(env: Environment, t: Tree, negated: bool, truth: Truth)
    requires Eval(env, t) == AsValue(truth)
    ensures Eval(env, Negated(negated, t)) == AsValue(NotIf(negated, truth))
  {
  }

  lemma BetweenMeans(env: Environment, x: Tree, low: Tree, high: Tree, negated: bool)
    ensures Eval(env, Negated(negated, Listed(TkBetween, x, [low, high])))
         == AsValue(NotIf(negated, Between(env, Eval(env, x), Eval(env, low), Eval(env, high))))
  {
    var t := Listed(TkBetween, x, [low, high]);
    assert [low, high][1..] == [high] && [high][1..] == [];
    assert EvalAll(env, t.list) == [Eval(env, low), Eval(env, high)];
    NegatedMeans(env, t, negated, Between(env, Eval(env, x), Eval(env, low), Eval(env, high)));
  }

  lemma InTreeMeans(env: Environment, x: Tree, list: seq<Tree>, negated: bool)
    ensures Eval(env, InTree(x, list, negated)) == AsValue(NotIf(negated, In(env, Eval(env, x), EvalAll(env, list))))
  {
    if |list| == 1 {
      assert EvalAll(env, list) == [Eval(env, list[0])];
      OneElement(env, Eval(env, x), Eval(env, list[0]));
    } else if list != [] {
      NegatedMeans(env, Listed(TkIn, x, list), negated, In(env, Eval(env, x), EvalAll(env, list)));
    }
  }

  lemma OneElement(env: Environment, a: SqlValue, v: SqlValue)
    ensures In(env, a, [v]) == Equal(env, a, v)
  {
    assert v in [v];
  }

  // ---------------------------------------------------------------------------------------------
  // What is left to be evaluated

  /** No IN list has fewer than two elements, and nothing is compared with the literal NULL by IS. */
  predicate Reduced(t: Tree)
    decreases t, 0
  {
    && (t.op == TkIn ==> |t.list| >= 2)
    && (t.op == TkIs || t.op == TkIsNot ==> t.right.Some? && t.right.value.op != TkNull)
    && (t.left.Some? ==> Reduced(t.left.value))
    && (t.right.Some? ==> Reduced(t.right.value))
    && AllReduced(t.list)
  }

  predicate AllReduced(list: seq<Tree>)
    decreases list, 1
  {
    list == [] || (Reduced(list[0]) && AllReduced(list[1..]))
  }

  lemma UnaryIsReduced(op: Op, x: Tree)
    requires Reduced(x) && op != TkIn && op != TkIs && op != TkIsNot
    ensures Reduced(Unary(op, x))
  {
  }

  lemma BinaryIsReduced(op: Op, x: Tree, y: Tree)
    requires Reduced(x) && Reduced(y) && op != TkIn && (op == TkIs || op == TkIsNot ==> y.op != TkNull)
    ensures Reduced(Binary(op, x, y))
  {
  }

  lemma ListedIsReduced(op: Op, x: Tree, list: seq<Tree>)
    requires Reduced(x) && AllReduced(list) && |list| >= 2 && op != TkIs && op != TkIsNot
    ensures Reduced(Listed(op, x, list))
  {
  }

  lemma TwoAreReduced(a: Tree, b: Tree)
    requires Reduced(a) && Reduced(b)
    ensures AllReduced([a, b])
  {
    assert [a, b][1..] == [b] && [b][1..] == [];
    assert AllReduced([b][1..]);
    assert AllReduced([b]);
  }

  lemma {:induction false} DesugaredIsReduced(s: Surface)
    ensures Reduced(Desugar(s))
    decreases s
  {
    hide Reduced, AllReduced;
    match s
    case Column(_) => LeafIsReduced(Desugar(s).op);
    case NullWord => LeafIsReduced(TkNull);
    case Number(_) => LeafIsReduced(Desugar(s).op);
    case NullTest(x, _) =>
      DesugaredIsReduced(x);
      UnaryIsReduced(Desugar(s).op, Desugar(x));
    case IsTest(x, y, negated) =>
      DesugaredIsReduced(x);
      DesugaredIsReduced(y);
      if Desugar(y).op == TkNull {
        UnaryIsReduced(Desugar(s).op, Desugar(x));
      } else {
        BinaryIsReduced(Desugar(s).op, Desugar(x), Desugar(y));
      }
    case NotTest(x) =>
      DesugaredIsReduced(x);
      UnaryIsReduced(TkNot, Desugar(x));
    case BitNot(x) =>
      DesugaredIsReduced(x);
      UnaryIsReduced(TkBitNot, Desugar(x));
    case Sign(_, x) =>
      DesugaredIsReduced(x);
      UnaryIsReduced(Desugar(s).op, Desugar(x));
    case BetweenTest(x, low, high, negated) =>
      DesugaredIsReduced(x);
      DesugaredIsReduced(low);
      DesugaredIsReduced(high);
      TwoAreReduced(Desugar(low), Desugar(high));
      ListedIsReduced(TkBetween, Desugar(x), [Desugar(low), Desugar(high)]);
      UnaryIsReducedIf(negated, Listed(TkBetween, Desugar(x), [Desugar(low), Desugar(high)]));
    case InTest(x, list, negated) =>
      DesugaredIsReduced(x);
      DesugaredAreReduced(list);
      InTreeIsReduced(Desugar(x), DesugarAll(list), negated);
    case Comparison(_, x, y) =>
      DesugaredIsReduced(x);
      DesugaredIsReduced(y);
      BinaryIsReduced(Desugar(s).op, Desugar(x), Desugar(y));
    case OtherBinary(operator, x, y) =>
      DesugaredIsReduced(x);
      DesugaredIsReduced(y);
      BinaryIsReduced(TkOther(operator), Desugar(x), Desugar(y));
  }

  lemma LeafIsReduced(op: Op)
    requires op != TkIn && op != TkIs && op != TkIsNot
    ensures Reduced(Leaf(op))
  {
  }

  lemma UnaryIsReducedIf(negated: bool, t: Tree)
    requires Reduced(t)
    ensures Reduced(Negated(negated, t))
  {
    UnaryIsReduced(TkNot, t);
  }

  lemma InTreeIsReduced(x: Tree, list: seq<Tree>, negated: bool)
    requires Reduced(x) && AllReduced(list)
    ensures Reduced(InTree(x, list, negated))
  {
    if list == [] {
      LeafIsReduced(InTree(x, list, negated).op);
    } else if |list| == 1 {
      BinaryIsReduced(InTree(x, list, negated).op, x, list[0]);
    } else {
      ListedIsReduced(TkIn, x, list);
      UnaryIsReducedIf(negated, Listed(TkIn, x, list));
    }
  }

  lemma {:induction false} DesugaredAreReduced(list: seq<Surface>)
    ensures AllReduced(DesugarAll(list))
    decreases list
  {
    if list != [] {
      DesugaredIsReduced(list[0]);
      DesugaredAreReduced(list[1..]);
      assert DesugarAll(list)[1..] == DesugarAll(list[1..]);
    }
  }

  // ---------------------------------------------------------------------------------------------
  // The actions on objects

  class Expr {
    var op: Op
    var pLeft: Expr?
    var pRight: Expr?
    var pList: ExprList?
    ghost var tree: Tree
    ghost var repr: set<object>

    /** The children are valid, none contains this object, and `tree` is what they make up. */
    ghost predicate Valid()
      reads this, repr
      ensures Valid() ==> this in repr
      decreases repr
    {
      && this in repr
      && (pLeft != null ==> pLeft in repr && pLeft.repr <= repr && this !in pLeft.repr && pLeft.Valid())
      && (pRight != null ==> pRight in repr && pRight.repr <= repr && this !in pRight.repr && pRight.Valid())
      && (pList != null ==> pList in repr && pList.repr <= repr && this !in pList.repr && pList.Valid())
      && tree.op == op
      && tree.left == (if pLeft == null then None else Some(pLeft.tree))
      && tree.right == (if pRight == null then None else Some(pRight.tree))
      && tree.list == (if pList == null then [] else pList.trees)
    }

    /** `sqlite3PExpr`, and `sqlite3ExprAlloc` for a leaf. */
    constructor (op: Op, pLeft: Expr?, pRight: Expr?)
      requires pLeft != null ==> pLeft.Valid()
      requires pRight != null ==> pRight.Valid()
      ensures Valid()
      ensures this.pLeft == pLeft && this.pRight == pRight && pList == null
      ensures tree == Tree(op, if pLeft == null then None else Some(pLeft.tree), if pRight == null then None else Some(pRight.tree), [])
      ensures repr == {this} + (if pLeft == null then {} else pLeft.repr) + (if pRight == null then {} else pRight.repr)
    {
      this.op := op;
      this.pLeft := pLeft;
      this.pRight := pRight;
      pList := null;
      tree := Tree(op, if pLeft == null then None else Some(pLeft.tree), if pRight == null then None else Some(pRight.tree), []);
      repr := {this} + (if pLeft == null then {} else pLeft.repr) + (if pRight == null then {} else pRight.repr);
    }

    /** Assigns `x.pList`. */
    method SetList(list: ExprList)
      requires Valid() && pList == null && pRight == null && list.Valid() && this !in list.repr
      modifies this
      ensures Valid() && tree == old(tree).(list := list.trees) && repr == old(repr) + list.repr
    {
      pList := list;
      tree := tree.(list := list.trees);
      repr := repr + list.repr;
    }
  }

  class ExprList {
    var items: seq<Expr>
    ghost var trees: seq<Tree>
    ghost var repr: set<object>

    ghost predicate Valid()
      reads this, repr
      ensures Valid() ==> this in repr
      decreases repr
    {
      && this in repr && |trees| == |items|
      && forall i :: 0 <= i < |items| ==>
           && items[i] in repr && items[i].repr <= repr && this !in items[i].repr
           && items[i].Valid() && items[i].tree == trees[i]
    }

    constructor ()
      ensures Valid() && trees == [] && repr == {this}
    {
      items := [];
      trees := [];
      repr := {this};
    }

    /** `sqlite3ExprListAppend`. */
    method Append(e: Expr)
      requires Valid() && e.Valid() && this !in e.repr
      modifies this
      ensures Valid() && trees == old(trees) + [e.tree] && repr == old(repr) + e.repr
    {
      items := items + [e];
      trees := trees + [e.tree];
      repr := repr + e.repr;
    }
  }

  /** `binaryToUnaryIfNull`. */
  method BinaryToUnaryIfNull(pY: Expr, pA: Expr, op: Op)
    requires pA.Valid() && pA.pRight == pY
    modifies pA
    ensures pA.Valid() && pA.repr == old(pA.repr)
    ensures pA.tree == if old(pY.tree).op == TkNull then old(pA.tree).(op := op, right := None) else old(pA.tree)
  {
    if pY.op == TkNull {
      pA.op := op;
      pA.pRight := null;
      pA.tree := pA.tree.(op := op, right := None);
    }
  }

  /** Rules 192 and 193. */
  method RuleIs(x: Expr, y: Expr, negated: bool) returns (e: Expr)
    requires x.Valid() && y.Valid()
    ensures e.Valid() && fresh(e.repr - x.repr - y.repr) && e.tree == IsTree(x.tree, y.tree, negated)
  {
    e := new Expr(if negated then TkIsNot else TkIs, x, y);
    BinaryToUnaryIfNull(y, e, if negated then TkNotNull else TkIsNull);
  }

  /** The last step of rules 199 and 202. */
  method RuleNegate(x: Expr, negated: bool) returns (e: Expr)
    requires x.Valid()
    ensures e.Valid() && fresh(e.repr - x.repr) && e.tree == Negated(negated, x.tree)
  {
    if negated {
      e := new Expr(TkNot, x, null);
    } else {
      e := x;
    }
  }

  /** Rule 199. */
  method RuleBetween(x: Expr, low: Expr, high: Expr, negated: bool) returns (e: Expr)
    requires x.Valid() && low.Valid() && high.Valid()
    ensures e.Valid() && fresh(e.repr - x.repr - low.repr - high.repr)
    ensures e.tree == Negated(negated, Listed(TkBetween, x.tree, [low.tree, high.tree]))
  {
    hide Expr.Valid, ExprList.Valid;
    var pList := new ExprList();
    pList.Append(low);
    pList.Append(high);
    assert pList.trees == [low.tree, high.tree];
    e := new Expr(TkBetween, x, null);
    e.SetList(pList);
    e := RuleNegate(e, negated);
  }

  /** Rule 202.  The left operand of an empty list is deleted. */
  method RuleIn(x: Expr, list: ExprList, negated: bool) returns (e: Expr)
    requires x.Valid() && list.Valid()
    ensures e.Valid() && fresh(e.repr - x.repr - list.repr) && e.tree == InTree(x.tree, list.trees, negated)
  {
    if |list.items| == 0 {
      e := new Expr(TkInteger(if negated then 1 else 0), null, null);
    } else if |list.items| == 1 {
      var pRHS := list.items[0];
      e := new Expr(if negated then TkNe else TkEq, x, pRHS);
    } else {
      e := new Expr(TkIn, x, null);
      e.SetList(list);
      e := RuleNegate(e, negated);
    }
  }

  // ---------------------------------------------------------------------------------------------
  // Whole expressions

  /** The reductions that the parser performs for an expression, from the leaves up. */
  method Build(s: Surface) returns (e: Expr)
    ensures e.Valid() && fresh(e.repr) && e.tree == Desugar(s)
    decreases s
  {
    hide Expr.Valid, ExprList.Valid, IsTree, InTree, Negated;
    match s
    case Column(n) => e := new Expr(TkColumn(n), null, null);
    case NullWord => e := new Expr(TkNull, null, null);
    case Number(n) => e := new Expr(TkInteger(n), null, null);
    case NullTest(arg, negated) =>
      var x := Build(arg);
      e := new Expr(if negated then TkNotNull else TkIsNull, x, null);
    case IsTest(left, right, negated) =>
      var x := Build(left);
      var y := Build(right);
      e := RuleIs(x, y, negated);
    case NotTest(arg) =>
      var x := Build(arg);
      e := new Expr(TkNot, x, null);
    case BitNot(arg) =>
      var x := Build(arg);
      e := new Expr(TkBitNot, x, null);
    case Sign(plus, arg) =>
      var x := Build(arg);
      e := new Expr(if plus then TkUPlus else TkUMinus, x, null);
    case BetweenTest(arg, low, high, negated) =>
      var x := Build(arg);
      var l := Build(low);
      var h := Build(high);
      e := RuleBetween(x, l, h, negated);
    case InTest(arg, list, negated) =>
      var x := Build(arg);
      var es := BuildAll(list);
      e := RuleIn(x, es, negated);
    case Comparison(equal, left, right) =>
      var x := Build(left);
      var y := Build(right);
      e := new Expr(if equal then TkEq else TkNe, x, y);
    case OtherBinary(operator, left, right) =>
      var x := Build(left);
      var y := Build(right);
      e := new Expr(TkOther(operator), x, y);
  }

  /** `exprlist`. */
  method BuildAll(list: seq<Surface>) returns (es: ExprList)
    ensures es.Valid() && fresh(es.repr) && es.trees == DesugarAll(list)
    decreases list
  {
    hide Expr.Valid, ExprList.Valid;
    es := new ExprList();
    for i := 0 to |list|
      invariant es.Valid() && fresh(es.repr)
      invariant |es.trees| == i && forall j :: 0 <= j < i ==> es.trees[j] == DesugarAll(list)[j]
    {
      var e := Build(list[i]);
      es.Append(e);
    }
  }
}
