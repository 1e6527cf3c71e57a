/**
  `URLEncoding` of ParameterEncoding.swift: nested parameters are flattened into keys with brackets,
  percent-escaped (section 2.1 of RFC 3986) and joined into a query.  The reader's side, `DecodeQuery`,
  is defined on its own.
 */
module QueryEncoding {
  import opened Octets
  import opened Wrappers
  import opened Sorting

  datatype ArrayEncoding = Brackets | NoBrackets

  datatype BoolEncoding = Numeric | Literal

  /** `allowed` are the characters that are not escaped. */
  datatype URLEncoding = URLEncoding(arrayEncoding: ArrayEncoding, boolEncoding: BoolEncoding, allowed: set<byte>)

  datatype Entry = Entry(key: Bytes, value: Value)

  /** A parameter's value.  A dictionary's entries stand in the order in which it is iterated. */
  datatype Value =
    | Dictionary(entries: seq<Entry>)
    | Array(items: seq<Value>)
    | Number(isBool: bool, boolValue: bool, description: Bytes)
    | Bool(value: bool)
    | Other(description: Bytes)

  /** A query component: a key and a value. */
  datatype Pair = Pair(key: Bytes, value: Bytes)

  const AMPERSAND: byte := 38
  const EQUALS: byte := 61
  const PERCENT: byte := 37
  const OPEN_BRACKET: byte := 91
  const CLOSE_BRACKET: byte := 93

  // ---------------------------------------------------------------------------------------------
  // Flattening

  function ArrayKey(e: ArrayEncoding, key: Bytes): Bytes {
    match e
    case Brackets => key + [OPEN_BRACKET, CLOSE_BRACKET]
    case NoBrackets => key
  }

  function NestedKey(key: Bytes, nestedKey: Bytes): Bytes {
    key + [OPEN_BRACKET] + nestedKey + [CLOSE_BRACKET]
  }

  function BoolText(e: BoolEncoding, value: bool): Bytes {
    match e
    case Numeric => if value then [49] else [48]
    case Literal => if value then [116, 114, 117, 101] else [102, 97, 108, 115, 101]
  }

  /** The text of a value that has no parts. */
  function LeafText(e: URLEncoding, value: Value): Bytes
    requires !value.Dictionary? && !value.Array?
  {
    match value
    case Number(isBool, boolValue, description) =>
      if isBool then BoolText(e.boolEncoding, boolValue) else description
    case Bool(b) => BoolText(e.boolEncoding, b)
    case Other(description) => description
  }

  /** One step from a value to one of its parts. */
  datatype Step = Field(name: Bytes) | Element

  /** A leaf, with the path that leads to it from the top. */
  datatype Leaf = Leaf(path: seq<Step>, text: Bytes)

  /** The leaves of a value from left to right. */
  function Leaves(e: URLEncoding, value: Value): seq<Leaf>
    decreases value
  {
    match value
    case Dictionary(entries) => EntryLeaves(e, entries)
    case Array(items) => ItemLeaves(e, items)
    case _ => [Leaf([], LeafText(e, value))]
  }

  function EntryLeaves(e: URLEncoding, entries: seq<Entry>): seq<Leaf>
    decreases entries
  {
    if entries == [] then []
    else Below(Field(entries[0].key), Leaves(e, entries[0].value)) + EntryLeaves(e, entries[1..])
  }

  function ItemLeaves(e: URLEncoding, items: seq<Value>): seq<Leaf>
    decreases items
  {
    if items == [] then [] else Below(Element, Leaves(e, items[0])) + ItemLeaves(e, items[1..])
  }

  function Below(step: Step, leaves: seq<Leaf>): (r: seq<Leaf>)
    ensures |r| == |leaves|
    ensures forall i :: 0 <= i < |leaves| ==> r[i] == Leaf([step] + leaves[i].path, leaves[i].text)
  {
    if leaves == [] then []
    else [Leaf([step] + leaves[0].path, leaves[0].text)] + Below(step, leaves[1..])
  }

  function StepKey(e: URLEncoding, key: Bytes, step: Step): Bytes {
    match step
    case Field(name) => NestedKey(key, name)
    case Element => ArrayKey(e.arrayEncoding, key)
  }

  /** A path as it is written behind the key it starts from. */
  function PathKey(e: URLEncoding, key: Bytes, path: seq<Step>): Bytes
    decreases |path|
  {
    if path == [] then key
    else PathKey(e, StepKey(e, key, path[0]), path[1..])
  }

  /** The unescaped components of a value: its leaves, each under its path. */
  function Named(e: URLEncoding, key: Bytes, leaves: seq<Leaf>): (r: seq<Pair>)
    ensures |r| == |leaves|
    ensures forall i :: 0 <= i < |leaves| ==> r[i] == Pair(PathKey(e, key, leaves[i].path), leaves[i].text)
  {
    if leaves == [] then []
    else [Pair(PathKey(e, key, leaves[0].path), leaves[0].text)] + Named(e, key, leaves[1..])
  }

  function Components(e: URLEncoding, key: Bytes, value: Value): seq<Pair> {
    Named(e, key, Leaves(e, value))
  }

  /** Naming the leaves below a step is naming them from the key with that step. */
  lemma {:induction false} NamedBelow(e: URLEncoding, key: Bytes, step: Step, leaves: seq<Leaf>)
    ensures Named(e, key, Below(step, leaves)) == Named(e, StepKey(e, key, step), leaves)
  {
    if leaves != [] {
      NamedBelow(e, key, step, leaves[1..]);
      assert ([step] + leaves[0].path)[1..] == leaves[0].path;
      assert Below(step, leaves)[1..] == Below(step, leaves[1..]);
    }
  }

  lemma NamedConcat(e: URLEncoding, key: Bytes, a: seq<Leaf>, b: seq<Leaf>)
    ensures Named(e, key, a + b) == Named(e, key, a) + Named(e, key, b)
  {
  }

  // ---------------------------------------------------------------------------------------------
  // The components in octets; 91 and 93 are the brackets

  /** The items of an array stand under the key with an empty pair of brackets, or under the key itself. */
  lemma ComponentsOfArray(e: URLEncoding, key: Bytes, item: Value, items: seq<Value>)
    ensures Components(e, key, Array([])) == []
    ensures Components(e, key, Array([item] + items)) ==
      Components(e, if e.arrayEncoding.Brackets? then key + [91, 93] else key, item) + Components(e, key, Array(items))
  {
    hide Below, PathKey, Named;
    var all := [item] + items;
    assert all[1..] == items;
    assert Leaves(e, Array(all)) == Below(Element, Leaves(e, item)) + Leaves(e, Array(items));
    NamedConcat(e, key, Below(Element, Leaves(e, item)), Leaves(e, Array(items)));
    NamedBelow(e, key, Element, Leaves(e, item));
    NoLeaves(e, key);
  }

  /** The entries of a dictionary stand under the key with their own key in brackets. */
  lemma ComponentsOfDictionary(e: URLEncoding, key: Bytes, name: Bytes, value: Value, entries: seq<Entry>)
    ensures Components(e, key, Dictionary([])) == []
    ensures Components(e, key, Dictionary([Entry(name, value)] + entries)) ==
      Components(e, key + [91] + name + [93], value) + Components(e, key, Dictionary(entries))
  {
    hide Below, PathKey, Named;
    var all := [Entry(name, value)] + entries;
    assert all[1..] == entries;
    assert Leaves(e, Dictionary(all)) == Below(Field(name), Leaves(e, value)) + Leaves(e, Dictionary(entries));
    NamedConcat(e, key, Below(Field(name), Leaves(e, value)), Leaves(e, Dictionary(entries)));
    NamedBelow(e, key, Field(name), Leaves(e, value));
    NoLeaves(e, key);
  }

  lemma NoLeaves(e: URLEncoding, key: Bytes)
    ensures Named(e, key, []) == []
    ensures Leaves(e, Array([])) == [] && Leaves(e, Dictionary([])) == []
  {
  }

  predicate IsLeaf(value: Value) { !value.Dictionary? && !value.Array? }

  /** 1 or 0, or true or false. */
  function BoolOctets(e: BoolEncoding, value: bool): Bytes {
    if e.Numeric? then (if value then [49] else [48])
    else if value then [116, 114, 117, 101] else [102, 97, 108, 115, 101]
  }

  /** A leaf stands under the key, with its text. */
  predicate LeafIs(e: URLEncoding, key: Bytes, value: Value, component: Pair)
    requires IsLeaf(value)
  {
    && component.key == key
    && match value
       case Number(isBool, boolValue, description) =>
         component.value == if isBool then BoolOctets(e.boolEncoding, boolValue) else description
       case Bool(b) => component.value == BoolOctets(e.boolEncoding, b)
       case Other(description) => component.value == description
  }

  lemma ComponentsOfLeaf(e: URLEncoding, key: Bytes, value: Value)
    requires IsLeaf(value)
    ensures |Components(e, key, value)| == 1 && LeafIs(e, key, value, Components(e, key, value)[0])
  {
  }

  /** The components of an array of leaves, one by one. */
  lemma {:induction false} ComponentsOfLeaves(e: URLEncoding, key: Bytes, items: seq<Value>)
    requires forall x :: x in items ==> IsLeaf(x)
    ensures var components := Components(e, key, Array(items));
      && |components| == |items|
      && forall i :: 0 <= i < |items| ==>
           LeafIs(e, if e.arrayEncoding.Brackets? then key + [91, 93] else key, items[i], components[i])
  {
    hide Components, LeafIs, IsLeaf;
    if items == [] {
      ComponentsOfArray(e, key, Other([]), []);
    } else {
      var item, rest := items[0], items[1..];
      assert items == [item] + rest;
      ComponentsOfArray(e, key, item, rest);
      ComponentsOfLeaf(e, if e.arrayEncoding.Brackets? then key + [91, 93] else key, item);
      ComponentsOfLeaves(e, key, rest);
    }
  }

  /** A path in octets. */
  function PathOctets(brackets: bool, path: seq<Step>): Bytes {
    if path == [] then [] else StepOctets(brackets, path[0]) + PathOctets(brackets, path[1..])
  }

  lemma {:induction false} PathKeyInOctets(e: URLEncoding, key: Bytes, path: seq<Step>)
    ensures PathKey(e, key, path) == key + PathOctets(e.arrayEncoding.Brackets?, path)
    decreases |path|
  {
    if path == [] {
      assert key + [] == key;
    } else {
      PathKeyInOctets(e, StepKey(e, key, path[0]), path[1..]);
      StepInOctets(e, key, path[0], PathOctets(e.arrayEncoding.Brackets?, path[1..]));
    }
  }

  function StepOctets(brackets: bool, step: Step): Bytes {
    match step
    case Field(name) => [91] + name + [93]
    case Element => if brackets then [91, 93] else []
  }

  lemma StepInOctets(e: URLEncoding, key: Bytes, step: Step, more: Bytes)
    ensures StepKey(e, key, step) + more == key + (StepOctets(e.arrayEncoding.Brackets?, step) + more)
  {
    assert StepKey(e, key, step) == key + StepOctets(e.arrayEncoding.Brackets?, step);
  }

  /** The key of every component spells the path to its leaf behind the key. */
  lemma KeysSpellPaths(e: URLEncoding, key: Bytes, value: Value, i: nat)
    requires i < |Leaves(e, value)|
    ensures |Components(e, key, value)| == |Leaves(e, value)|
    ensures Components(e, key, value)[i].key == key + PathOctets(e.arrayEncoding.Brackets?, Leaves(e, value)[i].path)
  {
    PathKeyInOctets(e, key, Leaves(e, value)[i].path);
  }

  // ---------------------------------------------------------------------------------------------
  // Escaping

  function HexDigit(n: byte): byte
    requires n < 16
  {
    if n < 10 then 48 + n else 55 + n
  }

  function HexValue(b: byte): Option<byte> {
    if 48 <= b <= 57 then Some(b - 48)
    else if 65 <= b <= 70 then Some(b - 55)
    else if 97 <= b <= 102 then Some(b - 87)
    else None
  }

  /** `addingPercentEncoding(withAllowedCharacters:)` on UTF-8. */
  function Escape(allowed: set<byte>, s: Bytes): Bytes {
    if s == [] then []
    else
      (if s[0] in allowed then [s[0]] else [PERCENT, HexDigit(s[0] / 16), HexDigit(s[0] % 16)]) + Escape(allowed, s[1..])
  }

  /** Section 2.1 of RFC 3986; a percent sign, 37, without two hexadecimal digits stands for itself. */
  function PercentDecode(s: Bytes): Bytes
    decreases |s|
  {
    if s == [] then []
    else if |s| >= 3 && s[0] == 37 && HexValue(s[1]).Some? && HexValue(s[2]).Some? then
      [16 * HexValue(s[1]).value + HexValue(s[2]).value] + PercentDecode(s[3..])
    else [s[0]] + PercentDecode(s[1..])
  }

  /** No percent sign that is left as it is can be followed by two hexadecimal digits. */
  predicate PercentSafe(allowed: set<byte>) {
    37 in allowed ==> forall b: byte :: b in allowed ==> HexValue(b).None?
  }

  lemma {:induction false} EscapeRoundTrip(allowed: set<byte>, s: Bytes)
    requires PercentSafe(allowed)
    ensures PercentDecode(Escape(allowed, s)) == s
  {
    if s != [] {
      EscapeRoundTrip(allowed, s[1..]);
      var rest := Escape(allowed, s[1..]);
      if s[0] in allowed {
        assert ([s[0]] + rest)[1..] == rest;
      } else {
        assert ([PERCENT, HexDigit(s[0] / 16), HexDigit(s[0] % 16)] + rest)[3..] == rest;
      }
    }
  }

  /** Delimiters that must be escaped do not occur in escaped text. */
  lemma {:induction false} EscapeAvoids(allowed: set<byte>, s: Bytes, c: byte)
    requires c !in allowed && c != PERCENT && HexValue(c).None?
    ensures c !in Escape(allowed, s)
  {
    if s != [] {
      EscapeAvoids(allowed, s[1..], c);
    }
  }

  function EscapePairs(allowed: set<byte>, pairs: seq<Pair>): (r: seq<Pair>)
    ensures |r| == |pairs|
    ensures forall i :: 0 <= i < |pairs| ==> r[i] == Pair(Escape(allowed, pairs[i].key), Escape(allowed, pairs[i].value))
  {
    if pairs == [] then []
    else [Pair(Escape(allowed, pairs[0].key), Escape(allowed, pairs[0].value))] + EscapePairs(allowed, pairs[1..])
  }

  // ---------------------------------------------------------------------------------------------
  // `queryComponents(fromKey:value:)`

  /** One escaped component for a leaf, under the key; those of an array of leaves stand under the array's key. */
  predicate EscapedLeaves(e: URLEncoding, key: Bytes, value: Value, components: seq<Pair>) {
    match value
    case Dictionary(entries) => true
    case Array(items) =>
      (forall x :: x in items ==> IsLeaf(x)) ==>
        && |components| == |items|
        && forall i :: 0 <= i < |items| ==>
             EscapedLeaf(e, if e.arrayEncoding.Brackets? then key + [91, 93] else key, items[i], components[i])
    case _ => |components| == 1 && EscapedLeaf(e, key, value, components[0])
  }

  predicate EscapedLeaf(e: URLEncoding, key: Bytes, value: Value, component: Pair)
    requires IsLeaf(value)
  {
    && component.key == Escape(e.allowed, key)
    && match value
       case Number(isBool, boolValue, description) =>
         component.value == Escape(e.allowed, if isBool then BoolOctets(e.boolEncoding, boolValue) else description)
       case Bool(b) => component.value == Escape(e.allowed, BoolOctets(e.boolEncoding, b))
       case Other(description) => component.value == Escape(e.allowed, description)
  }

  lemma LeavesInOctets(e: URLEncoding, key: Bytes, value: Value)
    ensures EscapedLeaves(e, key, value, EscapePairs(e.allowed, Components(e, key, value)))
  {
    hide Escape, Components, EscapePairs;
    match value
    case Dictionary(_) =>
    case Array(items) =>
      if forall x :: x in items ==> IsLeaf(x) {
        ComponentsOfLeaves(e, key, items);
      }
    case _ => ComponentsOfLeaf(e, key, value);
  }

  method QueryComponents(e: URLEncoding, key: Bytes, value: Value) returns (components: seq<Pair>)
    ensures components == EscapePairs(e.allowed, Components(e, key, value))
    ensures EscapedLeaves(e, key, value, components)
    decreases value
  {
    LeavesInOctets(e, key, value);
    hide EscapedLeaves, PathKey, Escape, Leaves, EntryLeaves, ItemLeaves, Below, Named, EscapePairs, LeafText;
    components := [];
    LeavesUnfold(e, value);
    match value
    case Dictionary(entries) =>
      assert entries[0..] == entries;
      for i := 0 to |entries|
        invariant components + EscapePairs(e.allowed, Named(e, key, EntryLeaves(e, entries[i..])))
               == EscapePairs(e.allowed, Named(e, key, EntryLeaves(e, entries)))
      {
        var more := QueryComponents(e, NestedKey(key, entries[i].key), entries[i].value);
        EntryStep(e, key, entries, i);
        components := components + more;
      }
      assert entries[|entries|..] == [];
    case Array(items) =>
      assert items[0..] == items;
      for i := 0 to |items|
        invariant components + EscapePairs(e.allowed, Named(e, key, ItemLeaves(e, items[i..])))
               == EscapePairs(e.allowed, Named(e, key, ItemLeaves(e, items)))
      {
        var more := QueryComponents(e, ArrayKey(e.arrayEncoding, key), items[i]);
        ItemStep(e, key, items, i);
        components := components + more;
      }
      assert items[|items|..] == [];
    case Number(isBool, boolValue, description) =>
      if isBool {
        components := components + [Pair(Escape(e.allowed, key), Escape(e.allowed, BoolText(e.boolEncoding, boolValue)))];
      } else {
        components := components + [Pair(Escape(e.allowed, key), Escape(e.allowed, description))];
      }
      OneLeaf(e, key, value);
    case Bool(b) =>
      components := components + [Pair(Escape(e.allowed, key), Escape(e.allowed, BoolText(e.boolEncoding, b)))];
      OneLeaf(e, key, value);
    case Other(description) =>
      components := components + [Pair(Escape(e.allowed, key), Escape(e.allowed, description))];
      OneLeaf(e, key, value);
  }

  /** An octet that is not allowed is written as a percent sign and two capital hexadecimal digits. */
  lemma EscapeInOctets(allowed: set<byte>, b: byte, s: Bytes)
    ensures Escape(allowed, []) == []
    ensures Escape(allowed, [b] + s) ==
      (if b in allowed then [b]
       else [37, if b / 16 < 10 then 48 + b / 16 else 55 + b / 16, if b % 16 < 10 then 48 + b % 16 else 55 + b % 16])
      + Escape(allowed, s)
  {
    assert ([b] + s)[1..] == s;
  }

  lemma LeavesUnfold(e: URLEncoding, value: Value)
    ensures value.Dictionary? ==> Leaves(e, value) == EntryLeaves(e, value.entries)
    ensures value.Array? ==> Leaves(e, value) == ItemLeaves(e, value.items)
    ensures EntryLeaves(e, []) == ItemLeaves(e, []) == []
    ensures value.Number? ==>
      LeafText(e, value) == if value.isBool then BoolText(e.boolEncoding, value.boolValue) else value.description
    ensures value.Bool? ==> LeafText(e, value) == BoolText(e.boolEncoding, value.value)
    ensures value.Other? ==> LeafText(e, value) == value.description
  {
  }

  lemma OneLeaf(e: URLEncoding, key: Bytes, value: Value)
    requires !value.Dictionary? && !value.Array?
    ensures EscapePairs(e.allowed, Components(e, key, value))
         == [Pair(Escape(e.allowed, key), Escape(e.allowed, LeafText(e, value)))]
  {
    hide Escape, LeafText;
  }

  lemma EscapePairsConcat(allowed: set<byte>, a: seq<Pair>, b: seq<Pair>)
    ensures EscapePairs(allowed, a + b) == EscapePairs(allowed, a) + EscapePairs(allowed, b)
  {
    hide Escape;
  }

  lemma EntryStep(e: URLEncoding, key: Bytes, entries: seq<Entry>, i: nat)
    requires i < |entries|
    ensures EscapePairs(e.allowed, Named(e, key, EntryLeaves(e, entries[i..])))
         == EscapePairs(e.allowed, Components(e, NestedKey(key, entries[i].key), entries[i].value))
            + EscapePairs(e.allowed, Named(e, key, EntryLeaves(e, entries[i+1..])))
  {
    hide Leaves, Below, PathKey, Named, EscapePairs, NestedKey;
    var here, rest := Leaves(e, entries[i].value), EntryLeaves(e, entries[i+1..]);
    assert entries[i..][1..] == entries[i+1..];
    NamedConcat(e, key, Below(Field(entries[i].key), here), rest);
    NamedBelow(e, key, Field(entries[i].key), here);
    EscapePairsConcat(e.allowed, Components(e, NestedKey(key, entries[i].key), entries[i].value), Named(e, key, rest));
  }

  lemma ItemStep(e: URLEncoding, key: Bytes, items: seq<Value>, i: nat)
    requires i < |items|
    ensures EscapePairs(e.allowed, Named(e, key, ItemLeaves(e, items[i..])))
         == EscapePairs(e.allowed, Components(e, ArrayKey(e.arrayEncoding, key), items[i]))
            + EscapePairs(e.allowed, Named(e, key, ItemLeaves(e, items[i+1..])))
  {
    hide Leaves, Below, PathKey, Named, EscapePairs, ArrayKey;
    var here, rest := Leaves(e, items[i]), ItemLeaves(e, items[i+1..]);
    assert items[i..][1..] == items[i+1..];
    NamedConcat(e, key, Below(Element, here), rest);
    NamedBelow(e, key, Element, here);
    EscapePairsConcat(e.allowed, Components(e, ArrayKey(e.arrayEncoding, key), items[i]), Named(e, key, rest));
  }

  // ---------------------------------------------------------------------------------------------
  // Joining and reading a query

  function Join(pairs: seq<Pair>): Bytes {
    if pairs == [] then []
    else if |pairs| == 1 then Rendered(pairs[0])
    else Rendered(pairs[0]) + [AMPERSAND] + Join(pairs[1..])
  }

  function Rendered(p: Pair): Bytes { p.key + [EQUALS] + p.value }

  function IndexOf(s: Bytes, c: byte): (i: nat)
    requires c in s
    ensures i < |s| && s[i] == c && c !in s[..i]
  {
    if s[0] == c then 0 else 1 + IndexOf(s[1..], c)
  }

  /** What stands between two ampersands, 38: a pair at the first equals sign, 61, unless it is empty. */
  function DecodeSegment(s: Bytes): seq<Pair> {
    if s == [] then []
    else if 61 in s then
      [Pair(PercentDecode(s[..IndexOf(s, 61)]), PercentDecode(s[IndexOf(s, 61)+1..]))]
    else [Pair(PercentDecode(s), [])]
  }

  function DecodeQuery(s: Bytes): seq<Pair>
    decreases |s|
  {
    if 38 in s then
      DecodeSegment(s[..IndexOf(s, 38)]) + DecodeQuery(s[IndexOf(s, 38)+1..])
    else DecodeSegment(s)
  }

  lemma {:induction false} IndexIsFirst(a: Bytes, c: byte, b: Bytes)
    requires c !in a
    ensures c in a + [c] + b && IndexOf(a + [c] + b, c) == |a|
  {
    var s := a + [c] + b;
    assert s[|a|] == c;
    if a != [] {
      IndexIsFirst(a[1..], c, b);
      assert s[1..] == a[1..] + [c] + b;
    }
  }

  /** Reading a query is reading the two sides of any of its ampersands. */
  lemma {:induction false} DecodeConcat(a: Bytes, b: Bytes)
    ensures DecodeQuery(a + [38] + b) == DecodeQuery(a) + DecodeQuery(b)
    decreases |a|
  {
    hide DecodeSegment, IndexOf;
    var s := a + [38] + b;
    if 38 in a {
      var i := IndexOf(a, 38);
      assert a == a[..i] + [38] + a[i+1..];
      assert s == a[..i] + [38] + (a[i+1..] + [38] + b);
      IndexIsFirst(a[..i], 38, a[i+1..] + [38] + b);
      DecodeConcat(a[i+1..], b);
      assert s[..i] == a[..i] && s[i+1..] == a[i+1..] + [38] + b;
    } else {
      IndexIsFirst(a, 38, b);
      assert s[..|a|] == a && s[|a|+1..] == b;
    }
  }

  /** The characters that carry the structure of a query are escaped. */
  predicate Safe(allowed: set<byte>) {
    38 !in allowed && 61 !in allowed && PercentSafe(allowed)
  }

  lemma PairRoundTrip(allowed: set<byte>, p: Pair)
    requires Safe(allowed)
    ensures DecodeQuery(Rendered(Pair(Escape(allowed, p.key), Escape(allowed, p.value)))) == [p]
  {
    var k, v := Escape(allowed, p.key), Escape(allowed, p.value);
    EscapeAvoids(allowed, p.key, AMPERSAND);
    EscapeAvoids(allowed, p.value, AMPERSAND);
    EscapeAvoids(allowed, p.key, EQUALS);
    EscapeRoundTrip(allowed, p.key);
    EscapeRoundTrip(allowed, p.value);
    IndexIsFirst(k, EQUALS, v);
    var s := Rendered(Pair(k, v));
    assert s[..|k|] == k && s[|k|+1..] == v;
  }

  lemma {:induction false} JoinRoundTrip(allowed: set<byte>, pairs: seq<Pair>)
    requires Safe(allowed)
    ensures DecodeQuery(Join(EscapePairs(allowed, pairs))) == pairs
  {
    if pairs != [] {
      hide DecodeQuery, Escape, Rendered;
      var escaped := EscapePairs(allowed, pairs);
      PairRoundTrip(allowed, pairs[0]);
      if |pairs| == 1 {
        assert pairs == [pairs[0]];
      } else {
        JoinRoundTrip(allowed, pairs[1..]);
        assert escaped[1..] == EscapePairs(allowed, pairs[1..]);
        DecodeConcat(Rendered(escaped[0]), Join(escaped[1..]));
        assert pairs == [pairs[0]] + pairs[1..];
      }
    }
  }

  /** A key that is read differently, because its characters are left as they are. */
  lemma MisreadAmpersand()
    ensures DecodeQuery([AMPERSAND, EQUALS]) != [Pair([AMPERSAND], [])]
  {
    IndexIsFirst([], AMPERSAND, [EQUALS]);
    var s := [] + [AMPERSAND] + [EQUALS];
    assert s[1..] == [EQUALS];
    assert DecodeQuery(s) == [] + DecodeQuery([EQUALS]);
    IndexIsFirst([], EQUALS, []);
    assert [EQUALS] == [] + [EQUALS] + [];
    assert DecodeQuery(s)[0].key == [];
  }

  lemma MisreadEquals()
    ensures DecodeQuery([EQUALS, EQUALS]) != [Pair([EQUALS], [])]
  {
    IndexIsFirst([], EQUALS, [EQUALS]);
    assert [EQUALS, EQUALS] == [] + [EQUALS] + [EQUALS];
    assert DecodeQuery([EQUALS, EQUALS])[0].key == [];
  }

  lemma MisreadPercent(digit: byte)
    requires HexValue(digit).Some?
    ensures DecodeQuery([PERCENT, digit, digit, EQUALS]) != [Pair([PERCENT, digit, digit], [])]
  {
    hide PercentDecode, IndexOf;
    var key := [PERCENT, digit, digit];
    OneOctet(digit);
    IndexIsFirst(key, EQUALS, []);
    var s := key + [EQUALS] + [];
    assert s == [PERCENT, digit, digit, EQUALS] && s[..3] == key;
    assert DecodeQuery(s) == DecodeSegment(s);
    assert DecodeQuery(s)[0].key == PercentDecode(key);
  }

  lemma OneOctet(digit: byte)
    requires HexValue(digit).Some?
    ensures |PercentDecode([PERCENT, digit, digit])| == 1
  {
    assert [PERCENT, digit, digit][3..] == [];
    assert PercentDecode([]) == [];
  }

  lemma MisreadKey(allowed: set<byte>, b: byte)
    requires b in allowed
    requires b == AMPERSAND || b == EQUALS || (HexValue(b).Some? && PERCENT in allowed)
    ensures exists key :: DecodeQuery(Join(EscapePairs(allowed, [Pair(key, [])]))) != [Pair(key, [])]
  {
    hide DecodeQuery;
    var key := if HexValue(b).Some? then [PERCENT, b, b] else [b];
    KeptAsItIs(allowed, key);
    if b == AMPERSAND {
      MisreadAmpersand();
      assert Rendered(Pair(key, [])) == [AMPERSAND, EQUALS];
    } else if b == EQUALS {
      MisreadEquals();
      assert Rendered(Pair(key, [])) == [EQUALS, EQUALS];
    } else {
      MisreadPercent(b);
      assert Rendered(Pair(key, [])) == [PERCENT, b, b, EQUALS];
    }
  }

  lemma {:induction false} EscapeNothing(allowed: set<byte>, s: Bytes)
    requires forall b :: b in s ==> b in allowed
    ensures Escape(allowed, s) == s
  {
    if s != [] {
      EscapeNothing(allowed, s[1..]);
      assert s == [s[0]] + s[1..];
    }
  }

  lemma KeptAsItIs(allowed: set<byte>, key: Bytes)
    requires forall b :: b in key ==> b in allowed
    ensures Join(EscapePairs(allowed, [Pair(key, [])])) == Rendered(Pair(key, []))
  {
    EscapeNothing(allowed, key);
    assert EscapePairs(allowed, [Pair(key, [])]) == [Pair(key, [])];
  }

  /**
    Every list of components can be read back from its query exactly if the allowed characters contain no
    ampersand, no equals sign and no percent sign beside a hexadecimal digit.
   */
  lemma LosslessExactlyWhenSafe(allowed: set<byte>)
    ensures (forall pairs :: DecodeQuery(Join(EscapePairs(allowed, pairs))) == pairs) <==> Safe(allowed)
  {
    if Safe(allowed) {
      forall pairs ensures DecodeQuery(Join(EscapePairs(allowed, pairs))) == pairs {
        JoinRoundTrip(allowed, pairs);
      }
    } else {
      var b: byte :| b in allowed && (b == AMPERSAND || b == EQUALS || (HexValue(b).Some? && PERCENT in allowed));
      MisreadKey(allowed, b);
      var key :| DecodeQuery(Join(EscapePairs(allowed, [Pair(key, [])]))) != [Pair(key, [])];
    }
  }

  /** The delimiters that are taken out of the characters that Foundation allows in a query. */
  const GENERAL_DELIMITERS: set<byte> := {58, 35, 91, 93, 64}
  const SUB_DELIMITERS: set<byte> := {33, 36, 38, 39, 40, 41, 42, 43, 44, 59, 61}

  /** `afURLQueryAllowed` is safe, given that Foundation's set does not contain the percent sign. */
  lemma DefaultAllowedIsSafe(urlQueryAllowed: set<byte>)
    requires PERCENT !in urlQueryAllowed
    ensures Safe(urlQueryAllowed - (GENERAL_DELIMITERS + SUB_DELIMITERS))
  {
  }

  // ---------------------------------------------------------------------------------------------
  // `query`

  /** The keys of a dictionary in some order, as iterating over it lists them. */
  ghost predicate Lists(keys: seq<Bytes>, parameters: map<Bytes, Value>) {
    && (forall k :: k in keys <==> k in parameters)
    && (forall i, j :: 0 <= i < j < |keys| ==> keys[i] != keys[j])
  }

  /** A strict order on texts that compares any two of them. */
  ghost predicate TextOrder(less: (Bytes, Bytes) -> bool) {
    StrictOrder(less) && forall a, b :: a == b || less(a, b) || less(b, a)
  }

  /** The components of all parameters whose keys are given. */
  function AllComponents(e: URLEncoding, parameters: map<Bytes, Value>, keys: seq<Bytes>): seq<Pair>
    requires forall k :: k in keys ==> k in parameters
  {
    if keys == [] then []
    else Components(e, keys[0], parameters[keys[0]]) + AllComponents(e, parameters, keys[1..])
  }

  /** `query`, when iterating over the dictionary lists `keys`. */
  method Query(e: URLEncoding, parameters: map<Bytes, Value>, keys: seq<Bytes>, less: (Bytes, Bytes) -> bool)
      returns (query: Bytes)
    requires TextOrder(less) && Lists(keys, parameters)
    ensures forall k :: k in Sort(less, keys) ==> k in parameters
    ensures query == Join(EscapePairs(e.allowed, AllComponents(e, parameters, Sort(less, keys))))
  {
    hide Components, Join, EscapePairs, Sort, AllComponents, Sorted, StrictOrder;
    SortSorts(less, keys);
    var sortedKeys := Sort(less, keys);
    ghost var goal := EscapePairs(e.allowed, AllComponents(e, parameters, sortedKeys));
    var components: seq<Pair> := [];
    assert sortedKeys[0..] == sortedKeys;
    for i := 0 to |sortedKeys|
      invariant components + EscapePairs(e.allowed, AllComponents(e, parameters, sortedKeys[i..])) == goal
    {
      var more := QueryComponents(e, sortedKeys[i], parameters[sortedKeys[i]]);
      KeyStep(e, parameters, sortedKeys, i);
      components := components + more;
    }
    KeysDone(e, parameters, sortedKeys);
    assert components + [] == components;
    query := Join(components);
  }

  lemma KeyStep(e: URLEncoding, parameters: map<Bytes, Value>, keys: seq<Bytes>, i: nat)
    requires i < |keys| && forall k :: k in keys ==> k in parameters
    ensures EscapePairs(e.allowed, AllComponents(e, parameters, keys[i..]))
         == EscapePairs(e.allowed, Components(e, keys[i], parameters[keys[i]]))
            + EscapePairs(e.allowed, AllComponents(e, parameters, keys[i+1..]))
  {
    hide Components, EscapePairs;
    assert keys[i..][1..] == keys[i+1..];
    EscapePairsConcat(e.allowed, Components(e, keys[i], parameters[keys[i]]), AllComponents(e, parameters, keys[i+1..]));
  }

  lemma KeysDone(e: URLEncoding, parameters: map<Bytes, Value>, keys: seq<Bytes>)
    ensures EscapePairs(e.allowed, AllComponents(e, parameters, keys[|keys|..])) == []
  {
  }

  /** The order in which the dictionary of parameters is iterated does not show in the query. */
  lemma IterationOrderIsIrrelevant(less: (Bytes, Bytes) -> bool, parameters: map<Bytes, Value>,
                                   keys: seq<Bytes>, keys': seq<Bytes>)
    requires TextOrder(less) && Lists(keys, parameters) && Lists(keys', parameters)
    ensures Sort(less, keys) == Sort(less, keys')
  {
    SortSorts(less, keys);
    SortSorts(less, keys');
    SortedIsUnique(less, Sort(less, keys), Sort(less, keys'));
  }

  /** The order in which a nested dictionary is iterated does show. */
  lemma NestedOrderIsRelevant(e: URLEncoding, key: Bytes, a: Entry, b: Entry)
    requires a.key != b.key && a.value.Other? && b.value.Other?
    ensures Components(e, key, Dictionary([a, b])) != Components(e, key, Dictionary([b, a]))
  {
    NestedPair(e, key, a, b);
    NestedPair(e, key, b, a);
    assert NestedKey(key, a.key)[|key|+1..|key|+1+|a.key|] == a.key;
    assert NestedKey(key, b.key)[|key|+1..|key|+1+|b.key|] == b.key;
  }

  lemma NestedPair(e: URLEncoding, key: Bytes, a: Entry, b: Entry)
    requires a.value.Other? && b.value.Other?
    ensures Components(e, key, Dictionary([a, b])) ==
      [Pair(NestedKey(key, a.key), a.value.description), Pair(NestedKey(key, b.key), b.value.description)]
  {
    hide NestedKey;
    var entries := [a, b];
    assert entries[1..] == [b] && [b][1..] == [];
    OneBelow(e, a);
    OneBelow(e, b);
    assert EntryLeaves(e, [b]) == [Leaf([Field(b.key)], b.value.description)] + EntryLeaves(e, []);
    assert Leaves(e, Dictionary(entries)) ==
      [Leaf([Field(a.key)], a.value.description), Leaf([Field(b.key)], b.value.description)];
    assert [Field(a.key)][1..] == [] && [Field(b.key)][1..] == [];
    assert PathKey(e, key, [Field(a.key)]) == NestedKey(key, a.key);
    assert PathKey(e, key, [Field(b.key)]) == NestedKey(key, b.key);
  }

  lemma OneBelow(e: URLEncoding, x: Entry)
    requires x.value.Other?
    ensures Below(Field(x.key), Leaves(e, x.value)) == [Leaf([Field(x.key)], x.value.description)]
  {
    assert [Field(x.key)] + [] == [Field(x.key)];
  }

  /** The query behind the one that the URL already has; it is left alone if there are no parameters. */
  function Appended(existing: Option<Bytes>, query: Bytes, noParameters: bool): Option<Bytes> {
    if noParameters then existing
    else Some((match existing case Some(q) => q + [AMPERSAND] case None => []) + query)
  }

  /**
    What the server reads from the finished URL: what was there before and then one component for every
    leaf of the parameters, in order and unescaped.  This holds also where all parameters are empty
    arrays or dictionaries and the query ends with an ampersand.
   */
  lemma {:induction false} RequestRoundTrip(e: URLEncoding, existing: Option<Bytes>,
                                            parameters: map<Bytes, Value>, keys: seq<Bytes>)
    requires Safe(e.allowed) && Lists(keys, parameters)
    ensures
      var components := AllComponents(e, parameters, keys);
      var before := if existing.Some? then existing.value else [];
      var after := Appended(existing, Join(EscapePairs(e.allowed, components)), parameters == map[]);
      DecodeQuery(if after.Some? then after.value else []) == DecodeQuery(before) + components
  {
    NoKeys(e, parameters, keys);
    hide Join, EscapePairs, AllComponents, DecodeQuery;
    var components := AllComponents(e, parameters, keys);
    JoinRoundTrip(e.allowed, components);
    var query := Join(EscapePairs(e.allowed, components));
    DecodeConcat(if existing.Some? then existing.value else [], query);
    DecodeEmpty();
    assert [] + query == query;
  }

  lemma NoKeys(e: URLEncoding, parameters: map<Bytes, Value>, keys: seq<Bytes>)
    requires Lists(keys, parameters)
    ensures parameters == map[] ==> AllComponents(e, parameters, keys) == []
  {
    assert keys != [] ==> keys[0] in parameters;
  }

  lemma DecodeEmpty()
    ensures DecodeQuery([]) == []
  {
  }

  /** One component for every leaf. */
  lemma {:induction false} OnePerLeaf(e: URLEncoding, parameters: map<Bytes, Value>, keys: seq<Bytes>)
    requires forall k :: k in keys ==> k in parameters
    ensures |AllComponents(e, parameters, keys)| == LeafCount(parameters, keys)
  {
    if keys != [] {
      OnePerLeaf(e, parameters, keys[1..]);
      CountLeaves(e, parameters[keys[0]]);
    }
  }

  function LeafCount(parameters: map<Bytes, Value>, keys: seq<Bytes>): nat
    requires forall k :: k in keys ==> k in parameters
  {
    if keys == [] then 0 else Size(parameters[keys[0]]) + LeafCount(parameters, keys[1..])
  }

  /** The number of values without parts. */
  function Size(value: Value): nat
    decreases value
  {
    match value
    case Dictionary(entries) => EntriesSize(entries)
    case Array(items) => ItemsSize(items)
    case _ => 1
  }

  function EntriesSize(entries: seq<Entry>): nat
    decreases entries
  {
    if entries == [] then 0 else Size(entries[0].value) + EntriesSize(entries[1..])
  }

  function ItemsSize(items: seq<Value>): nat
    decreases items
  {
    if items == [] then 0 else Size(items[0]) + ItemsSize(items[1..])
  }

  lemma {:induction false} CountLeaves(e: URLEncoding, value: Value)
    ensures |Leaves(e, value)| == Size(value)
    decreases value
  {
    match value
    case Dictionary(entries) => CountEntryLeaves(e, entries);
    case Array(items) => CountItemLeaves(e, items);
    case _ =>
  }

  lemma {:induction false} CountEntryLeaves(e: URLEncoding, entries: seq<Entry>)
    ensures |EntryLeaves(e, entries)| == EntriesSize(entries)
    decreases entries
  {
    if entries != [] {
      CountLeaves(e, entries[0].value);
      CountEntryLeaves(e, entries[1..]);
    }
  }

  lemma {:induction false} CountItemLeaves(e: URLEncoding, items: seq<Value>)
    ensures |ItemLeaves(e, items)| == ItemsSize(items)
    decreases items
  {
    if items != [] {
      CountLeaves(e, items[0]);
      CountItemLeaves(e, items[1..]);
    }
  }
}
