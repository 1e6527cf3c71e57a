/**
  `HTTPHeaders` of HTTPHeaders.swift: a list of headers that behaves like a dictionary whose keys are the
  lower-case names and which remembers the order in which they came in.
 */
module HeaderList {
  import opened Wrappers
  import opened Sorting

  datatype HTTPHeader = HTTPHeader(name: string, value: string)

  // ---------------------------------------------------------------------------------------------
  // The dictionary that the list stands for

  /** The keys in order, and what was last stored under each of them. */
  datatype Ordered = Ordered(keys: seq<string>, table: map<string, HTTPHeader>)

  datatype Operation = Update(header: HTTPHeader) | Remove(name: string) | SortByName

  /** What does not depend on the headers: how names are put into lower case and how texts are compared. */
  datatype Texts = Texts(lower: string -> string, less: (string, string) -> bool)

  ghost predicate GoodTexts(t: Texts) {
    StrictOrder(t.less) && forall a, b :: a == b || t.less(a, b) || t.less(b, a)
  }

  predicate Distinct(keys: seq<string>) {
    forall i, j :: 0 <= i < j < |keys| ==> keys[i] != keys[j]
  }

  ghost predicate WellFormed(t: Texts, d: Ordered) {
    && Distinct(d.keys)
    && (forall k :: k in d.keys <==> k in d.table)
    && (forall k :: k in d.table ==> t.lower(d.table[k].name) == k)
  }

  function Without(keys: seq<string>, key: string): (r: seq<string>)
    ensures forall k :: k in r <==> k in keys && k != key
  {
    if keys == [] then []
    else (if keys[0] == key then [] else [keys[0]]) + Without(keys[1..], key)
  }

  function Apply(t: Texts, d: Ordered, op: Operation): Ordered {
    match op
    case Update(h) =>
      var key := t.lower(h.name);
      Ordered(if key in d.table then d.keys else d.keys + [key], d.table[key := h])
    case Remove(name) =>
      var key := t.lower(name);
      Ordered(Without(d.keys, key), d.table - {key})
    case SortByName => Ordered(Sort(t.less, d.keys), d.table)
  }

  function Run(t: Texts, ops: seq<Operation>): Ordered {
    if ops == [] then Ordered([], map[])
    else Apply(t, Run(t, ops[..|ops|-1]), ops[|ops|-1])
  }

  function Lookup(t: Texts, d: Ordered, name: string): Option<string> {
    if t.lower(name) in d.table then Some(d.table[t.lower(name)].value) else None
  }

  lemma {:induction false} RunIsWellFormed(t: Texts, ops: seq<Operation>)
    requires GoodTexts(t)
    ensures WellFormed(t, Run(t, ops))
  {
    if ops != [] {
      RunIsWellFormed(t, ops[..|ops|-1]);
      ApplyIsWellFormed(t, Run(t, ops[..|ops|-1]), ops[|ops|-1]);
    }
  }

  lemma ApplyIsWellFormed(t: Texts, d: Ordered, op: Operation)
    requires GoodTexts(t) && WellFormed(t, d)
    ensures WellFormed(t, Apply(t, d, op))
  {
    match op
    case Update(h) =>
    case Remove(name) => WithoutDistinct(d.keys, t.lower(name));
    case SortByName => SortSorts(t.less, d.keys);
  }

  lemma {:induction false} WithoutDistinct(keys: seq<string>, key: string)
    requires Distinct(keys)
    ensures Distinct(Without(keys, key))
  {
    if keys != [] {
      WithoutDistinct(keys[1..], key);
      var rest := Without(keys[1..], key);
      forall k | 0 <= k < |rest| ensures rest[k] != keys[0] {
        assert rest[k] in rest;
      }
    }
  }

  // ---------------------------------------------------------------------------------------------
  // What lookups find after any sequence of operations

  /** The last header that was stored under a key, unless it was removed since. */
  function LastWrite(t: Texts, ops: seq<Operation>, key: string): Option<HTTPHeader> {
    if ops == [] then None
    else
      match ops[|ops|-1]
      case Update(h) => if t.lower(h.name) == key then Some(h) else LastWrite(t, ops[..|ops|-1], key)
      case Remove(name) => if t.lower(name) == key then None else LastWrite(t, ops[..|ops|-1], key)
      case SortByName => LastWrite(t, ops[..|ops|-1], key)
  }

  /** What is held under a key is the header that was last stored, with the name as it was spelled then. */
  lemma {:induction false} HeldAsLastWritten(t: Texts, ops: seq<Operation>, key: string)
    ensures key in Run(t, ops).table <==> LastWrite(t, ops, key).Some?
    ensures key in Run(t, ops).table ==> LastWrite(t, ops, key) == Some(Run(t, ops).table[key])
  {
    if ops != [] {
      HeldAsLastWritten(t, ops[..|ops|-1], key);
    }
  }

  /** A lookup finds what was last stored under a name that is equal ignoring case, unless it was removed since. */
  lemma {:induction false} LookupFindsLastWrite(t: Texts, ops: seq<Operation>, name: string)
    ensures Lookup(t, Run(t, ops), name) ==
      match LastWrite(t, ops, t.lower(name))
      case Some(h) => Some(h.value)
      case None => None
  {
    HeldAsLastWritten(t, ops, t.lower(name));
  }

  predicate Before(keys: seq<string>, a: string, b: string) {
    exists i, j :: 0 <= i < j < |keys| && keys[i] == a && keys[j] == b
  }

  predicate Keeps(t: Texts, op: Operation, a: string) {
    !op.SortByName? && (op.Remove? ==> t.lower(op.name) != a)
  }

  lemma {:induction false} WithoutKeepsOrder(keys: seq<string>, key: string, a: string, b: string)
    requires Before(keys, a, b) && a != key && b != key
    ensures Before(Without(keys, key), a, b)
  {
    var i, j :| 0 <= i < j < |keys| && keys[i] == a && keys[j] == b;
    var rest := Without(keys[1..], key);
    if i > 0 {
      assert keys[1..][i-1] == a && keys[1..][j-1] == b;
      WithoutKeepsOrder(keys[1..], key, a, b);
      var i', j' :| 0 <= i' < j' < |rest| && rest[i'] == a && rest[j'] == b;
      var r := Without(keys, key);
      var shift := |r| - |rest|;
      assert r[i'+shift] == a && r[j'+shift] == b;
    } else {
      assert keys[1..][j-1] == b;
      assert b in rest;
      var j' :| 0 <= j' < |rest| && rest[j'] == b;
      assert Without(keys, key)[0] == a && Without(keys, key)[j'+1] == b;
    }
  }

  lemma BeforeGrows(keys: seq<string>, key: string, a: string, b: string)
    requires Before(keys, a, b)
    ensures Before(keys + [key], a, b)
  {
    var i, j :| 0 <= i < j < |keys| && keys[i] == a && keys[j] == b;
    assert (keys + [key])[i] == a && (keys + [key])[j] == b;
  }

  /** Updates never move a header, and removals move none past another. */
  lemma {:induction false} PositionsAreKept(t: Texts, ops: seq<Operation>, more: seq<Operation>, a: string, b: string)
    requires Before(Run(t, ops).keys, a, b)
    requires forall i :: 0 <= i < |more| ==> Keeps(t, more[i], a) && Keeps(t, more[i], b)
    ensures Before(Run(t, ops + more).keys, a, b)
    decreases |more|
  {
    if more == [] {
      assert ops + more == ops;
    } else {
      hide Sort, Without, Before;
      var init, last := more[..|more|-1], more[|more|-1];
      PositionsAreKept(t, ops, init, a, b);
      assert (ops + more)[..|ops + more|-1] == ops + init && (ops + more)[|ops + more|-1] == last;
      var keys := Run(t, ops + init).keys;
      match last
      case Update(h) =>
        BeforeGrows(keys, t.lower(h.name), a, b);
      case Remove(name) =>
        WithoutKeepsOrder(keys, t.lower(name), a, b);
    }
  }

  // ---------------------------------------------------------------------------------------------
  // The list

  predicate Unique(t: Texts, headers: seq<HTTPHeader>) {
    forall i, j :: 0 <= i < j < |headers| ==> t.lower(headers[i].name) != t.lower(headers[j].name)
  }

  function Keys(t: Texts, headers: seq<HTTPHeader>): (keys: seq<string>)
    ensures |keys| == |headers|
    ensures forall i :: 0 <= i < |headers| ==> keys[i] == t.lower(headers[i].name)
  {
    if headers == [] then [] else Keys(t, headers[..|headers|-1]) + [t.lower(headers[|headers|-1].name)]
  }

  function Table(t: Texts, headers: seq<HTTPHeader>): map<string, HTTPHeader> {
    if headers == [] then map[]
    else Table(t, headers[..|headers|-1])[t.lower(headers[|headers|-1].name) := headers[|headers|-1]]
  }

  function Abstract(t: Texts, headers: seq<HTTPHeader>): Ordered {
    Ordered(Keys(t, headers), Table(t, headers))
  }

  lemma {:induction false} TableHolds(t: Texts, headers: seq<HTTPHeader>)
    ensures forall k :: k in Table(t, headers) <==> k in Keys(t, headers)
    ensures forall k :: k in Table(t, headers) ==> Table(t, headers)[k] in headers && t.lower(Table(t, headers)[k].name) == k
    ensures Unique(t, headers) ==>
      forall i :: 0 <= i < |headers| ==> Keys(t, headers)[i] in Table(t, headers)
                                         && Table(t, headers)[Keys(t, headers)[i]] == headers[i]
  {
    if headers != [] {
      var init := headers[..|headers|-1];
      TableHolds(t, init);
      assert headers == init + [headers[|headers|-1]];
    }
  }

  /** A list without equal names is determined by the dictionary it stands for. */
  lemma AbstractIsOneToOne(t: Texts, a: seq<HTTPHeader>, b: seq<HTTPHeader>)
    requires Unique(t, a) && Unique(t, b) && Abstract(t, a) == Abstract(t, b)
    ensures a == b
  {
    TableHolds(t, a);
    TableHolds(t, b);
    forall i | 0 <= i < |a| ensures a[i] == b[i] {
      assert Keys(t, a)[i] == Keys(t, b)[i];
    }
  }

  lemma AbstractIsWellFormed(t: Texts, headers: seq<HTTPHeader>)
    requires Unique(t, headers)
    ensures WellFormed(t, Abstract(t, headers))
  {
    TableHolds(t, headers);
  }

  /** `Array.index(of:)`. */
  function IndexOf(t: Texts, headers: seq<HTTPHeader>, name: string): (r: Option<nat>)
    ensures r.Some? ==>
      && r.value < |headers| && t.lower(headers[r.value].name) == t.lower(name)
      && forall i :: 0 <= i < r.value ==> t.lower(headers[i].name) != t.lower(name)
    ensures r.None? ==> forall i :: 0 <= i < |headers| ==> t.lower(headers[i].name) != t.lower(name)
  {
    if headers == [] then None
    else if t.lower(headers[0].name) == t.lower(name) then Some(0)
    else match IndexOf(t, headers[1..], name)
         case None => None
         case Some(i) => Some(i + 1)
  }

  /** A list stands for a dictionary if it holds the dictionary's headers in the order of the keys. */
  lemma StandsFor(t: Texts, headers: seq<HTTPHeader>, d: Ordered)
    requires WellFormed(t, d) && |headers| == |d.keys|
    requires forall i :: 0 <= i < |headers| ==> headers[i] == d.table[d.keys[i]]
    ensures Unique(t, headers) && Abstract(t, headers) == d
  {
    hide Keys, Table;
    assert forall i :: 0 <= i < |headers| ==> d.keys[i] in d.table;
    assert Keys(t, headers) == d.keys;
    TableHolds(t, headers);
    forall k | k in d.table ensures k in Table(t, headers) && Table(t, headers)[k] == d.table[k] {
      var i :| 0 <= i < |d.keys| && d.keys[i] == k;
    }
    assert Table(t, headers) == d.table;
  }

  lemma UpdateInPlace(t: Texts, headers: seq<HTTPHeader>, i: nat, h: HTTPHeader)
    requires GoodTexts(t) && Unique(t, headers) && i < |headers| && t.lower(headers[i].name) == t.lower(h.name)
    ensures Unique(t, headers[i := h]) && Abstract(t, headers[i := h]) == Apply(t, Abstract(t, headers), Update(h))
  {
    var d := Abstract(t, headers);
    TableHolds(t, headers);
    AbstractIsWellFormed(t, headers);
    ApplyIsWellFormed(t, d, Update(h));
    StandsFor(t, headers[i := h], Apply(t, d, Update(h)));
  }

  lemma UpdateAppends(t: Texts, headers: seq<HTTPHeader>, h: HTTPHeader)
    requires GoodTexts(t) && Unique(t, headers)
    requires forall i :: 0 <= i < |headers| ==> t.lower(headers[i].name) != t.lower(h.name)
    ensures Unique(t, headers + [h]) && Abstract(t, headers + [h]) == Apply(t, Abstract(t, headers), Update(h))
  {
    var d := Abstract(t, headers);
    TableHolds(t, headers);
    AbstractIsWellFormed(t, headers);
    ApplyIsWellFormed(t, d, Update(h));
    StandsFor(t, headers + [h], Apply(t, d, Update(h)));
  }

  lemma {:induction false} WithoutAbsent(keys: seq<string>, key: string)
    requires key !in keys
    ensures Without(keys, key) == keys
  {
    if keys != [] {
      WithoutAbsent(keys[1..], key);
    }
  }

  lemma {:induction false} WithoutAt(keys: seq<string>, i: nat)
    requires i < |keys| && Distinct(keys)
    ensures Without(keys, keys[i]) == keys[..i] + keys[i+1..]
  {
    if i == 0 {
      WithoutAbsent(keys[1..], keys[0]);
    } else {
      WithoutAt(keys[1..], i - 1);
      assert keys[1..][..i-1] == keys[1..i] && keys[1..][i..] == keys[i+1..];
    }
  }

  lemma CutOut<T>(s: seq<T>, i: nat, j: nat)
    requires i < |s| && j < |s| - 1
    ensures (s[..i] + s[i+1..])[j] == s[if j < i then j else j + 1]
  {
  }

  lemma RemoveAt(t: Texts, headers: seq<HTTPHeader>, i: nat, name: string)
    requires GoodTexts(t) && Unique(t, headers) && i < |headers| && t.lower(headers[i].name) == t.lower(name)
    ensures var left := headers[..i] + headers[i+1..];
      Unique(t, left) && Abstract(t, left) == Apply(t, Abstract(t, headers), Remove(name))
  {
    hide Table, Without;
    var d, left := Abstract(t, headers), headers[..i] + headers[i+1..];
    TableHolds(t, headers);
    AbstractIsWellFormed(t, headers);
    ApplyIsWellFormed(t, d, Remove(name));
    WithoutAt(d.keys, i);
    var after := Apply(t, d, Remove(name));
    assert after.keys == d.keys[..i] + d.keys[i+1..] && after.table == d.table - {d.keys[i]};
    forall j | 0 <= j < |left| ensures left[j] == after.table[after.keys[j]] {
      CutOut(headers, i, j);
      CutOut(d.keys, i, j);
    }
    hide Apply, Keys;
    StandsFor(t, left, after);
  }

  lemma RemoveAbsent(t: Texts, headers: seq<HTTPHeader>, name: string)
    requires Unique(t, headers)
    requires forall i :: 0 <= i < |headers| ==> t.lower(headers[i].name) != t.lower(name)
    ensures Apply(t, Abstract(t, headers), Remove(name)) == Abstract(t, headers)
  {
    TableHolds(t, headers);
    WithoutAbsent(Keys(t, headers), t.lower(name));
    assert Table(t, headers) - {t.lower(name)} == Table(t, headers);
  }

  /** The comparison that `sort()` passes to the library's sort. */
  function ByName(t: Texts): (HTTPHeader, HTTPHeader) -> bool {
    (a: HTTPHeader, b: HTTPHeader) => t.less(t.lower(a.name), t.lower(b.name))
  }

  lemma ByNameIsOrder(t: Texts)
    requires GoodTexts(t)
    ensures StrictOrder(ByName(t))
  {
    forall x ensures !ByName(t)(x, x) {
      assert !t.less(t.lower(x.name), t.lower(x.name));
    }
    forall x, y, z | ByName(t)(x, y) && ByName(t)(y, z) ensures ByName(t)(x, z) {
      assert t.less(t.lower(x.name), t.lower(y.name)) && t.less(t.lower(y.name), t.lower(z.name));
    }
  }

  lemma KeptKey(t: Texts, a: seq<HTTPHeader>, b: seq<HTTPHeader>, k: string)
    requires SameElements(a, b) && k in Keys(t, a)
    ensures k in Keys(t, b)
  {
    hide Keys;
    var i :| 0 <= i < |a| && Keys(t, a)[i] == k;
    assert a[i] in b;
    var j :| 0 <= j < |b| && b[j] == a[i];
    assert Keys(t, b)[j] == k;
  }

  /** Sorting headers by name sorts their keys. */
  lemma SortedKeys(t: Texts, headers: seq<HTTPHeader>, after: seq<HTTPHeader>)
    requires GoodTexts(t) && Unique(t, headers)
    requires Sorted(ByName(t), after) && SameElements(after, headers)
    ensures Keys(t, after) == Sort(t.less, Keys(t, headers))
  {
    hide Sort, Keys;
    AbstractIsWellFormed(t, headers);
    var keys := Keys(t, headers);
    SortSorts(t.less, keys);
    forall k ensures k in Keys(t, after) <==> k in keys {
      if k in keys {
        KeptKey(t, headers, after, k);
      }
      if k in Keys(t, after) {
        KeptKey(t, after, headers, k);
      }
    }
    forall i, j | 0 <= i < j < |after| ensures t.less(Keys(t, after)[i], Keys(t, after)[j]) {
      assert ByName(t)(after[i], after[j]);
    }
    SortedIsUnique(t.less, Keys(t, after), Sort(t.less, keys));
  }

  lemma SortHeaders(t: Texts, headers: seq<HTTPHeader>)
    requires GoodTexts(t) && Unique(t, headers)
    ensures StrictOrder(ByName(t)) && NoTies(ByName(t), headers)
    ensures Unique(t, Sort(ByName(t), headers))
    ensures Abstract(t, Sort(ByName(t), headers)) == Apply(t, Abstract(t, headers), SortByName)
  {
    hide Sort, Table;
    var d, after := Abstract(t, headers), Sort(ByName(t), headers);
    ByNameIsOrder(t);
    SortSorts(ByName(t), headers);
    SortedKeys(t, headers, after);
    TableHolds(t, headers);
    AbstractIsWellFormed(t, headers);
    ApplyIsWellFormed(t, d, SortByName);
    forall i | 0 <= i < |after| ensures after[i] == d.table[Keys(t, after)[i]] {
      assert after[i] in headers;
      var j :| 0 <= j < |headers| && headers[j] == after[i];
      assert Keys(t, headers)[j] == Keys(t, after)[i];
    }
    StandsFor(t, after, Apply(t, d, SortByName));
  }

  /** `struct HTTPHeaders`. */
  class HTTPHeaders {
    const t: Texts
    var headers: seq<HTTPHeader>

    ghost predicate Valid()
      reads this
    {
      GoodTexts(t) && Unique(t, headers)
    }

    /** The dictionary that this list stands for. */
    ghost function Contents(): Ordered
      reads this
    {
      Abstract(t, headers)
    }

    constructor (t: Texts)
      requires GoodTexts(t)
      ensures Valid() && this.t == t && Contents() == Run(t, [])
    {
      this.t := t;
      headers := [];
    }

    constructor FromArray(t: Texts, headers: seq<HTTPHeader>)
      requires GoodTexts(t)
      ensures Valid() && this.t == t && Contents() == Run(t, Updates(headers))
    {
      this.t := t;
      this.headers := [];
      new;
      for i := 0 to |headers|
        invariant Valid() && Contents() == Run(t, Updates(headers[..i]))
      {
        UpdatesUnfold(t, headers, i);
        UpdateHeader(headers[i]);
      }
      assert headers[..|headers|] == headers;
    }

    /** `update(_:)`, which `add` also calls. */
    method UpdateHeader(header: HTTPHeader)
      requires Valid()
      modifies this`headers
      ensures Valid() && Contents() == Apply(t, old(Contents()), Update(header))
      // a header with that name is replaced where it stands, and a new one goes to the end
      ensures forall i :: 0 <= i < |old(headers)| && t.lower(old(headers)[i].name) == t.lower(header.name) ==>
        headers == old(headers)[i := header]
      ensures (forall i :: 0 <= i < |old(headers)| ==> t.lower(old(headers)[i].name) != t.lower(header.name)) ==>
        headers == old(headers) + [header]
    {
      hide Abstract, Apply;
      match IndexOf(t, headers, header.name)
      case None =>
        UpdateAppends(t, headers, header);
        headers := headers + [header];
      case Some(index) =>
        UpdateInPlace(t, headers, index, header);
        ghost var after := headers[index := header];
        headers := headers[..index] + [header] + headers[index+1..];
        assert headers == after;
    }

    method RemoveName(name: string)
      requires Valid()
      modifies this`headers
      ensures Valid() && Contents() == Apply(t, old(Contents()), Remove(name))
      ensures forall i :: 0 <= i < |old(headers)| && t.lower(old(headers)[i].name) == t.lower(name) ==>
        headers == old(headers)[..i] + old(headers)[i+1..]
      ensures (forall i :: 0 <= i < |old(headers)| ==> t.lower(old(headers)[i].name) != t.lower(name)) ==>
        headers == old(headers)
    {
      hide Abstract, Apply;
      match IndexOf(t, headers, name)
      case None =>
        RemoveAbsent(t, headers, name);
      case Some(index) =>
        RemoveAt(t, headers, index, name);
        headers := headers[..index] + headers[index+1..];
    }

    method SortInPlace()
      requires Valid()
      modifies this`headers
      ensures Valid() && Contents() == Apply(t, old(Contents()), SortByName)
      ensures SameElements(headers, old(headers))
      ensures forall i, j :: 0 <= i < j < |headers| ==> t.less(t.lower(headers[i].name), t.lower(headers[j].name))
    {
      SortHeaders(t, headers);
      SortSorts(ByName(t), headers);
      headers := Sort(ByName(t), headers);
    }

    /** The subscript's setter. */
    method SetValue(name: string, value: Option<string>)
      requires Valid()
      modifies this`headers
      ensures Valid()
      ensures Contents() ==
        Apply(t, old(Contents()), if value.Some? then Update(HTTPHeader(name, value.value)) else Remove(name))
    {
      match value
      case Some(v) => UpdateHeader(HTTPHeader(name, v));
      case None => RemoveName(name);
    }

    /** `value(for:)`. */
    method Value(name: string) returns (value: Option<string>)
      requires Valid()
      ensures value == Lookup(t, Contents(), name)
    {
      TableHolds(t, headers);
      match IndexOf(t, headers, name)
      case None => return None;
      case Some(index) => return Some(headers[index].value);
    }

    /** `dictionary`: the names as they were last written, with their values. */
    method Dictionary() returns (r: map<string, string>)
      requires Valid()
      ensures forall h :: h in headers <==> h.name in r && r[h.name] == h.value
    {
      r := LastWins(headers);
      LastWinsHolds(t, headers);
    }
  }

  /** `Dictionary(_:uniquingKeysWith:)` with the last value winning. */
  function LastWins(headers: seq<HTTPHeader>): map<string, string> {
    if headers == [] then map[]
    else LastWins(headers[..|headers|-1])[headers[|headers|-1].name := headers[|headers|-1].value]
  }

  lemma {:induction false} LastWinsHolds(t: Texts, headers: seq<HTTPHeader>)
    requires Unique(t, headers)
    ensures forall h :: h in headers <==> h.name in LastWins(headers) && LastWins(headers)[h.name] == h.value
  {
    if headers != [] {
      var init, last := headers[..|headers|-1], headers[|headers|-1];
      LastWinsHolds(t, init);
      assert LastWins(headers) == LastWins(init)[last.name := last.value];
      assert headers == init + [last];
      hide LastWins;
      forall h | h in init ensures h.name != last.name {
        var i :| 0 <= i < |init| && init[i] == h;
        assert t.lower(headers[i].name) != t.lower(headers[|headers|-1].name);
      }
    }
  }

  function Updates(headers: seq<HTTPHeader>): (ops: seq<Operation>)
    ensures |ops| == |headers| && forall i :: 0 <= i < |ops| ==> ops[i] == Update(headers[i])
  {
    if headers == [] then [] else Updates(headers[..|headers|-1]) + [Update(headers[|headers|-1])]
  }

  lemma UpdatesUnfold(t: Texts, headers: seq<HTTPHeader>, i: nat)
    requires i < |headers|
    ensures Run(t, Updates(headers[..i+1])) == Apply(t, Run(t, Updates(headers[..i])), Update(headers[i]))
  {
    hide Apply;
    assert headers[..i+1][..i] == headers[..i];
    var ops := Updates(headers[..i+1]);
    assert ops[..|ops|-1] == Updates(headers[..i]);
  }

  // ---------------------------------------------------------------------------------------------
  // Building a list from a dictionary

  /** The entries of a dictionary in some order, as `forEach` visits them. */
  ghost predicate Listing(dictionary: map<string, string>, entries: seq<HTTPHeader>) {
    && (forall h :: h in entries <==> h.name in dictionary && dictionary[h.name] == h.value)
    && (forall i, j :: 0 <= i < j < |entries| ==> entries[i].name != entries[j].name)
  }

  lemma {:induction false} RunOfUnique(t: Texts, headers: seq<HTTPHeader>)
    requires GoodTexts(t) && Unique(t, headers)
    ensures Run(t, Updates(headers)) == Abstract(t, headers)
  {
    if headers != [] {
      hide Abstract, Apply;
      var n := |headers| - 1;
      RunOfUnique(t, headers[..n]);
      UpdatesUnfold(t, headers, n);
      UpdateAppends(t, headers[..n], headers[n]);
      assert headers[..n] + [headers[n]] == headers && headers[..n+1] == headers;
    }
  }

  /** `HTTPHeaders(headers.dictionary)` finds the same values, in whatever order the dictionary is visited. */
  lemma RebuildingKeepsLookups(t: Texts, headers: seq<HTTPHeader>, entries: seq<HTTPHeader>, name: string)
    requires GoodTexts(t) && Unique(t, headers) && Listing(LastWins(headers), entries)
    ensures Lookup(t, Run(t, Updates(entries)), name) == Lookup(t, Abstract(t, headers), name)
  {
    LastWinsHolds(t, headers);
    forall i, j | 0 <= i < j < |entries| ensures t.lower(entries[i].name) != t.lower(entries[j].name) {
      assert entries[i] in headers && entries[j] in headers;
      var i', j' :| 0 <= i' < |headers| && 0 <= j' < |headers| && headers[i'] == entries[i] && headers[j'] == entries[j];
    }
    RunOfUnique(t, entries);
    TableHolds(t, entries);
    TableHolds(t, headers);
    var key := t.lower(name);
    hide Table, Updates, Run, LastWins;
    if key in Table(t, entries) {
      var h := Table(t, entries)[key];
      var i :| 0 <= i < |headers| && headers[i] == h;
      assert Keys(t, headers)[i] == key;
    }
    if key in Table(t, headers) {
      var h := Table(t, headers)[key];
      var i :| 0 <= i < |entries| && entries[i] == h;
      assert Keys(t, entries)[i] == key;
    }
  }

  /** What was last stored under a key by updates alone is the value of one of them. */
  lemma {:induction false} LastValue(t: Texts, entries: seq<HTTPHeader>, key: string)
    ensures match LastWrite(t, Updates(entries), key)
            case None => forall h :: h in entries ==> t.lower(h.name) != key
            case Some(h) => h in entries && t.lower(h.name) == key
  {
    if entries != [] {
      var n := |entries| - 1;
      LastValue(t, entries[..n], key);
      assert Updates(entries)[..n] == Updates(entries[..n]);
      assert entries == entries[..n] + [entries[n]];
      if t.lower(entries[n].name) == key {
        assert entries[n] in entries;
      }
    }
  }

  /** No two names that are equal ignoring case carry different values. */
  predicate CaseConsistent(t: Texts, dictionary: map<string, string>) {
    forall a, b :: a in dictionary && b in dictionary && t.lower(a) == t.lower(b) ==> dictionary[a] == dictionary[b]
  }

  lemma SameLookups(t: Texts, dictionary: map<string, string>, e: seq<HTTPHeader>, e': seq<HTTPHeader>, name: string)
    requires CaseConsistent(t, dictionary) && Listing(dictionary, e) && Listing(dictionary, e')
    ensures Lookup(t, Run(t, Updates(e)), name) == Lookup(t, Run(t, Updates(e')), name)
  {
    LookupFindsLastWrite(t, Updates(e), name);
    LookupFindsLastWrite(t, Updates(e'), name);
    LastValue(t, e, t.lower(name));
    LastValue(t, e', t.lower(name));
  }

  lemma {:induction false} ListAll(dictionary: map<string, string>) returns (entries: seq<HTTPHeader>)
    ensures Listing(dictionary, entries)
    decreases |dictionary|
  {
    if dictionary == map[] {
      return [];
    }
    var k :| k in dictionary;
    entries := ListEndingIn(dictionary, k);
  }

  lemma {:induction false} ListEndingIn(dictionary: map<string, string>, k: string) returns (entries: seq<HTTPHeader>)
    requires k in dictionary
    ensures Listing(dictionary, entries) && entries != [] && entries[|entries|-1] == HTTPHeader(k, dictionary[k])
    decreases |dictionary|, 0
  {
    var rest := dictionary - {k};
    assert dictionary == rest[k := dictionary[k]];
    var init := ListAll(rest);
    forall i | 0 <= i < |init| ensures init[i].name != k {
      assert init[i] in init;
    }
    entries := init + [HTTPHeader(k, dictionary[k])];
  }

  /** The name that was visited last decides. */
  lemma LastOneWins(t: Texts, entries: seq<HTTPHeader>, name: string)
    requires entries != [] && t.lower(entries[|entries|-1].name) == t.lower(name)
    ensures Lookup(t, Run(t, Updates(entries)), name) == Some(entries[|entries|-1].value)
  {
    LookupFindsLastWrite(t, Updates(entries), name);
  }

  predicate AgreeOn(t: Texts, e: seq<HTTPHeader>, e': seq<HTTPHeader>, name: string) {
    Lookup(t, Run(t, Updates(e)), name) == Lookup(t, Run(t, Updates(e')), name)
  }

  /**
    What a list built from a dictionary finds does not depend on the order in which the dictionary is
    visited exactly if the dictionary gives equal names, ignoring case, equal values.
   */
  lemma DictionaryOrderIsIrrelevant(t: Texts, dictionary: map<string, string>)
    ensures (forall e, e', name :: Listing(dictionary, e) && Listing(dictionary, e') ==> AgreeOn(t, e, e', name))
       <==> CaseConsistent(t, dictionary)
  {
    if CaseConsistent(t, dictionary) {
      forall e, e', name | Listing(dictionary, e) && Listing(dictionary, e') ensures AgreeOn(t, e, e', name) {
        SameLookups(t, dictionary, e, e', name);
      }
    } else {
      var a, b :| a in dictionary && b in dictionary && t.lower(a) == t.lower(b) && dictionary[a] != dictionary[b];
      var e := ListEndingIn(dictionary, a);
      var e' := ListEndingIn(dictionary, b);
      LastOneWins(t, e, a);
      LastOneWins(t, e', a);
      assert !AgreeOn(t, e, e', a);
    }
  }
}
