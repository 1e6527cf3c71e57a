/**
  `URLEncoding` sorts the keys of the parameters, but iterates over a nested dictionary as it comes.
  Two of its entries may change places exactly if what they contribute can; with keys that hold no
  closing bracket, the order shows exactly if two entries have leaves.
 */
module NestedOrder {
  import opened Octets
  import opened QueryEncoding

  /** What one entry contributes to the components of its dictionary. */
  function Block(e: URLEncoding, key: Bytes, x: Entry): seq<Pair> {
    Components(e, NestedKey(key, x.key), x.value)
  }

  predicate Commute(e: URLEncoding, key: Bytes, x: Entry, y: Entry) {
    Block(e, key, x) + Block(e, key, y) == Block(e, key, y) + Block(e, key, x)
  }

  ghost predicate Reordered(entries: seq<Entry>, other: seq<Entry>) {
    multiset(entries) == multiset(other)
  }

  /** In whatever order the entries are visited, the components are the same. */
  ghost predicate OrderDoesNotShow(e: URLEncoding, key: Bytes, entries: seq<Entry>) {
    forall other :: Reordered(entries, other) ==>
      Components(e, key, Dictionary(other)) == Components(e, key, Dictionary(entries))
  }

  lemma FirstBlock(e: URLEncoding, key: Bytes, x: Entry, entries: seq<Entry>)
    ensures Components(e, key, Dictionary([x] + entries)) == Block(e, key, x) + Components(e, key, Dictionary(entries))
  {
    hide Leaves, Below, PathKey, Named, NestedKey;
    var here := Leaves(e, x.value);
    var all := [x] + entries;
    assert all[1..] == entries;
    assert Leaves(e, Dictionary(all)) == EntryLeaves(e, all) by { DictionaryLeaves(e, all); }
    assert Leaves(e, Dictionary(entries)) == EntryLeaves(e, entries) by { DictionaryLeaves(e, entries); }
    NamedConcat(e, key, Below(Field(x.key), here), EntryLeaves(e, entries));
    NamedBelow(e, key, Field(x.key), here);
  }

  lemma DictionaryLeaves(e: URLEncoding, entries: seq<Entry>)
    ensures Leaves(e, Dictionary(entries)) == EntryLeaves(e, entries)
  {
  }

  /** An entry that commutes with those before it may be moved to the front. */
  lemma {:induction false} MoveToFront(e: URLEncoding, key: Bytes, before: seq<Entry>, x: Entry, after: seq<Entry>)
    requires forall y :: y in before ==> Commute(e, key, x, y)
    ensures Components(e, key, Dictionary(before + [x] + after))
         == Block(e, key, x) + Components(e, key, Dictionary(before + after))
  {
    hide Components, Block;
    if before == [] {
      assert [] + [x] + after == [x] + after && [] + after == after;
      FirstBlock(e, key, x, after);
    } else {
      var y, rest := before[0], before[1..];
      MoveToFront(e, key, rest, x, after);
      assert before + [x] + after == [y] + (rest + [x] + after) && before + after == [y] + (rest + after);
      FirstBlock(e, key, y, rest + [x] + after);
      FirstBlock(e, key, y, rest + after);
      var xs, ys, tail := Block(e, key, x), Block(e, key, y), Components(e, key, Dictionary(rest + after));
      assert Commute(e, key, x, y);
      assert ys + (xs + tail) == (ys + xs) + tail && (xs + ys) + tail == xs + (ys + tail);
    }
  }

  lemma WithoutOne(entries: seq<Entry>, p: nat)
    requires p < |entries|
    ensures multiset(entries[..p] + entries[p+1..]) == multiset(entries) - multiset{entries[p]}
  {
    assert entries == entries[..p] + [entries[p]] + entries[p+1..];
  }

  /** The first entry, wherever it stands in another order; the others are the others. */
  lemma Found(entries: seq<Entry>, other: seq<Entry>) returns (p: nat)
    requires entries != [] && Reordered(entries, other)
    ensures p < |other| && other[p] == entries[0]
    ensures Reordered(entries[1..], other[..p] + other[p+1..])
  {
    p := Position(entries, other);
    WithoutFirst(entries);
    WithoutOne(other, p);
  }

  lemma WithoutFirst(entries: seq<Entry>)
    requires entries != []
    ensures multiset(entries[1..]) == multiset(entries) - multiset{entries[0]}
  {
    WithoutOne(entries, 0);
    assert entries[..0] + entries[1..] == entries[1..];
  }

  lemma Position(entries: seq<Entry>, other: seq<Entry>) returns (p: nat)
    requires entries != [] && Reordered(entries, other)
    ensures p < |other| && other[p] == entries[0]
  {
    assert entries[0] in multiset(entries);
    assert entries[0] in multiset(other);
    p :| 0 <= p < |other| && other[p] == entries[0];
  }

  lemma {:induction false} CommutingEntries(e: URLEncoding, key: Bytes, entries: seq<Entry>, other: seq<Entry>)
    requires forall x, y :: x in entries && y in entries ==> Commute(e, key, x, y)
    requires Reordered(entries, other)
    ensures Components(e, key, Dictionary(other)) == Components(e, key, Dictionary(entries))
  {
    hide Components, Commute;
    if entries == [] {
      assert |multiset(other)| == |other| == 0;
    } else {
      var x, rest := entries[0], entries[1..];
      var p := Found(entries, other);
      var before, after := other[..p], other[p+1..];
      assert other == before + [x] + after;
      forall y | y in before ensures Commute(e, key, x, y) {
        assert y in multiset(before + after);
      }
      MoveToFront(e, key, before, x, after);
      CommutingEntries(e, key, rest, before + after);
      FirstBlock(e, key, x, rest);
      assert entries == [x] + rest;
    }
  }

  /** Two entries in front of the others: if they may change places, they commute. */
  lemma SwapCommutes(e: URLEncoding, key: Bytes, x: Entry, y: Entry, rest: seq<Entry>)
    requires Components(e, key, Dictionary([x, y] + rest)) == Components(e, key, Dictionary([y, x] + rest))
    ensures Commute(e, key, x, y)
  {
    hide Components, Block;
    assert [x, y] + rest == [x] + ([y] + rest) && [y, x] + rest == [y] + ([x] + rest);
    FirstBlock(e, key, x, [y] + rest);
    FirstBlock(e, key, y, rest);
    FirstBlock(e, key, y, [x] + rest);
    FirstBlock(e, key, x, rest);
    var xs, ys, tail := Block(e, key, x), Block(e, key, y), Components(e, key, Dictionary(rest));
    var n := |xs| + |ys|;
    assert (xs + (ys + tail))[..n] == xs + ys && (ys + (xs + tail))[..n] == ys + xs;
  }

  lemma FreeOrderCommutes(e: URLEncoding, key: Bytes, entries: seq<Entry>, i: nat, j: nat)
    requires i < j < |entries| && OrderDoesNotShow(e, key, entries)
    ensures Commute(e, key, entries[i], entries[j])
  {
    hide Components, Commute;
    var x, y, rest := entries[i], entries[j], entries[..i] + entries[i+1..j] + entries[j+1..];
    assert entries == entries[..i] + [x] + entries[i+1..j] + [y] + entries[j+1..];
    assert multiset([x, y]) == multiset([y, x]) == multiset([x]) + multiset([y]);
    assert Reordered(entries, [x, y] + rest) && Reordered(entries, [y, x] + rest);
    SwapCommutes(e, key, x, y, rest);
  }

  /** The order of a nested dictionary's entries does not show exactly if what any two contribute commutes. */
  lemma {:induction false} OrderShowsExactly(e: URLEncoding, key: Bytes, entries: seq<Entry>)
    ensures OrderDoesNotShow(e, key, entries) <==>
      forall i, j :: 0 <= i < j < |entries| ==> Commute(e, key, entries[i], entries[j])
  {
    hide Components, Block;
    if OrderDoesNotShow(e, key, entries) {
      forall i, j | 0 <= i < j < |entries| ensures Commute(e, key, entries[i], entries[j]) {
        FreeOrderCommutes(e, key, entries, i, j);
      }
    }
    if forall i, j :: 0 <= i < j < |entries| ==> Commute(e, key, entries[i], entries[j]) {
      forall x, y | x in entries && y in entries ensures Commute(e, key, x, y) {
        var i, j :| 0 <= i < |entries| && 0 <= j < |entries| && entries[i] == x && entries[j] == y;
        if j < i { assert Commute(e, key, entries[j], entries[i]); }
      }
      forall other | Reordered(entries, other)
        ensures Components(e, key, Dictionary(other)) == Components(e, key, Dictionary(entries))
      {
        CommutingEntries(e, key, entries, other);
      }
    }
  }

  // ---------------------------------------------------------------------------------------------
  // Keys without a closing bracket

  /** A path is written behind the key it starts from. */
  lemma {:induction false} PathExtendsKey(e: URLEncoding, key: Bytes, path: seq<Step>)
    ensures key <= PathKey(e, key, path)
    decreases |path|
  {
    if path != [] {
      PathExtendsKey(e, StepKey(e, key, path[0]), path[1..]);
      assert key <= StepKey(e, key, path[0]);
    }
  }

  /** Without a closing bracket in them, nested keys are told apart by what follows. */
  lemma NestedKeysDiffer(key: Bytes, k: Bytes, l: Bytes, text: Bytes)
    requires CLOSE_BRACKET !in k && CLOSE_BRACKET !in l
    requires NestedKey(key, k) <= text && NestedKey(key, l) <= text
    ensures k == l
  {
    var n := |key| + 1;
    assert text[n..n + |k|] == NestedKey(key, k)[n..n + |k|] == k && text[n + |k|] == CLOSE_BRACKET;
    assert text[n..n + |l|] == NestedKey(key, l)[n..n + |l|] == l && text[n + |l|] == CLOSE_BRACKET;
    assert text[n..] == k + [CLOSE_BRACKET] + text[n..][|k|+1..] == l + [CLOSE_BRACKET] + text[n..][|l|+1..];
    IndexIsFirst(k, CLOSE_BRACKET, text[n..][|k|+1..]);
    IndexIsFirst(l, CLOSE_BRACKET, text[n..][|l|+1..]);
  }

  /** Different keys without a closing bracket commute only if one of the values has no leaf. */
  lemma CommuteWithoutLeaves(e: URLEncoding, key: Bytes, x: Entry, y: Entry)
    requires x.key != y.key && CLOSE_BRACKET !in x.key && CLOSE_BRACKET !in y.key
    ensures Commute(e, key, x, y) <==> Leaves(e, x.value) == [] || Leaves(e, y.value) == []
  {
    hide Leaves, NestedKey, PathKey;
    var xs, ys := Block(e, key, x), Block(e, key, y);
    if xs != [] && ys != [] {
      if Commute(e, key, x, y) {
        assert xs[0] == (xs + ys)[0] == (ys + xs)[0] == ys[0];
        PathExtendsKey(e, NestedKey(key, x.key), Leaves(e, x.value)[0].path);
        PathExtendsKey(e, NestedKey(key, y.key), Leaves(e, y.value)[0].path);
        NestedKeysDiffer(key, x.key, y.key, xs[0].key);
      }
    } else {
      assert xs == [] ==> xs + ys == ys + xs;
      assert ys == [] ==> xs + ys == ys + xs;
    }
  }

  /**
    The order in which a nested dictionary is visited shows in the components exactly if two of its entries
    have leaves, provided that no key contains a closing bracket.
   */
  lemma {:induction false} NestedOrderShows(e: URLEncoding, key: Bytes, entries: seq<Entry>)
    requires forall i, j :: 0 <= i < j < |entries| ==> entries[i].key != entries[j].key
    requires forall x :: x in entries ==> CLOSE_BRACKET !in x.key
    ensures !OrderDoesNotShow(e, key, entries) <==>
      exists i, j :: 0 <= i < j < |entries| && Leaves(e, entries[i].value) != [] && Leaves(e, entries[j].value) != []
  {
    hide OrderDoesNotShow, Commute, Leaves;
    OrderShowsExactly(e, key, entries);
    forall i, j | 0 <= i < j < |entries|
      ensures Commute(e, key, entries[i], entries[j]) <==>
        Leaves(e, entries[i].value) == [] || Leaves(e, entries[j].value) == []
    {
      CommuteWithoutLeaves(e, key, entries[i], entries[j]);
    }
  }

  /** With a closing bracket in a key, different entries may contribute the same component. */
  lemma BracketsMayCoincide(e: URLEncoding, key: Bytes, text: Bytes)
    ensures var x := Entry([97], Dictionary([Entry([98], Other(text))]));
      var y := Entry([97, CLOSE_BRACKET, OPEN_BRACKET, 98], Other(text));
      Block(e, key, x) == Block(e, key, y) && OrderDoesNotShow(e, key, [x, y])
  {
    var inner := Entry([98], Other(text));
    var x := Entry([97], Dictionary([inner]));
    var y := Entry([97, CLOSE_BRACKET, OPEN_BRACKET, 98], Other(text));
    FirstBlock(e, NestedKey(key, [97]), inner, []);
    assert [inner] + [] == [inner];
    assert NestedKey(NestedKey(key, [97]), [98]) == NestedKey(key, y.key);
    assert Block(e, key, x) == Block(e, key, y);
    OrderShowsExactly(e, key, [x, y]);
  }
}
