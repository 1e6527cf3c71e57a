/**
  The keyword lookup of keywordhash.h finds by hashing what a search through the list of keywords finds.
 */
module KeywordHash {
  import opened Wrappers
  import opened KeywordTables
  import opened KeywordEntries

  /** A byte of an identifier. */
  type Octet = c: char | c as int < 256 witness 'A'

  /** `z[j] & ~0x20` */
  function Mask(c: Octet): Octet {
    if (c as int / 32) % 2 == 1 then (c as int - 32) as char else c
  }

  lemma TextFits(k: nat)
    requires k < KEYWORDS
    ensures KWLen(k) >= 2 && KWOffset(k) + KWLen(k) <= TEXT_LENGTH
  {
    hide KWText, KWLen, KWOffset, KWHash, Bucket, Width, Lower, Reaches;
    EveryKeyword(k);
  }

  function Slice(offset: nat, length: nat): (text: string)
    requires offset + length <= TEXT_LENGTH
    ensures |text| == length && forall j :: 0 <= j < length ==> text[j] == KWText(offset + j)
  {
    seq(length, j requires 0 <= j < length => KWText(offset + j))
  }

  /** The text of a keyword. */
  function Text(k: nat): (text: string)
    requires k < KEYWORDS
    ensures |text| == KWLen(k) >= 2 && KWOffset(k) + |text| <= TEXT_LENGTH
    ensures forall j :: 0 <= j < |text| ==> text[j] == KWText(KWOffset(k) + j)
  {
    TextFits(k);
    Slice(KWOffset(k), KWLen(k))
  }

  /** A string is a keyword under the mask. */
  predicate Matches(z: seq<Octet>, k: nat)
    requires k < KEYWORDS
  {
    |z| == |Text(k)| && forall j :: 0 <= j < |z| ==> Mask(z[j]) == Text(k)[j]
  }

  /** The search through the list of keywords. */
  function Search(z: seq<Octet>, from: nat): (r: Option<nat>)
    requires from <= KEYWORDS
    ensures r.Some? ==> from <= r.value < KEYWORDS && Matches(z, r.value)
    ensures r.None? ==> forall k :: from <= k < KEYWORDS ==> !Matches(z, k)
    decreases KEYWORDS - from
  {
    if from == KEYWORDS then None
    else if Matches(z, from) then Some(from)
    else Search(z, from + 1)
  }

  /** The map folds the case of letters; what it does to other characters does not matter. */
  ghost predicate FoldsCase(charMap: Octet -> bv32) {
    forall c: Octet :: Upper(Mask(c)) ==> charMap(c) == Lower(Mask(c))
  }

  /** `sqlite3UpperToLower`, which is `charMap` where characters are ASCII. */
  function UpperToLower(c: Octet): bv32 { if Upper(c) then Lower(c) else c as int as bv32 }

  lemma LowerCaseLetter(i: nat)
    requires i < 26
    ensures Lower((65 + i) as char) == (97 + i) as bv32
  {
    if i < 13 {
      assert i == 0 || i == 1 || i == 2 || i == 3 || i == 4 || i == 5 || i == 6 || i == 7 || i == 8 || i == 9 || i == 10 || i == 11 || i == 12;
    } else {
      assert i == 13 || i == 14 || i == 15 || i == 16 || i == 17 || i == 18 || i == 19 || i == 20 || i == 21 || i == 22 || i == 23 || i == 24 || i == 25;
    }
  }

  lemma UpperToLowerFoldsCase()
    ensures FoldsCase(UpperToLower)
  {
    forall c: Octet | Upper(Mask(c)) ensures UpperToLower(c) == Lower(Mask(c)) {
      if !Upper(c) {
        LowerCaseLetter(c as int - 97);
      }
    }
  }

  function BucketOf(z: seq<Octet>, charMap: Octet -> bv32): (h: nat)
    requires 2 <= |z| < 0x8000_0000
    ensures h < BUCKETS
  {
    Bucket(charMap(z[0]), charMap(z[|z|-1]), Width(|z|))
  }

  /** Every variant of a keyword lands in the keyword's bucket and its chain leads to the keyword. */
  lemma {:induction false} VariantsShareBucket(z: seq<Octet>, charMap: Octet -> bv32, k: nat)
    requires FoldsCase(charMap) && k < KEYWORDS && Matches(z, k)
    ensures 2 <= |z| < 0x8000_0000 && Reaches(KWHash(BucketOf(z, charMap)), k)
  {
    hide Reaches, Bucket, Width, Mask, Lower, KWText, KWHash, KWLen, KWOffset;
    EveryKeyword(k);
    assert Mask(z[0]) == FirstChar(k) && Mask(z[|z|-1]) == LastChar(k);
  }

  /** Different entries on a chain have different texts. */
  lemma {:induction false} OnlyOneOnChain(next: nat, i: nat, k: nat)
    requires next <= KEYWORDS && i < KEYWORDS && k < KEYWORDS
    requires Reaches(next, i) && Reaches(next, k) && Text(i) == Text(k)
    ensures i == k
    decreases next
  {
    hide KWText, KWLen, KWOffset;
    if next - 1 != i && next - 1 != k {
      OnlyOneOnChain(KWNext(next - 1), i, k);
    } else {
      SameTextsDoNotDiffer(i, k);
    }
  }

  lemma SameTextsDoNotDiffer(i: nat, k: nat)
    requires i < KEYWORDS && k < KEYWORDS && Text(i) == Text(k)
    ensures !Different(i, k) && !Different(k, i)
  {
    hide KWText, KWLen, KWOffset;
    forall p: nat ensures !DifferAt(i, k, p) && !DifferAt(k, i, p) {
      if p < |Text(i)| {
        assert Text(i)[p] == Text(k)[p];
      }
    }
  }

  /** No two keywords have the same text. */
  lemma TextsAreUnique(i: nat, k: nat)
    requires i < KEYWORDS && k < KEYWORDS && Text(i) == Text(k)
    ensures i == k
  {
    hide KWText, KWLen, KWOffset, Reaches, KWHash, Bucket, Width, Lower;
    EveryKeyword(i);
    EveryKeyword(k);
    assert FirstChar(i) == Text(i)[0] && FirstChar(k) == Text(k)[0];
    assert LastChar(i) == Text(i)[|Text(i)|-1] && LastChar(k) == Text(k)[|Text(k)|-1];
    OnlyOneOnChain(KWHash(Bucket(Lower(FirstChar(i)), Lower(LastChar(i)), Width(KWLen(i)))), i, k);
  }

  lemma MatchesOnce(z: seq<Octet>, i: nat, k: nat)
    requires i < KEYWORDS && k < KEYWORDS && Matches(z, i) && Matches(z, k)
    ensures i == k
  {
    hide Mask, KWText, KWLen, KWOffset;
    assert Text(i) == Text(k);
    TextsAreUnique(i, k);
  }

  /** `keywordCode`: the type is overwritten exactly if the string is a keyword under the mask. */
  method KeywordCode(z: seq<Octet>, charMap: Octet -> bv32, pType: nat) returns (n: nat, newType: nat)
    requires |z| < 0x8000_0000 && FoldsCase(charMap)
    ensures n == |z|
    ensures newType == match Search(z, 0) case Some(k) => KWCode(k) case None => pType
  {
    hide Mask, KWText, KWLen, KWOffset, KWCode, KWHash, KWNext, Bucket, Width, Reaches, FoldsCase;
    n, newType := |z|, pType;
    if n >= 2 {
      var i := KWHash(BucketOf(z, charMap)) - 1;
      forall k | 0 <= k < KEYWORDS && Matches(z, k) ensures Reaches(i + 1, k) {
        VariantsShareBucket(z, charMap, k);
      }
      while i >= 0
        invariant -1 <= i < KEYWORDS && newType == pType
        invariant forall k :: 0 <= k < KEYWORDS && Matches(z, k) ==> Reaches(i + 1, k)
        decreases i
      {
        EveryKeyword(i);
        var j := 0;
        if KWLen(i) == n {
          while j < n && Mask(z[j]) == KWText(KWOffset(i) + j)
            invariant j <= n && forall p :: 0 <= p < j ==> Mask(z[p]) == KWText(KWOffset(i) + p)
          {
            j := j + 1;
          }
          if j == n {
            newType := KWCode(i);
            Found(z, i);
            return;
          }
          assert Mask(z[j]) != Text(i)[j];
        }
        forall k | 0 <= k < KEYWORDS && Matches(z, k) ensures Reaches(KWNext(i), k) {
          NextOnChain(i, k);
        }
        i := KWNext(i) - 1;
      }
      NothingFound(z);
    }
  }

  lemma Found(z: seq<Octet>, k: nat)
    requires k < KEYWORDS && Matches(z, k)
    ensures Search(z, 0) == Some(k)
  {
    hide Matches;
    MatchesOnce(z, k, Search(z, 0).value);
  }

  lemma NextOnChain(i: nat, k: nat)
    requires i < KEYWORDS && k < KEYWORDS && Reaches(i + 1, k) && i != k
    ensures Reaches(KWNext(i), k)
  {
  }

  lemma NothingFound(z: seq<Octet>)
    requires forall k :: 0 <= k < KEYWORDS && Matches(z, k) ==> Reaches(0, k)
    ensures Search(z, 0) == None
  {
    hide Matches;
  }

  /** `sqlite3KeywordCode` */
  method Sqlite3KeywordCode(z: seq<Octet>, charMap: Octet -> bv32) returns (id: nat)
    requires |z| < 0x8000_0000 && FoldsCase(charMap)
    ensures id == match Search(z, 0) case Some(k) => KWCode(k) case None => TK_ID
  {
    var n;
    n, id := KeywordCode(z, charMap, TK_ID);
  }

  /** `sqlite3_keyword_check` */
  method Sqlite3KeywordCheck(z: seq<Octet>, charMap: Octet -> bv32) returns (isKeyword: bool)
    requires |z| < 0x8000_0000 && FoldsCase(charMap)
    ensures isKeyword <==> exists k :: 0 <= k < KEYWORDS && Matches(z, k)
  {
    hide Matches;
    var id := Sqlite3KeywordCode(z, charMap);
    return id != TK_ID;
  }

  /** `sqlite3_keyword_name`: where the name of the i-th keyword starts and how long it is. */
  method Sqlite3KeywordName(i: int) returns (r: Option<(nat, nat)>)
    ensures r.Some? <==> 0 <= i < KEYWORDS
    ensures r.Some? ==> r.value.1 == |Text(i)| && r.value.0 + r.value.1 <= TEXT_LENGTH
    ensures r.Some? ==> forall j :: 0 <= j < r.value.1 ==> KWText(r.value.0 + j) == Text(i)[j]
  {
    hide KWText, KWLen, KWOffset;
    if i < 0 || i >= KEYWORDS {
      return None;
    }
    TextFits(i);
    return Some((KWOffset(i), KWLen(i)));
  }

  /** Every name that `sqlite3_keyword_name` reports is a keyword for `sqlite3_keyword_check`. */
  lemma {:induction false} NamesAreKeywords(k: nat)
    requires k < KEYWORDS
    ensures forall j :: 0 <= j < |Text(k)| ==> Text(k)[j] as int < 256
    ensures Search(Text(k), 0) == Some(k)
  {
    hide KWText, KWLen, KWOffset;
    forall j | 0 <= j < |Text(k)| ensures Text(k)[j] as int < 256 && Mask(Text(k)[j]) == Text(k)[j] {
      EveryChar(KWOffset(k) + j);
    }
    Found(Text(k), k);
  }

  /** A byte of a string and a character of a keyword are equal ignoring case. */
  predicate CaseVariant(c: Octet, t: char) {
    c == t || (Upper(t) && c as int == t as int + 32)
  }

  const DELETE: Octet := 127 as char

  /**
    Exactly what is taken for a keyword: its case variants, also with the delete character in the place of
    any of its underscores, which the mask cannot tell apart.
   */
  lemma {:induction false} MatchesAreCaseVariants(z: seq<Octet>, k: nat)
    requires k < KEYWORDS
    ensures Matches(z, k) <==>
      && |z| == |Text(k)|
      && forall j :: 0 <= j < |z| ==> CaseVariant(z[j], Text(k)[j]) || (Text(k)[j] == '_' && z[j] == DELETE)
  {
    hide KWText, KWLen, KWOffset;
    if |z| == |Text(k)| {
      forall j | 0 <= j < |z|
        ensures Mask(z[j]) == Text(k)[j]
           <==> CaseVariant(z[j], Text(k)[j]) || (Text(k)[j] == '_' && z[j] == DELETE)
      {
        EveryChar(KWOffset(k) + j);
      }
    }
  }

  /** CURRENT_DATE with the delete character for its underscore is a keyword for the lookup. */
  lemma {:induction false} DeleteForUnderscore()
    ensures |Text(69)| == 12 && Text(69)[7] == '_' && forall j :: 0 <= j < 12 ==> Text(69)[j] as int < 256
    ensures Search(Text(69)[7 := DELETE], 0) == Some(69)
  {
    CurrentDate();
    hide KWText, KWLen, KWOffset;
    NamesAreKeywords(69);
    assert Text(69)[7] == '_';
    var z := Text(69)[7 := DELETE];
    MatchesAreCaseVariants(z, 69);
    Found(z, 69);
  }

  lemma CurrentDate()
    ensures KWLen(69) == 12 && KWOffset(69) == 275 && KWText(282) == '_'
  {
  }
}
