/** The inventory the back end searches (app.py): rows of text cells, the hits it
    returns, and Python's stable `list.sort(key=..., reverse=True)`. */
module Catalogue {
  import opened Options
  import opened Text

  /** One article of the inventory sheet after `df.astype(str)`: every cell is text. */
  datatype Row = Row(
    code: string,
    reference: string,
    designation: string,
    prixGros: string,
    prixDetail: string,
    remise: string,
    stock: string)

  /** One entry of a search response: the article's cells (Code, Reference, Designation,
      Prix_Gros, Prix_Detail, Remise, Stock) and its Similarity score. */
  datatype Hit = Hit(row: Row, similarity: real)

  /** The first `n` elements (Python's `s[:n]`). */
  function Take<T>(s: seq<T>, n: nat): (r: seq<T>)
    ensures |r| == Min(n, |s|) && r <= s
  {
    s[..Min(n, |s|)]
  }

  // ---------------------------------------------------------------------------
  // Stable descending sort

  predicate SortedDesc(s: seq<Hit>, key: Hit -> real) {
    forall i, j :: 0 <= i < j < |s| ==> key(s[i]) >= key(s[j])
  }

  /** Places `x` in front of the first element whose key is not larger than its own. */
  function InsertDesc(x: Hit, s: seq<Hit>, key: Hit -> real): seq<Hit> {
    if s == [] || key(s[0]) <= key(x) then [x] + s
    else [s[0]] + InsertDesc(x, s[1..], key)
  }

  /** Python's `s.sort(key=key, reverse=True)`: non-increasing by key, and elements with
      equal keys keep the order they had in `s`. */
  function SortDesc(s: seq<Hit>, key: Hit -> real): seq<Hit> {
    if s == [] then [] else InsertDesc(s[0], SortDesc(s[1..], key), key)
  }

  /** The elements of `s` whose key is `k`, in order. */
  function WithKey(s: seq<Hit>, key: Hit -> real, k: real): seq<Hit> {
    if s == [] then [] else (if key(s[0]) == k then [s[0]] else []) + WithKey(s[1..], key, k)
  }

  lemma {:induction false} InsertDescPermutes(x: Hit, s: seq<Hit>, key: Hit -> real)
    ensures multiset(InsertDesc(x, s, key)) == multiset(s) + multiset{x}
  {
    if s != [] && key(s[0]) > key(x) {
      InsertDescPermutes(x, s[1..], key);
      assert s == [s[0]] + s[1..];
    }
  }

  lemma {:induction false} InsertDescSorted(x: Hit, s: seq<Hit>, key: Hit -> real)
    requires SortedDesc(s, key)
    ensures SortedDesc(InsertDesc(x, s, key), key)
  {
    if s != [] && key(s[0]) > key(x) {
      InsertDescSorted(x, s[1..], key);
      var t := InsertDesc(x, s[1..], key);
      InsertDescPermutes(x, s[1..], key);
      forall j | 0 <= j < |t|
        ensures key(s[0]) >= key(t[j])
      {
        assert t[j] in multiset(s[1..]) + multiset{x};
      }
    }
  }

  lemma WithKeyCons(y: Hit, t: seq<Hit>, key: Hit -> real, k: real)
    ensures WithKey([y] + t, key, k) == (if key(y) == k then [y] else []) + WithKey(t, key, k)
  {
    assert ([y] + t)[0] == y && ([y] + t)[1..] == t;
  }

  lemma {:induction false} InsertDescWithKey(x: Hit, s: seq<Hit>, key: Hit -> real, k: real)
    ensures WithKey(InsertDesc(x, s, key), key, k)
      == (if key(x) == k then [x] else []) + WithKey(s, key, k)
  {
    if s == [] || key(s[0]) <= key(x) {
      WithKeyCons(x, s, key, k);
    } else {
      var rest := InsertDesc(x, s[1..], key);
      InsertDescWithKey(x, s[1..], key, k);
      WithKeyCons(s[0], rest, key, k);
      WithKeyCons(s[0], s[1..], key, k);
      assert s == [s[0]] + s[1..];
    }
  }

  /** The sort orders by key, loses and adds nothing, and is stable. */
  lemma SortDescCorrect(s: seq<Hit>, key: Hit -> real)
    ensures SortedDesc(SortDesc(s, key), key)
    ensures multiset(SortDesc(s, key)) == multiset(s)
    ensures |SortDesc(s, key)| == |s|
    ensures forall k :: WithKey(SortDesc(s, key), key, k) == WithKey(s, key, k)
  {
    SortDescPermutes(s, key);
    SortDescSorted(s, key);
    SortDescStable(s, key);
  }

  lemma {:induction false} SortDescPermutes(s: seq<Hit>, key: Hit -> real)
    ensures multiset(SortDesc(s, key)) == multiset(s)
    ensures |SortDesc(s, key)| == |s|
  {
    if s != [] {
      SortDescPermutes(s[1..], key);
      InsertDescPermutes(s[0], SortDesc(s[1..], key), key);
      assert s == [s[0]] + s[1..];
      assert |multiset(SortDesc(s, key))| == |SortDesc(s, key)|;
    }
  }

  lemma {:induction false} SortDescSorted(s: seq<Hit>, key: Hit -> real)
    ensures SortedDesc(SortDesc(s, key), key)
  {
    if s != [] {
      SortDescSorted(s[1..], key);
      InsertDescSorted(s[0], SortDesc(s[1..], key), key);
    }
  }

  lemma {:induction false} SortDescStable(s: seq<Hit>, key: Hit -> real)
    ensures forall k :: WithKey(SortDesc(s, key), key, k) == WithKey(s, key, k)
  {
    if s != [] {
      SortDescStable(s[1..], key);
      forall k ensures WithKey(SortDesc(s, key), key, k) == WithKey(s, key, k) {
        InsertDescWithKey(s[0], SortDesc(s[1..], key), key, k);
      }
    }
  }
}
