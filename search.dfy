/** The search back end of app.py: the exact, stock and broad scans over the
    inventory, the de-duplication of similarity hits, the `/api/search` strategy
    dispatch and `/api/suggestions`. The TF-IDF/Jaro-Winkler scorer is not modelled:
    its hit list is an input of `Search`. */
module Search {
  import opened Options
  import opened Text
  import opened Catalogue

  // ---------------------------------------------------------------------------
  // Exact search (enhanced_search_exact)

  /** One of Code, Reference or Designation, lower-cased, contains `q`. */
  predicate FieldsContain(r: Row, q: string) {
    || Contains(Lower(r.code), q)
    || Contains(Lower(r.reference), q)
    || Contains(Lower(r.designation), q)
  }

  /** The row test of enhanced_search_exact as written: equality with one of the three
      stripped lower-cased fields, then containment in one of them. */
  predicate ExactTest(r: Row, q: string) {
    || q == PyStrip(Lower(r.code))
    || q == PyStrip(Lower(r.reference))
    || q == PyStrip(Lower(r.designation))
    || Contains(Lower(r.code), q)
    || Contains(Lower(r.reference), q)
    || Contains(Lower(r.designation), q)
  }

  /** The three equality tests add nothing: a stripped field is a substring of the field. */
  lemma ExactTestIsContainment(r: Row, q: string)
    ensures ExactTest(r, q) <==> FieldsContain(r, q)
  {
    StripFacts(Lower(r.code), IsPySpace);
    StripFacts(Lower(r.reference), IsPySpace);
    StripFacts(Lower(r.designation), IsPySpace);
  }

  /** The exact hits for the lower-cased, stripped query `q`: the rows of `t` whose
      fields contain `q`, in table order, each with similarity 1.0. */
  function ExactHits(t: seq<Row>, q: string): seq<Hit> {
    if t == [] then []
    else ExactHits(t[..|t| - 1], q) + (if FieldsContain(t[|t| - 1], q) then [Hit(t[|t| - 1], 1.0)] else [])
  }

  lemma {:induction false} ExactHitsMembers(t: seq<Row>, q: string)
    ensures |ExactHits(t, q)| <= |t|
    ensures forall h :: h in ExactHits(t, q) <==> h.row in t && FieldsContain(h.row, q) && h.similarity == 1.0
  {
    if t != [] {
      ExactHitsMembers(t[..|t| - 1], q);
      assert t == t[..|t| - 1] + [t[|t| - 1]];
    }
  }

  /** enhanced_search_exact: scans the table in order and keeps every row that passes
      the exact test against the lower-cased, stripped query. */
  method EnhancedSearchExact(table: seq<Row>, query: string) returns (results: seq<Hit>)
    ensures results == ExactHits(table, PyStrip(Lower(query)))
  {
    var queryLower := PyStrip(Lower(query));
    results := [];
    var i := 0;
    while i < |table|
      invariant 0 <= i <= |table|
      invariant results == ExactHits(table[..i], queryLower)
    {
      var row := table[i];
      var matchFound := false;
      if queryLower == PyStrip(Lower(row.code)) {
        matchFound := true;
      } else if queryLower == PyStrip(Lower(row.reference)) {
        matchFound := true;
      } else if queryLower == PyStrip(Lower(row.designation)) {
        matchFound := true;
      } else if Contains(Lower(row.code), queryLower) {
        matchFound := true;
      } else if Contains(Lower(row.reference), queryLower) {
        matchFound := true;
      } else if Contains(Lower(row.designation), queryLower) {
        matchFound := true;
      }
      ExactTestIsContainment(row, queryLower);
      if matchFound {
        results := results + [Hit(row, 1.0)];
      }
      assert table[..i + 1][..i] == table[..i];
      i := i + 1;
    }
    assert table[..|table|] == table;
  }

  // ---------------------------------------------------------------------------
  // Stock search (search_by_stock)

  /** What search_by_stock ends with: its hit list, or the ZeroDivisionError raised by
      the similarity formula when the requested quantity is 0. */
  datatype StockOutcome = StockHits(hits: seq<Hit>) | DivisionByZero

  /** The similarity of a stock hit: `min(stock / (target * 1.5), 1.0)`. */
  function StockSimilarity(stock: int, target: int): real
    requires target != 0
  {
    var x := stock as real / (target as real * 1.5);
    if x <= 1.0 then x else 1.0
  }

  lemma StockSimilarityBounds(stock: int, target: int)
    requires 0 < target <= stock
    ensures 2.0 / 3.0 <= StockSimilarity(stock, target) <= 1.0
  {
    var d := target as real * 1.5;
    var x := stock as real / d;
    assert x * d == stock as real;
    assert (x - 2.0 / 3.0) * d == stock as real - target as real;
  }

  /** The integer value of a Stock cell as Python's `int()` reads it. */
  function StockInt(r: Row): Option<int> {
    PyInt(r.stock)
  }

  /** What the scan of search_by_stock does with one row. */
  datatype Step = Skip | Keep(hit: Hit) | Raise

  /** Rows whose Stock is not an integer are skipped, rows whose Stock is at least
      `target` are kept, and keeping one divides by `target * 1.5`. */
  function StockStep(r: Row, target: int): Step {
    match StockInt(r)
    case None => Skip
    case Some(v) =>
      if v < target then Skip
      else if target == 0 then Raise
      else Keep(Hit(r, StockSimilarity(v, target)))
  }

  /** The Stock cell reads as an integer of at least `target`. */
  predicate HasStock(r: Row, target: int) {
    StockInt(r).Some? && StockInt(r).value >= target
  }

  lemma StockStepFacts(r: Row, target: int)
    ensures StockStep(r, target) == Raise <==> target == 0 && HasStock(r, 0)
    ensures target > 0 ==> (StockStep(r, target).Keep? <==> HasStock(r, target))
    ensures StockStep(r, target).Keep? ==> StockStep(r, target).hit.row == r
    ensures target > 0 && StockStep(r, target).Keep? ==> 2.0 / 3.0 <= StockStep(r, target).hit.similarity <= 1.0
  {
    if StockInt(r).Some? && StockInt(r).value >= target && target > 0 {
      StockSimilarityBounds(StockInt(r).value, target);
    }
  }

  /** The scan of search_by_stock over `t` for the quantity `target`. */
  function StockScan(t: seq<Row>, target: int): StockOutcome {
    if t == [] then StockHits([])
    else
      match StockScan(t[..|t| - 1], target)
      case DivisionByZero => DivisionByZero
      case StockHits(hits) =>
        match StockStep(t[|t| - 1], target)
        case Skip => StockHits(hits)
        case Keep(h) => StockHits(hits + [h])
        case Raise => DivisionByZero
  }

  /** search_by_stock on `query`: nothing without a digit in the query, otherwise the
      scan for the first digit run's value. */
  function StockMatches(t: seq<Row>, query: string): StockOutcome {
    match FirstDigitRun(query)
    case None => StockHits([])
    case Some(d) =>
      match PyInt(d)
      case None => StockHits([])
      case Some(target) => StockScan(t, target)
  }

  /** The scan raises exactly when the target is 0 and some Stock reads as an integer
      that is not negative. */
  lemma {:induction false} StockScanRaises(t: seq<Row>, target: int)
    ensures StockScan(t, target) == DivisionByZero <==> target == 0 && exists r :: r in t && HasStock(r, 0)
  {
    if t != [] {
      var p, r := t[..|t| - 1], t[|t| - 1];
      StockScanRaises(p, target);
      StockStepFacts(r, target);
      assert t == p + [r];
    }
  }

  /** The rows of a hit list, in order. */
  function RowsOf(hits: seq<Hit>): (rows: seq<Row>)
    ensures |rows| == |hits|
    ensures forall i :: 0 <= i < |hits| ==> rows[i] == hits[i].row
  {
    seq(|hits|, i requires 0 <= i < |hits| => hits[i].row)
  }

  /** The rows of `t` whose Stock reads as an integer of at least `target`, in table order. */
  function StockRows(t: seq<Row>, target: int): seq<Row> {
    if t == [] then []
    else StockRows(t[..|t| - 1], target) + (if HasStock(t[|t| - 1], target) then [t[|t| - 1]] else [])
  }

  lemma {:induction false} StockRowsMembers(t: seq<Row>, target: int)
    ensures forall r :: r in StockRows(t, target) <==> r in t && HasStock(r, target)
  {
    if t != [] {
      StockRowsMembers(t[..|t| - 1], target);
      assert t == t[..|t| - 1] + [t[|t| - 1]];
    }
  }

  /** For a positive target the scan keeps exactly the rows whose Stock reads as an
      integer at least `target`, in table order, each with a similarity in [2/3, 1]. */
  lemma {:induction false} StockScanHits(t: seq<Row>, target: int)
    requires target > 0
    ensures StockScan(t, target).StockHits?
    ensures RowsOf(StockScan(t, target).hits) == StockRows(t, target)
    ensures forall h :: h in StockScan(t, target).hits ==> 2.0 / 3.0 <= h.similarity <= 1.0
  {
    if t != [] {
      var p, r := t[..|t| - 1], t[|t| - 1];
      StockScanHits(p, target);
      StockStepFacts(r, target);
      var hits := StockScan(p, target).hits;
      if StockStep(r, target).Keep? {
        var h := StockStep(r, target).hit;
        assert StockScan(t, target).hits == hits + [h];
        assert RowsOf(hits + [h]) == RowsOf(hits) + [r];
      } else {
        assert StockScan(t, target).hits == hits;
      }
    }
  }

  /** For a target of 0 the scan either raises or keeps nothing. */
  lemma {:induction false} StockScanZero(t: seq<Row>)
    ensures StockScan(t, 0) == DivisionByZero || StockScan(t, 0) == StockHits([])
  {
    if t != [] {
      StockScanZero(t[..|t| - 1]);
    }
  }

  /** The requested quantity is the value of the query's first digit run. */
  lemma StockTarget(query: string)
    requires FirstDigitRun(query).Some?
    ensures PyInt(FirstDigitRun(query).value) == Some(DigitsValue(FirstDigitRun(query).value))
  {
    PyIntOfDigits(FirstDigitRun(query).value);
  }

  /** search_by_stock: reads the first number of the query and scans the table for
      rows with at least that much stock; the division raises for a target of 0. */
  method SearchByStock(table: seq<Row>, query: string) returns (outcome: StockOutcome)
    ensures outcome == StockMatches(table, query)
  {
    var stockNumbers := FirstDigitRun(query);
    if stockNumbers.None? {
      return StockHits([]);
    }
    var parsed := PyInt(stockNumbers.value);
    if parsed.None? {
      return StockHits([]);
    }
    var targetStock := parsed.value;
    var results := [];
    var i := 0;
    while i < |table|
      invariant 0 <= i <= |table|
      invariant StockScan(table[..i], targetStock) == StockHits(results)
    {
      var row := table[i];
      assert table[..i + 1][..i] == table[..i];
      var stockValue := StockInt(row);
      if stockValue.Some? && stockValue.value >= targetStock {
        if targetStock == 0 {
          outcome := DivisionByZero;
          assert StockScan(table[..i + 1], targetStock) == DivisionByZero;
          StockScanPrefixRaises(table, i + 1, targetStock);
          return;
        }
        results := results + [Hit(row, StockSimilarity(stockValue.value, targetStock))];
      }
      i := i + 1;
    }
    assert table[..|table|] == table;
    outcome := StockHits(results);
  }

  /** Once a prefix of the table raises, the whole scan raises. */
  lemma StockScanPrefixRaises(t: seq<Row>, n: nat, target: int)
    requires n <= |t|
    requires StockScan(t[..n], target) == DivisionByZero
    ensures StockScan(t, target) == DivisionByZero
  {
    StockScanRaises(t[..n], target);
    StockScanRaises(t, target);
    var r :| r in t[..n] && HasStock(r, 0);
    assert r in t;
  }

  // ---------------------------------------------------------------------------
  // Broad search (the fallback loop of search)

  /** The text the broad search looks in: "Code Reference Designation", lower-cased. */
  function BroadText(r: Row): string {
    Lower(r.code + " " + r.reference + " " + r.designation)
  }

  /** The broad hits for the lower-cased query `ql`: the rows whose joined text contains
      it, in table order, each with similarity 0.1. */
  function BroadHits(t: seq<Row>, ql: string): seq<Hit> {
    if t == [] then []
    else BroadHits(t[..|t| - 1], ql) + (if Contains(BroadText(t[|t| - 1]), ql) then [Hit(t[|t| - 1], 0.1)] else [])
  }

  lemma BroadTextJoin(r: Row)
    ensures BroadText(r) == Lower(r.code) + " " + Lower(r.reference) + " " + Lower(r.designation)
  {
    LowerAppend(r.code + " " + r.reference + " ", r.designation);
    LowerAppend(r.code + " " + r.reference, " ");
    LowerAppend(r.code + " ", r.reference);
    LowerAppend(r.code, " ");
  }

  /** A row the exact test accepts is one the broad test accepts; for a query without a
      space the converse holds as well. */
  lemma BroadVersusExact(r: Row, q: string)
    ensures FieldsContain(r, q) ==> Contains(BroadText(r), q)
    ensures ' ' !in q && Contains(BroadText(r), q) ==> FieldsContain(r, q)
  {
    BroadTextJoin(r);
    var c, f, d := Lower(r.code), Lower(r.reference), Lower(r.designation);
    assert c + " " + f + " " + d == (c + " " + f) + " " + d;
    if FieldsContain(r, q) {
      if Contains(d, q) {
        ContainsInJoin(c + " " + f, d, q);
      } else {
        ContainsInJoin(c, f, q);
        ContainsInJoin(c + " " + f, d, q);
      }
    }
    if ' ' !in q && Contains(BroadText(r), q) {
      ContainsAcrossSpace(c + " " + f, d, q);
      if Contains(c + " " + f, q) {
        ContainsAcrossSpace(c, f, q);
      }
    }
  }

  /** For a query without a space the broad search finds a row only where the exact
      search already did: it can only add rows when the query holds a space. */
  lemma {:induction false} BroadAddsOnlyAcrossFields(t: seq<Row>, q: string)
    requires ' ' !in q
    requires ExactHits(t, q) == []
    ensures BroadHits(t, q) == []
  {
    if t != [] {
      BroadAddsOnlyAcrossFields(t[..|t| - 1], q);
      BroadVersusExact(t[|t| - 1], q);
    }
  }

  lemma {:induction false} BroadHitsMembers(t: seq<Row>, ql: string)
    ensures |BroadHits(t, ql)| <= |t|
    ensures forall h :: h in BroadHits(t, ql) <==> h.row in t && Contains(BroadText(h.row), ql) && h.similarity == 0.1
  {
    if t != [] {
      BroadHitsMembers(t[..|t| - 1], ql);
      assert t == t[..|t| - 1] + [t[|t| - 1]];
    }
  }

  /** The broad loop of search: every row whose joined, lower-cased text contains the
      lower-cased query, in table order. */
  method BroadSearch(table: seq<Row>, queryLower: string) returns (broadResults: seq<Hit>)
    ensures broadResults == BroadHits(table, queryLower)
  {
    broadResults := [];
    var i := 0;
    while i < |table|
      invariant 0 <= i <= |table|
      invariant broadResults == BroadHits(table[..i], queryLower)
    {
      var row := table[i];
      var allText := Lower(row.code + " " + row.reference + " " + row.designation);
      if Contains(allText, queryLower) {
        broadResults := broadResults + [Hit(row, 0.1)];
      }
      assert table[..i + 1][..i] == table[..i];
      i := i + 1;
    }
    assert table[..|table|] == table;
  }

  // ---------------------------------------------------------------------------
  // De-duplication of similarity hits

  function CodesOf(s: seq<Hit>): set<string> {
    set h | h in s :: h.row.code
  }

  /** The first hit of each Code, in order. */
  function FirstPerCode(s: seq<Hit>): seq<Hit> {
    if s == [] then []
    else
      var p := s[..|s| - 1];
      FirstPerCode(p) + (if s[|s| - 1].row.code in CodesOf(p) then [] else [s[|s| - 1]])
  }

  predicate DistinctCodes(s: seq<Hit>) {
    forall i, j :: 0 <= i < j < |s| ==> s[i].row.code != s[j].row.code
  }

  /** De-duplication keeps every Code once, only hits of the input, and no Code twice. */
  lemma {:induction false} FirstPerCodeCorrect(s: seq<Hit>)
    ensures CodesOf(FirstPerCode(s)) == CodesOf(s)
    ensures forall h :: h in FirstPerCode(s) ==> h in s
    ensures DistinctCodes(FirstPerCode(s))
    ensures |FirstPerCode(s)| <= |s|
  {
    if s != [] {
      var p := s[..|s| - 1];
      var x := s[|s| - 1];
      FirstPerCodeCorrect(p);
      assert s == p + [x];
      assert CodesOf(s) == CodesOf(p) + {x.row.code};
      var d := FirstPerCode(p);
      if x.row.code !in CodesOf(p) {
        assert CodesOf(d + [x]) == CodesOf(d) + {x.row.code};
        forall i | 0 <= i < |d|
          ensures d[i].row.code != x.row.code
        {
          assert d[i] in d;
        }
      }
    }
  }

  /** No hit before position `j` of `s` has the Code of `s[j]`. */
  predicate FirstOfItsCode(s: seq<Hit>, j: int)
    requires 0 <= j < |s|
  {
    forall k :: 0 <= k < j ==> s[k].row.code != s[j].row.code
  }

  /** Every kept hit is the first of its Code in the input, and a sorted input gives a
      sorted result (`FirstPerCodeInOrder` gives the order itself). */
  lemma {:induction false} FirstPerCodeKeepsFirsts(s: seq<Hit>, key: Hit -> real)
    ensures forall h :: h in FirstPerCode(s) ==> exists j :: 0 <= j < |s| && s[j] == h && FirstOfItsCode(s, j)
    ensures SortedDesc(s, key) ==> SortedDesc(FirstPerCode(s), key)
  {
    if s != [] {
      var p := s[..|s| - 1];
      var x := s[|s| - 1];
      FirstPerCodeKeepsFirsts(p, key);
      FirstPerCodeCorrect(p);
      var d := FirstPerCode(p);
      forall h | h in d
        ensures exists j :: 0 <= j < |s| && s[j] == h && FirstOfItsCode(s, j)
      {
        var j :| 0 <= j < |p| && p[j] == h && FirstOfItsCode(p, j);
        assert s[j] == p[j];
        assert FirstOfItsCode(s, j);
      }
      if x.row.code !in CodesOf(p) {
        forall k | 0 <= k < |s| - 1
          ensures s[k].row.code != x.row.code
        {
          assert s[k] in p;
        }
        assert FirstOfItsCode(s, |s| - 1);
        if SortedDesc(s, key) {
          assert SortedDesc(p, key);
          forall i | 0 <= i < |d|
            ensures key(d[i]) >= key(x)
          {
            assert d[i] in d;
            var j :| 0 <= j < |p| && p[j] == d[i] && FirstOfItsCode(p, j);
            assert s[j] == d[i];
          }
        }
      } else if SortedDesc(s, key) {
        assert SortedDesc(p, key);
      }
    }
  }

  /** `idx` lists, in increasing order, exactly the positions of `s` that hold the first
      hit of their Code. */
  predicate FirstPositions(s: seq<Hit>, idx: seq<int>) {
    && (forall k :: 0 <= k < |idx| ==> 0 <= idx[k] < |s|)
    && (forall k, l :: 0 <= k < l < |idx| ==> idx[k] < idx[l])
    && (forall j :: 0 <= j < |s| ==> (j in idx <==> FirstOfItsCode(s, j)))
  }

  /** `t` is the hits of `s` at the positions `idx`, in that order. */
  predicate PicksAt(s: seq<Hit>, t: seq<Hit>, idx: seq<int>) {
    |t| == |idx| && forall k :: 0 <= k < |t| ==> 0 <= idx[k] < |s| && t[k] == s[idx[k]]
  }

  /** De-duplication keeps exactly the first hit of each Code, in the input's order. */
  lemma {:induction false} FirstPerCodeInOrder(s: seq<Hit>)
    ensures exists idx :: FirstPositions(s, idx) && PicksAt(s, FirstPerCode(s), idx)
  {
    if s == [] {
      assert FirstPositions(s, []) && PicksAt(s, [], []);
    } else {
      var p := s[..|s| - 1];
      FirstPerCodeInOrder(p);
      var idx :| FirstPositions(p, idx) && PicksAt(p, FirstPerCode(p), idx);
      LastFirstOfItsCode(s);
      FirstPositionsExtend(s, idx);
      if FirstOfItsCode(s, |s| - 1) {
        PicksAtExtend(s, FirstPerCode(p), idx, [s[|s| - 1]], [|s| - 1]);
      } else {
        PicksAtExtend(s, FirstPerCode(p), idx, [], []);
      }
    }
  }

  /** The last hit is the first of its Code exactly when the hits before it lack the Code. */
  lemma LastFirstOfItsCode(s: seq<Hit>)
    requires s != []
    ensures FirstOfItsCode(s, |s| - 1) <==> s[|s| - 1].row.code !in CodesOf(s[..|s| - 1])
  {
    var p, x := s[..|s| - 1], s[|s| - 1];
    if x.row.code in CodesOf(p) {
      var h :| h in p && h.row.code == x.row.code;
      var k :| 0 <= k < |p| && p[k] == h;
      assert s[k] == h;
    } else {
      forall k | 0 <= k < |p|
        ensures s[k].row.code != x.row.code
      {
        assert s[k] == p[k] && p[k] in p;
      }
    }
  }

  /** The first-of-Code positions of `s` are those of `s` without its last hit, and the
      last position when that hit is the first of its Code. */
  lemma FirstPositionsExtend(s: seq<Hit>, idx: seq<int>)
    requires s != [] && FirstPositions(s[..|s| - 1], idx)
    ensures FirstOfItsCode(s, |s| - 1) ==> FirstPositions(s, idx + [|s| - 1])
    ensures !FirstOfItsCode(s, |s| - 1) ==> FirstPositions(s, idx)
  {
    var p := s[..|s| - 1];
    forall j | 0 <= j < |p|
      ensures FirstOfItsCode(s, j) <==> FirstOfItsCode(p, j)
    {
      assert forall k :: 0 <= k <= j ==> s[k] == p[k];
    }
  }

  /** Picking from a prefix of `s` still picks from `s`, and picks concatenate. */
  lemma PicksAtExtend(s: seq<Hit>, t: seq<Hit>, idx: seq<int>, u: seq<Hit>, jdx: seq<int>)
    requires s != [] && PicksAt(s[..|s| - 1], t, idx) && PicksAt(s, u, jdx)
    ensures PicksAt(s, t + u, idx + jdx)
  {
  }

  /** Hits with pairwise distinct Codes are as many as their Codes. */
  lemma {:induction false} DistinctCodesCount(s: seq<Hit>)
    requires DistinctCodes(s)
    ensures |CodesOf(s)| == |s|
  {
    if s != [] {
      var p, x := s[..|s| - 1], s[|s| - 1];
      assert DistinctCodes(p);
      DistinctCodesCount(p);
      assert s == p + [x];
      assert CodesOf(s) == CodesOf(p) + {x.row.code};
    }
  }

  /** One more hit of the input adds its Code, and itself when its Code is new. */
  lemma FirstPerCodeStep(s: seq<Hit>, i: int)
    requires 0 <= i < |s|
    ensures FirstPerCode(s[..i + 1])
      == FirstPerCode(s[..i]) + (if s[i].row.code in CodesOf(s[..i]) then [] else [s[i]])
    ensures CodesOf(s[..i + 1]) == CodesOf(s[..i]) + {s[i].row.code}
  {
    assert s[..i + 1] == s[..i] + [s[i]];
    assert s[..i + 1][..i] == s[..i];
  }

  /** The de-duplication loop of search: the first hit of each Code, in order. */
  method UniqueByCode(similarResults: seq<Hit>) returns (uniqueResults: seq<Hit>)
    ensures uniqueResults == FirstPerCode(similarResults)
  {
    uniqueResults := [];
    var seenCodes: set<string> := {};
    var i := 0;
    while i < |similarResults|
      invariant 0 <= i <= |similarResults|
      invariant uniqueResults == FirstPerCode(similarResults[..i])
      invariant seenCodes == CodesOf(similarResults[..i])
    {
      var result := similarResults[i];
      FirstPerCodeStep(similarResults, i);
      if result.row.code !in seenCodes {
        seenCodes := seenCodes + {result.row.code};
        uniqueResults := uniqueResults + [result];
      }
      i := i + 1;
    }
    assert similarResults[..|similarResults|] == similarResults;
  }

  // ---------------------------------------------------------------------------
  // The /api/search route

  /** The search_type reported to the page. */
  datatype SearchType = Exacte | Similarite | StockType | Large | Aucun | Erreur {
    function Name(): string {
      match this
      case Exacte => "exacte"
      case Similarite => "similarité"
      case StockType => "stock"
      case Large => "large"
      case Aucun => "aucun"
      case Erreur => "erreur"
    }
  }

  /** The message of a response, with the counts and query it quotes. */
  datatype Message =
    | InvalidQuery
    | StockFound(count: nat)
    | ExactFound(count: nat)
    | SimilarFound(count: nat, query: string)
    | BroadFound(count: nat, query: string)
    | NotFound(query: string)
    | Failed
  {
    function Text(): string {
      match this
      case InvalidQuery => "Veuillez entrer une requête valide"
      case StockFound(n) =>
        "J'ai trouvé " + NatToString(n) + " articles" + " correspondant à votre recherche de stock"
      case ExactFound(n) => "J'ai trouvé " + NatToString(n) + " résultat(s) exact(s)"
      case SimilarFound(n, q) => "Voici " + NatToString(n) + " résultat(s) pertinents pour \"" + q + "\""
      case BroadFound(n, q) => "Voici " + NatToString(n) + " résultat(s) contenant \"" + q + "\""
      case NotFound(q) =>
        "Je n'ai pas trouvé de résultats pour \"" + q + "\". Essayez avec un code, une référence ou un nom différent."
      case Failed => "Une erreur est survenue lors de la recherche"
    }
  }

  datatype Response = Response(results: seq<Hit>, searchType: SearchType, message: Message)

  /** The request body: a JSON object whose `query` member is a string or absent, or a
      body the route cannot read (no JSON, or a `query` that is not a string). */
  datatype Request = Body(query: Option<string>) | Unreadable

  /** Whether the lower-cased query asks for stock. */
  predicate AsksStock(ql: string) {
    Contains(ql, "stock") || Contains(ql, "dispon")
  }

  function StockKey(h: Hit): real {
    StockInt(h.row).GetOr(0) as real
  }

  function SimilarityKey(h: Hit): real {
    h.similarity
  }

  /** The response for the stripped query `q` of a readable body, where `similar` is
      what the similarity scorer returns for `q`. */
  function Route(q: string, table: seq<Row>, similar: seq<Hit>): Response {
    if q == "" then Response([], Erreur, InvalidQuery)
    else if AsksStock(Lower(q)) then StockAnswer(StockMatches(table, q), q, table, similar)
    else AfterStock(q, table, similar)
  }

  /** The response of a query that asks for stock, given the stock search's outcome. */
  function StockAnswer(outcome: StockOutcome, q: string, table: seq<Row>, similar: seq<Hit>): Response {
    match outcome
    case DivisionByZero => Response([], Erreur, Failed)
    case StockHits(hits) =>
      if hits != [] then Response(Take(SortDesc(hits, StockKey), 10), StockType, StockFound(|hits|))
      else AfterStock(q, table, similar)
  }

  /** The response once the stock search has not answered: exact hits first. */
  function AfterStock(q: string, table: seq<Row>, similar: seq<Hit>): Response {
    ExactAnswer(ExactHits(table, PyStrip(Lower(q))), q, table, similar)
  }

  function ExactAnswer(exact: seq<Hit>, q: string, table: seq<Row>, similar: seq<Hit>): Response {
    if exact != [] then Response(Take(exact, 10), Exacte, ExactFound(|exact|))
    else if similar != [] then SimilarAnswer(FirstPerCode(SortDesc(similar, SimilarityKey)), q)
    else BroadAnswer(BroadHits(table, Lower(q)), q)
  }

  /** The response built from the de-duplicated similarity hits. */
  function SimilarAnswer(unique: seq<Hit>, q: string): Response {
    Response(Take(unique, 10), Similarite, SimilarFound(|unique|, q))
  }

  /** The response built from the broad hits, or "nothing found". */
  function BroadAnswer(broad: seq<Hit>, q: string): Response {
    if broad != [] then Response(Take(broad, 5), Large, BroadFound(|broad|, q))
    else Response([], Aucun, NotFound(q))
  }

  /** The stripped query of a readable request (`data.get('query', '').strip()`). */
  function QueryOf(body: Option<string>): string {
    PyStrip(body.GetOr(""))
  }

  /** The /api/search route: the stripped query decides, in this order, an error for an
      empty query, the stock search, the exact search, the similarity hits, the broad
      search, and "nothing found"; any exception becomes the generic error response. */
  method Search(request: Request, table: seq<Row>, similarResults: seq<Hit>) returns (response: Response)
    ensures request.Unreadable? ==> response == Response([], Erreur, Failed)
    ensures request.Body? ==> response == Route(QueryOf(request.query), table, similarResults)
  {
    if request.Unreadable? {
      return Response([], Erreur, Failed);
    }
    var query := QueryOf(request.query);
    if query == "" {
      return Response([], Erreur, InvalidQuery);
    }
    var queryLower := Lower(query);
    if AsksStock(queryLower) {
      var stockOutcome := SearchByStock(table, query);
      if stockOutcome.DivisionByZero? {
        return Response([], Erreur, Failed);
      }
      var stockResults := stockOutcome.hits;
      if stockResults != [] {
        var sorted := SortDesc(stockResults, StockKey);
        return Response(Take(sorted, 10), StockType, StockFound(|stockResults|));
      }
    }
    response := SearchAfterStock(query, table, similarResults);
  }

  /** The part of the route after the stock search: exact, similarity, broad, none. */
  method SearchAfterStock(query: string, table: seq<Row>, similarResults: seq<Hit>) returns (response: Response)
    ensures response == AfterStock(query, table, similarResults)
  {
    var exactResults := EnhancedSearchExact(table, query);
    if exactResults != [] {
      return Response(Take(exactResults, 10), Exacte, ExactFound(|exactResults|));
    }
    if similarResults != [] {
      var sorted := SortDesc(similarResults, SimilarityKey);
      var uniqueResults := UniqueByCode(sorted);
      return Response(Take(uniqueResults, 10), Similarite, SimilarFound(|uniqueResults|, query));
    }
    var broadResults := BroadSearch(table, Lower(query));
    if broadResults != [] {
      return Response(Take(broadResults, 5), Large, BroadFound(|broadResults|, query));
    }
    return Response([], Aucun, NotFound(query));
  }

  /** What every response promises: at most ten results; no results exactly when the
      route failed or found nothing; the error type exactly with an error message. */
  predicate Coherent(r: Response) {
    && |r.results| <= 10
    && (r.results == [] <==> (r.searchType == Erreur || r.searchType == Aucun))
    && (r.searchType == Erreur <==> (r.message == InvalidQuery || r.message == Failed))
  }

  lemma BroadAnswerCoherent(broad: seq<Hit>, q: string)
    ensures Coherent(BroadAnswer(broad, q))
    ensures BroadAnswer(broad, q).message != InvalidQuery
  {
  }

  lemma SimilarAnswerCoherent(similar: seq<Hit>, q: string)
    requires similar != []
    ensures Coherent(SimilarAnswer(FirstPerCode(SortDesc(similar, SimilarityKey)), q))
  {
    var sorted := SortDesc(similar, SimilarityKey);
    SortDescCorrect(similar, SimilarityKey);
    FirstPerCodeCorrect(sorted);
    assert similar[0] in multiset(sorted);
    assert sorted[0].row.code in CodesOf(FirstPerCode(sorted));
  }

  lemma AfterStockCoherent(q: string, table: seq<Row>, similar: seq<Hit>)
    ensures Coherent(AfterStock(q, table, similar))
    ensures AfterStock(q, table, similar).message != InvalidQuery
  {
    var exact := ExactHits(table, PyStrip(Lower(q)));
    if exact == [] {
      if similar != [] {
        SimilarAnswerCoherent(similar, q);
      } else {
        BroadAnswerCoherent(BroadHits(table, Lower(q)), q);
      }
    }
  }

  lemma StockAnswerCoherent(outcome: StockOutcome, q: string, table: seq<Row>, similar: seq<Hit>)
    ensures Coherent(StockAnswer(outcome, q, table, similar))
    ensures StockAnswer(outcome, q, table, similar).message != InvalidQuery
  {
    if outcome.StockHits? {
      if outcome.hits != [] {
        SortDescCorrect(outcome.hits, StockKey);
      } else {
        AfterStockCoherent(q, table, similar);
      }
    }
  }

  /** What a response promises, whatever the strategy that produced it; the empty-query
      error is given for the empty query and only for it. */
  lemma RouteProperties(q: string, table: seq<Row>, similar: seq<Hit>)
    ensures Coherent(Route(q, table, similar))
    ensures Route(q, table, similar).message == InvalidQuery <==> q == ""
  {
    if q != "" {
      if AsksStock(Lower(q)) {
        StockAnswerCoherent(StockMatches(table, q), q, table, similar);
      } else {
        AfterStockCoherent(q, table, similar);
      }
    }
  }

  // ---------------------------------------------------------------------------
  // Suggestions (/api/suggestions)

  /** Each of `cells` behind `tag`, in order. */
  function Labelled(tag: string, cells: seq<string>): (r: seq<string>)
    ensures |r| == |cells|
    ensures forall i :: 0 <= i < |cells| ==> r[i] == tag + cells[i]
  {
    seq(|cells|, i requires 0 <= i < |cells| => tag + cells[i])
  }

  function CodeColumn(rows: seq<Row>): seq<string> {
    seq(|rows|, i requires 0 <= i < |rows| => rows[i].code)
  }

  function DesignationColumn(rows: seq<Row>): seq<string> {
    seq(|rows|, i requires 0 <= i < |rows| => rows[i].designation)
  }

  function ReferenceColumn(rows: seq<Row>): seq<string> {
    seq(|rows|, i requires 0 <= i < |rows| => rows[i].reference)
  }

  /** get_suggestions: nothing for an empty inventory; otherwise the Codes of the first
      five rows, then the Designations and the References of the first three, each
      behind its label. */
  function GetSuggestions(table: seq<Row>): (s: seq<string>)
    ensures var n := |table|;
      && |s| == Min(5, n) + 2 * Min(3, n)
      && (forall i :: 0 <= i < Min(5, n) ==> s[i] == "Code: " + table[i].code)
      && (forall i :: 0 <= i < Min(3, n) ==> s[Min(5, n) + i] == "Article: " + table[i].designation)
      && (forall i :: 0 <= i < Min(3, n) ==> s[Min(5, n) + Min(3, n) + i] == "Référence: " + table[i].reference)
  {
    if table == [] then []
    else
      Labelled("Code: ", CodeColumn(Take(table, 5)))
      + Labelled("Article: ", DesignationColumn(Take(table, 3)))
      + Labelled("Référence: ", ReferenceColumn(Take(table, 3)))
  }

  // ---------------------------------------------------------------------------
  // The strategy order of the route

  /** The route after the stock search answers with one of the four later strategies. */
  lemma AfterStockKinds(q: string, table: seq<Row>, similar: seq<Hit>)
    ensures var r := AfterStock(q, table, similar);
      r.searchType in {Exacte, Similarite, Large, Aucun} && r.message != Failed
  {
  }

  /** The stock search did not answer: the query does not ask for stock or the scan
      found nothing. */
  predicate StockSilent(q: string, table: seq<Row>) {
    !AsksStock(Lower(q)) || StockMatches(table, q) == StockHits([])
  }

  /** The route fails exactly when a stock query names the quantity 0 and some Stock
      reads as an integer that is not negative. */
  lemma RouteFails(q: string, table: seq<Row>, similar: seq<Hit>)
    ensures Route(q, table, similar).message == Failed <==>
      && q != ""
      && AsksStock(Lower(q))
      && FirstDigitRun(q).Some?
      && DigitsValue(FirstDigitRun(q).value) == 0
      && exists r :: r in table && HasStock(r, 0)
  {
    AfterStockKinds(q, table, similar);
    if q != "" && AsksStock(Lower(q)) && FirstDigitRun(q).Some? {
      StockTarget(q);
      StockScanRaises(table, DigitsValue(FirstDigitRun(q).value));
    }
  }

  /** A stock answer lists the first ten stock hits once sorted most stock first: rows
      that hold at least the quantity the query names; its message counts all such rows. */
  lemma RouteStock(q: string, table: seq<Row>, similar: seq<Hit>)
    requires Route(q, table, similar).searchType == StockType
    ensures q != "" && AsksStock(Lower(q)) && FirstDigitRun(q).Some?
    ensures var target := DigitsValue(FirstDigitRun(q).value);
      var r := Route(q, table, similar);
      && target > 0
      && SortedDesc(r.results, StockKey)
      && (forall h :: h in r.results ==> h.row in table && HasStock(h.row, target))
      && r.message == StockFound(|StockRows(table, target)|)
      && |r.results| == Min(10, |StockRows(table, target)|)
    ensures var target := DigitsValue(FirstDigitRun(q).value);
      && StockScan(table, target).StockHits?
      && var hits := StockScan(table, target).hits;
      && RowsOf(hits) == StockRows(table, target)
      && Route(q, table, similar).results == Take(SortDesc(hits, StockKey), 10)
  {
    AfterStockKinds(q, table, similar);
    assert q != "" && AsksStock(Lower(q));
    var outcome := StockMatches(table, q);
    assert outcome.StockHits? && outcome.hits != [];
    assert FirstDigitRun(q).Some?;
    StockTarget(q);
    var target := DigitsValue(FirstDigitRun(q).value);
    assert outcome == StockScan(table, target);
    if target == 0 {
      StockScanZero(table);
      assert false;
    }
    StockScanHits(table, target);
    var hits := outcome.hits;
    SortDescCorrect(hits, StockKey);
    StockAnswerRows(table, target, hits);
  }

  /** The first ten stock hits, most stock first, are rows of the table that hold the
      target quantity. */
  lemma StockAnswerRows(table: seq<Row>, target: int, hits: seq<Hit>)
    requires RowsOf(hits) == StockRows(table, target)
    ensures forall h :: h in Take(SortDesc(hits, StockKey), 10) ==> h.row in table && HasStock(h.row, target)
  {
    StockRowsMembers(table, target);
    var sorted := SortDesc(hits, StockKey);
    SortDescPermutes(hits, StockKey);
    forall h | h in Take(sorted, 10)
      ensures h.row in table && HasStock(h.row, target)
    {
      assert h in multiset(sorted);
      var k :| 0 <= k < |hits| && hits[k] == h;
      assert RowsOf(hits)[k] == h.row;
    }
  }

  /** An exact answer comes only when the stock search is silent, and lists the first
      ten exact hits, all with similarity 1.0; its message counts all exact hits. */
  lemma RouteExact(q: string, table: seq<Row>, similar: seq<Hit>)
    requires Route(q, table, similar).searchType == Exacte
    ensures q != "" && StockSilent(q, table)
    ensures var ql := PyStrip(Lower(q));
      var r := Route(q, table, similar);
      && r.results != [] && r.results <= ExactHits(table, ql)
      && (forall h :: h in r.results ==> h.row in table && FieldsContain(h.row, ql) && h.similarity == 1.0)
      && r.message == ExactFound(|ExactHits(table, ql)|)
    ensures Route(q, table, similar).results == Take(ExactHits(table, PyStrip(Lower(q))), 10)
  {
    AfterStockKinds(q, table, similar);
    ExactHitsMembers(table, PyStrip(Lower(q)));
  }

  /** The de-duplicated, sorted scorer hits: hits of the scorer, best first, one per
      Code, as many as the scorer's hits have Codes. */
  lemma UniqueSimilarFacts(similar: seq<Hit>)
    requires similar != []
    ensures var unique := FirstPerCode(SortDesc(similar, SimilarityKey));
      && unique != []
      && (forall h :: h in unique ==> h in similar)
      && DistinctCodes(unique)
      && SortedDesc(unique, SimilarityKey)
      && |unique| == |CodesOf(similar)|
  {
    var sorted := SortDesc(similar, SimilarityKey);
    var unique := FirstPerCode(sorted);
    SortDescCorrect(similar, SimilarityKey);
    FirstPerCodeCorrect(sorted);
    FirstPerCodeKeepsFirsts(sorted, SimilarityKey);
    DistinctCodesCount(unique);
    forall c | c in CodesOf(similar)
      ensures c in CodesOf(sorted)
    {
      var h :| h in similar && h.row.code == c;
      assert h in multiset(sorted);
    }
    forall c | c in CodesOf(sorted)
      ensures c in CodesOf(similar)
    {
      var h :| h in sorted && h.row.code == c;
      assert h in multiset(similar);
    }
    assert CodesOf(sorted) == CodesOf(similar);
    assert similar[0].row.code in CodesOf(similar);
    forall h | h in unique
      ensures h in similar
    {
      assert h in multiset(sorted);
    }
  }

  /** A similarity answer comes only when the stock and exact searches found nothing;
      it lists the first ten de-duplicated scorer hits, best first, one per Code, and its
      message counts the distinct Codes among the scorer's hits. */
  lemma RouteSimilar(q: string, table: seq<Row>, similar: seq<Hit>)
    requires Route(q, table, similar).searchType == Similarite
    ensures q != "" && StockSilent(q, table) && ExactHits(table, PyStrip(Lower(q))) == []
    ensures var r := Route(q, table, similar);
      && r.results != []
      && (forall h :: h in r.results ==> h in similar)
      && DistinctCodes(r.results)
      && SortedDesc(r.results, SimilarityKey)
      && r.message == SimilarFound(|CodesOf(similar)|, q)
    ensures Route(q, table, similar).results == Take(FirstPerCode(SortDesc(similar, SimilarityKey)), 10)
  {
    AfterStockKinds(q, table, similar);
    UniqueSimilarFacts(similar);
  }

  /** A broad answer comes only when every earlier strategy found nothing, and then only
      for a query holding a space: without one, the broad search finds nothing the exact
      search missed. It lists the first five broad hits, each with similarity 0.1. */
  lemma RouteBroad(q: string, table: seq<Row>, similar: seq<Hit>)
    requires q == PyStrip(q)
    requires Route(q, table, similar).searchType == Large
    ensures q != "" && StockSilent(q, table) && ExactHits(table, Lower(q)) == [] && similar == []
    ensures ' ' in q
    ensures var r := Route(q, table, similar);
      && 0 < |r.results| <= 5
      && (forall h :: h in r.results ==> h.row in table && Contains(BroadText(h.row), Lower(q)) && h.similarity == 0.1)
      && r.message == BroadFound(|BroadHits(table, Lower(q))|, q)
    ensures Route(q, table, similar).results == Take(BroadHits(table, Lower(q)), 5)
  {
    AfterStockKinds(q, table, similar);
    StripOfLowerStripped(q);
    assert PyStrip(Lower(q)) == Lower(q);
    BroadHitsMembers(table, Lower(q));
    LowerKeepsSpaces(q);
    if ' ' !in q {
      BroadAddsOnlyAcrossFields(table, Lower(q));
      assert false;
    }
  }

  /** "Nothing found" comes only when every strategy found nothing. */
  lemma RouteNothing(q: string, table: seq<Row>, similar: seq<Hit>)
    requires Route(q, table, similar).searchType == Aucun
    ensures q != "" && StockSilent(q, table)
    ensures ExactHits(table, PyStrip(Lower(q))) == [] && similar == [] && BroadHits(table, Lower(q)) == []
    ensures Route(q, table, similar) == Response([], Aucun, NotFound(q))
  {
    AfterStockKinds(q, table, similar);
  }

  /** Conversely, when every strategy finds nothing the answer is "nothing found". */
  lemma RouteNothingWhenSilent(q: string, table: seq<Row>, similar: seq<Hit>)
    requires q != "" && StockSilent(q, table)
    requires ExactHits(table, PyStrip(Lower(q))) == [] && similar == [] && BroadHits(table, Lower(q)) == []
    ensures Route(q, table, similar) == Response([], Aucun, NotFound(q))
  {
  }

  /** The count a found message quotes is the first digit run of its text, and reading
      that run back with `int()` gives the count. */
  lemma QuotedCountReadsBack(m: Message)
    requires m.StockFound? || m.ExactFound? || m.SimilarFound? || m.BroadFound?
    ensures FirstDigitRun(m.Text()) == Some(NatToString(m.count))
    ensures PyInt(NatToString(m.count)) == Some(m.count)
  {
    match m {
      case StockFound(n) => StockMessageRun(n);
      case ExactFound(n) => ExactMessageRun(n);
      case SimilarFound(n, q) => SimilarMessageRun(n, q);
      case BroadFound(n, q) => BroadMessageRun(n, q);
    }
    PyIntOfNatToString(m.count);
  }

  /** The quoted count of each found message is its first digit run. */
  lemma StockMessageRun(n: nat)
    ensures FirstDigitRun(StockFound(n).Text()) == Some(NatToString(n))
  {
    var lead, d, a, b := "J'ai trouvé ", NatToString(n), " articles", " correspondant à votre recherche de stock";
    QuotedRunAround(lead, d, a, b, "");
    assert lead + d + a + b + "" == lead + d + a + b;
  }

  lemma ExactMessageRun(n: nat)
    ensures FirstDigitRun(ExactFound(n).Text()) == Some(NatToString(n))
  {
    QuotedRun("J'ai trouvé ", NatToString(n), " résultat(s) exact(s)");
  }

  lemma SimilarMessageRun(n: nat, q: string)
    ensures FirstDigitRun(SimilarFound(n, q).Text()) == Some(NatToString(n))
  {
    QuotedRunAround("Voici ", NatToString(n), " résultat(s) pertinents pour \"", q, "\"");
  }

  lemma BroadMessageRun(n: nat, q: string)
    ensures FirstDigitRun(BroadFound(n, q).Text()) == Some(NatToString(n))
  {
    QuotedRunAround("Voici ", NatToString(n), " résultat(s) contenant \"", q, "\"");
  }

  /** As `QuotedRun`, for a tail that quotes the query. */
  lemma QuotedRunAround(lead: string, d: string, a: string, q: string, b: string)
    requires forall i :: 0 <= i < |lead| ==> !IsDigit(lead[i])
    requires d != [] && AllDigits(d) && a != [] && a[0] == ' '
    ensures FirstDigitRun(lead + d + a + q + b) == Some(d)
  {
    var tail := a + q + b;
    assert tail[0] == ' ';
    assert lead + d + a + q + b == lead + d + tail;
    QuotedRun(lead, d, tail);
  }

  /** A digit run between a lead without digits and a tail starting with a space is the
      first digit run. */
  lemma QuotedRun(lead: string, d: string, tail: string)
    requires forall i :: 0 <= i < |lead| ==> !IsDigit(lead[i])
    requires d != [] && AllDigits(d) && tail != [] && tail[0] == ' '
    ensures FirstDigitRun(lead + d + tail) == Some(d)
  {
    assert lead + d + tail == lead + (d + tail);
    FirstDigitRunAfter(lead, d + tail);
    FirstDigitRunOf(d, tail);
  }
}
