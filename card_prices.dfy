/** The printing table of the card-price report (`buildRows` in yugiohMarketCLI.js): one row per set
    code, the first printing of that code in `card_sets` order, with the TCGplayer price, the
    previously cached price, the vendor prices of the card's first price bundle and their average,
    sorted by TCGplayer price, highest first. Prices are the parsed numbers (`parseFloat(x || 0)`). */
module CardPrices {
  import opened Optional

  /** One printing from `card_sets`; an absent text field is "", an absent price 0. */
  datatype CardSet = CardSet(code: string, name: string, rarity: string, price: real, condition: string)

  /** One bundle from `card_prices`; an absent price is 0. */
  datatype VendorPrices = VendorPrices(ebay: real, amazon: real, coolstuffinc: real)

  datatype Card = Card(sets: seq<CardSet>, prices: seq<VendorPrices>)

  datatype Row = Row(rarity: string, setCode: string, setName: string, tcgNow: real, tcgPrev: Option<real>,
                     ebay: real, amazon: real, csinc: real, avg: real, condition: string)

  /** `card.card_prices?.[0] || {}`: the first bundle, or all prices 0. */
  function Bundle(prices: seq<VendorPrices>): VendorPrices
  {
    if prices == [] then VendorPrices(0.0, 0.0, 0.0) else prices[0]
  }

  /** `s || fallback`. */
  function OrDefault(s: string, fallback: string): string
  {
    if s == "" then fallback else s
  }

  /** `parseFloat(prevMap[code] || 0) || null`: no previous price when the cache has none, or 0. */
  function PrevPrice(prevMap: map<string, real>, code: string): (r: Option<real>)
    ensures r.None? <==> code !in prevMap || prevMap[code] == 0.0
    ensures r.Some? ==> r.value == prevMap[code] && r.value != 0.0
  {
    if code in prevMap && prevMap[code] != 0.0 then Some(prevMap[code]) else None
  }

  /** `[tcgNow, ebay, amzn, csinc].filter(v => v > 0)`. */
  function Positives(vals: seq<real>): (r: seq<real>)
    ensures |r| <= |vals|
    ensures forall v :: v in r <==> v in vals && v > 0.0
    ensures forall v :: multiset(r)[v] == (if v > 0.0 then multiset(vals)[v] else 0)
    decreases |vals|
  {
    if vals == [] then []
    else
      assert vals == [vals[0]] + vals[1..];
      if vals[0] > 0.0 then [vals[0]] + Positives(vals[1..])
      else Positives(vals[1..])
  }

  function Sum(vals: seq<real>): real
    decreases |vals|
  {
    if vals == [] then 0.0 else vals[0] + Sum(vals[1..])
  }

  /** The mean of the positive values, or 0 when there are none. */
  function Average(vals: seq<real>): (avg: real)
  {
    var pos := Positives(vals);
    if |pos| == 0 then 0.0 else Sum(pos) / (|pos| as real)
  }

  lemma {:induction false} SumBounds(vals: seq<real>, lo: real, hi: real)
    requires forall v :: v in vals ==> lo <= v <= hi
    ensures (|vals| as real) * lo <= Sum(vals) <= (|vals| as real) * hi
    decreases |vals|
  {
    if vals != [] {
      assert forall v :: v in vals[1..] ==> v in vals;
      SumBounds(vals[1..], lo, hi);
      assert vals[0] in vals;
    }
  }

  lemma QuotientBounds(total: real, n: real, lo: real, hi: real)
    requires n > 0.0 && n * lo <= total <= n * hi
    ensures lo <= total / n <= hi
  {
  }

  lemma PositiveQuotient(total: real, n: real)
    requires total > 0.0 && n > 0.0
    ensures total / n > 0.0
  {
    assert (total / n) * n == total;
  }

  /** The average is 0 exactly when no value is positive, and never negative. */
  lemma AverageZeroIff(vals: seq<real>)
    ensures Average(vals) >= 0.0
    ensures Average(vals) == 0.0 <==> forall v :: v in vals ==> v <= 0.0
  {
    var pos := Positives(vals);
    if |pos| != 0 {
      assert pos[0] in vals && pos[0] > 0.0;
      SumPositive(pos);
      PositiveQuotient(Sum(pos), |pos| as real);
    }
  }

  lemma {:induction false} SumPositive(vals: seq<real>)
    requires vals != [] && forall v :: v in vals ==> v > 0.0
    ensures Sum(vals) > 0.0
    decreases |vals|
  {
    assert vals[0] in vals;
    if |vals| > 1 {
      assert forall v :: v in vals[1..] ==> v in vals;
      SumPositive(vals[1..]);
    }
  }

  lemma MeanBetween(pos: seq<real>, lo: real, hi: real)
    requires pos != [] && forall v :: v in pos ==> lo <= v <= hi
    ensures lo <= Sum(pos) / (|pos| as real) <= hi
  {
    SumBounds(pos, lo, hi);
    QuotientBounds(Sum(pos), |pos| as real, lo, hi);
  }

  /** When some value is positive, the average lies between any lower and upper bound of the
      positive values: between their minimum and their maximum. */
  lemma AverageBetween(vals: seq<real>, lo: real, hi: real)
    requires exists v :: v in vals && v > 0.0
    requires forall v :: v in vals && v > 0.0 ==> lo <= v <= hi
    ensures lo <= Average(vals) <= hi
  {
    var pos := Positives(vals);
    var w :| w in vals && w > 0.0;
    assert w in pos;
    MeanBetween(pos, lo, hi);
  }

  /** The set codes among `sets`. */
  function Codes(sets: seq<CardSet>): set<string> {
    set s | s in sets :: s.code
  }

  /** The position of the first printing with code `code`. */
  function FirstIndex(sets: seq<CardSet>, code: string): (i: nat)
    requires code in Codes(sets)
    ensures i < |sets| && sets[i].code == code
    ensures forall j :: 0 <= j < i ==> sets[j].code != code
    decreases |sets|
  {
    if sets[0].code == code then 0
    else
      assert code in Codes(sets[1..]) by {
        var s :| s in sets && s.code == code;
        var k :| 0 <= k < |sets| && sets[k] == s;
        assert sets[1..][k - 1] == s;
      }
      1 + FirstIndex(sets[1..], code)
  }

  /** The printings the `seen` loop keeps, given the codes already seen: each code's first printing. */
  function FirstPrintingsFrom(sets: seq<CardSet>, seen: set<string>): seq<CardSet>
    decreases |sets|
  {
    if sets == [] then []
    else if sets[0].code in seen then FirstPrintingsFrom(sets[1..], seen)
    else [sets[0]] + FirstPrintingsFrom(sets[1..], seen + {sets[0].code})
  }

  function FirstPrintings(sets: seq<CardSet>): seq<CardSet> {
    FirstPrintingsFrom(sets, {})
  }

  /** Kept printings have pairwise distinct codes, none of them already seen, and every code not
      already seen is kept. */
  lemma {:induction false} FirstPrintingsFromDistinct(sets: seq<CardSet>, seen: set<string>)
    ensures var kept := FirstPrintingsFrom(sets, seen);
      && (forall i, j :: 0 <= i < j < |kept| ==> kept[i].code != kept[j].code)
      && Codes(kept) == Codes(sets) - seen
    decreases |sets|
  {
    if sets != [] {
      var c := sets[0].code;
      assert Codes(sets) == {c} + Codes(sets[1..]) by {
        assert sets == [sets[0]] + sets[1..];
      }
      if c in seen {
        FirstPrintingsFromDistinct(sets[1..], seen);
      } else {
        var rest := FirstPrintingsFrom(sets[1..], seen + {c});
        FirstPrintingsFromDistinct(sets[1..], seen + {c});
        var kept := [sets[0]] + rest;
        assert Codes(kept) == {c} + Codes(rest);
        forall i, j | 0 <= i < j < |kept| ensures kept[i].code != kept[j].code {
          if i == 0 {
            assert kept[j] == rest[j - 1];
            assert kept[j].code in Codes(rest);
          } else {
            assert kept[i] == rest[i - 1] && kept[j] == rest[j - 1];
          }
        }
      }
    }
  }

  /** Every kept printing is the first printing of its code. */
  lemma {:induction false} FirstPrintingsFromAreFirst(sets: seq<CardSet>, seen: set<string>)
    ensures forall x :: x in FirstPrintingsFrom(sets, seen) ==>
      x.code !in seen && x.code in Codes(sets) && x == sets[FirstIndex(sets, x.code)]
    decreases |sets|
  {
    if sets != [] {
      var c := sets[0].code;
      var tail := sets[1..];
      var seen' := if c in seen then seen else seen + {c};
      FirstPrintingsFromAreFirst(tail, seen');
      forall x | x in FirstPrintingsFrom(tail, seen')
        ensures x.code !in seen && x.code in Codes(sets) && x == sets[FirstIndex(sets, x.code)]
      {
        assert x.code != c;
        var k := FirstIndex(tail, x.code);
        assert sets[k + 1] == tail[k];
        assert x.code in Codes(sets);
      }
    }
  }

  /** Every code of the card's printings has exactly one kept printing, its first. */
  lemma OnePrintingPerCode(sets: seq<CardSet>)
    ensures var kept := FirstPrintings(sets);
      && (forall i, j :: 0 <= i < j < |kept| ==> kept[i].code != kept[j].code)
      && Codes(kept) == Codes(sets)
      && (forall x :: x in kept ==> x == sets[FirstIndex(sets, x.code)])
  {
    FirstPrintingsFromDistinct(sets, {});
    FirstPrintingsFromAreFirst(sets, {});
  }

  /** The row for one kept printing. */
  function RowOf(s: CardSet, bundle: VendorPrices, prevMap: map<string, real>): (r: Row)
    ensures r.setCode == s.code && r.tcgNow == s.price && r.tcgPrev == PrevPrice(prevMap, s.code)
    ensures r.avg == Average(PriceList(s, bundle))
    ensures r.rarity != "" && r.setName != "" && r.condition != ""
    ensures s.rarity != "" ==> r.rarity == s.rarity
    ensures s.name != "" ==> r.setName == s.name
    ensures s.condition != "" ==> r.condition == s.condition
    ensures r.ebay == bundle.ebay && r.amazon == bundle.amazon && r.csinc == bundle.coolstuffinc
  {
    Row(OrDefault(s.rarity, "N/A"), s.code, OrDefault(s.name, "Unknown Set"), s.price, PrevPrice(prevMap, s.code),
        bundle.ebay, bundle.amazon, bundle.coolstuffinc, Average(PriceList(s, bundle)),
        OrDefault(s.condition, "Unknown"))
  }

  /** `[tcgNow, ebay, amzn, csinc]`. */
  function PriceList(s: CardSet, bundle: VendorPrices): (vals: seq<real>)
    ensures |vals| == 4 && vals[0] == s.price
  {
    [s.price, bundle.ebay, bundle.amazon, bundle.coolstuffinc]
  }

  function RowsOf(sets: seq<CardSet>, bundle: VendorPrices, prevMap: map<string, real>): (rows: seq<Row>)
    ensures |rows| == |sets|
    ensures forall i :: 0 <= i < |sets| ==> rows[i] == RowOf(sets[i], bundle, prevMap)
  {
    seq(|sets|, i requires 0 <= i < |sets| => RowOf(sets[i], bundle, prevMap))
  }

  predicate SortedByPriceDesc(rows: seq<Row>) {
    forall i, j :: 0 <= i < j < |rows| ==> rows[i].tcgNow >= rows[j].tcgNow
  }

  /** `row` placed after every row priced at least as high: the comparator
      `(b.TCGNow || 0) - (a.TCGNow || 0)` of a stable sort. */
  function InsertByPrice(row: Row, sorted: seq<Row>): seq<Row>
    decreases |sorted|
  {
    if sorted == [] then [row]
    else if sorted[0].tcgNow >= row.tcgNow then [sorted[0]] + InsertByPrice(row, sorted[1..])
    else [row] + sorted
  }

  lemma {:induction false} InsertPermutes(row: Row, sorted: seq<Row>)
    ensures multiset(InsertByPrice(row, sorted)) == multiset(sorted) + multiset{row}
    ensures |InsertByPrice(row, sorted)| == |sorted| + 1
    decreases |sorted|
  {
    if sorted != [] && sorted[0].tcgNow >= row.tcgNow {
      InsertPermutes(row, sorted[1..]);
      assert sorted == [sorted[0]] + sorted[1..];
    }
  }

  /** A descending list headed by a row priced at least as high as every row of a descending tail. */
  lemma ConsSorted(head: Row, rest: seq<Row>)
    requires SortedByPriceDesc(rest)
    requires forall k :: 0 <= k < |rest| ==> rest[k].tcgNow <= head.tcgNow
    ensures SortedByPriceDesc([head] + rest)
  {
    var r := [head] + rest;
    forall i, j | 0 <= i < j < |r| ensures r[i].tcgNow >= r[j].tcgNow {
      assert r[j] == rest[j - 1];
      if i > 0 {
        assert r[i] == rest[i - 1];
      }
    }
  }

  /** The tail of a descending list is descending. */
  lemma TailSorted(sorted: seq<Row>)
    requires sorted != [] && SortedByPriceDesc(sorted)
    ensures SortedByPriceDesc(sorted[1..])
  {
    var tail := sorted[1..];
    forall i, j | 0 <= i < j < |tail| ensures tail[i].tcgNow >= tail[j].tcgNow {
      assert tail[i] == sorted[i + 1] && tail[j] == sorted[j + 1];
    }
  }

  /** Inserting a row into rows all priced at most `bound` leaves every row priced at most `bound`. */
  lemma {:induction false} InsertBelow(row: Row, sorted: seq<Row>, bound: real)
    requires row.tcgNow <= bound
    requires forall k :: 0 <= k < |sorted| ==> sorted[k].tcgNow <= bound
    ensures forall k :: 0 <= k < |InsertByPrice(row, sorted)| ==> InsertByPrice(row, sorted)[k].tcgNow <= bound
    decreases |sorted|
  {
    if sorted != [] && sorted[0].tcgNow >= row.tcgNow {
      var tail := sorted[1..];
      assert forall k :: 0 <= k < |tail| ==> tail[k] == sorted[k + 1];
      InsertBelow(row, tail, bound);
    }
  }

  lemma {:induction false} InsertSorted(row: Row, sorted: seq<Row>)
    requires SortedByPriceDesc(sorted)
    ensures SortedByPriceDesc(InsertByPrice(row, sorted))
    decreases |sorted|
  {
    if sorted != [] && sorted[0].tcgNow >= row.tcgNow {
      var head, tail := sorted[0], sorted[1..];
      TailSorted(sorted);
      InsertSorted(row, tail);
      assert forall k :: 0 <= k < |tail| ==> tail[k] == sorted[k + 1];
      InsertBelow(row, tail, head.tcgNow);
      ConsSorted(head, InsertByPrice(row, tail));
    } else if sorted != [] {
      ConsSorted(row, sorted);
    }
  }

  /** `results.sort(...)`: a stable sort by TCGplayer price, highest first; it loses and adds no row. */
  function SortByPriceDesc(rows: seq<Row>): (r: seq<Row>)
    ensures SortedByPriceDesc(r)
    ensures multiset(r) == multiset(rows)
    ensures |r| == |rows|
    decreases |rows|
  {
    if rows == [] then []
    else
      var init, last := rows[..|rows| - 1], rows[|rows| - 1];
      assert rows == init + [last];
      var sorted := SortByPriceDesc(init);
      InsertSorted(last, sorted);
      InsertPermutes(last, sorted);
      InsertByPrice(last, sorted)
  }

  lemma FirstPrintingsStep(sets: seq<CardSet>, i: nat, seen: set<string>)
    requires i < |sets|
    ensures FirstPrintingsFrom(sets[i..], seen) ==
      if sets[i].code in seen then FirstPrintingsFrom(sets[i + 1..], seen)
      else [sets[i]] + FirstPrintingsFrom(sets[i + 1..], seen + {sets[i].code})
  {
    assert sets[i..][0] == sets[i] && sets[i..][1..] == sets[i + 1..];
  }

  lemma RowsOfAppend(sets: seq<CardSet>, s: CardSet, bundle: VendorPrices, prevMap: map<string, real>)
    ensures RowsOf(sets + [s], bundle, prevMap) == RowsOf(sets, bundle, prevMap) + [RowOf(s, bundle, prevMap)]
  {
  }

  /** `buildRows`: the loop keeps the first printing of each code, makes its row, and the rows are
      then sorted by price. */
  method BuildRows(card: Card, prevMap: map<string, real>) returns (rows: seq<Row>)
    ensures rows == SortByPriceDesc(RowsOf(FirstPrintings(card.sets), Bundle(card.prices), prevMap))
  {
    var seen: set<string> := {};
    var results: seq<Row> := [];
    ghost var kept: seq<CardSet> := [];
    var bundle := Bundle(card.prices);
    for i := 0 to |card.sets|
      invariant kept + FirstPrintingsFrom(card.sets[i..], seen) == FirstPrintings(card.sets)
      invariant results == RowsOf(kept, bundle, prevMap)
    {
      var s := card.sets[i];
      FirstPrintingsStep(card.sets, i, seen);
      if s.code in seen {
        continue;
      }
      ghost var later := FirstPrintingsFrom(card.sets[i + 1..], seen + {s.code});
      assert kept + ([s] + later) == (kept + [s]) + later;
      RowsOfAppend(kept, s, bundle, prevMap);
      seen := seen + {s.code};
      kept := kept + [s];
      results := results + [RowOf(s, bundle, prevMap)];
    }
    assert card.sets[|card.sets|..] == [];
    assert kept + [] == kept;
    rows := SortByPriceDesc(results);
  }

  /** The report lists every set code of the card exactly once, sorted by price, highest first. */
  lemma ReportCoversEveryCodeOnce(card: Card, prevMap: map<string, real>)
    ensures var rows := SortByPriceDesc(RowsOf(FirstPrintings(card.sets), Bundle(card.prices), prevMap));
      && SortedByPriceDesc(rows)
      && RowCodes(rows) == Codes(card.sets)
      && DistinctCodes(rows)
  {
    var kept := FirstPrintings(card.sets);
    var unsorted := RowsOf(kept, Bundle(card.prices), prevMap);
    OnePrintingPerCode(card.sets);
    RowCodesOfRowsOf(kept, Bundle(card.prices), prevMap);
    SortKeepsRowCodes(unsorted);
    assert DistinctCodes(unsorted) by {
      forall i, j | 0 <= i < j < |unsorted| ensures unsorted[i].setCode != unsorted[j].setCode {
        assert kept[i].code != kept[j].code;
      }
    }
    SortKeepsCodesDistinct(unsorted);
  }

  function RowCodes(rows: seq<Row>): set<string> {
    set r | r in rows :: r.setCode
  }

  lemma RowCodesOfRowsOf(sets: seq<CardSet>, bundle: VendorPrices, prevMap: map<string, real>)
    ensures RowCodes(RowsOf(sets, bundle, prevMap)) == Codes(sets)
  {
    var rows := RowsOf(sets, bundle, prevMap);
    forall c | c in Codes(sets) ensures c in RowCodes(rows) {
      var s :| s in sets && s.code == c;
      var k :| 0 <= k < |sets| && sets[k] == s;
      assert rows[k] in rows;
    }
    forall c | c in RowCodes(rows) ensures c in Codes(sets) {
      var r :| r in rows && r.setCode == c;
      var k :| 0 <= k < |rows| && rows[k] == r;
      assert sets[k] in sets;
    }
  }

  lemma SortKeepsRowCodes(rows: seq<Row>)
    ensures RowCodes(SortByPriceDesc(rows)) == RowCodes(rows)
  {
    var sorted := SortByPriceDesc(rows);
    forall r ensures r in sorted <==> r in rows {
      assert r in sorted <==> r in multiset(sorted);
      assert r in rows <==> r in multiset(rows);
    }
  }

  predicate DistinctCodes(rows: seq<Row>) {
    forall i, j :: 0 <= i < j < |rows| ==> rows[i].setCode != rows[j].setCode
  }

  lemma ConsKeepsCodesDistinct(row: Row, rows: seq<Row>)
    requires DistinctCodes(rows) && forall x :: x in rows ==> x.setCode != row.setCode
    ensures DistinctCodes([row] + rows)
  {
    var r := [row] + rows;
    forall i, j | 0 <= i < j < |r| ensures r[i].setCode != r[j].setCode {
      assert r[j] == rows[j - 1];
      if i > 0 {
        assert r[i] == rows[i - 1];
      } else {
        assert rows[j - 1] in rows;
      }
    }
  }

  lemma {:induction false} InsertKeepsCodesDistinct(row: Row, sorted: seq<Row>)
    requires SortedByPriceDesc(sorted) && DistinctCodes(sorted)
    requires forall x :: x in sorted ==> x.setCode != row.setCode
    ensures DistinctCodes(InsertByPrice(row, sorted))
    decreases |sorted|
  {
    if sorted != [] && sorted[0].tcgNow >= row.tcgNow {
      var head, tail := sorted[0], sorted[1..];
      assert DistinctCodes(tail) by {
        forall i, j | 0 <= i < j < |tail| ensures tail[i].setCode != tail[j].setCode {
          assert tail[i] == sorted[i + 1] && tail[j] == sorted[j + 1];
        }
      }
      assert forall x :: x in tail ==> x in sorted;
      InsertKeepsCodesDistinct(row, tail);
      InsertPermutes(row, tail);
      var inserted := InsertByPrice(row, tail);
      forall x | x in inserted ensures x.setCode != head.setCode {
        assert x in multiset(inserted);
        if x != row {
          assert x in multiset(tail);
          var m :| 0 <= m < |tail| && tail[m] == x;
          assert sorted[m + 1] == x;
        } else {
          assert head in sorted;
        }
      }
      ConsKeepsCodesDistinct(head, inserted);
    } else if sorted != [] {
      ConsKeepsCodesDistinct(row, sorted);
    }
  }

  /** Sorting does not make two rows share a code. */
  lemma {:induction false} SortKeepsCodesDistinct(rows: seq<Row>)
    requires DistinctCodes(rows)
    ensures DistinctCodes(SortByPriceDesc(rows))
    decreases |rows|
  {
    if rows != [] {
      var init := rows[..|rows| - 1];
      var last := rows[|rows| - 1];
      assert DistinctCodes(init) by {
        forall i, j | 0 <= i < j < |init| ensures init[i].setCode != init[j].setCode {
          assert init[i] == rows[i] && init[j] == rows[j];
        }
      }
      SortKeepsCodesDistinct(init);
      var sorted := SortByPriceDesc(init);
      forall x | x in sorted ensures x.setCode != last.setCode {
        assert x in multiset(init);
        var m :| 0 <= m < |init| && init[m] == x;
      }
      InsertKeepsCodesDistinct(last, sorted);
    }
  }

  /** `pct(now, prev)`: the percentage change from `prev` to `now`, none when `prev` is absent or 0. */
  function Pct(now: real, prev: Option<real>): (r: Option<real>)
    ensures r.None? <==> prev.None? || prev.value == 0.0
    ensures r.Some? ==> r.value * prev.value == (now - prev.value) * 100.0
  {
    if prev.None? || prev.value == 0.0 then None else Some((now - prev.value) / prev.value * 100.0)
  }

  /** Against a positive previous price the change is positive exactly when the price rose, and 0
      exactly when it stayed. */
  lemma PctSign(now: real, prev: real)
    requires prev > 0.0
    ensures Pct(now, Some(prev)).Some?
    ensures Pct(now, Some(prev)).value > 0.0 <==> now > prev
    ensures Pct(now, Some(prev)).value == 0.0 <==> now == prev
  {
    var r := Pct(now, Some(prev)).value;
    assert r * prev == (now - prev) * 100.0;
    if r > 0.0 {
      assert r * prev > 0.0;
    } else if r < 0.0 {
      assert r * prev < 0.0;
    }
  }
}
