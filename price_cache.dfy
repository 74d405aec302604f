/** The previous-day price lookup of the card-price report (`loadPrevPrices` and `saveTodayPrices`
    in yugiohMarketCLI.js): the cache maps a date key to the prices saved that day, and the report
    compares against the entry under the greatest key in string order. */
module PriceCache {
  import opened Optional

  /** The order of `Array.prototype.sort` on strings: character by character, a prefix first. */
  predicate LexLe(a: string, b: string)
    decreases |a|
  {
    a == [] || (b != [] && (a[0] < b[0] || (a[0] == b[0] && LexLe(a[1..], b[1..]))))
  }

  lemma {:induction false} LexLeReflexive(a: string)
    ensures LexLe(a, a)
    decreases |a|
  {
    if a != [] {
      LexLeReflexive(a[1..]);
    }
  }

  lemma {:induction false} LexLeTotal(a: string, b: string)
    ensures LexLe(a, b) || LexLe(b, a)
    decreases |a|
  {
    if a != [] && b != [] && a[0] == b[0] {
      LexLeTotal(a[1..], b[1..]);
    }
  }

  lemma {:induction false} LexLeAntisymmetric(a: string, b: string)
    requires LexLe(a, b) && LexLe(b, a)
    ensures a == b
    decreases |a|
  {
    if a != [] && b != [] {
      LexLeAntisymmetric(a[1..], b[1..]);
      assert a == [a[0]] + a[1..] && b == [b[0]] + b[1..];
    }
  }

  lemma {:induction false} LexLeTransitive(a: string, b: string, c: string)
    requires LexLe(a, b) && LexLe(b, c)
    ensures LexLe(a, c)
    decreases |a|
  {
    if a != [] && a[0] == b[0] && b[0] == c[0] {
      LexLeTransitive(a[1..], b[1..], c[1..]);
    }
  }

  /** A non-empty set of keys has a greatest key. */
  lemma {:induction false} GreatestExists(keys: set<string>)
    requires keys != {}
    ensures exists k :: k in keys && forall x :: x in keys ==> LexLe(x, k)
    decreases |keys|
  {
    var y :| y in keys;
    LexLeReflexive(y);
    if keys == {y} {
      assert forall x :: x in keys ==> x == y;
    } else {
      var rest := keys - {y};
      assert |rest| < |keys|;
      GreatestExists(rest);
      var k :| k in rest && forall x :: x in rest ==> LexLe(x, k);
      LexLeTotal(y, k);
      if LexLe(y, k) {
        forall x | x in keys ensures LexLe(x, k) {
          if x != y {
            assert x in rest;
          }
        }
        assert k in keys;
      } else {
        forall x | x in keys ensures LexLe(x, y) {
          if x != y {
            assert x in rest;
            LexLeTransitive(x, k, y);
          }
        }
      }
    }
  }

  /** `Object.keys(json).sort().pop()`: the greatest key; there is exactly one. */
  function LatestKey(keys: set<string>): (k: string)
    requires keys != {}
    ensures k in keys && forall x :: x in keys ==> LexLe(x, k)
  {
    GreatestExists(keys);
    var k :| k in keys && forall x :: x in keys ==> LexLe(x, k);
    assert forall k' :: k' in keys && (forall x :: x in keys ==> LexLe(x, k')) ==> k' == k by {
      forall k' | k' in keys && (forall x :: x in keys ==> LexLe(x, k')) ensures k' == k {
        LexLeAntisymmetric(k, k');
      }
    }
    k
  }

  /** `loadPrevPrices`: the prices under the latest key, or none when there is no cache file or it
      has no entry. */
  function LoadPrevPrices(cache: Option<map<string, map<string, real>>>): (r: map<string, real>)
    ensures cache.None? || cache.value == map[] ==> r == map[]
    ensures cache.Some? && cache.value != map[] ==>
      exists k :: k in cache.value && r == cache.value[k] && forall x :: x in cache.value ==> LexLe(x, k)
  {
    if cache.None? || cache.value == map[] then map[]
    else
      assert cache.value.Keys != {} by {
        var k :| k in cache.value;
      }
      cache.value[LatestKey(cache.value.Keys)]
  }

  /** `saveTodayPrices` followed by `loadPrevPrices`: once today's prices are stored under a key no
      smaller than every earlier key, the next report compares against exactly them. */
  lemma SavedPricesAreLoaded(cache: map<string, map<string, real>>, today: string, prices: map<string, real>)
    requires forall k :: k in cache ==> LexLe(k, today)
    ensures LoadPrevPrices(Some(cache[today := prices])) == prices
  {
    var stored := cache[today := prices];
    assert today in stored;
    var k := LatestKey(stored.Keys);
    LexLeAntisymmetric(k, today);
  }
}
