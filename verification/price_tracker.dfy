/** Price aggregation over the configured quote sources. The DIEM and the VVV
    trackers are the same code over a different asset, so one module models
    both: the asset only selects which quote each source is asked for, and the
    answers arrive here as readings. */
module PriceTracker {
  import opened Basics
  import Stats

  /** What one call to a quote source produced: it raised, or it returned a
      price (which may be `None`, zero or negative). */
  datatype Fetch = Raised | Returned(price: Option<real>)

  /** One source's answer in one poll, tagged with the source's name. */
  datatype Reading = Reading(source: string, fetch: Fetch)

  /** The tracker's source list, in the order the constructor builds it. */
  const CoinMarketCap: string := "coinmarketcap"
  const CoinGecko: string := "coingecko"

  /** The constructor appends CoinMarketCap only for a truthy key and
      CoinGecko always, so the list is never empty. */
  function Sources(cmcKey: Option<string>): (r: seq<string>)
    ensures 1 <= |r| <= 2
    ensures r[|r| - 1] == CoinGecko
    ensures CoinMarketCap in r <==> TruthyString(cmcKey)
    ensures forall i, j :: 0 <= i < j < |r| ==> r[i] != r[j]
  {
    (if TruthyString(cmcKey) then [CoinMarketCap] else []) + [CoinGecko]
  }

  /** `price and price > 0`: the quote was returned, present and positive. */
  predicate Usable(f: Fetch) {
    f.Returned? && f.price.Some? && f.price.value > 0.0
  }

  /** The prices `get_price` collects, in source order. */
  function ValidPrices(rs: seq<Reading>): (ps: seq<real>)
    ensures |ps| <= |rs|
    ensures forall i :: 0 <= i < |ps| ==> ps[i] > 0.0
    ensures |ps| == 0 <==> forall i :: 0 <= i < |rs| ==> !Usable(rs[i].fetch)
  {
    if |rs| == 0 then []
    else
      var rest := ValidPrices(rs[1..]);
      assert forall i :: 1 <= i < |rs| ==> rs[i] == rs[1..][i - 1];
      Quote(rs[0]) + rest
  }

  /** The price one reading contributes: its quote when usable, else none. */
  function Quote(r: Reading): seq<real> {
    if Usable(r.fetch) then [r.fetch.price.value] else []
  }

  /** `get_price`: the median of the usable quotes, or `None` when no source
      produced one. */
  function GetPrice(rs: seq<Reading>): (r: Option<real>)
    ensures r.None? <==> forall i :: 0 <= i < |rs| ==> !Usable(rs[i].fetch)
    ensures r.Some? <==> |ValidPrices(rs)| > 0
    ensures r.Some? ==> r.value > 0.0
    ensures r.Some? ==>
              Stats.MinOf(ValidPrices(rs)) <= r.value <= Stats.MaxOf(ValidPrices(rs))
    ensures r.Some? ==> forall t :: Stats.Sorted(t) && multiset(t) == multiset(ValidPrices(rs)) ==>
                          |t| > 0 && r.value == Stats.Middle(t)
  {
    var ps := ValidPrices(rs);
    if |ps| == 0 then
      None
    else
      Stats.MedianWithinRange(ps);
      Stats.MedianOfAnySorting(ps);
      Some(Stats.Median(ps))
  }

  /** Collecting over two lists of readings collects over each, in order. */
  lemma {:induction false} ValidPricesAppend(a: seq<Reading>, b: seq<Reading>)
    ensures ValidPrices(a + b) == ValidPrices(a) + ValidPrices(b)
  {
    if |a| == 0 {
      assert a + b == b;
    } else {
      var ab := a + b;
      assert ab[0] == a[0] && ab[1..] == a[1..] + b;
      ValidPricesAppend(a[1..], b);
      ValidPricesCons(ab);
      ValidPricesCons(a);
      var q, x, y := Quote(a[0]), ValidPrices(a[1..]), ValidPrices(b);
      SeqAssoc(q, x, y);
    }
  }

  /** Concatenation regroups freely. */
  lemma SeqAssoc(q: seq<real>, x: seq<real>, y: seq<real>)
    ensures q + (x + y) == (q + x) + y
  {
  }

  /** One step of the collection: the first reading's quote, then the rest. */
  lemma ValidPricesCons(rs: seq<Reading>)
    requires |rs| > 0
    ensures ValidPrices(rs) == Quote(rs[0]) + ValidPrices(rs[1..])
  {
  }

  /** Reordering the sources reorders the usable quotes and nothing else. */
  lemma {:induction false} ValidPricesPermutation(a: seq<Reading>, b: seq<Reading>)
    requires multiset(a) == multiset(b)
    ensures multiset(ValidPrices(a)) == multiset(ValidPrices(b))
  {
    if |a| == 0 {
      assert |multiset(b)| == 0;
      assert b == [];
    } else {
      var x := a[0];
      assert x in multiset(b);
      var i :| 0 <= i < |b| && b[i] == x;
      var rest := b[..i] + b[i + 1..];
      WithoutOne(b, i);
      assert a == [x] + a[1..];
      assert multiset(a[1..]) == multiset(a) - multiset{x};
      ValidPricesPermutation(a[1..], rest);
      ValidPricesCons(a);
      ValidPricesWithout(b, i);
    }
  }

  /** Taking one element out of a sequence takes it out of its multiset. */
  lemma WithoutOne(b: seq<Reading>, i: int)
    requires 0 <= i < |b|
    ensures multiset(b[..i] + b[i + 1..]) == multiset(b) - multiset{b[i]}
  {
    Decompose(b, i);
  }

  /** The quotes of a list are those of one of its readings plus those of
      the others. */
  lemma ValidPricesWithout(b: seq<Reading>, i: int)
    requires 0 <= i < |b|
    ensures multiset(ValidPrices(b)) == multiset(Quote(b[i])) + multiset(ValidPrices(b[..i] + b[i + 1..]))
  {
    var pre, post := b[..i], b[i + 1..];
    Decompose(b, i);
    ValidPricesAppend(pre + [b[i]], post);
    ValidPricesAppend(pre, [b[i]]);
    ValidPricesSingle(b[i]);
    var vp, q, vq := ValidPrices(pre), Quote(b[i]), ValidPrices(post);
    assert ValidPrices(b) == (vp + q) + vq;
    ValidPricesAppend(pre, post);
    assert ValidPrices(pre + post) == vp + vq;
    assert multiset((vp + q) + vq) == multiset(vp) + multiset(q) + multiset(vq);
  }

  /** A list is its part before `i`, its element at `i` and the rest. */
  lemma Decompose(b: seq<Reading>, i: int)
    requires 0 <= i < |b|
    ensures b == (b[..i] + [b[i]]) + b[i + 1..]
  {
  }

  /** A single reading contributes its quote. */
  lemma ValidPricesSingle(r: Reading)
    ensures ValidPrices([r]) == Quote(r)
  {
    ValidPricesCons([r]);
    assert [r][1..] == [];
  }

  /** The aggregated price does not depend on the order of the sources. */
  lemma GetPricePermutationInvariant(a: seq<Reading>, b: seq<Reading>)
    requires multiset(a) == multiset(b)
    ensures GetPrice(a) == GetPrice(b)
  {
    ValidPricesPermutation(a, b);
    var pa, pb := ValidPrices(a), ValidPrices(b);
    if |pa| > 0 {
      Stats.MedianPermutationInvariant(pa, pb);
    } else {
      assert |multiset(pb)| == 0;
    }
  }

  /** A failing, empty or non-positive answer is skipped: dropping that
      source leaves the aggregated price unchanged. */
  lemma UnusableSourceIgnored(rs: seq<Reading>, i: int)
    requires 0 <= i < |rs|
    requires !Usable(rs[i].fetch)
    ensures GetPrice(rs[..i] + rs[i + 1..]) == GetPrice(rs)
  {
    UnusableSourceSkipped(rs, i);
  }

  lemma UnusableSourceSkipped(rs: seq<Reading>, i: int)
    requires 0 <= i < |rs|
    requires !Usable(rs[i].fetch)
    ensures ValidPrices(rs[..i] + rs[i + 1..]) == ValidPrices(rs)
  {
    var a, c := rs[..i], rs[i + 1..];
    assert rs[..i + 1] == a + [rs[i]];
    assert rs == rs[..i + 1] + c;
    ValidPricesAppend(rs[..i + 1], c);
    assert ValidPrices(rs) == ValidPrices(rs[..i + 1]) + ValidPrices(c);
    ValidPricesAppend(a, [rs[i]]);
    assert ValidPrices([rs[i]]) == [];
    assert ValidPrices(rs[..i + 1]) == ValidPrices(a);
    ValidPricesAppend(a, c);
  }

  /** With exactly one usable quote, that quote is the aggregated price. */
  lemma SingleUsableSource(rs: seq<Reading>, i: int)
    requires 0 <= i < |rs| && Usable(rs[i].fetch)
    requires forall j :: 0 <= j < |rs| && j != i ==> !Usable(rs[j].fetch)
    ensures GetPrice(rs) == rs[i].fetch.price
  {
    assert rs == rs[..i] + [rs[i]] + rs[i + 1..];
    ValidPricesAppend(rs[..i] + [rs[i]], rs[i + 1..]);
    ValidPricesAppend(rs[..i], [rs[i]]);
    NoneUsable(rs[..i]);
    NoneUsable(rs[i + 1..]);
    assert ValidPrices(rs) == [rs[i].fetch.price.value];
    Stats.MedianOfSingleton(rs[i].fetch.price.value);
  }

  lemma NoneUsable(rs: seq<Reading>)
    requires forall j :: 0 <= j < |rs| ==> !Usable(rs[j].fetch)
    ensures ValidPrices(rs) == []
  {
  }

  // ---------------------------------------------------------------------
  // Per-source price map
  // ---------------------------------------------------------------------

  /** A Python dict from source name to quote, in insertion order. */
  type PriceMap = seq<(string, Option<real>)>

  function KeySet(d: PriceMap): set<string> {
    set e | e in d :: e.0
  }

  predicate UniqueKeys(d: PriceMap) {
    forall i, j :: 0 <= i < j < |d| ==> d[i].0 != d[j].0
  }

  /** `d[k] = v`: overwrites the entry for `k` in place, or appends one. */
  function Put(d: PriceMap, k: string, v: Option<real>): (r: PriceMap)
    requires UniqueKeys(d)
    ensures UniqueKeys(r)
    ensures (k, v) in r
    ensures forall e :: e in r ==> e == (k, v) || (e in d && e.0 != k)
    ensures forall e :: e in d && e.0 != k ==> e in r
    ensures KeySet(r) == KeySet(d) + {k}
  {
    if |d| == 0 then [(k, v)]
    else if d[0].0 == k then
      assert forall e :: e in d[1..] ==> e.0 != k by {
        forall e | e in d[1..] ensures e.0 != k {
          var j :| 0 <= j < |d[1..]| && d[1..][j] == e;
          assert d[j + 1] == e;
        }
      }
      assert d == [d[0]] + d[1..];
      [(k, v)] + d[1..]
    else
      var tail := Put(d[1..], k, v);
      assert d == [d[0]] + d[1..];
      assert forall e :: e in tail ==> e.0 != d[0].0 by {
        forall e | e in tail ensures e.0 != d[0].0 {
          if e != (k, v) {
            var j :| 0 <= j < |d[1..]| && d[1..][j] == e;
            assert d[j + 1] == e;
          }
        }
      }
      [d[0]] + tail
  }

  /** What `get_all_prices` stores for one answer: a raise becomes `None`,
      anything returned is stored as it is. */
  function Stored(f: Fetch): (v: Option<real>)
    ensures f.Raised? ==> v.None?
    ensures f.Returned? ==> v == f.price
    ensures (v.Some? && v.value > 0.0) <==> Usable(f)
  {
    match f
    case Raised => None
    case Returned(p) => p
  }

  function SourceNames(rs: seq<Reading>): set<string> {
    set r | r in rs :: r.source
  }

  /** Reading `k` is the last one from `source`, and it stored `v`. */
  predicate LastAt(rs: seq<Reading>, k: int, source: string, v: Option<real>)
    requires 0 <= k < |rs|
  {
    && rs[k].source == source
    && Stored(rs[k].fetch) == v
    && forall i :: k < i < |rs| ==> rs[i].source != source
  }

  predicate LastAnswer(rs: seq<Reading>, source: string, v: Option<real>) {
    exists k :: 0 <= k < |rs| && LastAt(rs, k, source, v)
  }

  /** `get_all_prices`: one entry per source name, holding the answer of the
      last source with that name. */
  function GetAllPrices(rs: seq<Reading>): (d: PriceMap)
    ensures UniqueKeys(d)
    ensures KeySet(d) == SourceNames(rs)
    ensures forall e :: e in d ==> LastAnswer(rs, e.0, e.1)
  {
    if |rs| == 0 then []
    else
      var n := |rs| - 1;
      var d' := GetAllPrices(rs[..n]);
      var r := Put(d', rs[n].source, Stored(rs[n].fetch));
      SourceNamesSnoc(rs);
      LastAnswersExtend(rs, d', r);
      r
  }

  lemma SourceNamesSnoc(rs: seq<Reading>)
    requires |rs| > 0
    ensures SourceNames(rs) == SourceNames(rs[..|rs| - 1]) + {rs[|rs| - 1].source}
  {
    var n := |rs| - 1;
    forall name | name in SourceNames(rs)
      ensures name in SourceNames(rs[..n]) + {rs[n].source}
    {
      var r :| r in rs && r.source == name;
      var k :| 0 <= k < |rs| && rs[k] == r;
      if k < n {
        assert rs[..n][k] == r;
      }
    }
    forall name | name in SourceNames(rs[..n]) + {rs[n].source}
      ensures name in SourceNames(rs)
    {
      if name != rs[n].source {
        var r :| r in rs[..n] && r.source == name;
        var k :| 0 <= k < n && rs[..n][k] == r;
        assert rs[k] == r;
      } else {
        assert rs[n] in rs;
      }
    }
  }

  lemma LastAnswersExtend(rs: seq<Reading>, d': PriceMap, r: PriceMap)
    requires |rs| > 0
    requires forall e :: e in d' ==> LastAnswer(rs[..|rs| - 1], e.0, e.1)
    requires forall e :: e in r ==> e == (rs[|rs| - 1].source, Stored(rs[|rs| - 1].fetch)) || (e in d' && e.0 != rs[|rs| - 1].source)
    ensures forall e :: e in r ==> LastAnswer(rs, e.0, e.1)
  {
    var n := |rs| - 1;
    forall e | e in r
      ensures LastAnswer(rs, e.0, e.1)
    {
      if e == (rs[n].source, Stored(rs[n].fetch)) {
        assert LastAt(rs, n, e.0, e.1);
      } else {
        var k :| 0 <= k < n && LastAt(rs[..n], k, e.0, e.1);
        assert LastAt(rs, k, e.0, e.1);
      }
    }
  }

  /** The map `get_all_prices` would build without any repeated name: every
      source's stored answer, in source order. */
  function Answers(rs: seq<Reading>): (d: PriceMap)
    ensures |d| == |rs|
    ensures forall i :: 0 <= i < |rs| ==> d[i] == (rs[i].source, Stored(rs[i].fetch))
  {
    if |rs| == 0 then [] else Answers(rs[..|rs| - 1]) + [(rs[|rs| - 1].source, Stored(rs[|rs| - 1].fetch))]
  }

  /** With distinct source names, as the constructor builds them, the map
      holds every answer, in source order. */
  lemma {:induction false} AllPricesOfDistinctSources(rs: seq<Reading>)
    requires forall i, j :: 0 <= i < j < |rs| ==> rs[i].source != rs[j].source
    ensures GetAllPrices(rs) == Answers(rs)
  {
    if |rs| > 0 {
      var n := |rs| - 1;
      AllPricesOfDistinctSources(rs[..n]);
      PutFresh(GetAllPrices(rs[..n]), rs[n].source, Stored(rs[n].fetch));
    }
  }

  /** Putting a new key appends it. */
  lemma {:induction false} PutFresh(d: PriceMap, k: string, v: Option<real>)
    requires UniqueKeys(d)
    requires forall i :: 0 <= i < |d| ==> d[i].0 != k
    ensures Put(d, k, v) == d + [(k, v)]
  {
    if |d| > 0 {
      PutFresh(d[1..], k, v);
      assert d == [d[0]] + d[1..];
    }
  }

  // ---------------------------------------------------------------------
  // Cross-exchange arbitrage
  // ---------------------------------------------------------------------

  predicate PositiveEntry(e: (string, Option<real>)) {
    e.1.Some? && e.1.value > 0.0
  }

  /** `{k: v for k, v in prices.items() if v is not None and v > 0}`. */
  function ValidEntries(d: PriceMap): (e: seq<(string, real)>)
    ensures |e| <= |d|
    ensures forall i :: 0 <= i < |e| ==> e[i].1 > 0.0
    ensures forall x :: x in e ==> x.1 > 0.0 && (x.0, Some(x.1)) in d
    ensures forall y :: y in d && PositiveEntry(y) ==> (y.0, y.1.value) in e
  {
    if |d| == 0 then []
    else
      var rest := ValidEntries(d[1..]);
      assert d == [d[0]] + d[1..];
      (if PositiveEntry(d[0]) then [(d[0].0, d[0].1.value)] else []) + rest
  }

  /** The number of entries holding a present, positive price. */
  function CountPositive(d: PriceMap): (n: nat)
    ensures n <= |d|
  {
    if |d| == 0 then 0 else (if PositiveEntry(d[0]) then 1 else 0) + CountPositive(d[1..])
  }

  lemma {:induction false} ValidEntriesCount(d: PriceMap)
    ensures |ValidEntries(d)| == CountPositive(d)
  {
    if |d| > 0 {
      ValidEntriesCount(d[1..]);
    }
  }

  lemma {:induction false} CountAtMostOne(d: PriceMap)
    requires forall i, j :: 0 <= i < |d| && 0 <= j < |d| && PositiveEntry(d[i]) && PositiveEntry(d[j]) ==> i == j
    ensures CountPositive(d) <= 1
  {
    if |d| > 0 {
      assert forall j :: 0 <= j < |d[1..]| ==> d[1..][j] == d[j + 1];
      CountAtMostOne(d[1..]);
      if PositiveEntry(d[0]) {
        CountNone(d[1..]);
      }
    }
  }

  lemma {:induction false} CountNone(d: PriceMap)
    requires forall j :: 0 <= j < |d| ==> !PositiveEntry(d[j])
    ensures CountPositive(d) == 0
  {
    if |d| > 0 {
      assert forall j :: 0 <= j < |d[1..]| ==> d[1..][j] == d[j + 1];
      CountNone(d[1..]);
    }
  }

  /** `min(d, key=d.get)`: the first entry holding the smallest price. */
  function ArgMin(e: seq<(string, real)>): (k: nat)
    requires |e| > 0
    ensures k < |e|
    ensures forall i :: 0 <= i < |e| ==> e[k].1 <= e[i].1
    ensures forall i :: 0 <= i < k ==> e[k].1 < e[i].1
  {
    if |e| == 1 then 0
    else
      var k := ArgMin(e[..|e| - 1]);
      if e[|e| - 1].1 < e[k].1 then |e| - 1 else k
  }

  /** `max(d, key=d.get)`: the first entry holding the largest price. */
  function ArgMax(e: seq<(string, real)>): (k: nat)
    requires |e| > 0
    ensures k < |e|
    ensures forall i :: 0 <= i < |e| ==> e[i].1 <= e[k].1
    ensures forall i :: 0 <= i < k ==> e[i].1 < e[k].1
  {
    if |e| == 1 then 0
    else
      var k := ArgMax(e[..|e| - 1]);
      if e[|e| - 1].1 > e[k].1 then |e| - 1 else k
  }

  datatype Opportunity = Opportunity(
    buyExchange: string,
    buyPrice: real,
    sellExchange: string,
    sellPrice: real,
    spreadUsd: real,
    spreadPercent: real)

  /** The default threshold of `detect_cross_exchange_arbitrage`, also the
      value the monitor passes. */
  const DefaultMinSpreadPercent: real := 5.0

  /** The usable entries of a fresh `get_all_prices` poll. */
  function ValidQuotes(rs: seq<Reading>): seq<(string, real)> {
    ValidEntries(GetAllPrices(rs))
  }

  /** The opportunity over the usable entries of one poll, in dict order:
      buy at the first cheapest entry, sell at the first dearest, reported
      only with two or more entries and a spread reaching the threshold. */
  function OpportunityFrom(e: seq<(string, real)>, minSpreadPercent: real): (r: Option<Opportunity>)
    requires forall i :: 0 <= i < |e| ==> e[i].1 > 0.0
    ensures |e| < 2 ==> r.None?
    ensures r.Some? ==>
              && (exists k :: 0 <= k < |e| && e[k] == (r.value.buyExchange, r.value.buyPrice)
                                && forall i :: 0 <= i < k ==> e[i].1 > e[k].1)
              && (exists k :: 0 <= k < |e| && e[k] == (r.value.sellExchange, r.value.sellPrice)
                                && forall i :: 0 <= i < k ==> e[i].1 < e[k].1)
              && (forall i :: 0 <= i < |e| ==> r.value.buyPrice <= e[i].1 <= r.value.sellPrice)
              && r.value.buyPrice > 0.0
              && r.value.spreadUsd == r.value.sellPrice - r.value.buyPrice >= 0.0
              && r.value.spreadPercent == r.value.spreadUsd / r.value.buyPrice * 100.0
              && r.value.spreadPercent >= minSpreadPercent
    ensures |e| >= 2 && r.None? ==>
              forall i, j :: 0 <= i < |e| && 0 <= j < |e| ==> RelativeSpread(e[i].1, e[j].1) < minSpreadPercent
  {
    if |e| < 2 then None
    else
      var lo := e[ArgMin(e)];
      var hi := e[ArgMax(e)];
      var spreadUsd := hi.1 - lo.1;
      var spreadPercent := spreadUsd / lo.1 * 100.0;
      if spreadPercent >= minSpreadPercent then
        Some(Opportunity(lo.0, lo.1, hi.0, hi.1, spreadUsd, spreadPercent))
      else
        SpreadIsWidest(e);
        None
  }

  /** No pair of entries is further apart, relative to the cheaper one, than
      the cheapest and the dearest. */
  lemma SpreadIsWidest(e: seq<(string, real)>)
    requires |e| > 0
    requires forall i :: 0 <= i < |e| ==> e[i].1 > 0.0
    ensures forall i, j :: 0 <= i < |e| && 0 <= j < |e| ==>
              RelativeSpread(e[i].1, e[j].1) <= RelativeSpread(e[ArgMin(e)].1, e[ArgMax(e)].1)
  {
    var lo, hi := e[ArgMin(e)].1, e[ArgMax(e)].1;
    forall i, j | 0 <= i < |e| && 0 <= j < |e|
      ensures RelativeSpread(e[i].1, e[j].1) <= RelativeSpread(lo, hi)
    {
      RelativeSpreadBound(e[i].1, e[j].1, lo, hi);
    }
  }

  /** Percentage by which `sell` exceeds `buy`. */
  function RelativeSpread(buy: real, sell: real): real
    requires buy > 0.0
  {
    (sell - buy) / buy * 100.0
  }

  /** The relative spread from `a` up to `b` is at most the one from `lo` up
      to `hi` when `lo <= a` and `b <= hi`. */
  lemma RelativeSpreadBound(a: real, b: real, lo: real, hi: real)
    requires 0.0 < lo <= a && b <= hi && 0.0 < hi
    ensures RelativeSpread(a, b) <= RelativeSpread(lo, hi)
  {
    SubtractOneDivided(b, a);
    SubtractOneDivided(hi, lo);
    DivideSmallerNumerator(b, hi, a);
    DivideLargerDenominator(hi, lo, a);
  }

  lemma SubtractOneDivided(x: real, a: real)
    requires a > 0.0
    ensures (x - a) / a == x / a - 1.0
  {
    assert a / a == 1.0;
    assert (x - a) / a == x / a - a / a;
  }

  lemma DivideSmallerNumerator(b: real, h: real, a: real)
    requires 0.0 < a && b <= h
    ensures b / a <= h / a
  {
  }

  lemma DivideLargerDenominator(h: real, l: real, a: real)
    requires 0.0 < h && 0.0 < l <= a
    ensures h / a <= h / l
  {
    assert h / a * a == h;
    assert h / l * l == h;
    assert h / a * l <= h / a * a;
  }

  /** `detect_cross_exchange_arbitrage` over a fresh `get_all_prices` poll. */
  function DetectCrossExchangeArbitrage(rs: seq<Reading>, minSpreadPercent: real): (r: Option<Opportunity>)
    ensures |ValidQuotes(rs)| < 2 ==> r.None?
  {
    var e := ValidQuotes(rs);
    OpportunityFrom(e, minSpreadPercent)
  }

  /** A single usable quote never yields an opportunity, however far it is
      from the others' (failed) answers. */
  lemma LoneQuoteNoOpportunity(rs: seq<Reading>, minSpreadPercent: real)
    requires forall i, j :: 0 <= i < j < |rs| ==> rs[i].source != rs[j].source
    requires forall i, j :: 0 <= i < |rs| && 0 <= j < |rs| && Usable(rs[i].fetch) && Usable(rs[j].fetch) ==> i == j
    ensures DetectCrossExchangeArbitrage(rs, minSpreadPercent).None?
  {
    AllPricesOfDistinctSources(rs);
    var d := GetAllPrices(rs);
    ValidEntriesCount(d);
    CountAtMostOne(d);
  }
}
