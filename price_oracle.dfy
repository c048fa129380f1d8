/** The DASH/USD price oracle: three independent sources (CoinGecko,
    Coinbase, Binance) are queried, unusable readings are dropped, and the
    reading at index floor(n/2) of the ascending survivors (the median) is the
    price. Each source's HTTP reply is an input, already decoded to a number
    where the source sends one. */
module PriceOracle {
  import opened Common

  /** What one source gave: the request threw, or it answered and the price
      field was present (Some) or missing (None). */
  datatype SourceReply = Unreachable(message: string) | Answered(price: Option<real>)

  datatype Readings = Readings(coinGecko: SourceReply, coinbase: SourceReply, binance: SourceReply)

  /** A fiat amount converted to DASH at the oracle price. */
  datatype Quote = Quote(usd: real, dash: real, dashPriceUsd: real)

  const ALL_SOURCES_FAILED := "Failed to fetch DASH price from all sources"

  /** CoinGecko's number is kept when truthy: present and non-zero. */
  predicate GeckoUsable(r: SourceReply) {
    r.Answered? && r.price.Some? && r.price.value != 0.0
  }

  /** Coinbase's and Binance's parsed numbers are kept when positive. */
  predicate ParsedUsable(r: SourceReply) {
    r.Answered? && r.price.Some? && r.price.value > 0.0
  }

  /** The readings that survive the filters, in query order. */
  function Survivors(rs: Readings): (s: seq<real>)
    ensures |s| <= 3
    ensures forall i :: 0 <= i < |s| ==> s[i] != 0.0
  {
    (if GeckoUsable(rs.coinGecko) then [rs.coinGecko.price.value] else [])
    + (if ParsedUsable(rs.coinbase) then [rs.coinbase.price.value] else [])
    + (if ParsedUsable(rs.binance) then [rs.binance.price.value] else [])
  }

  datatype Source = CoinGecko | Coinbase | Binance

  /** The entry logged for a source whose request threw. */
  datatype SourceFailure = SourceFailure(source: Source, message: string) {
    /** The logged text, `<source> failed: <message>`. */
    function Note(): string {
      (match source
       case CoinGecko => "CoinGecko"
       case Coinbase => "Coinbase"
       case Binance => "Binance") + " failed: " + message
    }
  }

  function SourceError(source: Source, r: SourceReply): seq<SourceFailure> {
    if r.Unreachable? then [SourceFailure(source, r.message)] else []
  }

  // ---------------------------------------------------------------------
  // Ascending order and the median

  predicate Sorted(s: seq<real>) {
    forall i, j :: 0 <= i < j < |s| ==> s[i] <= s[j]
  }

  function Insert(x: real, s: seq<real>): (r: seq<real>)
    ensures |r| == |s| + 1
    ensures multiset(r) == multiset(s) + multiset{x}
  {
    if s == [] || x <= s[0] then [x] + s
    else
      assert s == [s[0]] + s[1..];
      [s[0]] + Insert(x, s[1..])
  }

  lemma {:induction false} InsertSorted(x: real, s: seq<real>)
    requires Sorted(s)
    ensures Sorted(Insert(x, s))
    decreases |s|
  {
    if s != [] && x > s[0] {
      var t := Insert(x, s[1..]);
      InsertSorted(x, s[1..]);
      forall k | 0 <= k < |t|
        ensures s[0] <= t[k]
      {
        assert t[k] in multiset(t);
        if t[k] != x {
          assert t[k] in multiset(s[1..]);
          var j :| 0 <= j < |s[1..]| && s[1..][j] == t[k];
          assert s[0] <= s[j + 1];
        }
      }
      assert Insert(x, s) == [s[0]] + t;
    }
  }

  /** `prices.sort((a, b) => a - b)` */
  function SortAscending(s: seq<real>): (r: seq<real>)
    ensures |r| == |s|
    ensures multiset(r) == multiset(s)
    ensures Sorted(r)
  {
    if s == [] then []
    else
      assert s == [s[0]] + s[1..];
      InsertSorted(s[0], SortAscending(s[1..]));
      Insert(s[0], SortAscending(s[1..]))
  }

  /** The element at index floor(n/2) of the sorted readings. */
  function Median(s: seq<real>): (m: real)
    requires |s| > 0
    ensures m in s
  {
    var t := SortAscending(s);
    assert t[|s| / 2] in multiset(t);
    t[|s| / 2]
  }

  /** How many elements of s satisfy keep. */
  function Count(s: seq<real>, keep: real -> bool): (n: nat)
    ensures n <= |s|
  {
    if s == [] then 0 else (if keep(s[0]) then 1 else 0) + Count(s[1..], keep)
  }

  function CountBelow(s: seq<real>, m: real): nat {
    Count(s, y => y < m)
  }

  function CountAbove(s: seq<real>, m: real): nat {
    Count(s, y => y > m)
  }

  lemma {:induction false} CountAppend(a: seq<real>, b: seq<real>, keep: real -> bool)
    ensures Count(a + b, keep) == Count(a, keep) + Count(b, keep)
    decreases |a|
  {
    if a == [] {
      assert a + b == b;
    } else {
      var ab := a + b;
      assert ab[0] == a[0];
      assert ab[1..] == a[1..] + b;
      CountAppend(a[1..], b, keep);
      calc {
        Count(ab, keep);
        (if keep(a[0]) then 1 else 0) + Count(a[1..] + b, keep);
        (if keep(a[0]) then 1 else 0) + Count(a[1..], keep) + Count(b, keep);
        Count(a, keep) + Count(b, keep);
      }
    }
  }

  lemma {:induction false} CountNone(s: seq<real>, keep: real -> bool)
    requires forall i :: 0 <= i < |s| ==> !keep(s[i])
    ensures Count(s, keep) == 0
    decreases |s|
  {
    if s != [] {
      CountNone(s[1..], keep);
    }
  }

  lemma {:induction false} CountInsert(x: real, s: seq<real>, keep: real -> bool)
    ensures Count(Insert(x, s), keep) == Count(s, keep) + (if keep(x) then 1 else 0)
    decreases |s|
  {
    if s != [] && x > s[0] {
      var r := Insert(x, s);
      assert r[1..] == Insert(x, s[1..]);
      CountInsert(x, s[1..], keep);
    }
  }

  /** Sorting does not change how many readings satisfy a condition. */
  lemma {:induction false} CountSorted(s: seq<real>, keep: real -> bool)
    ensures Count(SortAscending(s), keep) == Count(s, keep)
    decreases |s|
  {
    if s != [] {
      CountSorted(s[1..], keep);
      CountInsert(s[0], SortAscending(s[1..]), keep);
    }
  }

  /** In ascending order, at most k elements lie below t[k] and at most
      |t| - 1 - k above it. */
  lemma SortedRank(t: seq<real>, k: nat)
    requires Sorted(t) && k < |t|
    ensures CountBelow(t, t[k]) <= k
    ensures CountAbove(t, t[k]) <= |t| - 1 - k
  {
    var m := t[k];
    assert t == t[..k] + t[k..];
    CountAppend(t[..k], t[k..], y => y < m);
    CountNone(t[k..], y => y < m);
    assert t == t[..k + 1] + t[k + 1..];
    CountAppend(t[..k + 1], t[k + 1..], y => y > m);
    CountNone(t[..k + 1], y => y > m);
  }

  /** The median is one of the readings, at most floor(n/2) readings lie
      below it and at most n - 1 - floor(n/2) above it: it is the middle
      reading for odd n and the upper middle for even n. */
  lemma MedianRank(s: seq<real>)
    requires |s| > 0
    ensures Median(s) in multiset(s)
    ensures CountBelow(s, Median(s)) <= |s| / 2
    ensures CountAbove(s, Median(s)) <= |s| - 1 - |s| / 2
  {
    var t := SortAscending(s);
    assert t[|s| / 2] in multiset(t);
    SortedRank(t, |s| / 2);
    CountSorted(s, y => y < t[|s| / 2]);
    CountSorted(s, y => y > t[|s| / 2]);
  }

  /** Every element of a sorted sequence lies between its first and last. */
  lemma SortedBounds(t: seq<real>, x: real)
    requires Sorted(t) && x in t
    ensures t[0] <= x <= t[|t| - 1]
  {
    var p :| 0 <= p < |t| && t[p] == x;
    assert t[0] <= t[p] && t[p] <= t[|t| - 1];
  }

  /** s[i] is a least reading and s[j] a greatest one. */
  predicate Extremes(s: seq<real>, i: int, j: int) {
    0 <= i < |s| && 0 <= j < |s| && forall k :: 0 <= k < |s| ==> s[i] <= s[k] <= s[j]
  }

  /** The price lies between the smallest and the largest reading. */
  lemma MedianBetweenExtremes(s: seq<real>)
    requires |s| > 0
    ensures exists i, j :: Extremes(s, i, j) && s[i] <= Median(s) <= s[j]
  {
    var t := SortAscending(s);
    var n := |s|;
    var lo, hi := t[0], t[n - 1];
    assert lo in multiset(t) && hi in multiset(t);
    assert lo in s && hi in s;
    var i :| 0 <= i < n && s[i] == lo;
    var j :| 0 <= j < n && s[j] == hi;
    forall k | 0 <= k < n
      ensures lo <= s[k] <= hi
    {
      assert s[k] in multiset(s);
      SortedBounds(t, s[k]);
    }
    SortedBounds(t, t[n / 2]);
    assert Median(s) == t[n / 2];
    assert Extremes(s, i, j) && s[i] <= Median(s) <= s[j];
  }

  /** With three readings, whichever one is an outlier, the median stays
      within the range of the other two. */
  lemma OutlierResistance(a: real, b: real, c: real)
    ensures var m := Median([a, b, c]);
      (b <= m <= c || c <= m <= b)
    ensures var m := Median([a, b, c]);
      (a <= m <= c || c <= m <= a)
    ensures var m := Median([a, b, c]);
      (a <= m <= b || b <= m <= a)
  {
    var m := Median([a, b, c]);
    MedianRank([a, b, c]);
    CountThree(a, b, c, m);
  }

  lemma CountThree(a: real, b: real, c: real, m: real)
    ensures CountBelow([a, b, c], m)
         == (if a < m then 1 else 0) + (if b < m then 1 else 0) + (if c < m then 1 else 0)
    ensures CountAbove([a, b, c], m)
         == (if a > m then 1 else 0) + (if b > m then 1 else 0) + (if c > m then 1 else 0)
  {
    var s := [a, b, c];
    assert s[1..] == [b, c] && s[1..][1..] == [c] && s[1..][1..][1..] == [];
    assert Count([c], y => y < m) == (if c < m then 1 else 0);
    assert Count([b, c], y => y < m) == (if b < m then 1 else 0) + Count([c], y => y < m);
    assert Count([c], y => y > m) == (if c > m then 1 else 0);
    assert Count([b, c], y => y > m) == (if b > m then 1 else 0) + Count([c], y => y > m);
  }

  lemma OutlierExample()
    ensures Median([10.0, 11.0, 100.0]) == 11.0
  {
    OutlierResistance(100.0, 10.0, 11.0);
    OutlierResistance(10.0, 11.0, 100.0);
    MedianRank([10.0, 11.0, 100.0]);
  }

  /** Of two readings the upper one is taken; of one, that one. */
  lemma SmallMedians(a: real, b: real)
    ensures Median([a]) == a
    ensures Median([a, b]) == (if a <= b then b else a)
  {
  }

  // ---------------------------------------------------------------------
  // The oracle

  /** The three guarded requests of `getDashPriceUSD()`, in order: a usable
      reading is pushed onto the prices, a request that threw is logged. */
  method QuerySources(rs: Readings) returns (prices: seq<real>, errors: seq<SourceFailure>)
    ensures prices == Survivors(rs)
    ensures errors == SourceError(CoinGecko, rs.coinGecko) + SourceError(Coinbase, rs.coinbase)
                      + SourceError(Binance, rs.binance)
  {
    prices := [];
    errors := [];
    if rs.coinGecko.Unreachable? {
      errors := errors + [SourceFailure(CoinGecko, rs.coinGecko.message)];
    } else if GeckoUsable(rs.coinGecko) {
      prices := prices + [rs.coinGecko.price.value];
    }
    if rs.coinbase.Unreachable? {
      errors := errors + [SourceFailure(Coinbase, rs.coinbase.message)];
    } else if ParsedUsable(rs.coinbase) {
      prices := prices + [rs.coinbase.price.value];
    }
    if rs.binance.Unreachable? {
      errors := errors + [SourceFailure(Binance, rs.binance.message)];
    } else if ParsedUsable(rs.binance) {
      prices := prices + [rs.binance.price.value];
    }
  }

  /** `getDashPriceUSD()`: with no usable reading, throw; otherwise sort the
      readings ascending and take the one at index floor(n/2). */
  method GetDashPriceUSD(rs: Readings) returns (price: Result<real>, errors: seq<SourceFailure>)
    ensures price.Failure? <==> Survivors(rs) == []
    ensures price.Failure? ==> price.error == ALL_SOURCES_FAILED
    ensures price.Success? ==> price.value == Median(Survivors(rs))
    ensures price.Success? ==> price.value != 0.0 && price.value in Survivors(rs)
    ensures errors == SourceError(CoinGecko, rs.coinGecko) + SourceError(Coinbase, rs.coinbase)
                      + SourceError(Binance, rs.binance)
  {
    var prices;
    prices, errors := QuerySources(rs);
    if |prices| == 0 {
      price := Failure(ALL_SOURCES_FAILED);
      return;
    }
    var sorted := SortAscending(prices);
    price := Success(sorted[|sorted| / 2]);
    MedianRank(prices);
  }

  // ---------------------------------------------------------------------
  // Quoting

  function Pow10(d: nat): (p: nat)
    ensures p >= 1
  {
    if d == 0 then 1 else 10 * Pow10(d - 1)
  }

  /** A real rounded to the nearest integer, halves away from zero. */
  function RoundHalfAway(y: real): (n: int)
    ensures -0.5 <= n as real - y <= 0.5
  {
    if y < 0.0 then -((-y + 0.5).Floor) else (y + 0.5).Floor
  }

  /** `x.toFixed(d)` read back as a number: the nearest multiple of 10^-d,
      halves rounded away from zero. */
  function Round(x: real, d: nat): real {
    ToMultiple(x, Pow10(d) as real)
  }

  /** x rounded to the nearest multiple of 1/p. */
  function ToMultiple(x: real, p: real): real
    requires p > 0.0
  {
    (RoundHalfAway(x * p) as real) / p
  }

  lemma DivMul(f: real, p: real)
    requires p != 0.0
    ensures (f / p) * p == f
  {
  }

  lemma SubMul(r: real, x: real, p: real)
    ensures (r - x) * p == r * p - x * p
  {
  }

  lemma AbsProduct(a: real, b: real)
    ensures Abs(a * b) == Abs(a) * Abs(b)
  {
    if a < 0.0 {
      if b < 0.0 { assert a * b > 0.0; } else { assert a * b <= 0.0; }
    } else {
      if b < 0.0 { assert a * b <= 0.0; } else { assert a * b >= 0.0; }
    }
  }

  lemma ToMultipleError(x: real, p: real)
    requires p > 0.0
    ensures Abs(ToMultiple(x, p) - x) * p <= 0.5
  {
    var n := RoundHalfAway(x * p);
    var r := ToMultiple(x, p);
    assert r == (n as real) / p;
    DivMul(n as real, p);
    SubMul(r, x, p);
    AbsProduct(r - x, p);
  }

  /** Rounding to d decimals moves a value by at most half a unit in the
      last place: |Round(x, d) - x| * 10^d <= 1/2. */
  lemma RoundError(x: real, d: nat)
    ensures Abs(Round(x, d) - x) * Pow10(d) as real <= 0.5
  {
    ToMultipleError(x, Pow10(d) as real);
  }

  function Abs(x: real): real {
    if x < 0.0 then -x else x
  }

  /** The quote for a USD amount at a given price: the amount is rounded to
      8 decimals from the unrounded price, the price itself to 2 decimals. */
  function QuoteAt(usd: real, price: real): Quote
    requires price != 0.0
  {
    Quote(usd, Round(usd / price, 8), Round(price, 2))
  }

  /** `calculateDashAmount(usdAmount)`: ask the oracle afresh and quote at
      its price; an oracle failure rejects the quote. */
  method CalculateDashAmount(usd: real, rs: Readings) returns (q: Result<Quote>)
    ensures q.Failure? <==> Survivors(rs) == []
    ensures q.Failure? ==> q.error == ALL_SOURCES_FAILED
    ensures q.Success? ==> Survivors(rs) != [] && q.value == QuoteAt(usd, Median(Survivors(rs)))
  {
    var price, _ := GetDashPriceUSD(rs);
    if price.Failure? {
      q := Failure(price.error);
      return;
    }
    var dashAmount := usd / price.value;
    q := Success(Quote(usd, Round(dashAmount, 8), Round(price.value, 2)));
  }

  /** The quoted DASH amount pays the USD amount at the oracle price up to
      half a unit of the eighth decimal: |dash * price - usd| <= |price| / 2e8. */
  lemma QuoteAccuracy(usd: real, price: real)
    requires price != 0.0
    ensures Abs(Round(usd / price, 8) * price - usd) <= Abs(price) / 200000000.0
  {
    var x := usd / price;
    RoundError(x, 8);
    assert Pow10(8) == 100000000;
    ScaledError(Round(x, 8), x, usd, price);
  }

  /** An error of at most 5e-9 in the DASH amount is an error of at most
      |price| * 5e-9 in what it pays. */
  lemma ScaledError(r: real, x: real, usd: real, price: real)
    requires price != 0.0 && x == usd / price
    requires Abs(r - x) * 100000000.0 <= 0.5
    ensures Abs(r * price - usd) <= Abs(price) / 200000000.0
  {
    var e := Abs(r - x);
    var a := Abs(price);
    assert e <= 0.000000005;
    DivMul(usd, price);
    SubMul(r, x, price);
    assert r * price - usd == (r - x) * price;
    AbsProduct(r - x, price);
    MultiplyBound(e, 0.000000005, a);
    assert Abs(r * price - usd) == e * a;
  }

  lemma MultiplyBound(a: real, b: real, c: real)
    requires a <= b && c >= 0.0
    ensures a * c <= b * c
  {
    assert (b - a) * c >= 0.0;
  }
}
