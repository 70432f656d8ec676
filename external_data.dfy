/**
 * The deterministic parts of the market-data gatherers
 * (`external_data.py`): NYMEX futures tickers, the weighted strip averages
 * of a futures curve, the data-date normalisation of the cache, the choice
 * of the next and last earnings dates, the transcript quarter, and the
 * parser for scraped estimate cells.
 */
module ExternalData {
  import opened Wrappers
  import opened PyNum
  import opened Text
  import opened Numerals
  import opened Calendar
  import opened Sorting
  import Synthesis

  // ---------------------------------------------------------------------
  // NYMEX tickers

  /** The futures month codes, January to December. */
  const MonthCodes: string := "FGHJKMNQUVXZ"

  function MonthCode(m: int): char
    requires 1 <= m <= 12
  {
    MonthCodes[m - 1]
  }

  lemma MonthCodeInjective(m1: int, m2: int)
    requires 1 <= m1 <= 12 && 1 <= m2 <= 12 && MonthCode(m1) == MonthCode(m2)
    ensures m1 == m2
  {
  }

  /**
   * The (year, month) `n` months after (year, month): the month stays in
   * 1..12 and the month count advances by exactly `n`.
   */
  function TargetMonth(year: int, month: int, n: int): (r: (int, int))
    requires 1 <= month <= 12
    ensures 1 <= r.1 <= 12
    ensures r.0 * 12 + r.1 == year * 12 + month + n
  {
    var t := month + n;
    (year + (t - 1) / 12, (t - 1) % 12 + 1)
  }

  /** `str(year)[-2:]`. */
  function YearSuffix(year: int): string
  {
    var s := IntToString(year);
    if |s| >= 2 then s[|s| - 2..] else s
  }

  /** `get_nymex_ticker`: "NG", the month code, the two-digit year and ".NYM". */
  function NymexTicker(now: Date, monthsOut: int): string
    requires 1 <= now.month <= 12
  {
    var t := TargetMonth(now.year, now.month, monthsOut);
    "NG" + [MonthCode(t.1)] + YearSuffix(t.0) + ".NYM"
  }

  /** The last two digits of a number of at least two digits. */
  lemma {:induction false} LastTwoDigits(n: nat)
    requires n >= 10
    ensures var s := NatToString(n);
            |s| >= 2 && s[|s| - 1] == DigitChar(n % 10) && s[|s| - 2] == DigitChar(n / 10 % 10)
  {
    var s := NatToString(n);
    var p := NatToString(n / 10);
    assert s == p + [DigitChar(n % 10)];
    if n / 10 >= 10 {
      assert p == NatToString(n / 100) + [DigitChar(n / 10 % 10)];
    }
  }

  /** The suffix of a year from 2000 on is its tens digit, then its units digit. */
  lemma YearSuffixDigits(y: int)
    requires y >= 2000
    ensures YearSuffix(y) == [DigitChar(y / 10 % 10), DigitChar(y % 10)]
  {
    LastTwoDigits(y);
    var s := NatToString(y);
    assert IntToString(y) == s;
    assert s[|s| - 2..] == [s[|s| - 2], s[|s| - 1]];
  }

  /** Within one century, the year suffix determines the year. */
  lemma YearSuffixInjective(y1: int, y2: int)
    requires 2000 <= y1 <= 2099 && 2000 <= y2 <= 2099 && YearSuffix(y1) == YearSuffix(y2)
    ensures y1 == y2
  {
    YearSuffixDigits(y1);
    YearSuffixDigits(y2);
    assert DigitChar(y1 / 10 % 10) == DigitChar(y2 / 10 % 10);
    assert DigitChar(y1 % 10) == DigitChar(y2 % 10);
    assert y1 / 10 % 10 == y2 / 10 % 10 && y1 % 10 == y2 % 10;
    CenturyDigits(y1);
    CenturyDigits(y2);
  }

  lemma CenturyDigits(y: int)
    requires 2000 <= y <= 2099
    ensures y == 2000 + 10 * (y / 10 % 10) + y % 10
  {
    assert 200 <= y / 10 <= 209;
    assert y / 10 % 10 == y / 10 - 200;
  }

  /** Two horizons whose contracts expire this century have different tickers. */
  lemma DistinctHorizonsDistinctTickers(now: Date, n1: int, n2: int)
    requires 1 <= now.month <= 12 && n1 != n2
    requires 2000 <= TargetMonth(now.year, now.month, n1).0 <= 2099
    requires 2000 <= TargetMonth(now.year, now.month, n2).0 <= 2099
    ensures NymexTicker(now, n1) != NymexTicker(now, n2)
  {
    var t1 := TargetMonth(now.year, now.month, n1);
    var t2 := TargetMonth(now.year, now.month, n2);
    if NymexTicker(now, n1) == NymexTicker(now, n2) {
      var a, b := NymexTicker(now, n1), NymexTicker(now, n2);
      LastTwoDigits(t1.0);
      LastTwoDigits(t2.0);
      assert |YearSuffix(t1.0)| == 2 && |YearSuffix(t2.0)| == 2;
      assert a[2] == MonthCode(t1.1) && b[2] == MonthCode(t2.1);
      MonthCodeInjective(t1.1, t2.1);
      assert a[3..5] == YearSuffix(t1.0) && b[3..5] == YearSuffix(t2.0);
      YearSuffixInjective(t1.0, t2.0);
    }
  }

  lemma NymexTickerExamples()
    ensures NymexTicker(Date(2026, 10, 17), 3) == "NGF27.NYM"
    ensures NymexTicker(Date(2026, 10, 17), 2) == "NGZ26.NYM"
  {
    assert TargetMonth(2026, 10, 3) == (2027, 1);
    assert TargetMonth(2026, 10, 2) == (2026, 12);
    assert NatToString(20) == "20";
    assert NatToString(202) == NatToString(20) + "2" == "202";
    assert NatToString(2027) == NatToString(202) + "7" == "2027";
    assert NatToString(2026) == NatToString(202) + "6" == "2026";
    assert YearSuffix(2027) == "27";
    assert YearSuffix(2026) == "26";
  }

  // ---------------------------------------------------------------------
  // Futures strip averages

  /**
   * One entry of the futures dictionary: the months-out number its key
   * starts with, and its price when the entry is a dictionary with a
   * price (`None` otherwise).
   */
  datatype FuturesQuote = FuturesQuote(months: int, price: Option<real>)

  /** A curve point: (months out, price). */
  type Point = (int, real)

  /** The quotes with a truthy price, in dictionary order. */
  function QuotedPoints(quotes: seq<FuturesQuote>): (r: seq<Point>)
    ensures |r| <= |quotes|
    ensures forall p :: p in r <==> exists q :: q in quotes && q.price.Some? && q.price.value != 0.0 &&
                                                p == (q.months, q.price.value)
  {
    if |quotes| == 0 then []
    else
      var q := quotes[|quotes| - 1];
      var init := QuotedPoints(quotes[..|quotes| - 1]);
      assert quotes == quotes[..|quotes| - 1] + [q];
      if q.price.Some? && q.price.value != 0.0 then init + [(q.months, q.price.value)] else init
  }

  /** Tuple order on points, as `points.sort()` compares them. */
  function PointLe(a: Point, b: Point): bool
  {
    a.0 < b.0 || (a.0 == b.0 && a.1 <= b.1)
  }

  lemma PointLeTotal()
    ensures TotalPreorder(PointLe)
  {
  }

  /** The points at most `maxMonths` out, in curve order. */
  function Within(pts: seq<Point>, maxMonths: int): (r: seq<Point>)
    ensures |r| <= |pts|
    ensures forall p :: p in r <==> p in pts && p.0 <= maxMonths
  {
    if |pts| == 0 then []
    else
      var init := Within(pts[..|pts| - 1], maxMonths);
      var p := pts[|pts| - 1];
      assert pts == pts[..|pts| - 1] + [p];
      if p.0 <= maxMonths then init + [p] else init
  }

  /** A subsequence of a sorted curve is sorted. */
  lemma {:induction false} WithinSorted(pts: seq<Point>, maxMonths: int)
    requires SortedBy(pts, PointLe)
    ensures SortedBy(Within(pts, maxMonths), PointLe)
  {
    if |pts| > 0 {
      var init := pts[..|pts| - 1];
      assert SortedBy(init, PointLe);
      WithinSorted(init, maxMonths);
      var w := Within(init, maxMonths);
      forall q | q in w
        ensures PointLe(q, pts[|pts| - 1])
      {
        var k :| 0 <= k < |init| && init[k] == q;
        assert pts[k] == q;
      }
    }
  }

  /** The trapezoid weight of point `i`: half the span to its neighbours (one side at the ends). */
  function Weight(f: seq<Point>, i: nat): real
    requires 2 <= |f| && i < |f|
  {
    if i == 0 then (f[1].0 - f[0].0) as real / 2.0
    else if i == |f| - 1 then (f[i].0 - f[i - 1].0) as real / 2.0
    else (f[i + 1].0 - f[i - 1].0) as real / 2.0
  }

  function TotalWeight(f: seq<Point>, n: nat): real
    requires 2 <= |f| && n <= |f|
  {
    if n == 0 then 0.0 else TotalWeight(f, n - 1) + Weight(f, n - 1)
  }

  function TotalValue(f: seq<Point>, n: nat): real
    requires 2 <= |f| && n <= |f|
  {
    if n == 0 then 0.0 else TotalValue(f, n - 1) + f[n - 1].1 * Weight(f, n - 1)
  }

  /** `weighted_avg`: none without points, the price of a lone point, else the weighted mean to two places. */
  function WeightedAvg(pts: seq<Point>, maxMonths: int): Option<real>
  {
    var f := Within(pts, maxMonths);
    if |f| == 0 then None
    else if |f| == 1 then Some(f[0].1)
    else if TotalWeight(f, |f|) > 0.0 then Some(Round(TotalValue(f, |f|) / TotalWeight(f, |f|), 2))
    else None
  }

  lemma {:induction false} PartialWeight(f: seq<Point>, n: nat)
    requires 2 <= |f| && 1 <= n < |f|
    ensures TotalWeight(f, n) == (f[n - 1].0 + f[n].0) as real / 2.0 - f[0].0 as real
  {
    if n > 1 {
      PartialWeight(f, n - 1);
    }
  }

  /** The weights telescope: together they span the curve from its first to its last month. */
  lemma WeightsSpanCurve(f: seq<Point>)
    requires 2 <= |f|
    ensures TotalWeight(f, |f|) == (f[|f| - 1].0 - f[0].0) as real
  {
    PartialWeight(f, |f| - 1);
  }

  /** Months in non-decreasing order. */
  predicate MonthsAscending(f: seq<Point>)
  {
    forall i, j :: 0 <= i < j < |f| ==> f[i].0 <= f[j].0
  }

  lemma WeightNonNegative(f: seq<Point>, i: nat)
    requires 2 <= |f| && i < |f| && MonthsAscending(f)
    ensures Weight(f, i) >= 0.0
  {
    if 0 < i < |f| - 1 {
      assert f[i - 1].0 <= f[i].0 <= f[i + 1].0;
    }
  }

  /** Every price of the curve lies between `lo` and `hi`. */
  predicate PricesWithin(f: seq<Point>, lo: real, hi: real)
  {
    forall i :: 0 <= i < |f| ==> lo <= f[i].1 <= hi
  }

  /** Between the cheapest and the dearest price times the total weight lies the total value. */
  predicate ValueWithin(f: seq<Point>, n: nat, lo: real, hi: real)
    requires 2 <= |f| && n <= |f|
  {
    lo * TotalWeight(f, n) <= TotalValue(f, n) <= hi * TotalWeight(f, n)
  }

  lemma {:induction false} ValueBetween(f: seq<Point>, n: nat, lo: real, hi: real)
    requires 2 <= |f| && n <= |f| && MonthsAscending(f) && PricesWithin(f, lo, hi)
    ensures ValueWithin(f, n, lo, hi)
  {
    if n > 0 {
      ValueBetween(f, n - 1, lo, hi);
      WeightNonNegative(f, n - 1);
      assert lo <= f[n - 1].1 <= hi;
      ValueStep(f, n, lo, hi);
    }
  }

  /** One step of the accumulation keeps the value between the bounds. */
  lemma ValueStep(f: seq<Point>, n: nat, lo: real, hi: real)
    requires 2 <= |f| && 0 < n <= |f| && lo <= f[n - 1].1 <= hi && Weight(f, n - 1) >= 0.0
    requires ValueWithin(f, n - 1, lo, hi)
    ensures ValueWithin(f, n, lo, hi)
  {
    AccumulateBounds(TotalWeight(f, n - 1), TotalValue(f, n - 1), Weight(f, n - 1), f[n - 1].1,
                     TotalWeight(f, n), TotalValue(f, n), lo, hi);
  }

  lemma AccumulateBounds(tw: real, tv: real, w: real, p: real, tw': real, tv': real, lo: real, hi: real)
    requires lo * tw <= tv <= hi * tw && w >= 0.0 && lo <= p <= hi
    requires tw' == tw + w && tv' == tv + p * w
    ensures lo * tw' <= tv' <= hi * tw'
  {
    MulMonotone(w, lo, p);
    MulMonotone(w, p, hi);
  }

  /**
   * On a curve sorted by month, the weighted mean before rounding lies
   * between the lowest and the highest price.
   */
  lemma WeightedMeanWithinPrices(f: seq<Point>, lo: real, hi: real)
    requires 2 <= |f| && MonthsAscending(f) && TotalWeight(f, |f|) > 0.0 && PricesWithin(f, lo, hi)
    ensures lo <= TotalValue(f, |f|) / TotalWeight(f, |f|) <= hi
  {
    var w := TotalWeight(f, |f|);
    var v := TotalValue(f, |f|);
    ValueBetween(f, |f|, lo, hi);
    QuotientBound(v, w, hi);
    QuotientBound(v, w, lo);
  }

  /** On a sorted curve with distinct months, two or more points always give an average. */
  lemma DistinctMonthsGiveAverage(pts: seq<Point>, maxMonths: int)
    requires SortedBy(pts, PointLe)
    requires forall i, j :: 0 <= i < j < |pts| ==> pts[i].0 != pts[j].0
    requires |Within(pts, maxMonths)| >= 2
    ensures WeightedAvg(pts, maxMonths).Some?
  {
    var f := Within(pts, maxMonths);
    WithinSorted(pts, maxMonths);
    WeightsSpanCurve(f);
    assert f[0] in pts && f[|f| - 1] in pts;
    var i :| 0 <= i < |pts| && pts[i] == f[0];
    var j :| 0 <= j < |pts| && pts[j] == f[|f| - 1];
    assert PointLe(f[0], f[|f| - 1]);
    assert i != j ==> pts[i].0 != pts[j].0;
  }

  /** The weight of point `i`: half the month span to its neighbours, one-sided at either end. */
  method TrapezoidWeight(filtered: seq<Point>, i: nat) returns (weight: real)
    requires 2 <= |filtered| && i < |filtered|
    ensures weight == Weight(filtered, i)
    ensures i == 0 ==> weight == (filtered[1].0 - filtered[0].0) as real / 2.0
    ensures 0 < i < |filtered| - 1 ==> weight == (filtered[i + 1].0 - filtered[i - 1].0) as real / 2.0
  {
    if i == 0 {
      weight := (filtered[1].0 - filtered[0].0) as real / 2.0;
    } else if i == |filtered| - 1 {
      weight := (filtered[|filtered| - 1].0 - filtered[|filtered| - 2].0) as real / 2.0;
    } else {
      weight := (filtered[i + 1].0 - filtered[i - 1].0) as real / 2.0;
    }
  }

  /** The trapezoid sums over a curve of two or more points: the total weight and the weighted total price. */
  method TrapezoidSums(filtered: seq<Point>) returns (totalWeight: real, totalValue: real)
    requires 2 <= |filtered|
    ensures totalWeight == TotalWeight(filtered, |filtered|)
    ensures totalValue == TotalValue(filtered, |filtered|)
  {
    totalWeight, totalValue := 0.0, 0.0;
    var i := 0;
    while i < |filtered|
      invariant 0 <= i <= |filtered|
      invariant totalWeight == TotalWeight(filtered, i)
      invariant totalValue == TotalValue(filtered, i)
    {
      var weight := TrapezoidWeight(filtered, i);
      totalWeight := totalWeight + weight;
      totalValue := totalValue + filtered[i].1 * weight;
      i := i + 1;
    }
  }

  /** The trapezoid loop of `weighted_avg`. */
  method WeightedAverage(pts: seq<Point>, maxMonths: int) returns (r: Option<real>)
    ensures r == WeightedAvg(pts, maxMonths)
  {
    var filtered := Within(pts, maxMonths);
    if |filtered| == 0 {
      return None;
    }
    if |filtered| == 1 {
      return Some(filtered[0].1);
    }
    var totalWeight, totalValue := TrapezoidSums(filtered);
    r := if totalWeight > 0.0 then Some(Round(totalValue / totalWeight, 2)) else None;
  }

  /** The calendar month `monthsOut` months after `currentMonth`. */
  function ContractMonth(currentMonth: int, monthsOut: int): (m: int)
    ensures 1 <= m <= 12
  {
    (currentMonth - 1 + monthsOut) % 12 + 1
  }

  /** November to March. */
  predicate WinterMonth(m: int)
  {
    m == 11 || m == 12 || m == 1 || m == 2 || m == 3
  }

  function SeasonPrices(pts: seq<Point>, currentMonth: int, winter: bool): (r: seq<real>)
    ensures |r| <= |pts|
  {
    if |pts| == 0 then []
    else
      var init := SeasonPrices(pts[..|pts| - 1], currentMonth, winter);
      var p := pts[|pts| - 1];
      if WinterMonth(ContractMonth(currentMonth, p.0)) == winter then init + [p.1] else init
  }

  /** Every point lands in exactly one season. */
  lemma {:induction false} SeasonsPartition(pts: seq<Point>, currentMonth: int)
    ensures |SeasonPrices(pts, currentMonth, true)| + |SeasonPrices(pts, currentMonth, false)| == |pts|
    ensures multiset(SeasonPrices(pts, currentMonth, true)) + multiset(SeasonPrices(pts, currentMonth, false)) ==
            multiset(Prices(pts))
  {
    if |pts| > 0 {
      SeasonsPartition(pts[..|pts| - 1], currentMonth);
    }
  }

  function Prices(pts: seq<Point>): (r: seq<real>)
    ensures |r| == |pts| && forall i :: 0 <= i < |pts| ==> r[i] == pts[i].1
  {
    if |pts| == 0 then [] else Prices(pts[..|pts| - 1]) + [pts[|pts| - 1].1]
  }

  function Sum(xs: seq<real>): real
  {
    if |xs| == 0 then 0.0 else Sum(xs[..|xs| - 1]) + xs[|xs| - 1]
  }

  /** `round(sum(xs) / len(xs), 2)` of a non-empty list. */
  function Mean2(xs: seq<real>): real
    requires |xs| > 0
  {
    Round(Sum(xs) / |xs| as real, 2)
  }

  /** The result dictionary of `compute_strip_average`; a season key is absent when it has no points. */
  datatype StripSummary = StripSummary(
    strip12m: Option<real>,
    strip24m: Option<real>,
    curvePoints: seq<Point>,
    simpleAvg: real,
    winterStrip: Option<real>,
    summerStrip: Option<real>)

  /** `compute_strip_average`; `None` stands for the empty dictionary. */
  function StripAverage(quotes: seq<FuturesQuote>, currentMonth: int): (r: Option<StripSummary>)
    ensures r.None? <==> |QuotedPoints(quotes)| == 0
  {
    var raw := QuotedPoints(quotes);
    if |raw| == 0 then None
    else
      var points := SortBy(raw, PointLe);
      var winter := SeasonPrices(points, currentMonth, true);
      var summer := SeasonPrices(points, currentMonth, false);
      assert multiset(points) == multiset(raw);
      assert |points| == |raw|;
      Some(StripSummary(WeightedAvg(points, 12), WeightedAvg(points, 24), points, Mean2(Prices(points)),
                 if |winter| > 0 then Some(Mean2(winter)) else None,
                 if |summer| > 0 then Some(Mean2(summer)) else None))
  }

  /** The curve is sorted and holds exactly the quoted points. */
  lemma CurveSortedPermutation(quotes: seq<FuturesQuote>, currentMonth: int)
    requires StripAverage(quotes, currentMonth).Some?
    ensures var c := StripAverage(quotes, currentMonth).value.curvePoints;
            SortedBy(c, PointLe) && multiset(c) == multiset(QuotedPoints(quotes))
  {
    PointLeTotal();
    SortBySorted(QuotedPoints(quotes), PointLe);
  }

  /** At least one of the two season strips is present. */
  lemma SomeSeasonPresent(quotes: seq<FuturesQuote>, currentMonth: int)
    requires StripAverage(quotes, currentMonth).Some?
    ensures var s := StripAverage(quotes, currentMonth).value;
            s.winterStrip.Some? || s.summerStrip.Some?
  {
    var points := SortBy(QuotedPoints(quotes), PointLe);
    SeasonsPartition(points, currentMonth);
  }

  /** The season loop of `compute_strip_average`. */
  method SplitSeasons(points: seq<Point>, currentMonth: int) returns (winter: seq<real>, summer: seq<real>)
    ensures winter == SeasonPrices(points, currentMonth, true)
    ensures summer == SeasonPrices(points, currentMonth, false)
  {
    winter, summer := [], [];
    var i := 0;
    while i < |points|
      invariant 0 <= i <= |points|
      invariant winter == SeasonPrices(points[..i], currentMonth, true)
      invariant summer == SeasonPrices(points[..i], currentMonth, false)
    {
      assert points[..i + 1][..i] == points[..i];
      var (monthsOut, price) := points[i];
      var targetMonth := (currentMonth - 1 + monthsOut) % 12 + 1;
      if targetMonth == 11 || targetMonth == 12 || targetMonth == 1 || targetMonth == 2 || targetMonth == 3 {
        winter := winter + [price];
      } else {
        summer := summer + [price];
      }
      i := i + 1;
    }
    assert points[..i] == points;
  }

  /** The point-collecting loop of `compute_strip_average`. */
  method CollectPoints(quotes: seq<FuturesQuote>) returns (points: seq<Point>)
    ensures points == QuotedPoints(quotes)
  {
    points := [];
    var i := 0;
    while i < |quotes|
      invariant 0 <= i <= |quotes|
      invariant points == QuotedPoints(quotes[..i])
    {
      assert quotes[..i + 1][..i] == quotes[..i];
      var q := quotes[i];
      if q.price.Some? && q.price.value != 0.0 {
        points := points + [(q.months, q.price.value)];
      }
      i := i + 1;
    }
    assert quotes[..i] == quotes;
  }

  /** `compute_strip_average`, with the current month passed in. */
  method ComputeStripAverage(quotes: seq<FuturesQuote>, currentMonth: int) returns (r: Option<StripSummary>)
    ensures r == StripAverage(quotes, currentMonth)
  {
    var raw := CollectPoints(quotes);
    if |raw| == 0 {
      return None;
    }
    var points := SortBy(raw, PointLe);
    assert multiset(points) == multiset(raw);
    assert |points| == |raw|;
    var strip12 := WeightedAverage(points, 12);
    var strip24 := WeightedAverage(points, 24);
    var simpleAvg := Round(Sum(Prices(points)) / |points| as real, 2);
    var winter, summer := SplitSeasons(points, currentMonth);
    r := Some(StripSummary(strip12, strip24, points, simpleAvg,
                    if |winter| > 0 then Some(Round(Sum(winter) / |winter| as real, 2)) else None,
                    if |summer| > 0 then Some(Round(Sum(summer) / |summer| as real, 2)) else None));
  }

  // ---------------------------------------------------------------------
  // Cache dates

  /** `cache_value`'s normalisation: a seven-character "YYYY-MM" gets "-01" appended. */
  function NormalizeDataDate(s: string): (r: string)
    ensures |s| == 7 ==> |r| == 10 && r[..7] == s && r[7..] == "-01"
    ensures |s| != 7 ==> r == s
  {
    if |s| == 7 then s + "-01" else s
  }

  lemma NormalizeDataDateIdempotent(s: string)
    ensures NormalizeDataDate(NormalizeDataDate(s)) == NormalizeDataDate(s)
  {
  }

  // ---------------------------------------------------------------------
  // Earnings calendar

  /** Tuple order on dates, with equality: `a <= b`. */
  predicate NotAfter(a: Date, b: Date)
  {
    !Before(b, a)
  }

  /** `min(dates)`. */
  function Earliest(ds: seq<Date>): (r: Date)
    requires |ds| > 0
    ensures r in ds && forall d :: d in ds ==> NotAfter(r, d)
  {
    if |ds| == 1 then ds[0]
    else
      var m := Earliest(ds[..|ds| - 1]);
      assert ds == ds[..|ds| - 1] + [ds[|ds| - 1]];
      if Before(ds[|ds| - 1], m) then ds[|ds| - 1] else m
  }

  /** `max(dates)`. */
  function Latest(ds: seq<Date>): (r: Date)
    requires |ds| > 0
    ensures r in ds && forall d :: d in ds ==> NotAfter(d, r)
  {
    if |ds| == 1 then ds[0]
    else
      var m := Latest(ds[..|ds| - 1]);
      assert ds == ds[..|ds| - 1] + [ds[|ds| - 1]];
      if Before(m, ds[|ds| - 1]) then ds[|ds| - 1] else m
  }

  /** The parsed dates that fall strictly after (`future`) or on or before (`!future`) today. */
  function DatesOnSide(entries: seq<Option<Date>>, today: Date, future: bool): (r: seq<Date>)
    ensures forall d :: d in r <==> Some(d) in entries && Before(today, d) == future
  {
    if |entries| == 0 then []
    else
      var init := DatesOnSide(entries[..|entries| - 1], today, future);
      var e := entries[|entries| - 1];
      assert entries == entries[..|entries| - 1] + [e];
      if e.Some? && Before(today, e.value) == future then init + [e.value] else init
  }

  /**
   * The calendar `get_earnings_calendar` returns: the earliest date after
   * today as next, the latest date not after today as last, and nothing
   * when neither exists. Entries without a parseable date are `None`.
   */
  function EarningsCalendar(entries: seq<Option<Date>>, today: Date): (r: Option<Synthesis.EarningsDates>)
    ensures r.None? <==> forall e :: e in entries ==> e.None?
    ensures r.Some? ==> r.value.next.Some? || r.value.last.Some?
  {
    var future := DatesOnSide(entries, today, true);
    var past := DatesOnSide(entries, today, false);
    assert forall e :: e in entries && e.Some? ==> e.value in future || e.value in past;
    if |future| == 0 && |past| == 0 then
      None
    else
      Some(Synthesis.EarningsDates(if |future| > 0 then Some(Earliest(future)) else None,
                                   if |past| > 0 then Some(Latest(past)) else None))
  }

  /** Next is the first parsed date after today; last is the latest on or before today. */
  lemma EarningsCalendarChoice(entries: seq<Option<Date>>, today: Date)
    requires EarningsCalendar(entries, today).Some?
    ensures var c := EarningsCalendar(entries, today).value;
            (c.next.Some? ==> Some(c.next.value) in entries && Before(today, c.next.value) &&
                              forall d :: Some(d) in entries && Before(today, d) ==> NotAfter(c.next.value, d)) &&
            (c.next.None? ==> forall d :: Some(d) in entries ==> !Before(today, d)) &&
            (c.last.Some? ==> Some(c.last.value) in entries && NotAfter(c.last.value, today) &&
                              forall d :: Some(d) in entries && NotAfter(d, today) ==> NotAfter(d, c.last.value)) &&
            (c.last.None? ==> forall d :: Some(d) in entries ==> Before(today, d))
  {
    var future := DatesOnSide(entries, today, true);
    var past := DatesOnSide(entries, today, false);
    forall d | Some(d) in entries && !Before(today, d)
      ensures d in past
    {
    }
    forall d | Some(d) in entries && Before(today, d)
      ensures d in future
    {
    }
  }

  /** The parsing loop: parsed dates split into past and future lists. */
  method SplitDates(entries: seq<Option<Date>>, today: Date) returns (past: seq<Date>, future: seq<Date>)
    ensures past == DatesOnSide(entries, today, false)
    ensures future == DatesOnSide(entries, today, true)
  {
    past, future := [], [];
    var i := 0;
    while i < |entries|
      invariant 0 <= i <= |entries|
      invariant past == DatesOnSide(entries[..i], today, false)
      invariant future == DatesOnSide(entries[..i], today, true)
    {
      assert entries[..i + 1][..i] == entries[..i];
      var raw := entries[i];
      if raw.Some? {
        var d := raw.value;
        if NotAfter(d, today) {
          past := past + [d];
        } else {
          future := future + [d];
        }
      }
      i := i + 1;
    }
    assert entries[..i] == entries;
  }

  /** The selection step of `get_earnings_calendar`, after the fetch. */
  method SelectEarningsDates(entries: seq<Option<Date>>, today: Date) returns (r: Option<Synthesis.EarningsDates>)
    ensures r == EarningsCalendar(entries, today)
  {
    var past, future := SplitDates(entries, today);
    var next: Option<Date> := None;
    var last: Option<Date> := None;
    if |future| > 0 {
      next := Some(Earliest(future));
    }
    if |past| > 0 {
      last := Some(Latest(past));
    }
    if next.None? && last.None? {
      return None;
    }
    r := Some(Synthesis.EarningsDates(next, last));
  }

  // ---------------------------------------------------------------------
  // Transcript quarter

  /** The quarter whose earnings call precedes the reference date: Q4 of last year in January to March. */
  function TranscriptQuarter(ref: Date): (r: (nat, int))
    requires 1 <= ref.month <= 12
    ensures 1 <= r.0 <= 4
  {
    var q := (ref.month - 1) / 3;
    if q == 0 then (4, ref.year - 1) else (q, ref.year)
  }

  /** The transcript lookup targets the quarter the synthesis stage labels as reported. */
  lemma TranscriptQuarterIsReportedQuarter(ref: Date)
    requires 1 <= ref.month <= 12
    ensures var t := TranscriptQuarter(ref);
            Synthesis.QuarterLabel(t.1, t.0) == Synthesis.ReportedQuarter(ref)
  {
  }

  // ---------------------------------------------------------------------
  // Estimate cells

  /**
   * `float(t)` for the texts this parser meets: surrounding whitespace,
   * an optional sign, then digits with at most one dot.
   */
  function PyFloat(s: string): Option<real>
  {
    var t := Strip(s);
    if ',' in t then None
    else if |t| > 0 && (t[0] == '-' || t[0] == '+') then
      var v := ParseDecimal(t[1..]);
      if v.None? then None else Some(if t[0] == '-' then -v.value else v.value)
    else ParseDecimal(t)
  }

  /** The dollar signs and commas removed, then stripped. */
  function CleanCell(s: string): string
  {
    Strip(Remove(Remove(s, '$'), ','))
  }

  predicate IsPlaceholder(s: string)
  {
    s == "" || s == "N/A" || s == "-" || s == "--"
  }

  /** `parse_val` after cleaning: a B, M or K suffix scales by a billion, a million or a thousand. */
  function ScaledValue(c: string): Option<real>
  {
    if |c| > 0 && c[|c| - 1] == 'B' then
      var v := PyFloat(c[..|c| - 1]); if v.None? then None else Some(v.value * 1000000000.0)
    else if |c| > 0 && c[|c| - 1] == 'M' then
      var v := PyFloat(c[..|c| - 1]); if v.None? then None else Some(v.value * 1000000.0)
    else if |c| > 0 && c[|c| - 1] == 'K' then
      var v := PyFloat(c[..|c| - 1]); if v.None? then None else Some(v.value * 1000.0)
    else PyFloat(c)
  }

  /** `parse_val`: placeholders give nothing, anything unparseable gives nothing. */
  function ParseVal(s: string): Option<real>
  {
    if IsPlaceholder(s) then None else ScaledValue(CleanCell(s))
  }

  /** A placeholder text is not a number either, so it parses to nothing after cleaning too. */
  lemma PlaceholderScalesToNothing(c: string)
    requires IsPlaceholder(c)
    ensures ScaledValue(c) == None
  {
    if c == "N/A" {
      NotAvailableIsNotANumber();
    } else if c == "--" {
      DoubleDashIsNotANumber();
    } else {
      StripNoSpace(c);
    }
  }

  lemma NotAvailableIsNotANumber()
    ensures ScaledValue("N/A") == None
  {
    StripNoSpace("N/A");
    assert ',' !in "N/A";
    assert "N/A"[0] == 'N';
    ParseDecimalNonDigitStart("N/A");
    assert PyFloat("N/A") == None;
    assert "N/A"[|"N/A"| - 1] == 'A';
  }

  lemma DoubleDashIsNotANumber()
    ensures ScaledValue("--") == None
  {
    StripNoSpace("--");
    assert ',' !in "--";
    assert "--"[1..] == "-";
    ParseDecimalNonDigitStart("-");
    assert PyFloat("--") == None;
    assert "--"[|"--"| - 1] == '-';
  }

  /** Placeholders are already clean. */
  lemma PlaceholderIsClean(s: string)
    requires IsPlaceholder(s)
    ensures CleanCell(s) == s
  {
    RemoveAbsent(s, '$');
    RemoveAbsent(s, ',');
    StripNoSpace(s);
  }

  lemma CleanCellIdempotent(s: string)
    ensures CleanCell(CleanCell(s)) == CleanCell(s)
  {
    var a := Remove(s, '$');
    var b := Remove(a, ',');
    var c := Strip(b);
    RemoveKeepsAbsent(a, ',', '$');
    StripKeepsAbsent(b, '$');
    StripKeepsAbsent(b, ',');
    RemoveAbsent(c, '$');
    RemoveAbsent(c, ',');
    StripIdempotent(b);
  }

  /**
   * Dollar signs and commas do not matter: parsing a cell and parsing its
   * cleaned text agree on every input.
   */
  lemma ParseValIgnoresCurrencyFormatting(s: string)
    ensures ParseVal(s) == ParseVal(CleanCell(s))
  {
    var c := CleanCell(s);
    CleanCellIdempotent(s);
    if IsPlaceholder(s) {
      PlaceholderIsClean(s);
    } else if IsPlaceholder(c) {
      PlaceholderScalesToNothing(c);
    }
  }

  lemma ParseValExamples()
    ensures ParseVal("N/A") == None
    ensures ParseVal("12B") == Some(12000000000.0)
  {
    CleanTwelveBillion();
    TwelveIsTwelve();
    assert "12B"[..|"12B"| - 1] == "12";
    assert ScaledValue("12B") == Some(12.0 * 1000000000.0);
  }

  lemma CleanTwelveBillion()
    ensures !IsPlaceholder("12B") && CleanCell("12B") == "12B"
  {
    RemoveAbsent("12B", '$');
    RemoveAbsent("12B", ',');
    StripNoSpace("12B");
  }

  lemma TwelveIsTwelve()
    ensures PyFloat("12") == Some(12.0)
  {
    StripNoSpace("12");
    assert ',' !in "12";
    assert "12"[0] == '1';
    assert NatToString(12) == "12";
    ParseNatToString(12);
  }
}
