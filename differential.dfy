/**
 * Differential analysis of two filings (`differential_analysis.py`): the
 * pairing of comparable filings (consecutive annual reports; quarterly
 * reports of the same calendar quarter in successive years), the
 * comparison of the metrics extracted from two filings, and the
 * materiality band of the language model's score. The database queries
 * arrive as their result rows, already in filing-date descending order.
 */
module Differential {
  import opened Wrappers
  import opened PyNum
  import opened Sorting
  import Calendar
  import Numerals

  // ---------------------------------------------------------------------
  // Metric rows and the dictionaries built from them

  /** A row of `extracted_metrics`: `metric_value` is a nullable decimal. */
  datatype Metric = Metric(name: string, value: Option<real>, unit: string)

  function NameSet(ms: seq<Metric>): set<string>
  {
    if |ms| == 0 then {} else NameSet(ms[..|ms| - 1]) + {ms[|ms| - 1].name}
  }

  /** `{m['metric_name']: m for m in ms}`: one entry per metric name. */
  function ByName(ms: seq<Metric>): (r: map<string, Metric>)
    ensures r.Keys == NameSet(ms)
    ensures forall k :: k in r ==> r[k].name == k
  {
    if |ms| == 0 then map[] else ByName(ms[..|ms| - 1])[ms[|ms| - 1].name := ms[|ms| - 1]]
  }

  /** Of several rows with the same name, the dictionary keeps the last. */
  lemma {:induction false} ByNameLastWins(ms: seq<Metric>, i: nat)
    requires i < |ms|
    requires forall j :: i < j < |ms| ==> ms[j].name != ms[i].name
    ensures ms[i].name in ByName(ms) && ByName(ms)[ms[i].name] == ms[i]
  {
    if i < |ms| - 1 {
      ByNameLastWins(ms[..|ms| - 1], i);
    }
  }

  /** The dictionary's keys in iteration order: each name where it first occurs. */
  function NameOrder(ms: seq<Metric>): (r: seq<string>)
    ensures forall i, j :: 0 <= i < j < |r| ==> r[i] != r[j]
    ensures forall k :: k in r <==> k in NameSet(ms)
  {
    if |ms| == 0 then []
    else
      var prev := NameOrder(ms[..|ms| - 1]);
      if ms[|ms| - 1].name in prev then prev else prev + [ms[|ms| - 1].name]
  }

  // ---------------------------------------------------------------------
  // One changed metric

  datatype Change = Change(name: string, currentValue: Option<real>, previousValue: Option<real>,
                           change: Option<real>, pctChange: Option<real>, unit: string)

  /**
   * A metric whose previous value is truthy but whose current value is
   * missing: the percentage computation subtracts from `None` and raises
   * `TypeError`.
   */
  predicate Raises(cv: Option<real>, pv: Option<real>)
  {
    Truthy(pv) && cv.None?
  }

  function PctChange(c: real, p: real): real
    requires p != 0.0
  {
    (c - p) / Abs(p) * 100.0
  }

  lemma PctChangeSign(c: real, p: real)
    requires p != 0.0
    ensures PctChange(c, p) > 0.0 <==> c > p
    ensures PctChange(c, p) < 0.0 <==> c < p
  {
    var d := c - p;
    var q := d / Abs(p);
    assert q * Abs(p) == d;
    if d > 0.0 {
      assert q > 0.0;
    } else if d < 0.0 {
      assert q < 0.0;
    }
  }

  /**
   * The entry of `changed_metrics`: the difference when both values are
   * truthy, and the percentage change relative to the previous value's
   * magnitude, to two places, when the previous value is truthy.
   */
  function MakeChange(name: string, cv: Option<real>, pv: Option<real>, unit: string): (r: Change)
    requires cv != pv && !Raises(cv, pv)
    ensures r.name == name && r.currentValue == cv && r.previousValue == pv && r.unit == unit
    ensures r.change.Some? <==> Truthy(cv) && Truthy(pv)
  {
    var change := if Truthy(cv) && Truthy(pv) then Some(cv.value - pv.value) else None;
    var pct := if Truthy(pv) then Some(PctChange(cv.value, pv.value)) else None;
    Change(name, cv, pv, change, if pct.Some? && pct.value != 0.0 then Some(Round(pct.value, 2)) else None, unit)
  }

  /**
   * The figures of a changed metric: the difference is non-zero and points
   * the way the value moved; the percentage is present exactly when the
   * previous value is truthy, lies within half a hundredth of the exact
   * relative change, and never has the opposite sign of the move.
   */
  lemma ChangeFigures(name: string, cv: Option<real>, pv: Option<real>, unit: string)
    requires cv != pv && !Raises(cv, pv)
    ensures var r := MakeChange(name, cv, pv, unit);
            (r.change.Some? ==> r.change.value != 0.0 && (r.change.value > 0.0 <==> cv.value > pv.value)) &&
            (r.pctChange.Some? <==> Truthy(pv)) &&
            (r.pctChange.Some? ==> Abs(r.pctChange.value - PctChange(cv.value, pv.value)) * 200.0 <= 1.0) &&
            (r.pctChange.Some? && cv.value > pv.value ==> r.pctChange.value >= 0.0) &&
            (r.pctChange.Some? && cv.value < pv.value ==> r.pctChange.value <= 0.0)
  {
    if Truthy(pv) {
      var p := PctChange(cv.value, pv.value);
      PctChangeSign(cv.value, pv.value);
      RoundAccuracy(p, 2);
      RoundExact(0, 2);
      if p > 0.0 {
        RoundMonotone(0.0, p, 2);
      } else {
        RoundMonotone(p, 0.0, 2);
      }
    }
  }

  // ---------------------------------------------------------------------
  // The four buckets, as filters over the names in iteration order

  datatype Changes = Changes(newMetrics: seq<Metric>, removedMetrics: seq<Metric>,
                             changedMetrics: seq<Change>, unchangedMetrics: seq<string>)

  /** Current metrics with no previous metric of the same name. */
  function NewMetrics(names: seq<string>, cur: map<string, Metric>, prev: map<string, Metric>): seq<Metric>
  {
    if |names| == 0 then []
    else
      var k := names[|names| - 1];
      NewMetrics(names[..|names| - 1], cur, prev) + (if k in cur && k !in prev then [cur[k]] else [])
  }

  predicate Differs(k: string, cur: map<string, Metric>, prev: map<string, Metric>)
  {
    k in cur && k in prev && cur[k].value != prev[k].value
  }

  /** Metrics present in both whose values differ. */
  function ChangedMetrics(names: seq<string>, cur: map<string, Metric>, prev: map<string, Metric>): seq<Change>
  {
    if |names| == 0 then []
    else
      var k := names[|names| - 1];
      ChangedMetrics(names[..|names| - 1], cur, prev) +
        (if Differs(k, cur, prev) && !Raises(cur[k].value, prev[k].value)
         then [MakeChange(k, cur[k].value, prev[k].value, cur[k].unit)] else [])
  }

  /** Names present in both with equal values. */
  function UnchangedMetrics(names: seq<string>, cur: map<string, Metric>, prev: map<string, Metric>): seq<string>
  {
    if |names| == 0 then []
    else
      var k := names[|names| - 1];
      UnchangedMetrics(names[..|names| - 1], cur, prev) +
        (if k in cur && k in prev && cur[k].value == prev[k].value then [k] else [])
  }

  /** Previous metrics with no current metric of the same name. */
  function RemovedMetrics(names: seq<string>, cur: map<string, Metric>, prev: map<string, Metric>): seq<Metric>
  {
    if |names| == 0 then []
    else
      var k := names[|names| - 1];
      RemovedMetrics(names[..|names| - 1], cur, prev) + (if k in prev && k !in cur then [prev[k]] else [])
  }

  predicate AnyRaises(names: seq<string>, cur: map<string, Metric>, prev: map<string, Metric>)
  {
    exists k :: k in names && Differs(k, cur, prev) && Raises(cur[k].value, prev[k].value)
  }

  lemma AnyRaisesStep(names: seq<string>, i: nat, cur: map<string, Metric>, prev: map<string, Metric>)
    requires i < |names| && !AnyRaises(names[..i], cur, prev)
    requires !(Differs(names[i], cur, prev) && Raises(cur[names[i]].value, prev[names[i]].value))
    ensures !AnyRaises(names[..i + 1], cur, prev)
  {
    assert names[..i + 1] == names[..i] + [names[i]];
  }

  lemma AnyRaisesAt(names: seq<string>, i: nat, cur: map<string, Metric>, prev: map<string, Metric>)
    requires i < |names| && Differs(names[i], cur, prev) && Raises(cur[names[i]].value, prev[names[i]].value)
    ensures AnyRaises(names, cur, prev)
  {
    assert names[i] in names;
  }

  /** The comparison either completes with its four buckets or raises `TypeError`. */
  datatype Outcome = Compared(changes: Changes) | Raised

  /** `analyze_metric_changes`, stated as what each bucket holds. */
  function MetricChanges(current: seq<Metric>, previous: seq<Metric>): Outcome
  {
    var cur := ByName(current);
    var prev := ByName(previous);
    var names := NameOrder(current);
    if AnyRaises(names, cur, prev) then Raised
    else Compared(Changes(NewMetrics(names, cur, prev), RemovedMetrics(NameOrder(previous), cur, prev),
                          ChangedMetrics(names, cur, prev), UnchangedMetrics(names, cur, prev)))
  }

  /** The loop of `analyze_metric_changes`, appending into the buckets. */
  method AnalyzeMetricChanges(current: seq<Metric>, previous: seq<Metric>) returns (r: Outcome)
    ensures r == MetricChanges(current, previous)
  {
    var cur := ByName(current);
    var prev := ByName(previous);
    var names := NameOrder(current);
    var raised, newMetrics, changed, same := CollectCurrent(names, cur, prev);
    if raised {
      return Raised;
    }
    var removed := CollectRemoved(NameOrder(previous), cur, prev);
    return Compared(Changes(newMetrics, removed, changed, same));
  }

  /** The first loop: each current name into its bucket, stopping where `TypeError` is raised. */
  method CollectCurrent(names: seq<string>, cur: map<string, Metric>, prev: map<string, Metric>)
      returns (raised: bool, newMetrics: seq<Metric>, changed: seq<Change>, same: seq<string>)
    requires forall k :: k in names ==> k in cur
    ensures raised == AnyRaises(names, cur, prev)
    ensures !raised ==> newMetrics == NewMetrics(names, cur, prev) && changed == ChangedMetrics(names, cur, prev) &&
                        same == UnchangedMetrics(names, cur, prev)
  {
    newMetrics, changed, same := [], [], [];
    var i := 0;
    while i < |names|
      invariant 0 <= i <= |names|
      invariant newMetrics == NewMetrics(names[..i], cur, prev)
      invariant changed == ChangedMetrics(names[..i], cur, prev)
      invariant same == UnchangedMetrics(names[..i], cur, prev)
      invariant !AnyRaises(names[..i], cur, prev)
    {
      var k := names[i];
      assert names[..i + 1][..i] == names[..i];
      assert names[..i + 1] == names[..i] + [k];
      assert k in cur;
      var c := cur[k];
      if k !in prev {
        newMetrics := newMetrics + [c];
      } else {
        var cv := c.value;
        var pv := prev[k].value;
        if cv != pv {
          if Truthy(pv) && cv.None? {
            AnyRaisesAt(names, i, cur, prev);
            return true, newMetrics, changed, same;
          }
          changed := changed + [MakeChange(k, cv, pv, c.unit)];
        } else {
          same := same + [k];
        }
      }
      AnyRaisesStep(names, i, cur, prev);
      i := i + 1;
    }
    assert names[..|names|] == names;
    raised := false;
  }

  /** The second loop: previous names the current filing lacks. */
  method CollectRemoved(prevNames: seq<string>, cur: map<string, Metric>, prev: map<string, Metric>)
      returns (removed: seq<Metric>)
    requires forall k :: k in prevNames ==> k in prev
    ensures removed == RemovedMetrics(prevNames, cur, prev)
  {
    removed := [];
    var j := 0;
    while j < |prevNames|
      invariant 0 <= j <= |prevNames|
      invariant removed == RemovedMetrics(prevNames[..j], cur, prev)
    {
      var k := prevNames[j];
      assert prevNames[..j + 1][..j] == prevNames[..j];
      assert k in prev;
      if k !in cur {
        removed := removed + [prev[k]];
      }
      j := j + 1;
    }
    assert prevNames[..|prevNames|] == prevNames;
  }

  // ---------------------------------------------------------------------
  // What the buckets hold

  predicate HasMetric(ms: seq<Metric>, k: string)
  {
    exists i :: 0 <= i < |ms| && ms[i].name == k
  }

  predicate HasChange(cs: seq<Change>, k: string)
  {
    exists i :: 0 <= i < |cs| && cs[i].name == k
  }

  predicate NamesKeys(cur: map<string, Metric>)
  {
    forall k :: k in cur ==> cur[k].name == k
  }

  lemma {:induction false} NewMetricsMembers(names: seq<string>, cur: map<string, Metric>, prev: map<string, Metric>, k: string)
    requires NamesKeys(cur)
    ensures HasMetric(NewMetrics(names, cur, prev), k) <==> k in names && k in cur && k !in prev
  {
    if |names| > 0 {
      var front := names[..|names| - 1];
      var last := names[|names| - 1];
      NewMetricsMembers(front, cur, prev, k);
      assert names == front + [last];
      var a := NewMetrics(front, cur, prev);
      var r := NewMetrics(names, cur, prev);
      if HasMetric(r, k) {
        var i :| 0 <= i < |r| && r[i].name == k;
        if i < |a| {
          assert a[i] == r[i];
        }
      }
      if k in names && k in cur && k !in prev {
        if k in front {
          var i :| 0 <= i < |a| && a[i].name == k;
          assert r[i] == a[i];
        } else {
          assert r[|r| - 1] == cur[k];
        }
      }
    }
  }

  lemma {:induction false} ChangedMetricsMembers(names: seq<string>, cur: map<string, Metric>, prev: map<string, Metric>, k: string)
    ensures HasChange(ChangedMetrics(names, cur, prev), k) <==>
            k in names && Differs(k, cur, prev) && !Raises(cur[k].value, prev[k].value)
  {
    if |names| > 0 {
      var front := names[..|names| - 1];
      var last := names[|names| - 1];
      ChangedMetricsMembers(front, cur, prev, k);
      assert names == front + [last];
      var a := ChangedMetrics(front, cur, prev);
      var r := ChangedMetrics(names, cur, prev);
      if HasChange(r, k) {
        var i :| 0 <= i < |r| && r[i].name == k;
        if i < |a| {
          assert a[i] == r[i];
        }
      }
      if k in names && Differs(k, cur, prev) && !Raises(cur[k].value, prev[k].value) {
        if k in front {
          var i :| 0 <= i < |a| && a[i].name == k;
          assert r[i] == a[i];
        } else {
          assert r[|r| - 1].name == k;
        }
      }
    }
  }

  lemma {:induction false} UnchangedMetricsMembers(names: seq<string>, cur: map<string, Metric>, prev: map<string, Metric>, k: string)
    ensures k in UnchangedMetrics(names, cur, prev) <==>
            k in names && k in cur && k in prev && cur[k].value == prev[k].value
  {
    if |names| > 0 {
      var front := names[..|names| - 1];
      UnchangedMetricsMembers(front, cur, prev, k);
      assert names == front + [names[|names| - 1]];
    }
  }

  lemma {:induction false} RemovedMetricsMembers(names: seq<string>, cur: map<string, Metric>, prev: map<string, Metric>, k: string)
    requires NamesKeys(prev)
    ensures HasMetric(RemovedMetrics(names, cur, prev), k) <==> k in names && k in prev && k !in cur
  {
    if |names| > 0 {
      var front := names[..|names| - 1];
      var last := names[|names| - 1];
      RemovedMetricsMembers(front, cur, prev, k);
      assert names == front + [last];
      var a := RemovedMetrics(front, cur, prev);
      var r := RemovedMetrics(names, cur, prev);
      if HasMetric(r, k) {
        var i :| 0 <= i < |r| && r[i].name == k;
        if i < |a| {
          assert a[i] == r[i];
        }
      }
      if k in names && k in prev && k !in cur {
        if k in front {
          var i :| 0 <= i < |a| && a[i].name == k;
          assert r[i] == a[i];
        } else {
          assert r[|r| - 1] == prev[k];
        }
      }
    }
  }

  /** The buckets of the names seen so far together hold one entry per name. */
  lemma {:induction false} BucketSizes(names: seq<string>, cur: map<string, Metric>, prev: map<string, Metric>)
    requires forall k :: k in names ==> k in cur
    requires !AnyRaises(names, cur, prev)
    ensures |NewMetrics(names, cur, prev)| + |ChangedMetrics(names, cur, prev)| +
            |UnchangedMetrics(names, cur, prev)| == |names|
  {
    if |names| > 0 {
      var front := names[..|names| - 1];
      var last := names[|names| - 1];
      assert last in names;
      assert forall k :: k in front ==> k in names;
      BucketSizes(front, cur, prev);
    }
  }

  /**
   * A completed comparison sorts every current metric name into exactly
   * one of new, changed and unchanged, by whether the previous filing has
   * it and whether its value moved, and lists as removed exactly the
   * previous names the current filing lacks. The three buckets together
   * have one entry per distinct current name.
   */
  lemma MetricChangesPartition(current: seq<Metric>, previous: seq<Metric>, k: string)
    requires MetricChanges(current, previous).Compared?
    ensures var c := MetricChanges(current, previous).changes;
            var cur := ByName(current);
            var prev := ByName(previous);
            (HasMetric(c.newMetrics, k) <==> k in NameSet(current) && k !in NameSet(previous)) &&
            (HasChange(c.changedMetrics, k) <==> k in NameSet(current) && k in NameSet(previous) && cur[k].value != prev[k].value) &&
            (k in c.unchangedMetrics <==> k in NameSet(current) && k in NameSet(previous) && cur[k].value == prev[k].value) &&
            (HasMetric(c.removedMetrics, k) <==> k in NameSet(previous) && k !in NameSet(current)) &&
            |c.newMetrics| + |c.changedMetrics| + |c.unchangedMetrics| == |NameOrder(current)|
  {
    var cur := ByName(current);
    var prev := ByName(previous);
    var names := NameOrder(current);
    NewMetricsMembers(names, cur, prev, k);
    ChangedMetricsMembers(names, cur, prev, k);
    UnchangedMetricsMembers(names, cur, prev, k);
    RemovedMetricsMembers(NameOrder(previous), cur, prev, k);
    BucketSizes(names, cur, prev);
  }

  /** A metric present in both filings whose truthy previous value has no current value. */
  predicate DropsTruthyValue(current: seq<Metric>, previous: seq<Metric>, k: string)
  {
    k in NameSet(current) && k in NameSet(previous) &&
    ByName(current)[k].value.None? && Truthy(ByName(previous)[k].value)
  }

  lemma RaisedHasWitness(current: seq<Metric>, previous: seq<Metric>) returns (k: string)
    requires MetricChanges(current, previous).Raised?
    ensures DropsTruthyValue(current, previous, k)
  {
    var cur := ByName(current);
    var prev := ByName(previous);
    k :| k in NameOrder(current) && Differs(k, cur, prev) && Raises(cur[k].value, prev[k].value);
  }

  lemma WitnessRaises(current: seq<Metric>, previous: seq<Metric>, k: string)
    requires DropsTruthyValue(current, previous, k)
    ensures MetricChanges(current, previous).Raised?
  {
    var cur := ByName(current);
    var prev := ByName(previous);
    var names := NameOrder(current);
    assert k in names && Differs(k, cur, prev);
    assert AnyRaises(names, cur, prev);
  }

  /**
   * The comparison raises exactly when some metric present in both has a
   * truthy previous value and no current value.
   */
  lemma RaisesIffMissingCurrent(current: seq<Metric>, previous: seq<Metric>)
    ensures MetricChanges(current, previous).Raised? <==> exists k :: DropsTruthyValue(current, previous, k)
  {
    if MetricChanges(current, previous).Raised? {
      var k := RaisedHasWitness(current, previous);
    }
    if exists k :: DropsTruthyValue(current, previous, k) {
      var k :| DropsTruthyValue(current, previous, k);
      WitnessRaises(current, previous, k);
    }
  }

  // ---------------------------------------------------------------------
  // Comparable filings

  /**
   * A filing row. For quarterly reports the query also extracts the
   * calendar quarter and year of the filing date.
   */
  datatype Filing = Filing(id: int, filingDate: Calendar.Date, accession: string, quarter: int, year: int)

  datatype Pair = Pair(kind: string, current: Filing, previous: Filing)

  /** Each filing paired with the one after it: n filings give n - 1 pairs. */
  function Consecutive(kind: string, fs: seq<Filing>): (r: seq<Pair>)
    ensures |r| == if |fs| == 0 then 0 else |fs| - 1
    ensures forall i :: 0 <= i < |r| ==> r[i] == Pair(kind, fs[i], fs[i + 1])
  {
    if |fs| < 2 then []
    else Consecutive(kind, fs[..|fs| - 1]) + [Pair(kind, fs[|fs| - 2], fs[|fs| - 1])]
  }

  /** `for i in range(len(fs) - 1)`, appending the pair of `fs[i]` and `fs[i + 1]`. */
  method PairUp(kind: string, fs: seq<Filing>) returns (pairs: seq<Pair>)
    ensures pairs == Consecutive(kind, fs)
  {
    pairs := [];
    var i := 0;
    while i < |fs| - 1
      invariant 0 <= i && (|fs| > 0 ==> i <= |fs| - 1) && (|fs| == 0 ==> i == 0)
      invariant pairs == Consecutive(kind, fs)[..i]
    {
      pairs := pairs + [Pair(kind, fs[i], fs[i + 1])];
      i := i + 1;
    }
  }

  function QuarterSet(fs: seq<Filing>): set<int>
  {
    if |fs| == 0 then {} else QuarterSet(fs[..|fs| - 1]) + {fs[|fs| - 1].quarter}
  }

  /** The quarters in the order the grouping dictionary first meets them. */
  function QuarterOrder(fs: seq<Filing>): (r: seq<int>)
    ensures forall i, j :: 0 <= i < j < |r| ==> r[i] != r[j]
    ensures forall q :: q in r <==> q in QuarterSet(fs)
  {
    if |fs| == 0 then []
    else
      var prev := QuarterOrder(fs[..|fs| - 1]);
      if fs[|fs| - 1].quarter in prev then prev else prev + [fs[|fs| - 1].quarter]
  }

  /** The filings of one quarter, in their original order. */
  function Group(fs: seq<Filing>, q: int): (r: seq<Filing>)
    ensures forall f :: f in r <==> f in fs && f.quarter == q
    ensures |r| <= |fs|
  {
    if |fs| == 0 then []
    else
      var front := fs[..|fs| - 1];
      assert fs == front + [fs[|fs| - 1]];
      Group(front, q) + (if fs[|fs| - 1].quarter == q then [fs[|fs| - 1]] else [])
  }

  /** `sorted(..., key=year, reverse=True)`: later years first, ties kept in order. */
  function YearDesc(a: Filing, b: Filing): bool
  {
    a.year >= b.year
  }

  lemma YearDescPreorder()
    ensures TotalPreorder(YearDesc)
  {
  }

  function QuarterKind(q: int): string
  {
    "10-Q Q" + Numerals.IntToString(q) + " YoY"
  }

  /** The pairs of each quarter's filings, newest year first, quarter by quarter. */
  function QuarterPairs(fs: seq<Filing>, qs: seq<int>): seq<Pair>
  {
    if |qs| == 0 then []
    else
      var q := qs[|qs| - 1];
      QuarterPairs(fs, qs[..|qs| - 1]) + Consecutive(QuarterKind(q), SortBy(Group(fs, q), YearDesc))
  }

  /** `get_comparable_filings` after its two queries. */
  function ComparisonPairs(annual: seq<Filing>, quarterly: seq<Filing>): seq<Pair>
  {
    Consecutive("10-K YoY", annual) + QuarterPairs(quarterly, QuarterOrder(quarterly))
  }

  method GetComparablePairs(annual: seq<Filing>, quarterly: seq<Filing>) returns (pairs: seq<Pair>)
    ensures pairs == ComparisonPairs(annual, quarterly)
  {
    pairs := PairUp("10-K YoY", annual);
    var quarters, order := GroupByQuarter(quarterly);
    var quarterPairs := PairQuarters(quarterly, quarters, order);
    pairs := pairs + quarterPairs;
  }

  /** The loop over `quarters.items()`: each group sorted newest year first, then paired. */
  method PairQuarters(fs: seq<Filing>, quarters: map<int, seq<Filing>>, order: seq<int>) returns (ps: seq<Pair>)
    requires forall q :: q in order ==> q in quarters && quarters[q] == Group(fs, q)
    ensures ps == QuarterPairs(fs, order)
  {
    ps := [];
    var k := 0;
    while k < |order|
      invariant 0 <= k <= |order|
      invariant ps == QuarterPairs(fs, order[..k])
    {
      var q := order[k];
      assert order[..k + 1][..k] == order[..k];
      var these := PairUp(QuarterKind(q), SortBy(quarters[q], YearDesc));
      ps := ps + these;
      k := k + 1;
    }
    assert order[..|order|] == order;
  }

  /** The `quarters` dictionary: filings appended under their quarter, keys in first-seen order. */
  method GroupByQuarter(fs: seq<Filing>) returns (quarters: map<int, seq<Filing>>, order: seq<int>)
    ensures order == QuarterOrder(fs)
    ensures forall q :: q in quarters <==> q in order
    ensures forall q :: q in quarters ==> quarters[q] == Group(fs, q)
  {
    quarters := map[];
    order := [];
    var j := 0;
    while j < |fs|
      invariant 0 <= j <= |fs|
      invariant order == QuarterOrder(fs[..j])
      invariant forall q :: q in quarters <==> q in order
      invariant forall q :: q in quarters ==> quarters[q] == Group(fs[..j], q)
    {
      var f := fs[j];
      assert fs[..j + 1][..j] == fs[..j];
      assert fs[..j + 1][j] == f;
      if f.quarter !in quarters {
        NoGroupYet(fs[..j], f.quarter);
        quarters := quarters[f.quarter := []];
        order := order + [f.quarter];
      }
      quarters := quarters[f.quarter := quarters[f.quarter] + [f]];
      j := j + 1;
    }
    assert fs[..|fs|] == fs;
  }

  lemma NoGroupYet(fs: seq<Filing>, q: int)
    requires q !in QuarterOrder(fs)
    ensures Group(fs, q) == []
  {
    if Group(fs, q) != [] {
      var g := Group(fs, q)[0];
      assert g in fs;
      QuarterSetMembers(fs, g);
    }
  }

  lemma {:induction false} QuarterSetMembers(fs: seq<Filing>, f: Filing)
    requires f in fs
    ensures f.quarter in QuarterSet(fs)
  {
    if f != fs[|fs| - 1] {
      assert fs == fs[..|fs| - 1] + [fs[|fs| - 1]];
      QuarterSetMembers(fs[..|fs| - 1], f);
    }
  }

  /**
   * Every quarterly pair compares two filings of the same quarter, the
   * current one from the same or a later year.
   */
  lemma {:induction false} QuarterPairsSameQuarter(fs: seq<Filing>, qs: seq<int>, p: Pair)
    requires p in QuarterPairs(fs, qs)
    ensures p.current.quarter == p.previous.quarter
    ensures p.current.year >= p.previous.year
    ensures p.current in fs && p.previous in fs
  {
    var q := qs[|qs| - 1];
    if p in QuarterPairs(fs, qs[..|qs| - 1]) {
      QuarterPairsSameQuarter(fs, qs[..|qs| - 1], p);
    } else {
      var g := Group(fs, q);
      var s := SortBy(g, YearDesc);
      var ps := Consecutive(QuarterKind(q), s);
      assert p in ps;
      var i :| 0 <= i < |ps| && ps[i] == p;
      assert s[i] in multiset(s) && s[i + 1] in multiset(s);
      assert s[i] in g && s[i + 1] in g;
      YearDescPreorder();
      SortBySorted(g, YearDesc);
      assert YearDesc(s[i], s[i + 1]);
    }
  }

  // ---------------------------------------------------------------------
  // Materiality

  datatype Level = Low | Medium | High

  /**
   * `int(analysis.get('materiality_score', 5))` banded: 7 and above is
   * high, 4 and above medium, anything below low. A missing score is 5.
   */
  function MaterialityLevel(score: Option<real>): (r: Level)
    ensures var s := score.GetOr(5.0);
            (r == High <==> s >= 7.0) && (r == Medium <==> 4.0 <= s < 7.0) && (r == Low <==> s < 4.0)
  {
    var n := Trunc(score.GetOr(5.0));
    if n >= 7 then High else if n >= 4 then Medium else Low
  }
}
