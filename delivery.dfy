/**
 * Delivery tracking: which intelligence reports are still to be delivered,
 * in what order, how they are grouped by urgency, and the e-mail subject
 * line a report would be sent under.
 */
module Delivery {
  import opened Wrappers
  import opened Text
  import opened Sorting

  /** One row of the pending-reports query (NULL columns are `None`). */
  datatype Report = Report(id: int, urgency: Option<string>, delivered: bool, executiveSummary: Option<string>,
                           reportType: Option<string>, ticker: string, filingType: string, filingDate: string)

  /** The urgency classes, in delivery order; anything else is unclassified. */
  datatype Bucket = Immediate | DailyDigest | WeeklyRollup | Unclassified

  /** How many characters of the executive summary the subject line carries. */
  const SummaryWidth := 60

  function BucketOf(urgency: Option<string>): (b: Bucket)
    ensures b == Immediate <==> urgency == Some("immediate")
    ensures b == DailyDigest <==> urgency == Some("daily_digest")
    ensures b == WeeklyRollup <==> urgency == Some("weekly_rollup")
  {
    if urgency == Some("immediate") then Immediate
    else if urgency == Some("daily_digest") then DailyDigest
    else if urgency == Some("weekly_rollup") then WeeklyRollup
    else Unclassified
  }

  /** The query's `CASE ir.urgency ... ELSE 4 END`. */
  function Rank(b: Bucket): (n: int)
    ensures 1 <= n <= 4
  {
    match b
    case Immediate => 1
    case DailyDigest => 2
    case WeeklyRollup => 3
    case Unclassified => 4
  }

  /** The subject-line prefix of a report type; a NULL or unknown type has none. */
  function SubjectPrefix(reportType: Option<string>): string
  {
    match reportType
    case None => ""
    case Some(t) =>
      if t == "contrarian_alert" then "[CONTRARIAN ALERT] "
      else if t == "pre_earnings_brief" then "[PRE-EARNINGS BRIEF] "
      else if t == "earnings_review" then "[EARNINGS REVIEW] "
      else if t == "update" then "[UPDATE] "
      else if t == "earnings_briefing" then "[EARNINGS BRIEFING] "
      else ""
  }

  predicate KnownAlertType(reportType: Option<string>)
  {
    reportType.Some? &&
    reportType.value in {"contrarian_alert", "pre_earnings_brief", "earnings_review", "update", "earnings_briefing"}
  }

  /** `(report.get('executive_summary') or '')[:60]`. */
  function SummaryHead(r: Report): string
  {
    Prefix(r.executiveSummary.GetOr(""), SummaryWidth)
  }

  /** `format_subject_line`: prefix, ticker, filing type, a dash and the summary's head. */
  function SubjectLine(r: Report): string
  {
    SubjectPrefix(r.reportType) + r.ticker + " " + r.filingType + " — " + SummaryHead(r)
  }

  /**
   * A subject line opens with a bracketed tag exactly for the five alerting
   * report types (a 'filing_update', NULL or unknown type gets none, and
   * the line then opens with the ticker), and closes with at most the first
   * 60 characters of the executive summary.
   */
  lemma SubjectLineShape(r: Report)
    ensures KnownAlertType(r.reportType) <==> SubjectPrefix(r.reportType) != ""
    ensures KnownAlertType(r.reportType) ==>
              SubjectLine(r)[0] == '[' && StartsWith(SubjectLine(r), SubjectPrefix(r.reportType))
    ensures !KnownAlertType(r.reportType) ==> StartsWith(SubjectLine(r), r.ticker + " " + r.filingType + " — ")
    ensures var s := SubjectLine(r);
            var tail := SummaryHead(r);
            |tail| <= SummaryWidth && tail <= r.executiveSummary.GetOr("") &&
            |tail| <= |s| && s[|s| - |tail|..] == tail
    ensures |r.executiveSummary.GetOr("")| <= SummaryWidth ==> SummaryHead(r) == r.executiveSummary.GetOr("")
  {
    var s := SubjectLine(r);
    var head := SubjectPrefix(r.reportType) + r.ticker + " " + r.filingType + " — ";
    assert s == head + SummaryHead(r);
    assert s[|s| - |SummaryHead(r)|..] == SummaryHead(r);
    if KnownAlertType(r.reportType) {
      assert StartsWith(s, SubjectPrefix(r.reportType)) by {
        assert s == SubjectPrefix(r.reportType) + (r.ticker + " " + r.filingType + " — " + SummaryHead(r));
      }
    } else {
      assert SubjectPrefix(r.reportType) == "";
      assert s == (r.ticker + " " + r.filingType + " — ") + SummaryHead(r);
    }
  }

  /** The reports of one urgency class, in their given order. */
  function InBucket(rs: seq<Report>, b: Bucket): (r: seq<Report>)
    ensures |r| <= |rs|
    ensures forall x :: x in r <==> x in rs && BucketOf(x.urgency) == b
  {
    if |rs| == 0 then []
    else
      assert rs == rs[..|rs| - 1] + [rs[|rs| - 1]];
      InBucket(rs[..|rs| - 1], b) + (if BucketOf(rs[|rs| - 1].urgency) == b then [rs[|rs| - 1]] else [])
  }

  /** The reports not yet delivered, in their given order. */
  function Undelivered(rs: seq<Report>): (r: seq<Report>)
    ensures forall x :: x in r <==> x in rs && !x.delivered
  {
    if |rs| == 0 then []
    else Undelivered(rs[..|rs| - 1]) + (if rs[|rs| - 1].delivered then [] else [rs[|rs| - 1]])
  }

  /** The query's ORDER BY: urgency class first, then the newest filing first. */
  predicate DeliveredBefore(a: Report, b: Report)
  {
    Rank(BucketOf(a.urgency)) < Rank(BucketOf(b.urgency)) ||
    (Rank(BucketOf(a.urgency)) == Rank(BucketOf(b.urgency)) && StrLe(b.filingDate, a.filingDate))
  }

  lemma DeliveredBeforePreorder()
    ensures TotalPreorder(DeliveredBefore)
  {
    forall a: Report, b: Report
      ensures DeliveredBefore(a, b) || DeliveredBefore(b, a)
    {
      StrLeTotal(a.filingDate, b.filingDate);
    }
    forall a: Report, b: Report, c: Report | DeliveredBefore(a, b) && DeliveredBefore(b, c)
      ensures DeliveredBefore(a, c)
    {
      if StrLe(c.filingDate, b.filingDate) && StrLe(b.filingDate, a.filingDate) {
        StrLeTrans(c.filingDate, b.filingDate, a.filingDate);
      }
    }
  }

  /** `get_pending_reports`. */
  function PendingReports(rs: seq<Report>): seq<Report>
  {
    SortBy(Undelivered(rs), DeliveredBefore)
  }

  /**
   * The pending list holds exactly the undelivered reports, each once, with
   * every immediate report before every daily one, those before the weekly
   * ones, those before the rest, and within a class the newest filing first.
   */
  lemma PendingOrder(rs: seq<Report>)
    ensures multiset(PendingReports(rs)) == multiset(Undelivered(rs))
    ensures forall x :: x in PendingReports(rs) <==> x in rs && !x.delivered
    ensures var p := PendingReports(rs);
            forall i, j :: 0 <= i < j < |p| ==>
              Rank(BucketOf(p[i].urgency)) <= Rank(BucketOf(p[j].urgency)) &&
              (BucketOf(p[i].urgency) == BucketOf(p[j].urgency) ==> StrLe(p[j].filingDate, p[i].filingDate))
  {
    DeliveredBeforePreorder();
    SortBySorted(Undelivered(rs), DeliveredBefore);
    var p := PendingReports(rs);
    forall x
      ensures x in p <==> x in rs && !x.delivered
    {
      assert x in p <==> x in multiset(p);
      assert x in Undelivered(rs) <==> x in multiset(Undelivered(rs));
    }
  }

  /** All four classes of a list, put back together. */
  function Regrouped(rs: seq<Report>): multiset<Report>
  {
    multiset(InBucket(rs, Immediate)) + multiset(InBucket(rs, DailyDigest)) +
    multiset(InBucket(rs, WeeklyRollup)) + multiset(InBucket(rs, Unclassified))
  }

  /** The sizes of the four classes of a list, added up. */
  function GroupSizes(rs: seq<Report>): nat
  {
    |InBucket(rs, Immediate)| + |InBucket(rs, DailyDigest)| +
    |InBucket(rs, WeeklyRollup)| + |InBucket(rs, Unclassified)|
  }

  /** The urgency classes split any list: every report lands in exactly one. */
  lemma {:induction false} BucketsPartition(rs: seq<Report>)
    ensures Regrouped(rs) == multiset(rs)
    ensures GroupSizes(rs) == |rs|
  {
    if |rs| > 0 {
      var front := rs[..|rs| - 1];
      var x := rs[|rs| - 1];
      assert rs == front + [x];
      BucketsPartition(front);
      BucketsSnoc(front, x);
      assert multiset(rs) == multiset(front) + multiset{x};
    }
  }

  /** One more report joins exactly one class. */
  lemma BucketsSnoc(front: seq<Report>, x: Report)
    ensures Regrouped(front + [x]) == Regrouped(front) + multiset{x}
    ensures GroupSizes(front + [x]) == GroupSizes(front) + 1
  {
    InBucketSnoc(front, x, Immediate);
    InBucketSnoc(front, x, DailyDigest);
    InBucketSnoc(front, x, WeeklyRollup);
    InBucketSnoc(front, x, Unclassified);
    RegroupedSnoc(front, x);
  }

  lemma RegroupedSnoc(front: seq<Report>, x: Report)
    ensures Regrouped(front + [x]) == Regrouped(front) + multiset{x}
  {
    var m := multiset(InBucket(front, Immediate));
    var d := multiset(InBucket(front, DailyDigest));
    var w := multiset(InBucket(front, WeeklyRollup));
    var u := multiset(InBucket(front, Unclassified));
    var e := multiset{x};
    AddToOnePart(m, d, w, u, e);
    InBucketOwn(front, x);
    match BucketOf(x.urgency)
    case Immediate =>
      InBucketOther(front, x, DailyDigest);
      InBucketOther(front, x, WeeklyRollup);
      InBucketOther(front, x, Unclassified);
      assert Regrouped(front + [x]) == (m + e) + d + w + u;
    case DailyDigest =>
      InBucketOther(front, x, Immediate);
      InBucketOther(front, x, WeeklyRollup);
      InBucketOther(front, x, Unclassified);
      assert Regrouped(front + [x]) == m + (d + e) + w + u;
    case WeeklyRollup =>
      InBucketOther(front, x, Immediate);
      InBucketOther(front, x, DailyDigest);
      InBucketOther(front, x, Unclassified);
      assert Regrouped(front + [x]) == m + d + (w + e) + u;
    case Unclassified =>
      InBucketOther(front, x, Immediate);
      InBucketOther(front, x, DailyDigest);
      InBucketOther(front, x, WeeklyRollup);
      assert Regrouped(front + [x]) == m + d + w + (u + e);
  }

  lemma InBucketOwn(front: seq<Report>, x: Report)
    ensures multiset(InBucket(front + [x], BucketOf(x.urgency))) ==
            multiset(InBucket(front, BucketOf(x.urgency))) + multiset{x}
  {
    InBucketSnoc(front, x, BucketOf(x.urgency));
  }

  lemma InBucketOther(front: seq<Report>, x: Report, b: Bucket)
    requires BucketOf(x.urgency) != b
    ensures InBucket(front + [x], b) == InBucket(front, b)
  {
    InBucketSnoc(front, x, b);
    assert InBucket(front, b) + [] == InBucket(front, b);
  }

  /** Adding to any one of four parts adds to their sum. */
  lemma AddToOnePart<T>(m: multiset<T>, d: multiset<T>, w: multiset<T>, u: multiset<T>, e: multiset<T>)
    ensures (m + e) + d + w + u == m + d + w + u + e
    ensures m + (d + e) + w + u == m + d + w + u + e
    ensures m + d + (w + e) + u == m + d + w + u + e
    ensures m + d + w + (u + e) == m + d + w + u + e
  {
  }

  /** A class holds exactly the reports of the list that belong to it. */
  lemma InBucketSnoc(front: seq<Report>, x: Report, b: Bucket)
    ensures InBucket(front + [x], b) ==
            InBucket(front, b) + (if BucketOf(x.urgency) == b then [x] else [])
  {
    assert (front + [x])[..|front|] == front;
  }

  /** A class taken from a list sorted by `le` is still sorted by `le`. */
  lemma {:induction false} InBucketSorted(rs: seq<Report>, b: Bucket, le: (Report, Report) -> bool)
    requires SortedBy(rs, le)
    ensures SortedBy(InBucket(rs, b), le)
  {
    if |rs| > 0 {
      var front := rs[..|rs| - 1];
      var x := rs[|rs| - 1];
      assert SortedBy(front, le) by {
        forall i, j | 0 <= i < j < |front|
          ensures le(front[i], front[j])
        {
          assert front[i] == rs[i] && front[j] == rs[j];
        }
      }
      InBucketSorted(front, b, le);
      var f := InBucket(front, b);
      if BucketOf(x.urgency) == b {
        forall i, j | 0 <= i < j < |f| + 1
          ensures le((f + [x])[i], (f + [x])[j])
        {
          if j == |f| {
            assert f[i] in front;
            var k :| 0 <= k < |front| && front[k] == f[i];
            assert rs[k] == f[i];
          } else {
            assert (f + [x])[i] == f[i] && (f + [x])[j] == f[j];
          }
        }
      }
    }
  }

  /** Within each group of the delivery summary the newest filing comes first. */
  lemma BucketNewestFirst(rs: seq<Report>, b: Bucket)
    ensures var g := InBucket(PendingReports(rs), b);
            forall i, j :: 0 <= i < j < |g| ==> StrLe(g[j].filingDate, g[i].filingDate)
  {
    DeliveredBeforePreorder();
    SortBySorted(Undelivered(rs), DeliveredBefore);
    InBucketSorted(PendingReports(rs), b, DeliveredBefore);
    var g := InBucket(PendingReports(rs), b);
    forall i, j | 0 <= i < j < |g|
      ensures StrLe(g[j].filingDate, g[i].filingDate)
    {
      assert g[i] in g && g[j] in g;
      assert BucketOf(g[i].urgency) == BucketOf(g[j].urgency);
      assert DeliveredBefore(g[i], g[j]);
    }
  }

  /** What `display_delivery_summary` shows. */
  datatype Display =
    | NothingPending
    | Status(total: nat, immediate: seq<Report>, daily: seq<Report>, weekly: seq<Report>, other: seq<Report>,
             subjects: seq<string>)

  function Subjects(rs: seq<Report>): (r: seq<string>)
    ensures |r| == |rs|
    ensures forall k :: 0 <= k < |rs| ==> r[k] == SubjectLine(rs[k])
  {
    if |rs| == 0 then [] else Subjects(rs[..|rs| - 1]) + [SubjectLine(rs[|rs| - 1])]
  }

  /** `display_delivery_summary`: only the message for an empty list, else the four groups. */
  function DeliverySummary(rs: seq<Report>): Display
  {
    if |rs| == 0 then NothingPending
    else
      var immediate := InBucket(rs, Immediate);
      Status(|rs|, immediate, InBucket(rs, DailyDigest), InBucket(rs, WeeklyRollup), InBucket(rs, Unclassified),
             Subjects(immediate))
  }

  /**
   * An empty list shows only the no-pending message; otherwise the four
   * group counts add up to the total, and a subject line is composed for
   * each immediate report and no other.
   */
  lemma DeliverySummaryCounts(rs: seq<Report>)
    ensures DeliverySummary(rs).NothingPending? <==> |rs| == 0
    ensures var d := DeliverySummary(rs);
            d.Status? ==>
              d.total == |d.immediate| + |d.daily| + |d.weekly| + |d.other| &&
              |d.subjects| == |d.immediate| &&
              (forall x :: x in d.immediate <==> x in rs && x.urgency == Some("immediate")) &&
              (forall x :: x in d.other <==> x in rs && x.urgency !in {Some("immediate"), Some("daily_digest"), Some("weekly_rollup")})
  {
    BucketsPartition(rs);
  }
}
