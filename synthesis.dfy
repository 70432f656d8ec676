/**
 * Reporting decisions of the synthesis stage (`synthesize_intelligence.py`):
 * the report mode chosen from the earnings calendar, the quarter labels,
 * analyst-consensus strength, the urgency score with its dampeners, and
 * materiality.
 */
module Synthesis {
  import opened Wrappers
  import opened PyNum
  import opened Calendar
  import opened Numerals

  // ---------------------------------------------------------------------
  // Report mode

  datatype Mode = PreEarnings | EarningsReview | Update

  function ModeName(m: Mode): string
  {
    match m
    case PreEarnings => "pre_earnings"
    case EarningsReview => "earnings_review"
    case Update => "update"
  }

  /** The report type each mode's vocabulary assigns. */
  function ModeReportType(m: Mode): (r: string)
    ensures r != "contrarian_alert"
  {
    match m
    case PreEarnings => "pre_earnings_brief"
    case EarningsReview => "earnings_review"
    case Update => "update"
  }

  /**
   * A non-empty earnings-calendar dictionary; either date may be missing.
   * An absent or empty dictionary is `None` where one is expected.
   */
  datatype EarningsDates = EarningsDates(next: Option<Date>, last: Option<Date>)

  predicate DatesValid(cal: Option<EarningsDates>)
  {
    cal.Some? ==>
      (cal.value.next.Some? ==> ValidDate(cal.value.next.value)) &&
      (cal.value.last.Some? ==> ValidDate(cal.value.last.value))
  }

  /** `(next_ed - today).days`, when there is a next date. */
  function DaysToNext(today: Date, cal: Option<EarningsDates>): Option<int>
    requires ValidDate(today) && DatesValid(cal)
  {
    if cal.Some? && cal.value.next.Some? then Some(DaysBetween(cal.value.next.value, today)) else None
  }

  /** `(today - last_ed).days`, when there is a last date. */
  function DaysSinceLast(today: Date, cal: Option<EarningsDates>): Option<int>
    requires ValidDate(today) && DatesValid(cal)
  {
    if cal.Some? && cal.value.last.Some? then Some(DaysBetween(today, cal.value.last.value)) else None
  }

  /**
   * The mode of `determine_report_mode`. With a calendar, a recent release
   * means an earnings review only for a fresh filing, and an upcoming one
   * within two weeks means pre-earnings; without one, the filing's age
   * decides.
   */
  function DetermineMode(today: Date, cal: Option<EarningsDates>, filingAge: int): (m: Mode)
    requires ValidDate(today) && DatesValid(cal)
    ensures cal.Some? ==>
              var since := DaysSinceLast(today, cal);
              var toNext := DaysToNext(today, cal);
              (m == EarningsReview <==> since.Some? && since.value <= 7 && filingAge <= 7) &&
              (m == PreEarnings <==> !(since.Some? && since.value <= 7) &&
                                     toNext.Some? && 0 <= toNext.value <= 14)
    ensures cal.None? ==>
              (m == EarningsReview <==> filingAge <= 7) && (m == PreEarnings <==> filingAge > 60)
  {
    if cal.None? then
      if filingAge <= 7 then EarningsReview
      else if filingAge > 60 then PreEarnings
      else Update
    else
      var since := DaysSinceLast(today, cal);
      var toNext := DaysToNext(today, cal);
      if since.Some? && since.value <= 7 then
        if filingAge <= 7 then EarningsReview else Update
      else if toNext.Some? && 0 <= toNext.value <= 14 then PreEarnings
      else Update
  }

  /** An earnings review is only ever chosen for a filing at most a week old. */
  lemma EarningsReviewNeedsFreshFiling(today: Date, cal: Option<EarningsDates>, filingAge: int)
    requires ValidDate(today) && DatesValid(cal)
    requires DetermineMode(today, cal, filingAge) == EarningsReview
    ensures filingAge <= 7
  {
  }

  /**
   * When both calendar windows hold, the review window wins: a release at
   * most a week ago never yields pre-earnings, whatever the next date is.
   */
  lemma ReviewWindowHasPriority(today: Date, last: Date, next: Option<Date>, filingAge: int)
    requires ValidDate(today) && ValidDate(last) && (next.Some? ==> ValidDate(next.value))
    requires DaysBetween(today, last) <= 7
    ensures DetermineMode(today, Some(EarningsDates(next, Some(last))), filingAge) != PreEarnings
  {
  }

  // ---------------------------------------------------------------------
  // Quarter labels

  /** "Q{q} {year}". */
  function QuarterLabel(year: int, q: nat): string
  {
    "Q" + NatToString(q) + " " + IntToString(year)
  }

  /** The calendar quarter (1..4) a date falls in. */
  function QuarterOf(d: Date): nat
    requires 1 <= d.month <= 12
  {
    (d.month - 1) / 3 + 1
  }

  /**
   * `_reported_quarter`: a release in month M reports on the quarter before
   * M's, so January to March report Q4 of the previous year.
   */
  function ReportedQuarter(d: Date): (r: string)
    requires 1 <= d.month <= 12
  {
    var q := (d.month - 1) / 3;
    if q == 0 then QuarterLabel(d.year - 1, 4) else QuarterLabel(d.year, q)
  }

  /** The reported quarter is the calendar quarter preceding the release's own. */
  lemma ReportedQuarterIsPrevious(d: Date)
    requires 1 <= d.month <= 12
    ensures QuarterOf(d) == 1 ==> ReportedQuarter(d) == QuarterLabel(d.year - 1, 4)
    ensures QuarterOf(d) > 1 ==> ReportedQuarter(d) == QuarterLabel(d.year, QuarterOf(d) - 1)
  {
  }

  lemma ReportedQuarterExamples()
    ensures ReportedQuarter(Date(2026, 2, 12)) == "Q4 2025"
    ensures ReportedQuarter(Date(2026, 4, 23)) == "Q1 2026"
    ensures ReportedQuarter(Date(2026, 10, 1)) == "Q3 2026"
  {
    assert NatToString(2025) == "2025" by {
      assert NatToString(202) == "202" by { assert NatToString(20) == "20"; }
    }
    assert NatToString(2026) == "2026" by {
      assert NatToString(202) == "202" by { assert NatToString(20) == "20"; }
    }
  }

  /** The report-mode record the later steps read. */
  datatype ReportMode = ReportMode(
    mode: Mode,
    daysToNext: Option<int>,
    daysSinceLast: Option<int>,
    nextQuarter: string,
    lastQuarter: string,
    filingAgeDays: int)

  /** `determine_report_mode`, without the prompt vocabulary and the formatted dates. */
  function DetermineReportMode(today: Date, cal: Option<EarningsDates>, filingAge: int): (r: ReportMode)
    requires ValidDate(today) && DatesValid(cal)
    ensures r.mode == DetermineMode(today, cal, filingAge)
    ensures r.nextQuarter == if cal.Some? && cal.value.next.Some? then ReportedQuarter(cal.value.next.value)
                             else "upcoming quarter"
    ensures r.lastQuarter == if cal.Some? && cal.value.last.Some? then ReportedQuarter(cal.value.last.value)
                             else "prior quarter"
    ensures r.daysToNext.Some? <==> cal.Some? && cal.value.next.Some?
    ensures r.daysToNext.Some? ==> r.daysToNext.value == DayNumber(cal.value.next.value) - DayNumber(today)
    ensures r.daysSinceLast.Some? <==> cal.Some? && cal.value.last.Some?
    ensures r.daysSinceLast.Some? ==> r.daysSinceLast.value == DayNumber(today) - DayNumber(cal.value.last.value)
    ensures r.filingAgeDays == filingAge
  {
    var nextQuarter := if cal.Some? && cal.value.next.Some? then ReportedQuarter(cal.value.next.value)
                       else "upcoming quarter";
    var lastQuarter := if cal.Some? && cal.value.last.Some? then ReportedQuarter(cal.value.last.value)
                       else "prior quarter";
    ReportMode(DetermineMode(today, cal, filingAge), DaysToNext(today, cal), DaysSinceLast(today, cal),
               nextQuarter, lastQuarter, filingAge)
  }

  // ---------------------------------------------------------------------
  // Consensus strength

  /** `recs.get(key, 0)`. */
  function Count(recs: map<string, int>, key: string): int
  {
    if key in recs then recs[key] else 0
  }

  function RecTotal(recs: map<string, int>): int
  {
    Count(recs, "strong_buy") + Count(recs, "buy") + Count(recs, "hold") + Count(recs, "sell") + Count(recs, "strong_sell")
  }

  /** Strong buy counts 2, buy 1, hold 0, sell -1, strong sell -2. */
  function RecWeight(recs: map<string, int>): int
  {
    2 * Count(recs, "strong_buy") + Count(recs, "buy") - Count(recs, "sell") - 2 * Count(recs, "strong_sell")
  }

  /**
   * `compute_consensus_strength`: the mean weight mapped from [-2, 2] onto
   * [0, 1], to three decimals; 0 without recommendations.
   */
  function ConsensusStrength(recs: map<string, int>): (r: real)
    ensures |recs| == 0 || RecTotal(recs) == 0 ==> r == 0.0
  {
    if |recs| == 0 then 0.0
    else
      var total := RecTotal(recs);
      if total == 0 then 0.0
      else Round((RecWeight(recs) as real / total as real + 2.0) / 4.0, 3)
  }

  predicate NonNegativeCounts(recs: map<string, int>)
  {
    forall k :: k in recs ==> recs[k] >= 0
  }

  lemma WeightBounds(w: real, total: real)
    requires total > 0.0 && -2.0 * total <= w <= 2.0 * total
    ensures 0.0 <= (w / total + 2.0) / 4.0 <= 1.0
  {
    assert w / total * total == w;
  }

  /** With non-negative counts the strength lies in [0, 1]. */
  lemma ConsensusInUnitInterval(recs: map<string, int>)
    requires NonNegativeCounts(recs)
    ensures 0.0 <= ConsensusStrength(recs) <= 1.0
  {
    if |recs| > 0 && RecTotal(recs) != 0 {
      var x := (RecWeight(recs) as real / RecTotal(recs) as real + 2.0) / 4.0;
      WeightBounds(RecWeight(recs) as real, RecTotal(recs) as real);
      RoundMonotone(0.0, x, 3);
      RoundMonotone(x, 1.0, 3);
      RoundExact(0, 3);
      RoundExact(1000, 3);
    }
  }

  lemma DivideMultiple(w: real, t: real, c: real)
    requires t > 0.0 && w == c * t
    ensures w / t == c
  {
  }

  /** Unanimous strong buys give 1. */
  lemma ConsensusUnanimousBuy(recs: map<string, int>)
    requires RecTotal(recs) > 0 && Count(recs, "strong_buy") == RecTotal(recs)
    requires NonNegativeCounts(recs)
    ensures ConsensusStrength(recs) == 1.0
  {
    assert "strong_buy" in recs;
    assert RecWeight(recs) == 2 * RecTotal(recs);
    DivideMultiple(RecWeight(recs) as real, RecTotal(recs) as real, 2.0);
    RoundExact(1000, 3);
  }

  /** Unanimous strong sells give 0. */
  lemma ConsensusUnanimousSell(recs: map<string, int>)
    requires RecTotal(recs) > 0 && Count(recs, "strong_sell") == RecTotal(recs)
    requires NonNegativeCounts(recs)
    ensures ConsensusStrength(recs) == 0.0
  {
    assert "strong_sell" in recs;
    assert RecWeight(recs) == -2 * RecTotal(recs);
    DivideMultiple(RecWeight(recs) as real, RecTotal(recs) as real, -2.0);
    RoundExact(0, 3);
  }

  // ---------------------------------------------------------------------
  // Urgency

  /** The truthy flags of `urgency_indicators` that scoring reads. */
  datatype Indicators = Indicators(materialChange: bool, contrarianSignal: bool, contrarianThesis: bool)

  predicate HasContrarianThesis(ind: Indicators)
  {
    ind.contrarianSignal && ind.contrarianThesis
  }

  datatype Urgency = Immediate | DailyDigest | WeeklyRollup

  function UrgencyName(u: Urgency): string
  {
    match u
    case Immediate => "immediate"
    case DailyDigest => "daily_digest"
    case WeeklyRollup => "weekly_rollup"
  }

  /** The urgency bands: 50 and above, 25 and above, the rest. */
  function Band(score: int): (u: Urgency)
    ensures u == Immediate <==> score >= 50
    ensures u == DailyDigest <==> 25 <= score < 50
  {
    if score >= 50 then Immediate else if score >= 25 then DailyDigest else WeeklyRollup
  }

  /** A higher score never lands in a lower band. */
  lemma BandMonotone(s1: int, s2: int)
    requires s1 <= s2
    ensures Band(s1) == Immediate ==> Band(s2) == Immediate
    ensures Band(s2) == WeeklyRollup ==> Band(s1) == WeeklyRollup
  {
  }

  function FilingTypePoints(filingType: string): int
  {
    if filingType == "8-K" then 15 else if filingType == "10-Q" || filingType == "10-K" then 5 else 0
  }

  /** The phase-1 score: the points of each signal that is present, added up. */
  function Phase1(ind: Indicators, filingType: string, priority: string): (r: int)
    ensures 0 <= r <= 65
  {
    (if ind.materialChange then 15 else 0) +
    (if HasContrarianThesis(ind) then 30 else 0) +
    FilingTypePoints(filingType) +
    (if priority == "primary" then 5 else 0)
  }

  /** `(today - filing_date).days`, 0 when the date is missing or does not parse. */
  function FilingAge(today: Date, filingDate: Option<Date>): int
    requires ValidDate(today) && (filingDate.Some? ==> ValidDate(filingDate.value))
  {
    if filingDate.Some? then DaysBetween(today, filingDate.value) else 0
  }

  predicate AroundEarnings(mode: Option<Mode>)
  {
    mode == Some(PreEarnings) || mode == Some(EarningsReview)
  }

  /** The filing-age dampener: none around earnings, and none for filings at most two weeks old. */
  function AgeDampener(mode: Option<Mode>, age: int): (d: real)
    ensures 0.2 <= d <= 1.0
  {
    if AroundEarnings(mode) || age <= 14 then 1.0
    else if age > 60 then Max(0.2, 1.0 - age as real / 150.0)
    else Max(0.5, 1.0 - age as real / 120.0)
  }

  /** `int(score * d)`: a fraction of a non-negative score stays between 0 and the score. */
  function Dampen(score: int, d: real): (r: int)
    ensures score >= 0 && 0.0 <= d <= 1.0 ==> 0 <= r <= score
  {
    var x := score as real * d;
    if score >= 0 && 0.0 <= d <= 1.0 then
      MulFractionBound(score as real, d);
      assert 0.0 <= x <= score as real;
      var r := Trunc(x);
      assert Abs(x) == x && r >= 0;
      assert r as real <= x;
      r
    else Trunc(x)
  }

  /** The consensus dampener, for briefings without a contrarian thesis when consensus exceeds 0.6. */
  function ConsensusDampener(hasContrarian: bool, strength: real): (d: real)
    ensures strength <= 1.0 ==> 0.5 <= d <= 1.0
  {
    if !hasContrarian && strength > 0.6 then 1.0 - strength * 0.5 else 1.0
  }

  /** The phase-2 score: phase 1 after the age and consensus dampeners. */
  function Phase2(ind: Indicators, filingType: string, priority: string, recs: map<string, int>,
                  age: int, mode: Option<Mode>): (r: int)
  {
    var afterAge := if AroundEarnings(mode) || age <= 14 then Phase1(ind, filingType, priority)
                    else Dampen(Phase1(ind, filingType, priority), AgeDampener(mode, age));
    var d := ConsensusDampener(HasContrarianThesis(ind), ConsensusStrength(recs));
    if d < 1.0 then Dampen(afterAge, d) else afterAge
  }

  /** No dampener ever raises the score, and the score never goes negative. */
  lemma DampenersNeverRaise(ind: Indicators, filingType: string, priority: string, recs: map<string, int>,
                            age: int, mode: Option<Mode>)
    requires NonNegativeCounts(recs)
    ensures 0 <= Phase2(ind, filingType, priority, recs, age, mode) <= Phase1(ind, filingType, priority)
  {
    ConsensusInUnitInterval(recs);
  }

  /** Around earnings the filing's age does not matter. */
  lemma AgeIgnoredAroundEarnings(ind: Indicators, filingType: string, priority: string, recs: map<string, int>,
                                 age1: int, age2: int, mode: Option<Mode>)
    requires AroundEarnings(mode)
    ensures Phase2(ind, filingType, priority, recs, age1, mode) == Phase2(ind, filingType, priority, recs, age2, mode)
  {
  }

  /** `report_mode['report_type'] if report_mode else fallback`. */
  function ModeReportTypeOr(mode: Option<Mode>, fallback: string): (r: string)
    ensures fallback != "contrarian_alert" ==> r != "contrarian_alert"
  {
    match mode
    case Some(m) => ModeReportType(m)
    case None => fallback
  }

  /** The briefing type before contrarian handling: the mode's, or the model's own suggestion when valid. */
  function InitialReportType(mode: Option<Mode>, briefingType: Option<string>): string
  {
    if mode.Some? then ModeReportTypeOr(mode, "")
    else if briefingType.Some? && (briefingType.value == "earnings_briefing" || briefingType.value == "contrarian_alert")
    then briefingType.value
    else "earnings_briefing"
  }

  /**
   * The report type after the contrarian override and its validation: a
   * contrarian thesis forces 'contrarian_alert', and a suggested alert
   * without one falls back to the mode's type.
   */
  function ValidatedReportType(ind: Indicators, mode: Option<Mode>, briefingType: Option<string>): (r: string)
    ensures r == "contrarian_alert" <==> HasContrarianThesis(ind)
  {
    var initial := InitialReportType(mode, briefingType);
    var withContrarian := if HasContrarianThesis(ind) then "contrarian_alert" else initial;
    if withContrarian == "contrarian_alert" && !HasContrarianThesis(ind)
    then ModeReportTypeOr(mode, "earnings_briefing")
    else withContrarian
  }

  /** The final report type: outside earnings, an alert on a filing over 60 days old is downgraded. */
  function ReportType(ind: Indicators, mode: Option<Mode>, briefingType: Option<string>, age: int): (r: string)
    ensures r == "contrarian_alert" ==> HasContrarianThesis(ind)
    ensures HasContrarianThesis(ind) && (AroundEarnings(mode) || age <= 60) ==> r == "contrarian_alert"
  {
    var validated := ValidatedReportType(ind, mode, briefingType);
    if !AroundEarnings(mode) && age > 60 && validated == "contrarian_alert" then
      (if mode == Some(Update) then "update" else "earnings_briefing")
    else validated
  }

  /** A stale contrarian signal outside earnings loses its alert. */
  lemma StaleContrarianDowngraded(ind: Indicators, mode: Option<Mode>, briefingType: Option<string>, age: int)
    requires HasContrarianThesis(ind) && !AroundEarnings(mode) && age > 60
    ensures ReportType(ind, mode, briefingType, age) == if mode.Some? then "update" else "earnings_briefing"
  {
    if mode.Some? {
      assert mode.value == Update;
    }
  }

  method ScorePhase1(ind: Indicators, filingType: string, priority: string) returns (score: int)
    ensures score == Phase1(ind, filingType, priority)
  {
    score := 0;
    if ind.materialChange {
      score := score + 15;
    }
    if ind.contrarianSignal && ind.contrarianThesis {
      score := score + 30;
    }
    if filingType == "8-K" {
      score := score + 15;
    } else if filingType == "10-Q" || filingType == "10-K" {
      score := score + 5;
    }
    if priority == "primary" {
      score := score + 5;
    }
  }

  method ChooseReportType(ind: Indicators, mode: Option<Mode>, briefingType: Option<string>) returns (reportType: string)
    ensures reportType == ValidatedReportType(ind, mode, briefingType)
  {
    var hasContrarian := ind.contrarianSignal && ind.contrarianThesis;
    if mode.Some? {
      reportType := ModeReportTypeOr(mode, "");
    } else {
      reportType := if briefingType.Some? then briefingType.value else "earnings_briefing";
      if reportType != "earnings_briefing" && reportType != "contrarian_alert" {
        reportType := "earnings_briefing";
      }
    }
    if hasContrarian {
      reportType := "contrarian_alert";
    }
    if reportType == "contrarian_alert" && !hasContrarian {
      reportType := ModeReportTypeOr(mode, "earnings_briefing");
    }
  }

  /** The age step: downgrade a stale alert outside earnings and apply the age dampener. */
  method ApplyAge(score: int, reportType: string, mode: Option<Mode>, age: int)
    returns (score': int, reportType': string)
    ensures score' == if AroundEarnings(mode) || age <= 14 then score else Dampen(score, AgeDampener(mode, age))
    ensures reportType' == if !AroundEarnings(mode) && age > 60 && reportType == "contrarian_alert"
                           then (if mode == Some(Update) then "update" else "earnings_briefing")
                           else reportType
  {
    score', reportType' := score, reportType;
    if !(mode == Some(PreEarnings) || mode == Some(EarningsReview)) {
      if mode.Some? {
        assert mode.value != PreEarnings && mode.value != EarningsReview;
        assert mode.value.Update?;
      }
      if age > 60 {
        if reportType' == "contrarian_alert" && mode == Some(Update) {
          reportType' := "update";
        } else if reportType' == "contrarian_alert" && mode.None? {
          reportType' := "earnings_briefing";
        }
        var ageDampener := Max(0.2, 1.0 - age as real / 150.0);
        assert ageDampener == AgeDampener(mode, age);
        score' := Dampen(score', ageDampener);
      } else if age > 14 {
        var ageDampener := Max(0.5, 1.0 - age as real / 120.0);
        assert ageDampener == AgeDampener(mode, age);
        score' := Dampen(score', ageDampener);
      }
    }
  }

  /**
   * `compute_urgency`, step by step as the source reassigns `score` and
   * `report_type`; the detail dictionary keeps only the two phase scores.
   */
  method ComputeUrgency(ind: Indicators, briefingType: Option<string>, filingType: string, priority: string,
                        recs: map<string, int>, today: Date, filingDate: Option<Date>, reportMode: Option<Mode>)
    returns (urgency: Urgency, reportType: string, phase1: int, phase2: int)
    requires ValidDate(today) && (filingDate.Some? ==> ValidDate(filingDate.value))
    ensures phase1 == Phase1(ind, filingType, priority)
    ensures phase2 == Phase2(ind, filingType, priority, recs, FilingAge(today, filingDate), reportMode)
    ensures reportType == ReportType(ind, reportMode, briefingType, FilingAge(today, filingDate))
    ensures urgency == Band(phase2)
  {
    var age := 0;
    if filingDate.Some? {
      age := DaysBetween(today, filingDate.value);
    }
    var score := ScorePhase1(ind, filingType, priority);
    phase1 := score;

    var strength := ConsensusStrength(recs);
    reportType := ChooseReportType(ind, reportMode, briefingType);
    score, reportType := ApplyAge(score, reportType, reportMode, age);

    var hasContrarian := ind.contrarianSignal && ind.contrarianThesis;
    if !hasContrarian && strength > 0.6 {
      score := Dampen(score, 1.0 - strength * 0.5);
    }
    phase2 := score;
    urgency := Band(score);
  }

  // ---------------------------------------------------------------------
  // Materiality

  datatype Materiality = High | Medium | Low

  /** `compute_materiality`: flagged change or contrarian signal is high; three or more key numbers medium. */
  function ComputeMateriality(materialChange: bool, contrarianSignal: bool, numbersThatMatter: nat): (r: Materiality)
    ensures r == High <==> materialChange || contrarianSignal
    ensures r == Low <==> !materialChange && !contrarianSignal && numbersThatMatter < 3
  {
    if materialChange || contrarianSignal then High
    else if numbersThatMatter >= 3 then Medium
    else Low
  }

  /** Anything that adds contrarian points to urgency also makes the briefing highly material. */
  lemma ContrarianThesisIsMaterial(ind: Indicators, numbers: nat)
    requires HasContrarianThesis(ind)
    ensures ComputeMateriality(ind.materialChange, ind.contrarianSignal, numbers) == High
  {
  }
}
