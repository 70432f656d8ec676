/**
 * Post-event scoring (`post_event.py`): after an earnings filing, the
 * reported metrics become actuals (with alias names filled in), the
 * published expectations are scored against them, kill criteria are
 * checked and marked, pending management promises are settled, the
 * scored results are saved, and interpreted hypothesis updates are
 * applied. The interpretation arrives as a parameter.
 */
module PostEvent {
  import opened Wrappers
  import opened PyNum
  import opened ResearchDb
  import opened ModelExpectations
  import opened Monitor

  // ---------------------------------------------------------------------
  // build_actuals_from_metrics

  /** Alternate metric names and the canonical name each one fills, in table order. */
  const Aliases: seq<(string, string)> := [
    ("total_revenue", "revenue"),
    ("net_revenue", "revenue"),
    ("total_operating_revenue", "revenue"),
    ("capital_expenditures", "capex"),
    ("capital_expenditure", "capex"),
    ("capex_total", "capex"),
    ("cash_from_operations", "operating_cash_flow"),
    ("net_cash_from_operating", "operating_cash_flow"),
    ("ocf", "operating_cash_flow"),
    ("total_production", "production_volume"),
    ("net_production", "production_volume")
  ]

  /** Every value is present: the actuals of a filing hold numbers only. */
  predicate AllPresent(actuals: Actuals)
  {
    forall n :: n in actuals ==> actuals[n].Some?
  }

  /** The alias pass over the first entries of `aliases`: a canonical name is filled only while it is absent. */
  function ApplyAliases(a: Actuals, aliases: seq<(string, string)>): (r: Actuals)
    ensures a.Keys <= r.Keys
  {
    if |aliases| == 0 then a
    else
      var prev := ApplyAliases(a, aliases[..|aliases| - 1]);
      var (alt, canonical) := aliases[|aliases| - 1];
      if alt in prev && canonical !in prev then prev[canonical := prev[alt]] else prev
  }

  /** A reported value is never overwritten by an alias, and the alias pass keeps values present. */
  lemma {:induction false} AliasesNeverOverwrite(a: Actuals, aliases: seq<(string, string)>)
    ensures forall n :: n in a ==> ApplyAliases(a, aliases)[n] == a[n]
    ensures AllPresent(a) ==> AllPresent(ApplyAliases(a, aliases))
  {
    if |aliases| > 0 {
      AliasesNeverOverwrite(a, aliases[..|aliases| - 1]);
    }
  }

  /** An alias whose value is present fills its canonical name when that name was not reported. */
  lemma {:induction false} AliasFills(a: Actuals, aliases: seq<(string, string)>, k: int)
    requires 0 <= k < |aliases| && aliases[k].0 in a
    ensures aliases[k].1 in ApplyAliases(a, aliases)
  {
    var prev := ApplyAliases(a, aliases[..|aliases| - 1]);
    if k < |aliases| - 1 {
      assert aliases[..|aliases| - 1][k] == aliases[k];
      AliasFills(a, aliases[..|aliases| - 1], k);
    } else {
      assert aliases[k].0 in prev;
    }
  }

  /** Canonical names are never used as alternates, so the pass reads only reported values. */
  lemma AliasesAreNotCanonical()
    ensures forall i, j :: 0 <= i < |Aliases| && 0 <= j < |Aliases| ==> Aliases[i].0 != Aliases[j].1
  {
  }

  /** `build_actuals_from_metrics`. */
  method BuildActualsFromMetrics(rows: seq<MetricRow>) returns (actuals: Actuals)
    ensures actuals == ApplyAliases(ReportedActuals(rows), Aliases)
    ensures AllPresent(actuals)
  {
    actuals := map[];
    for i := 0 to |rows|
      invariant actuals == ReportedActuals(rows[..i])
    {
      assert rows[..i + 1][..i] == rows[..i];
      var m := rows[i];
      if m.value.Some? {
        actuals := actuals[m.name := m.value];
      }
    }
    assert rows[..|rows|] == rows;
    ghost var reported := actuals;
    for i := 0 to |Aliases|
      invariant actuals == ApplyAliases(reported, Aliases[..i])
    {
      assert Aliases[..i + 1][..i] == Aliases[..i];
      var (alt, canonical) := Aliases[i];
      if alt in actuals && canonical !in actuals {
        actuals := actuals[canonical := actuals[alt]];
      }
    }
    assert Aliases[..|Aliases|] == Aliases;
    AliasesNeverOverwrite(reported, Aliases);
  }

  // ---------------------------------------------------------------------
  // score_expectations and save_results

  /** A published expectation row; any bound may be missing or zero. */
  datatype StoredExpectation = StoredExpectation(
    id: int,
    metric: string,
    low: Option<real>,
    mid: Option<real>,
    high: Option<real>,
    unit: Option<string>)

  /** The model's view of a stored row: each bound read by truthiness. */
  function ToModel(e: StoredExpectation): (r: Expectation)
    ensures r.metric == e.metric
    ensures r.low.Some? <==> Truthy(e.low)
    ensures r.mid.Some? <==> Truthy(e.mid)
    ensures r.high.Some? <==> Truthy(e.high)
  {
    Expectation(e.metric, IfTruthy(e.low), IfTruthy(e.mid), IfTruthy(e.high), "")
  }

  function ModelList(es: seq<StoredExpectation>): (r: seq<Expectation>)
    ensures |r| == |es| && forall i :: 0 <= i < |es| ==> r[i] == ToModel(es[i])
  {
    if |es| == 0 then [] else ModelList(es[..|es| - 1]) + [ToModel(es[|es| - 1])]
  }

  /** A stored zero bound counts as absent: an expectation with a zero low or high bound is never within range. */
  lemma ZeroBoundNeverWithin(e: StoredExpectation, actual: real)
    requires e.low == Some(0.0) || e.high == Some(0.0)
    ensures !ScoreOne(ToModel(e), actual).withinRange
  {
  }

  /** `score_expectations`. */
  method ScoreExpectations(es: seq<StoredExpectation>, actuals: Actuals) returns (results: seq<ScoredResult>)
    ensures results == Scored(ModelList(es), actuals)
  {
    var expList := seq(|es|, i requires 0 <= i < |es| => ToModel(es[i]));
    assert expList == ModelList(es);
    results := ScoreActuals(expList, actuals);
  }

  /** `{r['metric_name']: r for r in results}`: the last result per metric. */
  function ResultsMap(results: seq<ScoredResult>): (r: map<string, ScoredResult>)
    ensures forall m :: m in r <==> exists j :: 0 <= j < |results| && results[j].metric == m
  {
    if |results| == 0 then map[]
    else
      var prev := ResultsMap(results[..|results| - 1]);
      var last := results[|results| - 1];
      var r := prev[last.metric := last];
      assert forall m :: m in r <==> exists j :: 0 <= j < |results| && results[j].metric == m by {
        forall m | m in r
          ensures exists j :: 0 <= j < |results| && results[j].metric == m
        {
          if m != last.metric {
            var j :| 0 <= j < |results| - 1 && results[..|results| - 1][j].metric == m;
            assert results[j] == results[..|results| - 1][j];
          }
        }
        forall m | exists j :: 0 <= j < |results| && results[j].metric == m
          ensures m in r
        {
          var j :| 0 <= j < |results| && results[j].metric == m;
          if j < |results| - 1 {
            assert results[..|results| - 1][j] == results[j];
          }
        }
      }
      r
  }

  /** Every scored result comes from an expectation whose metric has an actual. */
  lemma {:induction false} ScoredFrom(es: seq<Expectation>, actuals: Actuals, j: int)
    requires 0 <= j < |Scored(es, actuals)|
    ensures exists e :: e in es && e.metric == Scored(es, actuals)[j].metric && ActualOf(actuals, e.metric).Some?
  {
    var init := es[..|es| - 1];
    var e := es[|es| - 1];
    var rest := Scored(init, actuals);
    if j < |rest| {
      assert Scored(es, actuals)[j] == rest[j];
      ScoredFrom(init, actuals, j);
      var e' :| e' in init && e'.metric == rest[j].metric && ActualOf(actuals, e'.metric).Some?;
      assert e' in es;
    } else {
      assert e in es;
    }
  }

  /** Every expectation whose metric has an actual is scored. */
  lemma {:induction false} ScoredCovers(es: seq<Expectation>, actuals: Actuals, x: Expectation)
    requires x in es && ActualOf(actuals, x.metric).Some?
    ensures exists j :: 0 <= j < |Scored(es, actuals)| && Scored(es, actuals)[j].metric == x.metric
  {
    var init := es[..|es| - 1];
    var e := es[|es| - 1];
    var s := Scored(es, actuals);
    if x == e {
      assert s[|s| - 1].metric == x.metric;
    } else {
      assert x in init by {
        assert es == init + [e];
      }
      ScoredCovers(init, actuals, x);
      var rest := Scored(init, actuals);
      var j :| 0 <= j < |rest| && rest[j].metric == x.metric;
      assert s[j] == rest[j];
    }
  }

  function ImpactName(i: Impact): string
  {
    match i
    case Confirms => "confirms"
    case Challenges => "challenges"
    case Breaks => "breaks"
    case Neutral => "neutral"
  }

  function ResultRow(e: StoredExpectation, r: ScoredResult, filingId: int, interpretation: string): ExpectationResultRow
  {
    ExpectationResultRow(e.id, r.actual, e.unit, filingId, r.vsExpectedPct, ImpactName(r.impact), interpretation)
  }

  /** The rows `save_results` inserts: one per expectation whose metric has a result, in order. */
  function SavedRows(es: seq<StoredExpectation>, rm: map<string, ScoredResult>, filingId: int, interpretation: string)
    : (r: seq<ExpectationResultRow>)
    ensures |r| <= |es|
  {
    if |es| == 0 then []
    else
      var prev := SavedRows(es[..|es| - 1], rm, filingId, interpretation);
      var e := es[|es| - 1];
      if e.metric in rm then prev + [ResultRow(e, rm[e.metric], filingId, interpretation)] else prev
  }

  /** The expectations whose metric has an actual, in order. */
  function Matched(es: seq<StoredExpectation>, actuals: Actuals): (r: seq<StoredExpectation>)
    ensures forall e :: e in r ==> e in es && ActualOf(actuals, e.metric).Some?
  {
    if |es| == 0 then []
    else
      var prev := Matched(es[..|es| - 1], actuals);
      var e := es[|es| - 1];
      if ActualOf(actuals, e.metric).Some? then prev + [e] else prev
  }

  lemma {:induction false} SavedRowsFollowMatched(es: seq<StoredExpectation>, rm: map<string, ScoredResult>, actuals: Actuals,
                                                  filingId: int, interpretation: string)
    requires forall e :: e in es ==> (e.metric in rm <==> ActualOf(actuals, e.metric).Some?)
    ensures var rows := SavedRows(es, rm, filingId, interpretation);
            var ms := Matched(es, actuals);
            |rows| == |ms| && forall j :: 0 <= j < |rows| ==> rows[j].expectationId == ms[j].id
  {
    if |es| > 0 {
      SavedRowsFollowMatched(es[..|es| - 1], rm, actuals, filingId, interpretation);
    }
  }

  /**
   * `save_results` after `score_expectations` writes exactly one row per
   * expectation whose metric has an actual, in expectation order, and none
   * for the others.
   */
  lemma OneRowPerMatchedExpectation(es: seq<StoredExpectation>, actuals: Actuals, filingId: int, interpretation: string)
    ensures var rows := SavedRows(es, ResultsMap(Scored(ModelList(es), actuals)), filingId, interpretation);
            var ms := Matched(es, actuals);
            |rows| == |ms| && forall j :: 0 <= j < |rows| ==> rows[j].expectationId == ms[j].id
  {
    var rm := ResultsMap(Scored(ModelList(es), actuals));
    var results := Scored(ModelList(es), actuals);
    forall e | e in es
      ensures e.metric in rm <==> ActualOf(actuals, e.metric).Some?
    {
      var i :| 0 <= i < |es| && es[i] == e;
      assert ModelList(es)[i] in ModelList(es);
      if ActualOf(actuals, e.metric).Some? {
        ScoredCovers(ModelList(es), actuals, ModelList(es)[i]);
      }
      if e.metric in rm {
        var j :| 0 <= j < |results| && results[j].metric == e.metric;
        ScoredFrom(ModelList(es), actuals, j);
      }
    }
    SavedRowsFollowMatched(es, rm, actuals, filingId, interpretation);
  }

  /** `save_results`. */
  method SaveResults(er: ExpectationResults, es: seq<StoredExpectation>, results: seq<ScoredResult>,
                     filingId: int, interpretation: string)
    modifies er
    ensures er.rows == old(er.rows) + SavedRows(es, ResultsMap(results), filingId, interpretation)
  {
    var resultsMap := map[];
    for i := 0 to |results|
      invariant resultsMap == ResultsMap(results[..i])
    {
      assert results[..i + 1][..i] == results[..i];
      resultsMap := resultsMap[results[i].metric := results[i]];
    }
    assert results[..|results|] == results;
    ghost var rows0 := er.rows;
    for i := 0 to |es|
      invariant er.rows == rows0 + SavedRows(es[..i], resultsMap, filingId, interpretation)
    {
      assert es[..i + 1][..i] == es[..i];
      var exp := es[i];
      if exp.metric !in resultsMap {
        continue;
      }
      var r := resultsMap[exp.metric];
      er.Insert(ExpectationResultRow(exp.id, r.actual, exp.unit, filingId, r.vsExpectedPct, ImpactName(r.impact), interpretation));
    }
    assert es[..|es|] == es;
  }

  // ---------------------------------------------------------------------
  // Kill criteria

  /** The post-event kill step: every untriggered criterion is checked; each that triggers is marked. */
  method MarkKills(kc: KillCriteria, thesisId: int, actuals: Actuals, today: int) returns (results: seq<KillCheck>)
    modifies kc
    ensures var crit := Untriggered(old(kc.rows), thesisId);
            results == CriteriaChecks(crit, actuals) &&
            kc.rows == MarkFired(old(kc.rows), crit, actuals, "Post-event: actual", today)
  {
    var criteria := Untriggered(kc.rows, thesisId);
    results := CheckKillCriteria(CriteriaOf(criteria), actuals);
    ghost var start := kc.rows;
    for i := 0 to |results|
      invariant kc.rows == MarkFired(start, criteria[..i], actuals, "Post-event: actual", today)
    {
      KillStep(criteria, i, actuals, start, "Post-event: actual", today);
      var k := results[i];
      assert k == CheckOne(AsCriterion(criteria[i]), actuals);
      if k.triggered {
        kc.Trigger(k.criterionId.value, KillEvidence("Post-event: actual", k.metricName, k.actual), today);
      }
    }
    assert criteria[..|results|] == criteria;
  }

  /** One check per criterion, in order. */
  function CriteriaChecks(crit: seq<KillRow>, actuals: Actuals): (r: seq<KillCheck>)
    ensures |r| == |crit| && forall i :: 0 <= i < |crit| ==> r[i] == CheckOne(AsCriterion(crit[i]), actuals)
  {
    seq(|crit|, i requires 0 <= i < |crit| => CheckOne(AsCriterion(crit[i]), actuals))
  }

  // ---------------------------------------------------------------------
  // Management scorecard

  datatype Outcome = Outcome(assessment: Assessment, deltaPct: Option<real>)

  /**
   * The post-event rule: with both bounds it assesses exactly as the
   * monitor does, with a delta from the midpoint when that is positive;
   * with any bound missing it is delivered with no delta.
   */
  function PostEventAssess(low: Option<real>, high: Option<real>, actual: real): (r: Outcome)
    ensures low.Some? && high.Some? ==> r.assessment == Assess(low, high, actual)
    ensures !(low.Some? && high.Some?) ==> r == Outcome(Delivered, None)
    ensures r.deltaPct.Some? <==> low.Some? && high.Some? && low.value + high.value > 0.0
    ensures r.deltaPct.Some? ==>
              var mid := (low.value + high.value) / 2.0;
              Abs(r.deltaPct.value - (actual - mid) / mid * 100.0) * 200.0 <= 1.0
  {
    if low.Some? && high.Some? then
      var mid := (low.value + high.value) / 2.0;
      var delta :=
        if mid > 0.0 then
          var x := (actual - mid) / mid * 100.0;
          RoundAccuracy2(x);
          Some(Round(x, 2))
        else None;
      var a := if actual >= low.value && actual <= high.value then Delivered
               else if actual > high.value then Exceeded
               else Missed;
      Outcome(a, delta)
    else Outcome(Delivered, None)
  }

  /** The two rules differ on a promise with only a low bound: the monitor reports a miss, post-event a delivery. */
  lemma LowOnlyRulesDiffer()
    ensures Assess(Some(10.0), None, 5.0) == Missed
    ensures PostEventAssess(Some(10.0), None, 5.0).assessment == Delivered
  {
  }

  datatype PromiseResult = PromiseResult(
    promiseText: string,
    promiseLow: Option<real>,
    promiseHigh: Option<real>,
    actual: real,
    assessment: Assessment,
    deltaPct: Option<real>)

  predicate Present(e: ScorecardEntry, actuals: Actuals)
  {
    HasActual(e, actuals) && actuals[e.promiseMetric.value].Some?
  }

  function PromiseOf(e: ScorecardEntry, actuals: Actuals): PromiseResult
    requires Present(e, actuals)
  {
    var actual := actuals[e.promiseMetric.value].value;
    var low := IfTruthy(e.promiseLow);
    var high := IfTruthy(e.promiseHigh);
    var o := PostEventAssess(low, high, actual);
    PromiseResult(e.promiseText, low, high, actual, o.assessment, o.deltaPct)
  }

  /** The scorecard after the post-event loop over `pending`, each matched entry updated by id. */
  function SettlePromises(rows: seq<ScorecardEntry>, pending: seq<ScorecardEntry>, actuals: Actuals,
                          filingId: int, today: int, now: int): (r: seq<ScorecardEntry>)
    ensures |r| == |rows|
  {
    if |pending| == 0 then rows
    else
      var prev := SettlePromises(rows, pending[..|pending| - 1], actuals, filingId, today, now);
      var e := pending[|pending| - 1];
      if Present(e, actuals) then
        var p := PromiseOf(e, actuals);
        RecordResult(prev, e.id, ScorecardResult(Some(p.actual), e.promiseUnit, Some(filingId), p.deltaPct,
                                                 AssessmentName(p.assessment)), today, now)
      else prev
  }

  function PromiseResults(pending: seq<ScorecardEntry>, actuals: Actuals): (r: seq<PromiseResult>)
    ensures |r| <= |pending|
  {
    if |pending| == 0 then []
    else
      var prev := PromiseResults(pending[..|pending| - 1], actuals);
      var e := pending[|pending| - 1];
      if Present(e, actuals) then prev + [PromiseOf(e, actuals)] else prev
  }

  /** Settling leaves every matched pending entry assessed, so it is never settled twice. */
  lemma {:induction false} SettledNotPending(rows: seq<ScorecardEntry>, pending: seq<ScorecardEntry>, actuals: Actuals,
                                             filingId: int, today: int, now: int, e: ScorecardEntry, i: int)
    requires e in pending && Present(e, actuals) && 0 <= i < |rows|
    requires SettlePromises(rows, pending, actuals, filingId, today, now)[i].id == e.id
    ensures SettlePromises(rows, pending, actuals, filingId, today, now)[i].assessment != "pending"
  {
    var init := pending[..|pending| - 1];
    var last := pending[|pending| - 1];
    var prev := SettlePromises(rows, init, actuals, filingId, today, now);
    if Present(last, actuals) {
      var p := PromiseOf(last, actuals);
      var res := ScorecardResult(Some(p.actual), last.promiseUnit, Some(filingId), p.deltaPct, AssessmentName(p.assessment));
      var r := RecordResult(prev, last.id, res, today, now);
      assert SettlePromises(rows, pending, actuals, filingId, today, now) == r;
      if prev[i].id != last.id {
        assert r[i] == prev[i];
        assert pending == init + [last];
        assert e in init;
        SettledNotPending(rows, init, actuals, filingId, today, now, e, i);
      } else {
        assert r[i] == Record(prev[i], res, today, now);
      }
    } else {
      assert pending == init + [last];
      assert e in init;
      SettledNotPending(rows, init, actuals, filingId, today, now, e, i);
    }
  }

  /** The body of the scorecard loop of `main`, for one matched promise. */
  method AssessPromise(low: Option<real>, high: Option<real>, actualVal: real) returns (assessment: Assessment, deltaPct: Option<real>)
    ensures Outcome(assessment, deltaPct) == PostEventAssess(low, high, actualVal)
  {
    if low.Some? && high.Some? {
      var midpoint := (low.value + high.value) / 2.0;
      if midpoint > 0.0 {
        deltaPct := Some(Round((actualVal - midpoint) / midpoint * 100.0, 2));
      } else {
        deltaPct := None;
      }
      if actualVal >= low.value && actualVal <= high.value {
        assessment := Delivered;
      } else if actualVal > high.value {
        assessment := Exceeded;
      } else {
        assessment := Missed;
      }
    } else {
      deltaPct := None;
      assessment := Delivered;
    }
  }

  /** The scorecard loop of `main`. */
  method SettleScorecard(sc: Scorecard, companyId: int, actuals: Actuals, filingId: int, today: int, now: int)
    returns (results: seq<PromiseResult>)
    requires AllPresent(actuals)
    modifies sc
    ensures var pending := Pending(old(sc.rows), companyId);
            sc.rows == SettlePromises(old(sc.rows), pending, actuals, filingId, today, now) &&
            results == PromiseResults(pending, actuals)
  {
    var pending := Pending(sc.rows, companyId);
    ghost var rows0 := sc.rows;
    results := [];
    for i := 0 to |pending|
      invariant sc.rows == SettlePromises(rows0, pending[..i], actuals, filingId, today, now)
      invariant results == PromiseResults(pending[..i], actuals)
    {
      assert pending[..i + 1][..i] == pending[..i];
      var entry := pending[i];
      var metric := entry.promiseMetric;
      if !(metric.Some? && metric.value != "" && metric.value in actuals) {
        continue;
      }
      var actualVal := actuals[metric.value].value;
      var low := IfTruthy(entry.promiseLow);
      var high := IfTruthy(entry.promiseHigh);
      var assessment, deltaPct := AssessPromise(low, high, actualVal);
      sc.SetResult(entry.id, ScorecardResult(Some(actualVal), entry.promiseUnit, Some(filingId), deltaPct,
                                             AssessmentName(assessment)), today, now);
      results := results + [PromiseResult(entry.promiseText, low, high, actualVal, assessment, deltaPct)];
    }
    assert pending[..|pending|] == pending;
  }

  // ---------------------------------------------------------------------
  // Hypotheses

  /** `get_hypotheses` here: active, strengthened and weakened; a disproved hypothesis is not offered. */
  function OpenHypotheses(rows: seq<Hypothesis>, thesisId: int): (r: seq<Hypothesis>)
    ensures forall h :: h in r <==> h in rows && h.thesisId == thesisId && h.status in {"active", "strengthened", "weakened"}
    ensures forall h :: h in r ==> h.status != "disproved"
  {
    WithStatus(rows, thesisId, {"active", "strengthened", "weakened"})
  }

  /** Every update that names a hypothesis is applied, whatever its status, defaults filling missing fields. */
  function AppliedRows(rows: seq<Hypothesis>, us: seq<HypothesisUpdate>, now: int): (r: seq<Hypothesis>)
    ensures |r| == |rows|
  {
    if |us| == 0 then rows
    else
      var prev := AppliedRows(rows, us[..|us| - 1], now);
      ApplyOne(prev, us[|us| - 1], now)
  }

  /** One update applied to the rows; an update without a hypothesis id changes nothing. */
  function ApplyOne(rows: seq<Hypothesis>, u: HypothesisUpdate, now: int): seq<Hypothesis>
  {
    if Applicable(u) then SetStatus(rows, u.hypothesisId.value, StatusOf(u), ConfidenceOf(u), now) else rows
  }

  /**
   * Unlike the monitor, post-event applies an update that keeps the status
   * 'active': the row takes the update's confidence (50 when missing) here,
   * while the monitor leaves it untouched.
   */
  lemma ActiveUpdateAppliedOnlyHere(rows: seq<Hypothesis>, u: HypothesisUpdate, now: int, i: int)
    requires Applicable(u) && StatusOf(u) == "active"
    requires 0 <= i < |rows| && rows[i].id == u.hypothesisId.value
    ensures AppliedRows(rows, [u], now)[i].confidence == ConfidenceOf(u)
    ensures AppliedRows(rows, [u], now)[i].status == "active"
    ensures StatusRows(rows, [u], now) == rows
  {
    assert [u][..0] == [];
  }

  /** The hypothesis loop of `main`: an update, then an evidence row citing the filing. */
  method ApplyUpdates(hy: Hypotheses, us: seq<HypothesisUpdate>, filingId: int, filingDate: int, now: int)
    modifies hy
    ensures hy.rows == AppliedRows(old(hy.rows), us, now)
    ensures hy.evidence == old(hy.evidence) + EvidenceLog(us, Some(filingId), filingDate)
  {
    ghost var rows0, log0 := hy.rows, hy.evidence;
    for i := 0 to |us|
      invariant hy.rows == AppliedRows(rows0, us[..i], now)
      invariant hy.evidence == log0 + EvidenceLog(us[..i], Some(filingId), filingDate)
    {
      AppliedStep(rows0, us, i, now, Some(filingId), filingDate);
      ApplyUpdate(hy, us[i], filingId, filingDate, now);
    }
    assert us[..|us|] == us;
  }

  lemma AppliedStep(rows: seq<Hypothesis>, us: seq<HypothesisUpdate>, i: nat, now: int, sourceId: Option<int>, sourceDate: int)
    requires i < |us|
    ensures AppliedRows(rows, us[..i + 1], now) == ApplyOne(AppliedRows(rows, us[..i], now), us[i], now)
    ensures EvidenceLog(us[..i + 1], sourceId, sourceDate) ==
            if Applicable(us[i]) then EvidenceLog(us[..i], sourceId, sourceDate) + [EvidenceOf(us[i], sourceId, sourceDate)]
            else EvidenceLog(us[..i], sourceId, sourceDate)
  {
    assert us[..i + 1][..i] == us[..i];
  }

  /** One pass of the hypothesis loop: an update without a hypothesis id is skipped. */
  method ApplyUpdate(hy: Hypotheses, hu: HypothesisUpdate, filingId: int, filingDate: int, now: int)
    modifies hy
    ensures hy.rows == ApplyOne(old(hy.rows), hu, now)
    ensures hy.evidence == if Applicable(hu) then old(hy.evidence) + [EvidenceOf(hu, Some(filingId), filingDate)]
                           else old(hy.evidence)
  {
    if hu.hypothesisId.None? || hu.hypothesisId.value == 0 {
      return;
    }
    var hypoId := hu.hypothesisId.value;
    hy.UpdateStatus(hypoId, if hu.newStatus.Some? then hu.newStatus.value else "active",
                    if hu.newConfidence.Some? then hu.newConfidence.value else 50.0, now);
    hy.LogEvidence(EvidenceEntry(hypoId, if hu.direction.Some? then hu.direction.value else "for",
                                 if hu.evidence.Some? then hu.evidence.value else "", "filing", Some(filingId), filingDate));
  }

  // ---------------------------------------------------------------------
  // Display

  datatype Icon = Check | Warn | Cross

  /** `format_scorecard`'s icon: within range, else a warning for a non-zero gap of at most 15 %, else a cross. */
  function IconFor(within: bool, pct: Option<real>): (r: Icon)
    ensures r == Check <==> within
    ensures r == Warn <==> !within && Truthy(pct) && Abs(pct.value) <= 15.0
    ensures r == Cross <==> !within && !(Truthy(pct) && Abs(pct.value) <= 15.0)
  {
    if within then Check else if Truthy(pct) && Abs(pct.value) <= 15.0 then Warn else Cross
  }

  /** A result inside its range never shows a cross; a result with no gap outside its range always does. */
  lemma IconAgreesWithImpact(r: ScoredResult)
    ensures r.withinRange ==> IconFor(r.withinRange, r.vsExpectedPct) == Check
    ensures !r.withinRange && r.vsExpectedPct == Some(0.0) ==> IconFor(r.withinRange, r.vsExpectedPct) == Cross
  {
  }

  // ---------------------------------------------------------------------
  // main, after the filing and the active thesis have been found

  datatype Interpretation = Interpretation(overallAssessment: string, hypothesisUpdates: seq<HypothesisUpdate>)

  datatype PostEventReport =
    | NoExpectations
    | NoActuals
    | Report(results: seq<ScoredResult>, kills: seq<KillCheck>, promises: seq<PromiseResult>)

  /** The text saved with each result: the interpretation's overall assessment, or empty. */
  function InterpretationText(interpretation: Option<Interpretation>): string
  {
    if interpretation.Some? then interpretation.value.overallAssessment else ""
  }

  /**
   * The scoring run of `main`: no published expectations, or no actual
   * metrics, end the run with nothing written; `interpretation` stands for
   * the interpretation of the scored results.
   */
  method ScoreFiling(companyId: int, thesisId: int, filingId: int, filingDate: int,
                     expectations: seq<StoredExpectation>, metricsRows: seq<MetricRow>,
                     interpretation: Option<Interpretation>, today: int, now: int,
                     kc: KillCriteria, sc: Scorecard, er: ExpectationResults, hy: Hypotheses, log: DecisionLog)
    returns (report: PostEventReport)
    modifies kc, sc, er, hy, log
    ensures report == NoExpectations <==> |expectations| == 0
    ensures |expectations| == 0 ==> unchanged(kc, sc, er, hy, log)
    ensures |expectations| > 0 ==>
            var actuals := ApplyAliases(ReportedActuals(metricsRows), Aliases);
            if |actuals| == 0 then
              report == NoActuals && unchanged(kc, sc, er, hy, log)
            else
              report.Report? &&
              report.results == Scored(ModelList(expectations), actuals) &&
              kc.rows == MarkFired(old(kc.rows), Untriggered(old(kc.rows), thesisId), actuals, "Post-event: actual", today) &&
              sc.rows == SettlePromises(old(sc.rows), Pending(old(sc.rows), companyId), actuals, filingId, today, now) &&
              er.rows == old(er.rows) + SavedRows(expectations, ResultsMap(report.results), filingId,
                                                 InterpretationText(interpretation)) &&
              log.rows == old(log.rows) + [Decision(companyId, thesisId, "post_event_scored")]
    ensures report.Report? ==>
              var actuals := ApplyAliases(ReportedActuals(metricsRows), Aliases);
              report.kills == CriteriaChecks(Untriggered(old(kc.rows), thesisId), actuals) &&
              report.promises == PromiseResults(Pending(old(sc.rows), companyId), actuals)
    ensures report.Report? && interpretation.Some? ==>
              hy.rows == AppliedRows(old(hy.rows), interpretation.value.hypothesisUpdates, now) &&
              hy.evidence == old(hy.evidence) + EvidenceLog(interpretation.value.hypothesisUpdates, Some(filingId), filingDate)
    ensures report.Report? && interpretation.None? ==> hy.rows == old(hy.rows) && hy.evidence == old(hy.evidence)
  {
    if |expectations| == 0 {
      return NoExpectations;
    }
    var actuals := BuildActualsFromMetrics(metricsRows);
    if |actuals| == 0 {
      return NoActuals;
    }
    var scoredResults := ScoreExpectations(expectations, actuals);
    var killResults := MarkKills(kc, thesisId, actuals, today);
    var scorecardResults := SettleScorecard(sc, companyId, actuals, filingId, today, now);
    var interpText := InterpretationText(interpretation);
    SaveResults(er, expectations, scoredResults, filingId, interpText);
    if interpretation.Some? {
      ApplyUpdates(hy, interpretation.value.hypothesisUpdates, filingId, filingDate, now);
    }
    log.Log(Decision(companyId, thesisId, "post_event_scored"));
    report := Report(scoredResults, killResults, scorecardResults);
  }
}
