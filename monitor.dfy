/**
 * The thesis monitor (`monitor.py`): after new filings, metrics or data
 * sources arrive for a company it checks the thesis's untriggered kill
 * criteria, reconciles pending management promises with the actuals,
 * records guidance revisions and applies interpreted hypothesis updates.
 * With nothing new it stays silent and writes nothing. The language-model
 * interpretation arrives as a parameter.
 */
module Monitor {
  import opened Wrappers
  import opened PyNum
  import opened ResearchDb
  import opened ModelExpectations
  import opened GuidanceRevisions

  // ---------------------------------------------------------------------
  // New data and actuals

  datatype Filing = Filing(id: int, filingDate: int)

  datatype MetricRow = MetricRow(name: string, value: Option<real>)

  /** What arrived since the last check: filings, extracted metrics, and a count of other sources. */
  datatype NewData = NewData(filings: seq<Filing>, metrics: seq<MetricRow>, sources: nat)

  predicate NothingNew(d: NewData)
  {
    |d.filings| == 0 && |d.metrics| == 0 && d.sources == 0
  }

  /** The metrics loop: every row with a value, later rows overwriting earlier ones. */
  function ReportedActuals(rows: seq<MetricRow>): (r: Actuals)
    ensures forall n :: n in r ==> r[n].Some?
    ensures forall n :: n in r <==> exists i :: 0 <= i < |rows| && rows[i].name == n && rows[i].value.Some?
  {
    if |rows| == 0 then map[]
    else
      var prev := ReportedActuals(rows[..|rows| - 1]);
      var m := rows[|rows| - 1];
      var r := if m.value.Some? then prev[m.name := m.value] else prev;
      assert forall n :: n in r <==> exists i :: 0 <= i < |rows| && rows[i].name == n && rows[i].value.Some? by {
        forall n | n in r
          ensures exists i :: 0 <= i < |rows| && rows[i].name == n && rows[i].value.Some?
        {
          if !(m.value.Some? && n == m.name) {
            var i :| 0 <= i < |rows| - 1 && rows[..|rows| - 1][i].name == n && rows[..|rows| - 1][i].value.Some?;
            assert rows[i] == rows[..|rows| - 1][i];
          }
        }
        forall n | exists i :: 0 <= i < |rows| && rows[i].name == n && rows[i].value.Some?
          ensures n in r
        {
          var i :| 0 <= i < |rows| && rows[i].name == n && rows[i].value.Some?;
          if i < |rows| - 1 {
            assert rows[..|rows| - 1][i] == rows[i];
          }
        }
      }
      r
  }

  /** `get_filing_metrics`: every metric of the filing, a zero or missing value read as `None`. */
  function FilingActuals(rows: seq<MetricRow>): (r: Actuals)
    ensures forall n :: n in r ==> (r[n].Some? ==> r[n].value != 0.0)
    ensures forall i :: 0 <= i < |rows| ==> rows[i].name in r
  {
    if |rows| == 0 then map[]
    else
      var prev := FilingActuals(rows[..|rows| - 1]);
      var m := rows[|rows| - 1];
      var r := prev[m.name := IfTruthy(m.value)];
      assert forall i :: 0 <= i < |rows| - 1 ==> rows[i] == rows[..|rows| - 1][i];
      r
  }

  function MetricsOf(filingMetrics: map<int, seq<MetricRow>>, id: int): seq<MetricRow>
  {
    if id in filingMetrics then filingMetrics[id] else []
  }

  /** The actuals after the first `n` filings' metrics have been merged in, later filings winning. */
  function MergedActuals(d: NewData, filingMetrics: map<int, seq<MetricRow>>, n: nat): Actuals
    requires n <= |d.filings|
  {
    if n == 0 then ReportedActuals(d.metrics)
    else MergedActuals(d, filingMetrics, n - 1) + FilingActuals(MetricsOf(filingMetrics, d.filings[n - 1].id))
  }

  /** A metric reported by the last filing that has it takes that filing's value. */
  lemma {:induction false} LaterFilingWins(d: NewData, filingMetrics: map<int, seq<MetricRow>>, n: nat, name: string)
    requires n <= |d.filings|
    requires n > 0 && name in FilingActuals(MetricsOf(filingMetrics, d.filings[n - 1].id))
    ensures var a := MergedActuals(d, filingMetrics, n);
            name in a && a[name] == FilingActuals(MetricsOf(filingMetrics, d.filings[n - 1].id))[name]
  {
  }

  /** The two loops that build the actuals in `monitor_thesis`. */
  method BuildActuals(d: NewData, filingMetrics: map<int, seq<MetricRow>>) returns (actuals: Actuals)
    ensures actuals == MergedActuals(d, filingMetrics, |d.filings|)
  {
    actuals := map[];
    for i := 0 to |d.metrics|
      invariant actuals == ReportedActuals(d.metrics[..i])
    {
      assert d.metrics[..i + 1][..i] == d.metrics[..i];
      var m := d.metrics[i];
      if m.value.Some? {
        actuals := actuals[m.name := m.value];
      }
    }
    assert d.metrics[..|d.metrics|] == d.metrics;
    for i := 0 to |d.filings|
      invariant actuals == MergedActuals(d, filingMetrics, i)
    {
      actuals := actuals + FilingActuals(MetricsOf(filingMetrics, d.filings[i].id));
    }
  }

  // ---------------------------------------------------------------------
  // Kill criteria

  /** A stored criterion as the financial model reads it; the operator column is always present. */
  function AsCriterion(k: KillRow): (c: Criterion)
    ensures c.id == Some(k.id) && c.metricName == k.metricName && c.threshold == k.threshold
    ensures c.operator != OperatorMissing
  {
    Criterion(Some(k.id), k.criterion, k.metricName, k.threshold,
              if k.operator.Some? then Operator(k.operator.value) else OperatorNull)
  }

  function CriteriaOf(rows: seq<KillRow>): (r: seq<Criterion>)
    ensures |r| == |rows| && forall i :: 0 <= i < |rows| ==> r[i] == AsCriterion(rows[i])
  {
    if |rows| == 0 then [] else CriteriaOf(rows[..|rows| - 1]) + [AsCriterion(rows[|rows| - 1])]
  }

  /** A stored criterion without an operator never triggers. */
  lemma NullOperatorNeverTriggers(k: KillRow, actuals: Actuals)
    requires k.operator.None?
    ensures !CheckOne(AsCriterion(k), actuals).triggered
  {
  }

  datatype Alert =
    | KillAlert(criterionId: int, check: KillCheck)
    | ScorecardAlert(scorecardMatch: ScorecardMatch)
    | GuidanceRevisionAlert(guidance: GuidanceAlert)
    | HypothesisAlert(hypothesisId: int, status: string, confidence: real, evidence: string)

  /** The alerts for the criteria among `crit` that trigger, in order. */
  function KillAlerts(crit: seq<KillRow>, actuals: Actuals): (r: seq<Alert>)
    ensures forall a :: a in r ==> a.KillAlert? && exists k :: k in crit && k.id == a.criterionId
  {
    if |crit| == 0 then []
    else
      var prev := KillAlerts(crit[..|crit| - 1], actuals);
      var k := crit[|crit| - 1];
      var c := CheckOne(AsCriterion(k), actuals);
      if c.triggered then prev + [KillAlert(k.id, c)] else prev
  }

  /** The table after marking each triggering criterion among `crit`, in order. */
  function MarkFired(rows: seq<KillRow>, crit: seq<KillRow>, actuals: Actuals, prefix: string, today: int): (r: seq<KillRow>)
    ensures |r| == |rows|
  {
    if |crit| == 0 then rows
    else
      var prev := MarkFired(rows, crit[..|crit| - 1], actuals, prefix, today);
      var k := crit[|crit| - 1];
      var c := CheckOne(AsCriterion(k), actuals);
      if c.triggered then MarkTriggered(prev, k.id, KillEvidence(prefix, c.metricName, c.actual), today) else prev
  }

  /** A criterion row with id `id`, of the thesis, still untriggered. */
  ghost predicate Armed(rows: seq<KillRow>, thesisId: int, id: int)
  {
    exists k :: k in rows && k.id == id && k.thesisId == thesisId && !k.triggered
  }

  /** Every row with id `id` is triggered. */
  ghost predicate Disarmed(rows: seq<KillRow>, id: int)
  {
    forall k :: k in rows && k.id == id ==> k.triggered
  }

  /** Marking never clears a trigger. */
  lemma {:induction false} MarkFiredMonotone(rows: seq<KillRow>, crit: seq<KillRow>, actuals: Actuals, prefix: string, today: int)
    ensures var r := MarkFired(rows, crit, actuals, prefix, today);
            forall i :: 0 <= i < |rows| && rows[i].triggered ==> r[i].triggered
  {
    if |crit| > 0 {
      MarkFiredMonotone(rows, crit[..|crit| - 1], actuals, prefix, today);
    }
  }

  lemma DisarmedStaysDisarmed(rows: seq<KillRow>, id: int, target: int, ev: KillEvidence, today: int)
    requires Disarmed(rows, id)
    ensures Disarmed(MarkTriggered(rows, target, ev, today), id)
  {
    var r := MarkTriggered(rows, target, ev, today);
    forall k | k in r && k.id == id
      ensures k.triggered
    {
      var i :| 0 <= i < |r| && r[i] == k;
      assert rows[i] in rows;
    }
  }

  lemma MarkTriggeredDisarms(rows: seq<KillRow>, target: int, ev: KillEvidence, today: int)
    ensures Disarmed(MarkTriggered(rows, target, ev, today), target)
  {
    var r := MarkTriggered(rows, target, ev, today);
    forall k | k in r && k.id == target
      ensures k.triggered
    {
      var i :| 0 <= i < |r| && r[i] == k;
    }
  }

  /** Every criterion that raised an alert is marked as triggered. */
  lemma {:induction false} FiredAreDisarmed(rows: seq<KillRow>, crit: seq<KillRow>, actuals: Actuals, prefix: string, today: int)
    ensures forall a :: a in KillAlerts(crit, actuals) ==> Disarmed(MarkFired(rows, crit, actuals, prefix, today), a.criterionId)
  {
    if |crit| > 0 {
      var init := crit[..|crit| - 1];
      FiredAreDisarmed(rows, init, actuals, prefix, today);
      var prev := MarkFired(rows, init, actuals, prefix, today);
      var k := crit[|crit| - 1];
      var c := CheckOne(AsCriterion(k), actuals);
      if c.triggered {
        var ev := KillEvidence(prefix, c.metricName, c.actual);
        MarkTriggeredDisarms(prev, k.id, ev, today);
        forall a | a in KillAlerts(init, actuals)
          ensures Disarmed(MarkTriggered(prev, k.id, ev, today), a.criterionId)
        {
          DisarmedStaysDisarmed(prev, a.criterionId, k.id, ev, today);
        }
      }
    }
  }

  /**
   * Kill triggering is one-shot: every criterion that alerts was armed
   * before the run and is marked after it, so a second run over the
   * marked table never alerts on it again, whatever the new actuals.
   */
  lemma KillOneShot(rows: seq<KillRow>, thesisId: int, actuals: Actuals, later: Actuals, prefix: string, today: int)
    ensures var first := KillAlerts(Untriggered(rows, thesisId), actuals);
            var after := MarkFired(rows, Untriggered(rows, thesisId), actuals, prefix, today);
            (forall a :: a in first ==> Armed(rows, thesisId, a.criterionId) && Disarmed(after, a.criterionId)) &&
            (forall a, b :: a in first && b in KillAlerts(Untriggered(after, thesisId), later) ==> a.criterionId != b.criterionId)
  {
    var crit := Untriggered(rows, thesisId);
    var first := KillAlerts(crit, actuals);
    var after := MarkFired(rows, crit, actuals, prefix, today);
    FiredAreDisarmed(rows, crit, actuals, prefix, today);
    forall a | a in first
      ensures Armed(rows, thesisId, a.criterionId)
    {
      var k :| k in crit && k.id == a.criterionId;
    }
    forall a, b | a in first && b in KillAlerts(Untriggered(after, thesisId), later)
      ensures a.criterionId != b.criterionId
    {
      var k :| k in Untriggered(after, thesisId) && k.id == b.criterionId;
    }
  }

  /** One more criterion extends the alerts and the marked table by that criterion's result. */
  lemma KillStep(crit: seq<KillRow>, i: int, actuals: Actuals, rows: seq<KillRow>, prefix: string, today: int)
    requires 0 <= i < |crit|
    ensures var c := CheckOne(AsCriterion(crit[i]), actuals);
            KillAlerts(crit[..i + 1], actuals) ==
              (if c.triggered then KillAlerts(crit[..i], actuals) + [KillAlert(crit[i].id, c)] else KillAlerts(crit[..i], actuals)) &&
            MarkFired(rows, crit[..i + 1], actuals, prefix, today) ==
              (if c.triggered
               then MarkTriggered(MarkFired(rows, crit[..i], actuals, prefix, today), crit[i].id,
                                  KillEvidence(prefix, c.metricName, c.actual), today)
               else MarkFired(rows, crit[..i], actuals, prefix, today))
  {
    assert crit[..i + 1][..i] == crit[..i];
    assert crit[..i + 1][i] == crit[i];
  }

  lemma RepeatSnoc<T>(base: seq<T>, n: nat, d: T)
    ensures base + seq(n + 1, _ => d) == (base + seq(n, _ => d)) + [d]
  {
    assert seq(n + 1, _ => d) == seq(n, _ => d) + [d];
  }

  /** Acts on one kill-check result: a triggering one is alerted, marked and logged. */
  method FireKill(kc: KillCriteria, log: DecisionLog, companyId: int, thesisId: int, id: int, kr: KillCheck,
                  prefix: string, today: int, alerts: seq<Alert>)
    returns (next: seq<Alert>)
    modifies kc, log
    ensures next == if kr.triggered then alerts + [KillAlert(id, kr)] else alerts
    ensures kc.rows == if kr.triggered then MarkTriggered(old(kc.rows), id, KillEvidence(prefix, kr.metricName, kr.actual), today)
                       else old(kc.rows)
    ensures log.rows == if kr.triggered then old(log.rows) + [Decision(companyId, thesisId, "kill_triggered")] else old(log.rows)
  {
    next := alerts;
    if kr.triggered {
      next := alerts + [KillAlert(id, kr)];
      kc.Trigger(id, KillEvidence(prefix, kr.metricName, kr.actual), today);
      log.Log(Decision(companyId, thesisId, "kill_triggered"));
    }
  }

  /** Alerts, marks and logs each triggering result of `criteria`, in order. */
  method FireKills(kc: KillCriteria, log: DecisionLog, companyId: int, thesisId: int, actuals: Actuals,
                   prefix: string, today: int, criteria: seq<KillRow>, results: seq<KillCheck>)
    returns (alerts: seq<Alert>)
    requires |results| == |criteria|
    requires forall i :: 0 <= i < |criteria| ==> results[i] == CheckOne(AsCriterion(criteria[i]), actuals)
    modifies kc, log
    ensures alerts == KillAlerts(criteria, actuals)
    ensures kc.rows == MarkFired(old(kc.rows), criteria, actuals, prefix, today)
    ensures log.rows == old(log.rows) + seq(|alerts|, _ => Decision(companyId, thesisId, "kill_triggered"))
  {
    alerts := [];
    ghost var start := kc.rows;
    ghost var log0 := log.rows;
    for i := 0 to |results|
      invariant alerts == KillAlerts(criteria[..i], actuals)
      invariant kc.rows == MarkFired(start, criteria[..i], actuals, prefix, today)
      invariant log.rows == log0 + seq(|alerts|, _ => Decision(companyId, thesisId, "kill_triggered"))
    {
      KillStep(criteria, i, actuals, start, prefix, today);
      RepeatSnoc(log0, |alerts|, Decision(companyId, thesisId, "kill_triggered"));
      alerts := FireKill(kc, log, companyId, thesisId, criteria[i].id, results[i], prefix, today, alerts);
    }
    assert criteria[..|results|] == criteria;
  }

  /** The kill-criteria step: check the untriggered criteria, alert, mark and log each one that triggers. */
  method CheckKills(kc: KillCriteria, log: DecisionLog, companyId: int, thesisId: int, actuals: Actuals,
                    prefix: string, today: int)
    returns (alerts: seq<Alert>)
    modifies kc, log
    ensures var crit := Untriggered(old(kc.rows), thesisId);
            if |crit| > 0 && |actuals| > 0 then
              alerts == KillAlerts(crit, actuals) && kc.rows == MarkFired(old(kc.rows), crit, actuals, prefix, today)
            else alerts == [] && kc.rows == old(kc.rows)
    ensures log.rows == old(log.rows) + seq(|alerts|, _ => Decision(companyId, thesisId, "kill_triggered"))
  {
    var criteria := Untriggered(kc.rows, thesisId);
    alerts := [];
    if |criteria| > 0 && |actuals| > 0 {
      var results := CheckKillCriteria(CriteriaOf(criteria), actuals);
      alerts := FireKills(kc, log, companyId, thesisId, actuals, prefix, today, criteria, results);
    }
  }

  // ---------------------------------------------------------------------
  // Management scorecard

  datatype Assessment = Delivered | Exceeded | Missed

  function AssessmentName(a: Assessment): (r: string)
    ensures r != "pending"
  {
    match a
    case Delivered => "delivered"
    case Exceeded => "exceeded"
    case Missed => "missed"
  }

  /**
   * The monitor's rule, bounds already read by truthiness: inside a
   * two-sided range is delivered, above it exceeded, below it missed; a
   * low bound alone is delivered iff reached; no low bound is delivered.
   */
  function Assess(low: Option<real>, high: Option<real>, actual: real): (r: Assessment)
    ensures low.Some? && high.Some? ==>
              (r == Delivered <==> low.value <= actual <= high.value) &&
              (r == Exceeded <==> actual > high.value) &&
              (r == Missed <==> actual < low.value && actual <= high.value)
    ensures low.Some? && high.None? ==> (r == Delivered <==> actual >= low.value) && r != Exceeded
    ensures low.None? ==> r == Delivered
  {
    if low.Some? && high.Some? then
      if actual >= low.value && actual <= high.value then Delivered
      else if actual > high.value then Exceeded
      else Missed
    else if low.Some? then (if actual >= low.value then Delivered else Missed)
    else Delivered
  }

  datatype ScorecardMatch = ScorecardMatch(
    scorecardId: int,
    promiseText: string,
    actual: Option<real>,
    actualUnit: Option<string>,
    assessment: Assessment)

  /** One pending entry: no match, a match, or the `TypeError` of comparing a `None` actual with a low bound. */
  datatype MatchStep = NoMatch | Matched(m: ScorecardMatch) | MatchRaises

  predicate HasActual(e: ScorecardEntry, actuals: Actuals)
  {
    e.promiseMetric.Some? && e.promiseMetric.value != "" && e.promiseMetric.value in actuals
  }

  function MatchEntry(e: ScorecardEntry, actuals: Actuals): (r: MatchStep)
    ensures r.NoMatch? <==> !HasActual(e, actuals)
    ensures r.MatchRaises? <==> HasActual(e, actuals) && actuals[e.promiseMetric.value].None? && Truthy(e.promiseLow)
    ensures r.Matched? ==> r.m.scorecardId == e.id && r.m.promiseText == e.promiseText &&
                           r.m.actual == actuals[e.promiseMetric.value] && r.m.actualUnit == e.promiseUnit
    ensures r.Matched? && r.m.actual.Some? ==>
              r.m.assessment == Assess(IfTruthy(e.promiseLow), IfTruthy(e.promiseHigh), r.m.actual.value)
    ensures r.Matched? && r.m.actual.None? ==> r.m.assessment == Delivered
  {
    if HasActual(e, actuals) then
      var a := actuals[e.promiseMetric.value];
      var low := IfTruthy(e.promiseLow);
      var high := IfTruthy(e.promiseHigh);
      if a.None? then
        if low.Some? then MatchRaises
        else Matched(ScorecardMatch(e.id, e.promiseText, a, e.promiseUnit, Delivered))
      else Matched(ScorecardMatch(e.id, e.promiseText, a, e.promiseUnit, Assess(low, high, a.value)))
    else NoMatch
  }

  datatype Checked = Checked(matches: seq<ScorecardMatch>) | CheckRaised

  /** `check_scorecard_against_actuals` specified: the matches in order, or the raise. */
  function CheckAll(entries: seq<ScorecardEntry>, actuals: Actuals): Checked
  {
    if |entries| == 0 then Checked([])
    else match MatchEntry(entries[0], actuals)
      case MatchRaises => CheckRaised
      case NoMatch => CheckAll(entries[1..], actuals)
      case Matched(m) =>
        var rest := CheckAll(entries[1..], actuals);
        if rest.CheckRaised? then CheckRaised else Checked([m] + rest.matches)
  }

  /** Exactly the entries whose metric is among the actuals are matched. */
  lemma CheckAllSelects(entries: seq<ScorecardEntry>, actuals: Actuals)
    requires CheckAll(entries, actuals).Checked?
    ensures var ms := CheckAll(entries, actuals).matches;
            (forall m :: m in ms ==> exists e :: e in entries && e.id == m.scorecardId && HasActual(e, actuals)) &&
            (forall e :: e in entries && HasActual(e, actuals) ==> exists m :: m in ms && m.scorecardId == e.id)
  {
    CheckAllSound(entries, actuals);
    CheckAllComplete(entries, actuals);
  }

  /** Every match comes from an entry whose metric is among the actuals. */
  lemma {:induction false} CheckAllSound(entries: seq<ScorecardEntry>, actuals: Actuals)
    requires CheckAll(entries, actuals).Checked?
    ensures forall m :: m in CheckAll(entries, actuals).matches ==>
              exists e :: e in entries && e.id == m.scorecardId && HasActual(e, actuals)
  {
    if |entries| > 0 {
      CheckAllSound(entries[1..], actuals);
      var ms := CheckAll(entries, actuals).matches;
      forall m | m in ms
        ensures exists e :: e in entries && e.id == m.scorecardId && HasActual(e, actuals)
      {
        if MatchEntry(entries[0], actuals).Matched? && m == ms[0] {
          assert entries[0] in entries;
        } else {
          assert m in CheckAll(entries[1..], actuals).matches;
          forall e | e in entries[1..] ensures e in entries { }
        }
      }
    }
  }

  /** Every entry whose metric is among the actuals gets a match. */
  lemma {:induction false} CheckAllComplete(entries: seq<ScorecardEntry>, actuals: Actuals)
    requires CheckAll(entries, actuals).Checked?
    ensures forall e :: e in entries && HasActual(e, actuals) ==>
              exists m :: m in CheckAll(entries, actuals).matches && m.scorecardId == e.id
  {
    if |entries| > 0 {
      CheckAllComplete(entries[1..], actuals);
      var ms := CheckAll(entries, actuals).matches;
      forall e | e in entries && HasActual(e, actuals)
        ensures exists m :: m in ms && m.scorecardId == e.id
      {
        if e == entries[0] {
          assert ms[0].scorecardId == e.id;
        } else {
          assert e in entries[1..];
        }
      }
    }
  }

  function Prefixed(ms: seq<ScorecardMatch>, c: Checked): Checked
  {
    if c.CheckRaised? then CheckRaised else Checked(ms + c.matches)
  }

  /** `check_scorecard_against_actuals`. */
  method CheckScorecardAgainstActuals(entries: seq<ScorecardEntry>, actuals: Actuals) returns (result: Checked)
    ensures result == CheckAll(entries, actuals)
  {
    var matches := [];
    for i := 0 to |entries|
      invariant CheckAll(entries, actuals) == Prefixed(matches, CheckAll(entries[i..], actuals))
    {
      CheckAllStep(entries, i, actuals, matches);
      var r := MatchScorecardEntry(entries[i], actuals);
      if r.MatchRaises? {
        return CheckRaised;
      } else if r.Matched? {
        matches := matches + [r.m];
      }
    }
    assert entries[|entries|..] == [];
    return Checked(matches);
  }

  lemma CheckAllStep(entries: seq<ScorecardEntry>, i: nat, actuals: Actuals, ms: seq<ScorecardMatch>)
    requires i < |entries|
    ensures var r := MatchEntry(entries[i], actuals);
            var here := Prefixed(ms, CheckAll(entries[i..], actuals));
            (r.MatchRaises? ==> here == CheckRaised) &&
            (r.NoMatch? ==> here == Prefixed(ms, CheckAll(entries[i + 1..], actuals))) &&
            (r.Matched? ==> here == Prefixed(ms + [r.m], CheckAll(entries[i + 1..], actuals)))
  {
    assert entries[i..][0] == entries[i] && entries[i..][1..] == entries[i + 1..];
    var r := MatchEntry(entries[i], actuals);
    var rest := CheckAll(entries[i + 1..], actuals);
    if r.Matched? && rest.Checked? {
      assert ms + ([r.m] + rest.matches) == ms + [r.m] + rest.matches;
    }
  }

  /** One pass of the scorecard loop: skip, match, or the comparison of a missing actual that raises. */
  method MatchScorecardEntry(entry: ScorecardEntry, actuals: Actuals) returns (r: MatchStep)
    ensures r == MatchEntry(entry, actuals)
  {
    if !(entry.promiseMetric.Some? && entry.promiseMetric.value != "" && entry.promiseMetric.value in actuals) {
      return NoMatch;
    }
    var actualVal := actuals[entry.promiseMetric.value];
    var low := IfTruthy(entry.promiseLow);
    var high := IfTruthy(entry.promiseHigh);
    var assessment;
    if low.Some? && high.Some? {
      if actualVal.None? {
        return MatchRaises;
      }
      if actualVal.value >= low.value && actualVal.value <= high.value {
        assessment := Delivered;
      } else if actualVal.value > high.value {
        assessment := Exceeded;
      } else {
        assessment := Missed;
      }
    } else if low.Some? {
      if actualVal.None? {
        return MatchRaises;
      }
      assessment := if actualVal.value >= low.value then Delivered else Missed;
    } else {
      assessment := Delivered;
    }
    r := Matched(ScorecardMatch(entry.id, entry.promiseText, actualVal, entry.promiseUnit, assessment));
  }

  /** `update_scorecard`'s delta: percent from the midpoint when both bounds, the actual and the midpoint allow it. */
  function MonitorDelta(row: Option<ScorecardEntry>, actual: Option<real>): (r: Option<real>)
    ensures r.Some? <==> row.Some? && Truthy(actual) && Truthy(row.value.promiseLow) && Truthy(row.value.promiseHigh) &&
                         row.value.promiseLow.value + row.value.promiseHigh.value > 0.0
  {
    if row.Some? && Truthy(actual) && Truthy(row.value.promiseLow) && Truthy(row.value.promiseHigh) then
      var mid := (row.value.promiseLow.value + row.value.promiseHigh.value) / 2.0;
      if mid > 0.0 then Some(Round((actual.value - mid) / mid * 100.0, 2)) else None
    else None
  }

  /** The recorded delta is the percentage distance of the actual from the promise's midpoint, to two places. */
  lemma MonitorDeltaNear(row: Option<ScorecardEntry>, actual: Option<real>)
    requires MonitorDelta(row, actual).Some?
    ensures var mid := (row.value.promiseLow.value + row.value.promiseHigh.value) / 2.0;
            Abs(MonitorDelta(row, actual).value - (actual.value - mid) / mid * 100.0) * 200.0 <= 1.0
  {
    var mid := (row.value.promiseLow.value + row.value.promiseHigh.value) / 2.0;
    RoundAccuracy2((actual.value - mid) / mid * 100.0);
  }

  /** `update_scorecard`: the delta is computed from the stored bounds, then the result is written. */
  method UpdateScorecard(sc: Scorecard, entryId: int, actual: Option<real>, unit: Option<string>,
                         filingId: Option<int>, assessment: string, today: int, now: int)
    modifies sc
    ensures sc.rows == RecordResult(old(sc.rows), entryId,
                                    ScorecardResult(actual, unit, filingId, MonitorDelta(EntryById(old(sc.rows), entryId), actual), assessment),
                                    today, now)
  {
    var row := EntryById(sc.rows, entryId);
    var deltaPct := MonitorDelta(row, actual);
    sc.SetResult(entryId, ScorecardResult(actual, unit, filingId, deltaPct, assessment), today, now);
  }

  /** The scorecard after recording each match in order, each delta taken from the entry as it then stands. */
  function RecordMatches(rows: seq<ScorecardEntry>, ms: seq<ScorecardMatch>, filingId: Option<int>, today: int, now: int)
    : (r: seq<ScorecardEntry>)
    ensures |r| == |rows|
  {
    if |ms| == 0 then rows
    else
      var prev := RecordMatches(rows, ms[..|ms| - 1], filingId, today, now);
      var m := ms[|ms| - 1];
      RecordResult(prev, m.scorecardId,
                   ScorecardResult(m.actual, m.actualUnit, filingId, MonitorDelta(EntryById(prev, m.scorecardId), m.actual),
                                   AssessmentName(m.assessment)),
                   today, now)
  }

  function ScorecardAlerts(ms: seq<ScorecardMatch>): (r: seq<Alert>)
    ensures |r| == |ms| && forall i :: 0 <= i < |ms| ==> r[i] == ScorecardAlert(ms[i])
    ensures forall a :: a in r ==> a.ScorecardAlert?
  {
    if |ms| == 0 then [] else ScorecardAlerts(ms[..|ms| - 1]) + [ScorecardAlert(ms[|ms| - 1])]
  }

  /**
   * A promise is settled once: after the results are recorded, no entry
   * that was matched is still pending, so the next run does not assess it
   * again.
   */
  lemma {:induction false} RecordMatchesSettles(rows: seq<ScorecardEntry>, ms: seq<ScorecardMatch>, filingId: Option<int>,
                                                today: int, now: int, m: ScorecardMatch, i: int)
    requires m in ms && 0 <= i < |rows|
    requires RecordMatches(rows, ms, filingId, today, now)[i].id == m.scorecardId
    ensures RecordMatches(rows, ms, filingId, today, now)[i].assessment != "pending"
  {
    var init := ms[..|ms| - 1];
    var last := ms[|ms| - 1];
    var prev := RecordMatches(rows, init, filingId, today, now);
    var res := ScorecardResult(last.actual, last.actualUnit, filingId, MonitorDelta(EntryById(prev, last.scorecardId), last.actual),
                               AssessmentName(last.assessment));
    var r := RecordResult(prev, last.scorecardId, res, today, now);
    assert RecordMatches(rows, ms, filingId, today, now) == r;
    if prev[i].id != last.scorecardId {
      assert r[i] == prev[i];
      assert ms == init + [last];
      assert m in init;
      RecordMatchesSettles(rows, init, filingId, today, now, m, i);
    } else {
      assert r[i] == Record(prev[i], res, today, now);
    }
  }

  /** The scorecard step's effect: the new rows, the alerts and whether it raised. */
  function ScorecardRun(rows: seq<ScorecardEntry>, companyId: int, actuals: Actuals, filingId: Option<int>, today: int, now: int)
    : (seq<ScorecardEntry>, seq<Alert>, bool)
  {
    var pending := Pending(rows, companyId);
    if |pending| > 0 && |actuals| > 0 then
      match CheckAll(pending, actuals)
      case CheckRaised => (rows, [], true)
      case Checked(ms) => (RecordMatches(rows, ms, filingId, today, now), ScorecardAlerts(ms), false)
    else (rows, [], false)
  }

  /** The scorecard step of `monitor_thesis`. */
  method ScorecardStep(sc: Scorecard, companyId: int, actuals: Actuals, filingId: Option<int>, today: int, now: int)
    returns (alerts: seq<Alert>, raised: bool)
    modifies sc
    ensures var pending := Pending(old(sc.rows), companyId);
            if |pending| > 0 && |actuals| > 0 then
              var c := CheckAll(pending, actuals);
              (raised <==> c.CheckRaised?) &&
              (raised ==> alerts == [] && sc.rows == old(sc.rows)) &&
              (!raised ==> alerts == ScorecardAlerts(c.matches) &&
                           sc.rows == RecordMatches(old(sc.rows), c.matches, filingId, today, now))
            else !raised && alerts == [] && sc.rows == old(sc.rows)
    ensures (sc.rows, alerts, raised) == ScorecardRun(old(sc.rows), companyId, actuals, filingId, today, now)
  {
    alerts, raised := [], false;
    var pending := Pending(sc.rows, companyId);
    if |pending| > 0 && |actuals| > 0 {
      var checked := CheckScorecardAgainstActuals(pending, actuals);
      if checked.CheckRaised? {
        return [], true;
      }
      alerts := RecordAll(sc, checked.matches, filingId, today, now);
    }
  }

  /** `for sm in scorecard_matches`: each match recorded through `update_scorecard`, with its alert. */
  method RecordAll(sc: Scorecard, ms: seq<ScorecardMatch>, filingId: Option<int>, today: int, now: int)
    returns (alerts: seq<Alert>)
    modifies sc
    ensures sc.rows == RecordMatches(old(sc.rows), ms, filingId, today, now)
    ensures alerts == ScorecardAlerts(ms)
  {
    alerts := [];
    ghost var rows0 := sc.rows;
    for j := 0 to |ms|
      invariant sc.rows == RecordMatches(rows0, ms[..j], filingId, today, now)
      invariant alerts == ScorecardAlerts(ms[..j])
    {
      assert ms[..j + 1][..j] == ms[..j];
      var sm := ms[j];
      UpdateScorecard(sc, sm.scorecardId, sm.actual, sm.actualUnit, filingId, AssessmentName(sm.assessment), today, now);
      alerts := alerts + [ScorecardAlert(sm)];
    }
    assert ms[..|ms|] == ms;
  }

  // ---------------------------------------------------------------------
  // Guidance revisions per filing

  function StatementsOf(forwardStatements: map<int, seq<ForwardStatement>>, id: int): seq<ForwardStatement>
  {
    if id in forwardStatements then forwardStatements[id] else []
  }

  /**
   * The guidance loop over the new filings: each filing with forward
   * statements is checked against the guidance current after the previous
   * filings; a raise ends the loop.
   */
  /** One filing of the guidance loop: its statements checked against the guidance current before it. */
  function FilingStep(run: GuidanceRun, companyId: int, f: Filing, forwardStatements: map<int, seq<ForwardStatement>>)
    : GuidanceRun
  {
    var stmts := StatementsOf(forwardStatements, f.id);
    if |stmts| == 0 then run
    else
      var r := RunFrom(GuidanceRun(run.rows, run.nextId, [], false), LatestGuidance(run.rows, companyId),
                       companyId, stmts, f.id, f.filingDate);
      GuidanceRun(r.rows, r.nextId, run.alerts + r.alerts, r.raised)
  }

  function GuidanceFilings(run: GuidanceRun, companyId: int, filings: seq<Filing>,
                           forwardStatements: map<int, seq<ForwardStatement>>): GuidanceRun
    decreases |filings|
  {
    if |filings| == 0 || run.raised then run
    else GuidanceFilings(FilingStep(run, companyId, filings[0], forwardStatements), companyId, filings[1..], forwardStatements)
  }

  /**
   * Across all filings the guidance history only grows: earlier records
   * change only in their superseded-by link, which points to a record added
   * in this run, and ids stay serial.
   */
  lemma {:induction false} GuidanceFilingsExtends(run: GuidanceRun, companyId: int, filings: seq<Filing>,
                                                  forwardStatements: map<int, seq<ForwardStatement>>)
    requires Serial(GuidanceIds(run.rows), run.nextId)
    ensures var after := GuidanceFilings(run, companyId, filings, forwardStatements);
            Serial(GuidanceIds(after.rows), after.nextId) && Extends(run, after)
    decreases |filings|
  {
    if |filings| > 0 && !run.raised {
      var f := filings[0];
      var stmts := StatementsOf(forwardStatements, f.id);
      if |stmts| > 0 {
        var start := GuidanceRun(run.rows, run.nextId, [], false);
        var r := RunFrom(start, LatestGuidance(run.rows, companyId), companyId, stmts, f.id, f.filingDate);
        RunFromExtends(start, LatestGuidance(run.rows, companyId), companyId, stmts, f.id, f.filingDate);
        var next := FilingStep(run, companyId, f, forwardStatements);
        assert Extends(run, next);
        GuidanceFilingsExtends(next, companyId, filings[1..], forwardStatements);
        ExtendsTransitive(run, next, GuidanceFilings(next, companyId, filings[1..], forwardStatements));
      } else {
        GuidanceFilingsExtends(run, companyId, filings[1..], forwardStatements);
      }
    }
  }

  /** Appends `n` copies of decision `d` to the log. */
  method LogDecisions(log: DecisionLog, d: Decision, n: nat)
    modifies log
    ensures log.rows == old(log.rows) + seq(n, _ => d)
  {
    for k := 0 to n
      invariant log.rows == old(log.rows) + seq(k, _ => d)
    {
      log.Log(d);
    }
  }

  /** One filing of the guidance step, with a 'guidance_revision' decision per alert once the filing completes. */
  method GuidanceFilingStep(g: GuidanceHistory, log: DecisionLog, companyId: int, thesisId: int, f: Filing,
                            forwardStatements: map<int, seq<ForwardStatement>>, alertsIn: seq<GuidanceAlert>)
    returns (alerts: seq<GuidanceAlert>, raised: bool)
    requires g.Valid()
    modifies g, log
    ensures g.Valid()
    ensures GuidanceRun(g.rows, g.nextId, alerts, raised) ==
            FilingStep(GuidanceRun(old(g.rows), old(g.nextId), alertsIn, false), companyId, f, forwardStatements)
    ensures raised ==> log.rows == old(log.rows)
    ensures |alertsIn| <= |alerts|
    ensures !raised ==> log.rows == old(log.rows) + seq(|alerts| - |alertsIn|, _ => Decision(companyId, thesisId, "guidance_revision"))
  {
    alerts, raised := alertsIn, false;
    var stmts := StatementsOf(forwardStatements, f.id);
    if |stmts| > 0 {
      var guidanceAlerts, guidanceRaised := CheckGuidanceRevisions(g, companyId, stmts, f.id, f.filingDate);
      if guidanceRaised {
        return alertsIn + guidanceAlerts, true;
      }
      LogDecisions(log, Decision(companyId, thesisId, "guidance_revision"), |guidanceAlerts|);
      alerts := alertsIn + guidanceAlerts;
    }
  }

  lemma GuidanceFilingsUnfold(run: GuidanceRun, companyId: int, filings: seq<Filing>, j: nat,
                              forwardStatements: map<int, seq<ForwardStatement>>)
    requires j < |filings| && !run.raised
    ensures GuidanceFilings(run, companyId, filings[j..], forwardStatements) ==
            GuidanceFilings(FilingStep(run, companyId, filings[j], forwardStatements), companyId, filings[j + 1..], forwardStatements)
  {
    assert filings[j..][0] == filings[j] && filings[j..][1..] == filings[j + 1..];
  }

  lemma RepeatAppend<T>(base: seq<T>, a: nat, b: nat, d: T)
    ensures (base + seq(a, _ => d)) + seq(b, _ => d) == base + seq(a + b, _ => d)
  {
    assert seq(a, _ => d) + seq(b, _ => d) == seq(a + b, _ => d);
  }

  /** A log extended by copies of `d` keeps its old rows in front and holds only `d` after them. */
  lemma RepeatShape<T>(base: seq<T>, n: nat, d: T)
    ensures var r := base + seq(n, _ => d);
            |base| <= |r| && r[..|base|] == base && forall i :: |base| <= i < |r| ==> r[i] == d
  {
    var r := base + seq(n, _ => d);
    assert r[..|base|] == base;
  }

  /** `after` is `before` followed only by 'guidance_revision' decisions for the thesis. */
  ghost predicate GuidanceLogged(before: seq<Decision>, after: seq<Decision>, companyId: int, thesisId: int)
  {
    |before| <= |after| && after[..|before|] == before &&
    forall i :: |before| <= i < |after| ==> after[i] == Decision(companyId, thesisId, "guidance_revision")
  }

  /** The guidance step of `monitor_thesis`: one 'guidance_revision' decision per alert of a filing that completes. */
  method GuidanceStep(g: GuidanceHistory, log: DecisionLog, companyId: int, thesisId: int, filings: seq<Filing>,
                      forwardStatements: map<int, seq<ForwardStatement>>)
    returns (alerts: seq<GuidanceAlert>, raised: bool)
    requires g.Valid()
    modifies g, log
    ensures g.Valid()
    ensures GuidanceRun(g.rows, g.nextId, alerts, raised) ==
            GuidanceFilings(GuidanceRun(old(g.rows), old(g.nextId), [], false), companyId, filings, forwardStatements)
    ensures |old(log.rows)| <= |log.rows| && log.rows[..|old(log.rows)|] == old(log.rows)
    ensures forall i :: |old(log.rows)| <= i < |log.rows| ==> log.rows[i] == Decision(companyId, thesisId, "guidance_revision")
    ensures !raised ==> |log.rows| == |old(log.rows)| + |alerts|
    ensures Extends(GuidanceRun(old(g.rows), old(g.nextId), [], false), GuidanceRun(g.rows, g.nextId, [], false))
  {
    GuidanceFilingsExtends(GuidanceRun(g.rows, g.nextId, [], false), companyId, filings, forwardStatements);
    ghost var final := GuidanceFilings(GuidanceRun(g.rows, g.nextId, [], false), companyId, filings, forwardStatements);
    ghost var log0 := log.rows;
    ghost var d := Decision(companyId, thesisId, "guidance_revision");
    alerts := [];
    for j := 0 to |filings|
      invariant g.Valid()
      invariant GuidanceFilings(GuidanceRun(g.rows, g.nextId, alerts, false), companyId, filings[j..], forwardStatements) == final
      invariant log.rows == log0 + seq(|alerts|, _ => d)
    {
      GuidanceFilingsUnfold(GuidanceRun(g.rows, g.nextId, alerts, false), companyId, filings, j, forwardStatements);
      ghost var alertsBefore := alerts;
      var guidanceRaised;
      alerts, guidanceRaised := GuidanceFilingStep(g, log, companyId, thesisId, filings[j], forwardStatements, alerts);
      if guidanceRaised {
        assert GuidanceRun(g.rows, g.nextId, alerts, true) == final;
        RepeatShape(log0, |alertsBefore|, d);
        return alerts, true;
      }
      RepeatAppend(log0, |alertsBefore|, |alerts| - |alertsBefore|, d);
    }
    assert filings[|filings|..] == [];
    RepeatShape(log0, |alerts|, d);
    raised := false;
  }

  // ---------------------------------------------------------------------
  // Hypothesis updates

  /** An interpreted update; each field may be missing, and defaults apply. */
  datatype HypothesisUpdate = HypothesisUpdate(
    hypothesisId: Option<int>,
    direction: Option<string>,
    evidence: Option<string>,
    newStatus: Option<string>,
    newConfidence: Option<real>)

  predicate Applicable(u: HypothesisUpdate)
  {
    u.hypothesisId.Some? && u.hypothesisId.value != 0
  }

  function StatusOf(u: HypothesisUpdate): string
  {
    if u.newStatus.Some? then u.newStatus.value else "active"
  }

  function ConfidenceOf(u: HypothesisUpdate): real
  {
    if u.newConfidence.Some? then u.newConfidence.value else 50.0
  }

  function EvidenceOf(u: HypothesisUpdate, sourceId: Option<int>, sourceDate: int): EvidenceEntry
    requires Applicable(u)
  {
    EvidenceEntry(u.hypothesisId.value, if u.direction.Some? then u.direction.value else "for",
                  if u.evidence.Some? then u.evidence.value else "", "filing", sourceId, sourceDate)
  }

  /** The monitor changes a hypothesis row only for a status other than 'active'. */
  predicate ChangesStatus(u: HypothesisUpdate)
  {
    Applicable(u) && StatusOf(u) != "active"
  }

  /** One evidence row per update that names a hypothesis, in order. */
  function EvidenceLog(us: seq<HypothesisUpdate>, sourceId: Option<int>, sourceDate: int): (r: seq<EvidenceEntry>)
    ensures |r| <= |us|
  {
    if |us| == 0 then []
    else
      LogOne(EvidenceLog(us[..|us| - 1], sourceId, sourceDate), us[|us| - 1], sourceId, sourceDate)
  }

  /** Every update that names a hypothesis leaves an evidence row. */
  function LogOne(log: seq<EvidenceEntry>, u: HypothesisUpdate, sourceId: Option<int>, sourceDate: int): seq<EvidenceEntry>
  {
    if Applicable(u) then log + [EvidenceOf(u, sourceId, sourceDate)] else log
  }

  function StatusRows(rows: seq<Hypothesis>, us: seq<HypothesisUpdate>, now: int): (r: seq<Hypothesis>)
    ensures |r| == |rows|
  {
    if |us| == 0 then rows
    else
      ChangeOne(StatusRows(rows, us[..|us| - 1], now), us[|us| - 1], now)
  }

  /** One update applied the monitor's way: only a status other than 'active' is written. */
  function ChangeOne(rows: seq<Hypothesis>, u: HypothesisUpdate, now: int): seq<Hypothesis>
  {
    if ChangesStatus(u) then SetStatus(rows, u.hypothesisId.value, StatusOf(u), ConfidenceOf(u), now) else rows
  }

  function HypothesisAlerts(us: seq<HypothesisUpdate>): (r: seq<Alert>)
    ensures forall a :: a in r ==> a.HypothesisAlert? && a.status != "active"
  {
    if |us| == 0 then []
    else
      AlertOne(HypothesisAlerts(us[..|us| - 1]), us[|us| - 1])
  }

  /** A status change raises an alert. */
  function AlertOne(alerts: seq<Alert>, u: HypothesisUpdate): seq<Alert>
  {
    if ChangesStatus(u)
    then alerts + [HypothesisAlert(u.hypothesisId.value, StatusOf(u), ConfidenceOf(u), if u.evidence.Some? then u.evidence.value else "")]
    else alerts
  }

  /**
   * A hypothesis no update moves off 'active' keeps its row; one that is
   * moved takes the status and confidence of the last such update, as
   * given (no clamping, no minimum step).
   */
  lemma {:induction false} StatusRowsEffect(rows: seq<Hypothesis>, us: seq<HypothesisUpdate>, now: int, i: int)
    requires 0 <= i < |rows|
    ensures var r := StatusRows(rows, us, now);
            ((forall u :: u in us && ChangesStatus(u) ==> u.hypothesisId.value != rows[i].id) ==> r[i] == rows[i]) &&
            (|us| > 0 && ChangesStatus(us[|us| - 1]) && us[|us| - 1].hypothesisId.value == rows[i].id ==>
               r[i].status == StatusOf(us[|us| - 1]) && r[i].confidence == ConfidenceOf(us[|us| - 1]))
  {
    if |us| > 0 {
      StatusRowsEffect(rows, us[..|us| - 1], now, i);
      var prev := StatusRows(rows, us[..|us| - 1], now);
      assert prev[i].id == rows[i].id by {
        StatusRowsKeepIds(rows, us[..|us| - 1], now, i);
      }
    }
  }

  lemma {:induction false} StatusRowsKeepIds(rows: seq<Hypothesis>, us: seq<HypothesisUpdate>, now: int, i: int)
    requires 0 <= i < |rows|
    ensures StatusRows(rows, us, now)[i].id == rows[i].id
  {
    if |us| > 0 {
      StatusRowsKeepIds(rows, us[..|us| - 1], now, i);
    }
  }

  /** The hypothesis loop of `monitor_thesis`. */
  method ApplyHypothesisUpdates(hy: Hypotheses, us: seq<HypothesisUpdate>, sourceId: Option<int>, sourceDate: int, now: int)
    returns (alerts: seq<Alert>)
    modifies hy
    ensures hy.evidence == old(hy.evidence) + EvidenceLog(us, sourceId, sourceDate)
    ensures hy.rows == StatusRows(old(hy.rows), us, now)
    ensures alerts == HypothesisAlerts(us)
  {
    alerts := [];
    ghost var rows0, log0 := hy.rows, hy.evidence;
    for i := 0 to |us|
      invariant hy.evidence == log0 + EvidenceLog(us[..i], sourceId, sourceDate)
      invariant hy.rows == StatusRows(rows0, us[..i], now)
      invariant alerts == HypothesisAlerts(us[..i])
    {
      HypothesisUpdatesStep(rows0, us, i, sourceId, sourceDate, now);
      alerts := ApplyHypothesisUpdate(hy, us[i], sourceId, sourceDate, now, alerts);
      LogOneAfter(log0, EvidenceLog(us[..i], sourceId, sourceDate), us[i], sourceId, sourceDate);
    }
    assert us[..|us|] == us;
  }

  lemma HypothesisUpdatesStep(rows: seq<Hypothesis>, us: seq<HypothesisUpdate>, i: nat, sourceId: Option<int>, sourceDate: int, now: int)
    requires i < |us|
    ensures EvidenceLog(us[..i + 1], sourceId, sourceDate) == LogOne(EvidenceLog(us[..i], sourceId, sourceDate), us[i], sourceId, sourceDate)
    ensures StatusRows(rows, us[..i + 1], now) == ChangeOne(StatusRows(rows, us[..i], now), us[i], now)
    ensures HypothesisAlerts(us[..i + 1]) == AlertOne(HypothesisAlerts(us[..i]), us[i])
  {
    assert us[..i + 1][..i] == us[..i];
  }

  lemma LogOneAfter(log0: seq<EvidenceEntry>, log: seq<EvidenceEntry>, u: HypothesisUpdate, sourceId: Option<int>, sourceDate: int)
    ensures LogOne(log0 + log, u, sourceId, sourceDate) == log0 + LogOne(log, u, sourceId, sourceDate)
  {
    if Applicable(u) {
      assert log0 + log + [EvidenceOf(u, sourceId, sourceDate)] == log0 + (log + [EvidenceOf(u, sourceId, sourceDate)]);
    }
  }

  /** One pass of the hypothesis loop: evidence for every named hypothesis, a status change and an alert only off 'active'. */
  method ApplyHypothesisUpdate(hy: Hypotheses, update: HypothesisUpdate, sourceId: Option<int>, sourceDate: int, now: int,
                               alerts: seq<Alert>)
    returns (alerts': seq<Alert>)
    modifies hy
    ensures hy.evidence == LogOne(old(hy.evidence), update, sourceId, sourceDate)
    ensures hy.rows == ChangeOne(old(hy.rows), update, now)
    ensures alerts' == AlertOne(alerts, update)
  {
    alerts' := alerts;
    if update.hypothesisId.None? || update.hypothesisId.value == 0 {
      return;
    }
    var hypoId := update.hypothesisId.value;
    var direction := if update.direction.Some? then update.direction.value else "for";
    var evidenceText := if update.evidence.Some? then update.evidence.value else "";
    var newStatus := if update.newStatus.Some? then update.newStatus.value else "active";
    var newConfidence := if update.newConfidence.Some? then update.newConfidence.value else 50.0;
    hy.LogEvidence(EvidenceEntry(hypoId, direction, evidenceText, "filing", sourceId, sourceDate));
    if newStatus != "active" {
      hy.UpdateStatus(hypoId, newStatus, newConfidence, now);
      alerts' := alerts' + [HypothesisAlert(hypoId, newStatus, newConfidence, evidenceText)];
    }
  }

  /** The hypotheses step reads its source from the first new filing, if any. */
  function SourceIdOf(filings: seq<Filing>): Option<int>
  {
    if |filings| > 0 then Some(filings[0].id) else None
  }

  function SourceDateOf(filings: seq<Filing>, today: int): int
  {
    if |filings| > 0 then filings[0].filingDate else today
  }

  /** The hypotheses step's effect: the new rows, the new evidence log and the alerts. */
  function HypothesisRun(rows: seq<Hypothesis>, evidence: seq<EvidenceEntry>, thesisId: int, us: seq<HypothesisUpdate>,
                         sourceId: Option<int>, sourceDate: int, now: int)
    : (seq<Hypothesis>, seq<EvidenceEntry>, seq<Alert>)
  {
    if |WithStatus(rows, thesisId, {"active"})| > 0 then
      (StatusRows(rows, us, now), evidence + EvidenceLog(us, sourceId, sourceDate), HypothesisAlerts(us))
    else (rows, evidence, [])
  }

  /** The hypotheses step of `monitor_thesis`: updates apply only while the thesis has an active hypothesis. */
  method HypothesisStep(hy: Hypotheses, thesisId: int, filings: seq<Filing>, interpreted: seq<HypothesisUpdate>,
                        today: int, now: int)
    returns (alerts: seq<Alert>)
    modifies hy
    ensures if |WithStatus(old(hy.rows), thesisId, {"active"})| > 0 then
              hy.evidence == old(hy.evidence) + EvidenceLog(interpreted, SourceIdOf(filings), SourceDateOf(filings, today)) &&
              hy.rows == StatusRows(old(hy.rows), interpreted, now) &&
              alerts == HypothesisAlerts(interpreted)
            else alerts == [] && hy.rows == old(hy.rows) && hy.evidence == old(hy.evidence)
    ensures (hy.rows, hy.evidence, alerts) ==
            HypothesisRun(old(hy.rows), old(hy.evidence), thesisId, interpreted, SourceIdOf(filings), SourceDateOf(filings, today), now)
  {
    alerts := [];
    var hypotheses := WithStatus(hy.rows, thesisId, {"active"});
    if |hypotheses| > 0 {
      alerts := ApplyHypothesisUpdates(hy, interpreted, SourceIdOf(filings), SourceDateOf(filings, today), now);
    }
  }

  // ---------------------------------------------------------------------
  // monitor_thesis

  /** The kill step's effect on the criteria table and its alerts. */
  function KillRun(rows: seq<KillRow>, thesisId: int, actuals: Actuals, today: int): (seq<KillRow>, seq<Alert>)
  {
    var crit := Untriggered(rows, thesisId);
    if |crit| > 0 && |actuals| > 0 then (MarkFired(rows, crit, actuals, "Actual", today), KillAlerts(crit, actuals))
    else (rows, [])
  }

  /**
   * The steps of `monitor_thesis` after the kill criteria: scorecard,
   * guidance and hypotheses, then the thesis is stamped. `raised` reports a
   * `TypeError` from the scorecard or guidance step, after which nothing
   * further is written.
   */
  method MonitorRest(thesisId: int, companyId: int, d: NewData, actuals: Actuals,
                     forwardStatements: map<int, seq<ForwardStatement>>, interpreted: seq<HypothesisUpdate>,
                     today: int, now: int,
                     g: GuidanceHistory, sc: Scorecard, hy: Hypotheses, log: DecisionLog, theses: InvestmentTheses)
    returns (alerts: seq<Alert>, raised: bool)
    requires g.Valid()
    modifies g, sc, hy, log, theses
    ensures g.Valid()
    ensures Extends(GuidanceRun(old(g.rows), old(g.nextId), [], false), GuidanceRun(g.rows, g.nextId, [], false))
    ensures forall a :: a in alerts ==> !a.KillAlert?
    ensures !raised ==> theses.rows == Touch(old(theses.rows), thesisId, now)
    ensures raised ==> theses.rows == old(theses.rows)
    ensures sc.rows == ScorecardRun(old(sc.rows), companyId, actuals, SourceIdOf(d.filings), today, now).0
    ensures var gr := GuidanceFilings(GuidanceRun(old(g.rows), old(g.nextId), [], false), companyId, d.filings, forwardStatements);
            raised <==> ScorecardRun(old(sc.rows), companyId, actuals, SourceIdOf(d.filings), today, now).2 || gr.raised
    ensures ScorecardRun(old(sc.rows), companyId, actuals, SourceIdOf(d.filings), today, now).2 ==>
              g.rows == old(g.rows) && g.nextId == old(g.nextId) && log.rows == old(log.rows)
    ensures var gr := GuidanceFilings(GuidanceRun(old(g.rows), old(g.nextId), [], false), companyId, d.filings, forwardStatements);
            !ScorecardRun(old(sc.rows), companyId, actuals, SourceIdOf(d.filings), today, now).2 ==>
              g.rows == gr.rows && g.nextId == gr.nextId && GuidanceLogged(old(log.rows), log.rows, companyId, thesisId)
    ensures raised ==> hy.rows == old(hy.rows) && hy.evidence == old(hy.evidence)
    ensures var hr := HypothesisRun(old(hy.rows), old(hy.evidence), thesisId, interpreted,
                                    SourceIdOf(d.filings), SourceDateOf(d.filings, today), now);
            !raised ==> hy.rows == hr.0 && hy.evidence == hr.1
    ensures var gr := GuidanceFilings(GuidanceRun(old(g.rows), old(g.nextId), [], false), companyId, d.filings, forwardStatements);
            var hr := HypothesisRun(old(hy.rows), old(hy.evidence), thesisId, interpreted,
                                    SourceIdOf(d.filings), SourceDateOf(d.filings, today), now);
            !raised ==> |log.rows| == |old(log.rows)| + |gr.alerts| &&
                        alerts == ScorecardRun(old(sc.rows), companyId, actuals, SourceIdOf(d.filings), today, now).1 +
                                  (GuidanceAlertsOf(gr.alerts) + hr.2)
  {
    // 2. management scorecard
    var scoreAlerts, scoreRaised := ScorecardStep(sc, companyId, actuals, SourceIdOf(d.filings), today, now);
    if scoreRaised {
      GuidanceUnchanged(g.rows, g.nextId);
      return [], true;
    }
    var rest;
    rest, raised := GuidanceThenHypotheses(thesisId, companyId, d, forwardStatements, interpreted, today, now, g, hy, log, theses);
    alerts := scoreAlerts + rest;
  }

  /** Steps 3 and 4 of `monitor_thesis` and the final stamp; a raise in the guidance step ends the run. */
  method GuidanceThenHypotheses(thesisId: int, companyId: int, d: NewData,
                                forwardStatements: map<int, seq<ForwardStatement>>, interpreted: seq<HypothesisUpdate>,
                                today: int, now: int,
                                g: GuidanceHistory, hy: Hypotheses, log: DecisionLog, theses: InvestmentTheses)
    returns (alerts: seq<Alert>, raised: bool)
    requires g.Valid()
    modifies g, hy, log, theses
    ensures g.Valid()
    ensures Extends(GuidanceRun(old(g.rows), old(g.nextId), [], false), GuidanceRun(g.rows, g.nextId, [], false))
    ensures forall a :: a in alerts ==> !a.KillAlert?
    ensures var gr := GuidanceFilings(GuidanceRun(old(g.rows), old(g.nextId), [], false), companyId, d.filings, forwardStatements);
            g.rows == gr.rows && g.nextId == gr.nextId && raised == gr.raised &&
            GuidanceLogged(old(log.rows), log.rows, companyId, thesisId)
    ensures raised ==> hy.rows == old(hy.rows) && hy.evidence == old(hy.evidence) && theses.rows == old(theses.rows)
    ensures var gr := GuidanceFilings(GuidanceRun(old(g.rows), old(g.nextId), [], false), companyId, d.filings, forwardStatements);
            var hr := HypothesisRun(old(hy.rows), old(hy.evidence), thesisId, interpreted,
                                    SourceIdOf(d.filings), SourceDateOf(d.filings, today), now);
            !raised ==> hy.rows == hr.0 && hy.evidence == hr.1 && theses.rows == Touch(old(theses.rows), thesisId, now) &&
                        |log.rows| == |old(log.rows)| + |gr.alerts| && alerts == GuidanceAlertsOf(gr.alerts) + hr.2
  {
    // 3. guidance revisions
    var guidanceAlerts, guidanceRaised := GuidanceStep(g, log, companyId, thesisId, d.filings, forwardStatements);
    alerts := GuidanceAlertsOf(guidanceAlerts);
    if guidanceRaised {
      return alerts, true;
    }

    // 4. hypotheses
    var hypothesisAlerts := HypothesisStep(hy, thesisId, d.filings, interpreted, today, now);
    alerts := alerts + hypothesisAlerts;

    theses.Stamp(thesisId, now);
    raised := false;
  }

  /**
   * `monitor_thesis`: silent with nothing new; otherwise the kill criteria
   * are checked first, then the remaining steps run. Every kill alert is
   * one-shot: armed before the run, disarmed after it.
   */
  method MonitorThesis(thesisId: int, companyId: int, d: NewData,
                       filingMetrics: map<int, seq<MetricRow>>, forwardStatements: map<int, seq<ForwardStatement>>,
                       interpreted: seq<HypothesisUpdate>, today: int, now: int,
                       g: GuidanceHistory, kc: KillCriteria, sc: Scorecard, hy: Hypotheses,
                       log: DecisionLog, theses: InvestmentTheses)
    returns (alerts: seq<Alert>, raised: bool)
    requires g.Valid()
    modifies g, kc, sc, hy, log, theses
    ensures g.Valid()
    ensures NothingNew(d) ==> alerts == [] && !raised && unchanged(g, kc, sc, hy, log, theses)
    ensures !NothingNew(d) ==>
              var kill := KillRun(old(kc.rows), thesisId, MergedActuals(d, filingMetrics, |d.filings|), today);
              kc.rows == kill.0 && kill.1 <= alerts
    ensures Extends(GuidanceRun(old(g.rows), old(g.nextId), [], false), GuidanceRun(g.rows, g.nextId, [], false))
    ensures !NothingNew(d) && !raised ==> theses.rows == Touch(old(theses.rows), thesisId, now)
    ensures raised ==> theses.rows == old(theses.rows)
    ensures |kc.rows| == |old(kc.rows)|
    ensures forall i :: 0 <= i < |kc.rows| && old(kc.rows[i]).triggered ==> kc.rows[i].triggered
    ensures KillSafe(alerts, old(kc.rows), kc.rows, thesisId)
    ensures !NothingNew(d) ==>
              var actuals := MergedActuals(d, filingMetrics, |d.filings|);
              var kill := KillRun(old(kc.rows), thesisId, actuals, today);
              var killLog := old(log.rows) + seq(|kill.1|, _ => Decision(companyId, thesisId, "kill_triggered"));
              var sr := ScorecardRun(old(sc.rows), companyId, actuals, SourceIdOf(d.filings), today, now);
              var gr := GuidanceFilings(GuidanceRun(old(g.rows), old(g.nextId), [], false), companyId, d.filings, forwardStatements);
              var hr := HypothesisRun(old(hy.rows), old(hy.evidence), thesisId, interpreted,
                                      SourceIdOf(d.filings), SourceDateOf(d.filings, today), now);
              sc.rows == sr.0 &&
              (raised <==> sr.2 || gr.raised) &&
              (sr.2 ==> g.rows == old(g.rows) && g.nextId == old(g.nextId) && log.rows == killLog) &&
              (!sr.2 ==> g.rows == gr.rows && g.nextId == gr.nextId && GuidanceLogged(killLog, log.rows, companyId, thesisId)) &&
              (raised ==> hy.rows == old(hy.rows) && hy.evidence == old(hy.evidence)) &&
              (!raised ==> hy.rows == hr.0 && hy.evidence == hr.1 &&
                           |log.rows| == |killLog| + |gr.alerts| &&
                           alerts == kill.1 + (sr.1 + (GuidanceAlertsOf(gr.alerts) + hr.2)))
  {
    if NothingNew(d) {
      GuidanceUnchanged(g.rows, g.nextId);
      return [], false;
    }
    var actuals := BuildActuals(d, filingMetrics);

    // 1. kill criteria
    ghost var kill0 := kc.rows;
    alerts := CheckKills(kc, log, companyId, thesisId, actuals, "Actual", today);
    KillFacts(kill0, thesisId, actuals, today);
    assert KillSafe(alerts, kill0, kc.rows, thesisId);

    assert alerts == KillRun(kill0, thesisId, actuals, today).1;
    assert log.rows == old(log.rows) + seq(|alerts|, _ => Decision(companyId, thesisId, "kill_triggered"));
    assert sc.rows == old(sc.rows) && g.rows == old(g.rows) && g.nextId == old(g.nextId);
    assert hy.rows == old(hy.rows) && hy.evidence == old(hy.evidence);

    ghost var sr := ScorecardRun(sc.rows, companyId, actuals, SourceIdOf(d.filings), today, now);
    ghost var gr := GuidanceFilings(GuidanceRun(g.rows, g.nextId, [], false), companyId, d.filings, forwardStatements);
    ghost var hr := HypothesisRun(hy.rows, hy.evidence, thesisId, interpreted, SourceIdOf(d.filings), SourceDateOf(d.filings, today), now);
    var rest;
    rest, raised := MonitorRest(thesisId, companyId, d, actuals, forwardStatements, interpreted, today, now,
                                g, sc, hy, log, theses);
    KillSafeAppend(alerts, rest, kill0, kc.rows, thesisId);
    alerts := alerts + rest;
  }

  /** Every kill alert names a criterion that was armed before the run and is disarmed after it. */
  ghost predicate KillSafe(alerts: seq<Alert>, before: seq<KillRow>, after: seq<KillRow>, thesisId: int)
  {
    forall a :: a in alerts && a.KillAlert? ==> Armed(before, thesisId, a.criterionId) && Disarmed(after, a.criterionId)
  }

  lemma KillSafeAppend(alerts: seq<Alert>, extra: seq<Alert>, before: seq<KillRow>, after: seq<KillRow>, thesisId: int)
    requires KillSafe(alerts, before, after, thesisId)
    requires forall a :: a in extra ==> !a.KillAlert?
    ensures KillSafe(alerts + extra, before, after, thesisId)
  {
  }

  function GuidanceAlertsOf(gs: seq<GuidanceAlert>): (r: seq<Alert>)
    ensures |r| == |gs| && forall i :: 0 <= i < |gs| ==> r[i] == GuidanceRevisionAlert(gs[i])
    ensures forall a :: a in r ==> a.GuidanceRevisionAlert?
  {
    if |gs| == 0 then [] else GuidanceAlertsOf(gs[..|gs| - 1]) + [GuidanceRevisionAlert(gs[|gs| - 1])]
  }

  lemma GuidanceUnchanged(rows: seq<GuidanceRecord>, nextId: int)
    ensures Extends(GuidanceRun(rows, nextId, [], false), GuidanceRun(rows, nextId, [], false))
  {
  }

  /** What the kill step guarantees, from `KillOneShot` and monotonicity. */
  lemma KillFacts(rows: seq<KillRow>, thesisId: int, actuals: Actuals, today: int)
    ensures var kill := KillRun(rows, thesisId, actuals, today);
            |kill.0| == |rows| &&
            (forall i :: 0 <= i < |rows| && rows[i].triggered ==> kill.0[i].triggered) &&
            (forall a :: a in kill.1 ==> a.KillAlert? && Armed(rows, thesisId, a.criterionId) && Disarmed(kill.0, a.criterionId))
  {
    var crit := Untriggered(rows, thesisId);
    if |crit| > 0 && |actuals| > 0 {
      KillOneShot(rows, thesisId, actuals, actuals, "Actual", today);
      MarkFiredMonotone(rows, crit, actuals, "Actual", today);
    }
  }
}
