/**
 * Guidance-revision detection of the thesis monitor
 * (`check_guidance_revisions` and `get_latest_guidance` in `monitor.py`).
 * Each forward statement whose category maps to a guidance metric is
 * compared with the metric's current record: changes under 2 % are
 * dropped, anything else is inserted and supersedes the prior record, and
 * changes over 15 % raise an alert. The current records are read once per
 * call, so every statement of a batch is compared with the records that
 * were current when the call started.
 */
module GuidanceRevisions {
  import opened Wrappers
  import opened PyNum
  import opened Text
  import opened ResearchDb

  // ---------------------------------------------------------------------
  // Category mapping

  /** The category table, in the order its keys are tried as substrings. */
  const CategoryTable: seq<(string, string)> := [
    ("capital_expenditure", "capex_guidance"),
    ("capex", "capex_guidance"),
    ("production", "production_guidance"),
    ("production_guidance", "production_guidance"),
    ("debt_reduction", "debt_reduction_target"),
    ("debt", "debt_reduction_target"),
    ("rig_count", "rig_count_guidance")]

  const GuidanceMetrics: set<string> :=
    {"capex_guidance", "production_guidance", "debt_reduction_target", "rig_count_guidance"}

  /** The statement category lower-cased with spaces turned into underscores; missing reads as empty. */
  function NormalizeCategory(category: Option<string>): (r: string)
    ensures |r| == if category.Some? then |category.value| else 0
    ensures ' ' !in r
  {
    var c := if category.Some? then category.value else "";
    var r := ReplaceChar(Lower(c), ' ', '_');
    assert forall i :: 0 <= i < |r| ==> r[i] != ' ';
    r
  }

  function ExactLookup(table: seq<(string, string)>, k: string): (r: Option<string>)
    ensures r.Some? ==> exists i :: 0 <= i < |table| && table[i].0 == k && table[i].1 == r.value
    ensures r.None? ==> forall i :: 0 <= i < |table| ==> table[i].0 != k
  {
    if |table| == 0 then None
    else if table[0].0 == k then Some(table[0].1)
    else
      var r := ExactLookup(table[1..], k);
      assert r.Some? ==> exists i :: 1 <= i < |table| && table[i].0 == k && table[i].1 == r.value by {
        if r.Some? {
          var j :| 0 <= j < |table[1..]| && table[1..][j].0 == k && table[1..][j].1 == r.value;
          assert table[j + 1] == table[1..][j];
        }
      }
      r
  }

  /** The value of the first key (in table order) that occurs inside `category`. */
  function FirstKeyIn(table: seq<(string, string)>, category: string): (r: Option<string>)
    ensures r.Some? ==> exists i :: 0 <= i < |table| && Contains(category, table[i].0) && table[i].1 == r.value
    ensures r.None? ==> forall i :: 0 <= i < |table| ==> !Contains(category, table[i].0)
  {
    if |table| == 0 then None
    else if Contains(category, table[0].0) then Some(table[0].1)
    else
      var r := FirstKeyIn(table[1..], category);
      assert r.Some? ==> exists i :: 1 <= i < |table| && Contains(category, table[i].0) && table[i].1 == r.value by {
        if r.Some? {
          var j :| 0 <= j < |table[1..]| && Contains(category, table[1..][j].0) && table[1..][j].1 == r.value;
          assert table[j + 1] == table[1..][j];
        }
      }
      r
  }

  lemma ContainsSelf(s: string)
    ensures Contains(s, s)
  {
    assert OccursAt(s, s, 0);
  }

  /** An exact key of `table` first, then the first key that is a substring of `c`. */
  function MapCategory(table: seq<(string, string)>, c: string): (r: Option<string>)
    ensures r.Some? ==> exists i :: 0 <= i < |table| && table[i].1 == r.value
    ensures r.Some? <==> exists i :: 0 <= i < |table| && Contains(c, table[i].0)
  {
    var exact := ExactLookup(table, c);
    if exact.Some? then
      ContainsSelf(c);
      exact
    else FirstKeyIn(table, c)
  }

  lemma CategoryTableValues()
    ensures forall i :: 0 <= i < |CategoryTable| ==> CategoryTable[i].1 in GuidanceMetrics
  {
  }

  /** The guidance metric a statement category maps to. */
  function MetricFor(category: Option<string>): (r: Option<string>)
    ensures r.Some? ==> r.value in GuidanceMetrics
    ensures r.Some? <==> exists i :: 0 <= i < |CategoryTable| && Contains(NormalizeCategory(category), CategoryTable[i].0)
  {
    CategoryTableValues();
    MapCategory(CategoryTable, NormalizeCategory(category))
  }

  /** A capitalised category still finds its exact key. */
  lemma MetricForCapex()
    ensures MetricFor(Some("Capex")) == Some("capex_guidance")
  {
    CapexNormalized();
    assert CategoryTable[0].0 != "capex";
    assert CategoryTable[1] == ("capex", "capex_guidance");
    assert ExactLookup(CategoryTable[1..], "capex") == Some("capex_guidance");
    assert ExactLookup(CategoryTable, "capex") == Some("capex_guidance");
  }

  lemma CapexNormalized()
    ensures NormalizeCategory(Some("Capex")) == "capex"
  {
    var lowered := Lower("Capex");
    assert lowered == "capex";
    assert ReplaceChar(lowered, ' ', '_') == "capex";
  }

  /** A spaced, capitalised category finds its exact key with the space turned into an underscore. */
  lemma MetricForRigCount()
    ensures MetricFor(Some("Rig Count")) == Some("rig_count_guidance")
  {
    RigCountNormalized();
    var t := CategoryTable;
    assert t[6] == ("rig_count", "rig_count_guidance");
    assert ExactLookup(t[6..], "rig_count") == Some("rig_count_guidance");
    LookupSkipsShorterOrLonger(t[5..], "rig_count");
    assert t[5..][1..] == t[6..];
    LookupSkipsShorterOrLonger(t[4..], "rig_count");
    assert t[4..][1..] == t[5..];
    LookupSkipsShorterOrLonger(t[3..], "rig_count");
    assert t[3..][1..] == t[4..];
    LookupSkipsShorterOrLonger(t[2..], "rig_count");
    assert t[2..][1..] == t[3..];
    LookupSkipsShorterOrLonger(t[1..], "rig_count");
    assert t[1..][1..] == t[2..];
    LookupSkipsShorterOrLonger(t, "rig_count");
  }

  /** A first key of another length is passed over. */
  lemma LookupSkipsShorterOrLonger(table: seq<(string, string)>, k: string)
    requires |table| > 0 && |table[0].0| != |k|
    ensures ExactLookup(table, k) == ExactLookup(table[1..], k)
  {
  }

  lemma RigCountNormalized()
    ensures NormalizeCategory(Some("Rig Count")) == "rig_count"
  {
    var lowered := Lower("Rig Count");
    assert lowered == "rig count";
    assert ReplaceChar(lowered, ' ', '_') == "rig_count";
  }

  // ---------------------------------------------------------------------
  // Current records

  /**
   * The current record per metric: the latest non-superseded record of the
   * company (an earlier row wins a tie on the date).
   */
  function LatestGuidance(rows: seq<GuidanceRecord>, companyId: int): map<string, GuidanceRecord>
  {
    if |rows| == 0 then map[]
    else
      var prev := LatestGuidance(rows[..|rows| - 1], companyId);
      var g := rows[|rows| - 1];
      if g.companyId == companyId && g.supersededBy.None? &&
         (g.metricName !in prev || prev[g.metricName].sourceDate < g.sourceDate)
      then prev[g.metricName := g]
      else prev
  }

  /** One more row either becomes its metric's record or leaves the selection as it was. */
  lemma LatestGuidanceStep(rows: seq<GuidanceRecord>, companyId: int)
    requires |rows| > 0
    ensures var prev := LatestGuidance(rows[..|rows| - 1], companyId);
            var g := rows[|rows| - 1];
            LatestGuidance(rows, companyId) ==
              if g.companyId == companyId && g.supersededBy.None? &&
                 (g.metricName !in prev || prev[g.metricName].sourceDate < g.sourceDate)
              then prev[g.metricName := g] else prev
  {
  }

  /** Each selected record is a non-superseded record of the company filed under its metric. */
  lemma {:induction false} LatestGuidanceSound(rows: seq<GuidanceRecord>, companyId: int)
    ensures var r := LatestGuidance(rows, companyId);
            forall m :: m in r ==>
              r[m] in rows && r[m].companyId == companyId && r[m].metricName == m && r[m].supersededBy.None?
  {
    if |rows| > 0 {
      var init := rows[..|rows| - 1];
      LatestGuidanceSound(init, companyId);
      LatestGuidanceStep(rows, companyId);
      var prev := LatestGuidance(init, companyId);
      var r := LatestGuidance(rows, companyId);
      var g := rows[|rows| - 1];
      forall m | m in r
        ensures r[m] in rows && r[m].companyId == companyId && r[m].metricName == m && r[m].supersededBy.None?
      {
        if r[m] != g {
          assert m in prev && r[m] == prev[m];
          assert prev[m] in init;
        }
      }
    }
  }

  /**
   * Each selected record is a non-superseded record of the company filed
   * under its metric, and no such record of the metric is dated later.
   */
  lemma {:induction false} LatestGuidanceIsLatest(rows: seq<GuidanceRecord>, companyId: int)
    ensures var r := LatestGuidance(rows, companyId);
            forall m :: m in r ==>
              r[m] in rows && r[m].companyId == companyId && r[m].metricName == m && r[m].supersededBy.None?
    ensures var r := LatestGuidance(rows, companyId);
            forall i :: 0 <= i < |rows| && rows[i].companyId == companyId && rows[i].supersededBy.None? ==>
              rows[i].metricName in r && rows[i].sourceDate <= r[rows[i].metricName].sourceDate
  {
    LatestGuidanceSound(rows, companyId);
    if |rows| > 0 {
      var init := rows[..|rows| - 1];
      LatestGuidanceIsLatest(init, companyId);
      LatestGuidanceStep(rows, companyId);
      var r := LatestGuidance(rows, companyId);
      forall i | 0 <= i < |rows| && rows[i].companyId == companyId && rows[i].supersededBy.None?
        ensures rows[i].metricName in r && rows[i].sourceDate <= r[rows[i].metricName].sourceDate
      {
        if i < |rows| - 1 {
          assert rows[i] == init[i];
        }
      }
    }
  }

  // ---------------------------------------------------------------------
  // One statement

  datatype ForwardStatement = ForwardStatement(
    category: Option<string>,
    quantitativeValue: Option<real>,
    valueUnit: Option<string>,
    timeframe: Option<string>)

  /** The prior midpoint, or the `TypeError` raised by `float(None)` when only the high bound is set. */
  datatype PriorMid = Mid(value: real) | LowMissing

  function PriorMidOf(prior: GuidanceRecord): (r: PriorMid)
    ensures r.LowMissing? <==> prior.low.None? && Truthy(prior.high)
    ensures r.Mid? && Truthy(prior.high) ==> r.value == (prior.low.value + prior.high.value) / 2.0
    ensures r.Mid? && !Truthy(prior.high) ==> r.value == if prior.low.Some? then prior.low.value else 0.0
  {
    if Truthy(prior.high) then
      if prior.low.Some? then Mid((prior.low.value + prior.high.value) / 2.0) else LowMissing
    else Mid(if prior.low.Some? then prior.low.value else 0.0)
  }

  /** The revision in percent to 0.01, defined only for a positive prior midpoint. */
  function RevisionPct(priorMid: real, newMid: real): (r: Option<real>)
    ensures r.Some? <==> priorMid > 0.0
    ensures r.Some? ==> Abs(r.value - (newMid - priorMid) / priorMid * 100.0) * 200.0 <= 1.0
  {
    if priorMid > 0.0 then
      var x := (newMid - priorMid) / priorMid * 100.0;
      RoundAccuracy2(x);
      Some(Round(x, 2))
    else None
  }

  datatype GuidanceAlert = GuidanceAlert(
    metricName: string,
    revisionPct: real,
    priorLow: Option<real>,
    priorHigh: Option<real>,
    newValue: real,
    unit: Option<string>)

  /** What one statement does. */
  datatype Revision =
    | Skipped
    | Suppressed(revisionPct: real)
    | Raised
    | Recorded(record: GuidanceRecord, supersedes: Option<int>, alert: Option<GuidanceAlert>)

  /** The decision for one statement against the current records `snapshot`. */
  function Revise(snapshot: map<string, GuidanceRecord>, companyId: int, s: ForwardStatement,
                  filingId: int, filingDate: int): (r: Revision)
    ensures r.Skipped? <==> MetricFor(s.category).None? || s.quantitativeValue.None?
    ensures r.Raised? <==> !r.Skipped? && MetricFor(s.category).value in snapshot &&
                           PriorMidOf(snapshot[MetricFor(s.category).value]).LowMissing?
    ensures r.Suppressed? ==> MetricFor(s.category).value in snapshot && Abs(r.revisionPct) < 2.0
    ensures r.Recorded? ==>
              var m := MetricFor(s.category).value;
              r.record.metricName == m && r.record.companyId == companyId &&
              r.record.low == s.quantitativeValue && r.record.high == s.quantitativeValue &&
              r.record.sourceFilingId == Some(filingId) && r.record.sourceDate == filingDate &&
              r.record.supersededBy.None? &&
              (m !in snapshot ==> r.record.revisionPct.None? && r.supersedes.None?) &&
              (m in snapshot ==> r.supersedes == if snapshot[m].id != 0 then Some(snapshot[m].id) else None) &&
              (r.record.revisionPct.Some? ==> Abs(r.record.revisionPct.value) >= 2.0) &&
              (r.alert.Some? <==> r.record.revisionPct.Some? && Abs(r.record.revisionPct.value) > 15.0)
  {
    var metric := MetricFor(s.category);
    if metric.None? || s.quantitativeValue.None? then Skipped
    else
      var q := s.quantitativeValue.value;
      var m := metric.value;
      var rec := GuidanceRecord(0, companyId, m, Some(q), Some(q), s.valueUnit, s.timeframe,
                                Some(filingId), filingDate, None, None);
      if m !in snapshot then Recorded(rec, None, None)
      else
        var prior := snapshot[m];
        match PriorMidOf(prior)
        case LowMissing => Raised
        case Mid(pm) =>
          var rev := RevisionPct(pm, (q + q) / 2.0);
          if rev.Some? && Abs(rev.value) < 2.0 then Suppressed(rev.value)
          else
            var alert := if rev.Some? && Abs(rev.value) > 15.0
                         then Some(GuidanceAlert(m, rev.value, prior.low, prior.high, q, s.valueUnit))
                         else None;
            Recorded(rec.(revisionPct := rev), if prior.id != 0 then Some(prior.id) else None, alert)
  }

  /** A recorded revision is measured against the current record's midpoint. */
  lemma ReviseMeasuresAgainstSnapshot(snapshot: map<string, GuidanceRecord>, companyId: int, s: ForwardStatement,
                                      filingId: int, filingDate: int)
    requires Revise(snapshot, companyId, s, filingId, filingDate).Recorded?
    ensures var r := Revise(snapshot, companyId, s, filingId, filingDate);
            var m := MetricFor(s.category).value;
            var q := s.quantitativeValue.value;
            r.record.revisionPct.Some? ==>
              m in snapshot && PriorMidOf(snapshot[m]).Mid? && PriorMidOf(snapshot[m]).value > 0.0 &&
              Abs(r.record.revisionPct.value - (q - PriorMidOf(snapshot[m]).value) / PriorMidOf(snapshot[m]).value * 100.0) * 200.0 <= 1.0
  {
    var m := MetricFor(s.category).value;
    var q := s.quantitativeValue.value;
    if m in snapshot && PriorMidOf(snapshot[m]).Mid? {
      assert (q + q) / 2.0 == q;
    }
  }

  /** A positive prior midpoint and a revision under 2 % in size: nothing is written. */
  lemma SmallRevisionIsSuppressed(snapshot: map<string, GuidanceRecord>, companyId: int, s: ForwardStatement,
                                  filingId: int, filingDate: int)
    requires MetricFor(s.category).Some? && s.quantitativeValue.Some?
    requires MetricFor(s.category).value in snapshot
    requires var pm := PriorMidOf(snapshot[MetricFor(s.category).value]);
             pm.Mid? && pm.value > 0.0 && Abs(RevisionPct(pm.value, s.quantitativeValue.value).value) < 2.0
    ensures Revise(snapshot, companyId, s, filingId, filingDate).Suppressed?
  {
    var q := s.quantitativeValue.value;
    assert (q + q) / 2.0 == q;
  }

  // ---------------------------------------------------------------------
  // A batch of statements

  datatype GuidanceRun = GuidanceRun(rows: seq<GuidanceRecord>, nextId: int, alerts: seq<GuidanceAlert>, raised: bool)

  /** The table change and the alert of one decision; after a raise nothing further happens. */
  function Apply(run: GuidanceRun, v: Revision): GuidanceRun
  {
    if run.raised then run
    else match v
      case Skipped => run
      case Suppressed(_) => run
      case Raised => run.(raised := true)
      case Recorded(rec, sup, alert) =>
        var id := run.nextId;
        var rows := run.rows + [rec.(id := id)];
        GuidanceRun(if sup.Some? then Supersede(rows, sup.value, id) else rows, id + 1,
                    run.alerts + (if alert.Some? then [alert.value] else []), false)
  }

  /** The statements applied in order, each decided against the same `snapshot`. */
  function RunFrom(run: GuidanceRun, snapshot: map<string, GuidanceRecord>, companyId: int,
                   stmts: seq<ForwardStatement>, filingId: int, filingDate: int): GuidanceRun
    decreases |stmts|
  {
    if |stmts| == 0 then run
    else RunFrom(Apply(run, Revise(snapshot, companyId, stmts[0], filingId, filingDate)),
                 snapshot, companyId, stmts[1..], filingId, filingDate)
  }

  lemma {:induction false} RunFromRaised(run: GuidanceRun, snapshot: map<string, GuidanceRecord>, companyId: int,
                                         stmts: seq<ForwardStatement>, filingId: int, filingDate: int)
    requires run.raised
    ensures RunFrom(run, snapshot, companyId, stmts, filingId, filingDate) == run
    decreases |stmts|
  {
    if |stmts| > 0 {
      RunFromRaised(run, snapshot, companyId, stmts[1..], filingId, filingDate);
    }
  }

  /**
   * `after` keeps every record of `before`, changing at most its
   * `superseded_by`, and only to an id issued after `before`; alerts are
   * only appended.
   */
  ghost predicate Extends(before: GuidanceRun, after: GuidanceRun)
  {
    |before.rows| <= |after.rows| && before.nextId <= after.nextId && before.alerts <= after.alerts &&
    forall i :: 0 <= i < |before.rows| ==>
      after.rows[i].(supersededBy := before.rows[i].supersededBy) == before.rows[i] &&
      (after.rows[i].supersededBy != before.rows[i].supersededBy ==>
         after.rows[i].supersededBy.Some? && after.rows[i].supersededBy.value >= before.nextId)
  }

  lemma ExtendsTransitive(a: GuidanceRun, b: GuidanceRun, c: GuidanceRun)
    requires Extends(a, b) && Extends(b, c)
    ensures Extends(a, c)
  {
    forall i | 0 <= i < |a.rows|
      ensures c.rows[i].(supersededBy := a.rows[i].supersededBy) == a.rows[i]
      ensures c.rows[i].supersededBy != a.rows[i].supersededBy ==>
                c.rows[i].supersededBy.Some? && c.rows[i].supersededBy.value >= a.nextId
    {
      assert c.rows[i].(supersededBy := b.rows[i].supersededBy) == b.rows[i];
    }
  }

  lemma ApplyExtends(run: GuidanceRun, v: Revision)
    requires Serial(GuidanceIds(run.rows), run.nextId)
    ensures Serial(GuidanceIds(Apply(run, v).rows), Apply(run, v).nextId)
    ensures Extends(run, Apply(run, v))
  {
    if !run.raised && v.Recorded? {
      RecordedStaysSerial(run, v);
      RecordedExtends(run, v);
    }
  }

  /** The rows a recorded decision leaves: the new record appended, then the link written. */
  function RecordedRows(run: GuidanceRun, v: Revision): (r: seq<GuidanceRecord>)
    requires v.Recorded?
    ensures !run.raised ==> Apply(run, v).rows == r
  {
    var rows := run.rows + [v.record.(id := run.nextId)];
    if v.supersedes.Some? then Supersede(rows, v.supersedes.value, run.nextId) else rows
  }

  lemma RecordedStaysSerial(run: GuidanceRun, v: Revision)
    requires !run.raised && v.Recorded?
    requires Serial(GuidanceIds(run.rows), run.nextId)
    ensures Serial(GuidanceIds(Apply(run, v).rows), Apply(run, v).nextId)
  {
    var id := run.nextId;
    SerialAppend(GuidanceIds(run.rows), id);
    assert GuidanceIds(RecordedRows(run, v)) == GuidanceIds(run.rows) + [id] by {
      var rows := run.rows + [v.record.(id := id)];
      assert GuidanceIds(rows) == GuidanceIds(run.rows) + [id];
      if v.supersedes.Some? {
        SupersedeKeepsIds(rows, v.supersedes.value, id);
      }
    }
    assert Apply(run, v).nextId == id + 1;
  }

  lemma RecordedExtends(run: GuidanceRun, v: Revision)
    requires !run.raised && v.Recorded?
    ensures Extends(run, Apply(run, v))
  {
    var id := run.nextId;
    var rows := run.rows + [v.record.(id := id)];
    var after := RecordedRows(run, v);
    forall i | 0 <= i < |run.rows|
      ensures after[i].(supersededBy := run.rows[i].supersededBy) == run.rows[i]
      ensures after[i].supersededBy != run.rows[i].supersededBy ==> after[i].supersededBy == Some(id)
    {
      assert rows[i] == run.rows[i];
    }
    assert run.alerts <= Apply(run, v).alerts;
  }

  /** A batch never removes a record or rewrites one beyond linking it forward to a new record. */
  lemma {:induction false} RunFromExtends(run: GuidanceRun, snapshot: map<string, GuidanceRecord>, companyId: int,
                                          stmts: seq<ForwardStatement>, filingId: int, filingDate: int)
    requires Serial(GuidanceIds(run.rows), run.nextId)
    ensures var after := RunFrom(run, snapshot, companyId, stmts, filingId, filingDate);
            Serial(GuidanceIds(after.rows), after.nextId) && Extends(run, after)
    decreases |stmts|
  {
    if |stmts| > 0 {
      var next := Apply(run, Revise(snapshot, companyId, stmts[0], filingId, filingDate));
      ApplyExtends(run, Revise(snapshot, companyId, stmts[0], filingId, filingDate));
      RunFromExtends(next, snapshot, companyId, stmts[1..], filingId, filingDate);
      ExtendsTransitive(run, next, RunFrom(next, snapshot, companyId, stmts[1..], filingId, filingDate));
    }
  }

  lemma RunFromStep(run: GuidanceRun, snapshot: map<string, GuidanceRecord>, companyId: int,
                    stmts: seq<ForwardStatement>, filingId: int, filingDate: int, i: nat)
    requires i < |stmts|
    ensures RunFrom(run, snapshot, companyId, stmts[i..], filingId, filingDate) ==
            RunFrom(Apply(run, Revise(snapshot, companyId, stmts[i], filingId, filingDate)),
                    snapshot, companyId, stmts[i + 1..], filingId, filingDate)
  {
    assert stmts[i..][0] == stmts[i] && stmts[i..][1..] == stmts[i + 1..];
  }

  lemma ApplyRecorded(run: GuidanceRun, rec: GuidanceRecord, link: Option<int>, alert: Option<GuidanceAlert>)
    requires !run.raised
    ensures var rows := run.rows + [rec.(id := run.nextId)];
            Apply(run, Recorded(rec, link, alert)) ==
            GuidanceRun(if link.Some? then Supersede(rows, link.value, run.nextId) else rows, run.nextId + 1,
                        run.alerts + (if alert.Some? then [alert.value] else []), false)
  {
  }

  /** Inserts the new record and, when the prior record has a non-zero id, links that record forward to it. */
  method WriteRevision(g: GuidanceHistory, record: GuidanceRecord, supersededId: Option<int>) returns (newId: int)
    requires g.Valid()
    modifies g
    ensures g.Valid()
    ensures newId == old(g.nextId) && g.nextId == old(g.nextId) + 1
    ensures var inserted := old(g.rows) + [record.(id := newId)];
            g.rows == if supersededId.Some? && supersededId.value != 0 then Supersede(inserted, supersededId.value, newId)
                      else inserted
  {
    newId := g.Insert(record);
    if supersededId.Some? && supersededId.value != 0 {
      g.SetSupersededBy(supersededId.value, newId);
    }
  }

  /** The body of the statement loop: one statement decided and written. */
  method ReviseStatement(g: GuidanceHistory, priorGuidance: map<string, GuidanceRecord>, companyId: int,
                         stmt: ForwardStatement, filingId: int, filingDate: int, alertsIn: seq<GuidanceAlert>)
    returns (alerts: seq<GuidanceAlert>, raised: bool)
    requires g.Valid()
    modifies g
    ensures g.Valid()
    ensures GuidanceRun(g.rows, g.nextId, alerts, raised) ==
            Apply(GuidanceRun(old(g.rows), old(g.nextId), alertsIn, false), Revise(priorGuidance, companyId, stmt, filingId, filingDate))
  {
    ghost var cur := GuidanceRun(g.rows, g.nextId, alertsIn, false);
    ghost var decision := Revise(priorGuidance, companyId, stmt, filingId, filingDate);
    alerts := alertsIn;
    raised := false;
    var metricName := MetricFor(stmt.category);
    if metricName.None? || stmt.quantitativeValue.None? {
      assert decision == Skipped;
      return;
    }
    var newValue := stmt.quantitativeValue.value;
    var prior: Option<GuidanceRecord> := if metricName.value in priorGuidance then Some(priorGuidance[metricName.value]) else None;
    var revisionPct: Option<real> := None;
    var supersededId: Option<int> := None;
    if prior.Some? {
      var priorMid := PriorMidOf(prior.value);
      if priorMid.LowMissing? {
        assert decision == Raised;
        raised := true;
        return;
      }
      revisionPct := RevisionPct(priorMid.value, (newValue + newValue) / 2.0);
      if revisionPct.Some? && Abs(revisionPct.value) < 2.0 {
        assert decision.Suppressed?;
        return;
      }
      supersededId := Some(prior.value.id);
    }
    var record := GuidanceRecord(0, companyId, metricName.value, Some(newValue), Some(newValue),
                                 stmt.valueUnit, stmt.timeframe, Some(filingId), filingDate, revisionPct, None);
    var alert := if revisionPct.Some? && Abs(revisionPct.value) > 15.0
                 then Some(GuidanceAlert(metricName.value, revisionPct.value, prior.value.low, prior.value.high, newValue, stmt.valueUnit))
                 else None;
    ghost var link := if supersededId.Some? && supersededId.value != 0 then supersededId else None;
    assert decision == Recorded(record, link, alert);
    var newId := WriteRevision(g, record, supersededId);
    if alert.Some? {
      alerts := alerts + [alert.value];
    }
    ApplyRecorded(cur, record, link, alert);
  }

  /** `check_guidance_revisions`: returns the alerts, or reports the `TypeError` the source raises. */
  method CheckGuidanceRevisions(g: GuidanceHistory, companyId: int, stmts: seq<ForwardStatement>,
                                filingId: int, filingDate: int)
    returns (alerts: seq<GuidanceAlert>, raised: bool)
    requires g.Valid()
    modifies g
    ensures g.Valid()
    ensures GuidanceRun(g.rows, g.nextId, alerts, raised) ==
            RunFrom(GuidanceRun(old(g.rows), old(g.nextId), [], false), LatestGuidance(old(g.rows), companyId),
                    companyId, stmts, filingId, filingDate)
  {
    var priorGuidance := LatestGuidance(g.rows, companyId);
    ghost var final := RunFrom(GuidanceRun(g.rows, g.nextId, [], false), priorGuidance, companyId, stmts, filingId, filingDate);
    alerts := [];
    raised := false;
    for i := 0 to |stmts|
      invariant g.Valid()
      invariant RunFrom(GuidanceRun(g.rows, g.nextId, alerts, false), priorGuidance, companyId, stmts[i..], filingId, filingDate) == final
    {
      ghost var cur := GuidanceRun(g.rows, g.nextId, alerts, false);
      RunFromStep(cur, priorGuidance, companyId, stmts, filingId, filingDate, i);
      alerts, raised := ReviseStatement(g, priorGuidance, companyId, stmts[i], filingId, filingDate, alerts);
      if raised {
        RunFromRaised(GuidanceRun(g.rows, g.nextId, alerts, true), priorGuidance, companyId, stmts[i + 1..], filingId, filingDate);
        return;
      }
    }
    assert stmts[|stmts|..] == [];
  }
}
