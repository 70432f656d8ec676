/**
 * The research database tables that the monitoring, post-event, thesis
 * generation and approval scripts update, each held in memory as a class
 * whose `rows` field the methods reassign. Ids come from SERIAL columns:
 * positive and strictly increasing in insertion order, so `ORDER BY id`
 * is table order. Dates and timestamps are day or tick numbers passed in
 * by the caller.
 */
module ResearchDb {
  import opened Wrappers

  /** SERIAL ids: positive, below the next id to issue, strictly increasing. */
  ghost predicate Serial(ids: seq<int>, nextId: int)
  {
    nextId >= 1 &&
    (forall i :: 0 <= i < |ids| ==> 1 <= ids[i] < nextId) &&
    (forall i, j :: 0 <= i < j < |ids| ==> ids[i] < ids[j])
  }

  lemma SerialAppend(ids: seq<int>, nextId: int)
    requires Serial(ids, nextId)
    ensures Serial(ids + [nextId], nextId + 1)
  {
  }

  // ---------------------------------------------------------------------
  // guidance_history

  datatype GuidanceRecord = GuidanceRecord(
    id: int,
    companyId: int,
    metricName: string,
    low: Option<real>,
    high: Option<real>,
    unit: Option<string>,
    period: Option<string>,
    sourceFilingId: Option<int>,
    sourceDate: int,
    revisionPct: Option<real>,
    supersededBy: Option<int>)

  function GuidanceIds(rows: seq<GuidanceRecord>): (r: seq<int>)
    ensures |r| == |rows| && forall i :: 0 <= i < |rows| ==> r[i] == rows[i].id
  {
    if |rows| == 0 then [] else GuidanceIds(rows[..|rows| - 1]) + [rows[|rows| - 1].id]
  }

  /** `UPDATE guidance_history SET superseded_by = newId WHERE id = target`. */
  function Supersede(rows: seq<GuidanceRecord>, target: int, newId: int): (r: seq<GuidanceRecord>)
    ensures |r| == |rows|
    ensures forall i :: 0 <= i < |rows| ==>
              r[i] == if rows[i].id == target then rows[i].(supersededBy := Some(newId)) else rows[i]
  {
    if |rows| == 0 then []
    else
      var last := rows[|rows| - 1];
      Supersede(rows[..|rows| - 1], target, newId) + [if last.id == target then last.(supersededBy := Some(newId)) else last]
  }

  lemma SupersedeKeepsIds(rows: seq<GuidanceRecord>, target: int, newId: int)
    ensures GuidanceIds(Supersede(rows, target, newId)) == GuidanceIds(rows)
  {
  }

  class GuidanceHistory {
    var rows: seq<GuidanceRecord>
    var nextId: int

    ghost predicate Valid()
      reads this
    {
      Serial(GuidanceIds(rows), nextId)
    }

    constructor(initial: seq<GuidanceRecord>, next: int)
      requires Serial(GuidanceIds(initial), next)
      ensures Valid() && rows == initial && nextId == next
    {
      rows := initial;
      nextId := next;
    }

    /** `INSERT … RETURNING id`: the record is stored under the next serial id. */
    method Insert(r: GuidanceRecord) returns (id: int)
      requires Valid()
      modifies this
      ensures Valid()
      ensures id == old(nextId) && id >= 1 && nextId == old(nextId) + 1
      ensures rows == old(rows) + [r.(id := id)]
    {
      id := nextId;
      SerialAppend(GuidanceIds(rows), nextId);
      assert GuidanceIds(rows + [r.(id := id)]) == GuidanceIds(rows) + [id];
      rows := rows + [r.(id := id)];
      nextId := nextId + 1;
    }

    method SetSupersededBy(target: int, newId: int)
      requires Valid()
      modifies this
      ensures Valid()
      ensures rows == Supersede(old(rows), target, newId) && nextId == old(nextId)
    {
      SupersedeKeepsIds(rows, target, newId);
      rows := Supersede(rows, target, newId);
    }
  }

  // ---------------------------------------------------------------------
  // kill_criteria

  /** What `triggered_evidence` records: a prefix, the metric and the actual. */
  datatype KillEvidence = KillEvidence(prefix: string, metricName: Option<string>, actual: Option<real>)

  datatype KillRow = KillRow(
    id: int,
    thesisId: int,
    criterion: Option<string>,
    metricName: Option<string>,
    threshold: Option<real>,
    operator: Option<string>,
    triggered: bool,
    triggeredDate: Option<int>,
    evidence: Option<KillEvidence>)

  /** `UPDATE kill_criteria SET triggered = TRUE, … WHERE id = target`. */
  function MarkTriggered(rows: seq<KillRow>, target: int, ev: KillEvidence, today: int): (r: seq<KillRow>)
    ensures |r| == |rows|
    ensures forall i :: 0 <= i < |rows| ==>
              r[i] == if rows[i].id == target
                      then rows[i].(triggered := true, triggeredDate := Some(today), evidence := Some(ev))
                      else rows[i]
  {
    if |rows| == 0 then []
    else
      var last := rows[|rows| - 1];
      MarkTriggered(rows[..|rows| - 1], target, ev, today) +
        [if last.id == target then last.(triggered := true, triggeredDate := Some(today), evidence := Some(ev)) else last]
  }

  /** Rows of a thesis not yet triggered, in table order (the source orders them by id). */
  function Untriggered(rows: seq<KillRow>, thesisId: int): (r: seq<KillRow>)
    ensures forall k :: k in r <==> k in rows && k.thesisId == thesisId && !k.triggered
  {
    if |rows| == 0 then []
    else
      var rest := Untriggered(rows[..|rows| - 1], thesisId);
      var k := rows[|rows| - 1];
      if k.thesisId == thesisId && !k.triggered then rest + [k] else rest
  }

  class KillCriteria {
    var rows: seq<KillRow>

    constructor(initial: seq<KillRow>)
      ensures rows == initial
    {
      rows := initial;
    }

    method Trigger(target: int, ev: KillEvidence, today: int)
      modifies this
      ensures rows == MarkTriggered(old(rows), target, ev, today)
    {
      rows := MarkTriggered(rows, target, ev, today);
    }
  }

  /** Triggering is monotone: a triggered row stays triggered. */
  lemma MarkTriggeredMonotone(rows: seq<KillRow>, target: int, ev: KillEvidence, today: int, i: int)
    requires 0 <= i < |rows| && rows[i].triggered
    ensures MarkTriggered(rows, target, ev, today)[i].triggered
  {
  }

  /** Once marked, a criterion is no longer loaded as untriggered. */
  lemma MarkedNotUntriggered(rows: seq<KillRow>, target: int, ev: KillEvidence, today: int, thesisId: int)
    ensures forall k :: k in Untriggered(MarkTriggered(rows, target, ev, today), thesisId) ==> k.id != target
  {
    var after := MarkTriggered(rows, target, ev, today);
    forall k | k in Untriggered(after, thesisId)
      ensures k.id != target
    {
      var i :| 0 <= i < |after| && after[i] == k;
    }
  }

  // ---------------------------------------------------------------------
  // management_scorecard

  datatype ScorecardEntry = ScorecardEntry(
    id: int,
    companyId: int,
    promiseText: string,
    promiseMetric: Option<string>,
    promiseLow: Option<real>,
    promiseHigh: Option<real>,
    promiseUnit: Option<string>,
    assessment: string,
    actualValue: Option<real>,
    actualUnit: Option<string>,
    actualDate: Option<int>,
    resultFilingId: Option<int>,
    deltaPct: Option<real>,
    updatedAt: Option<int>)

  /** The values an `UPDATE management_scorecard SET …` writes. */
  datatype ScorecardResult = ScorecardResult(
    actualValue: Option<real>,
    actualUnit: Option<string>,
    resultFilingId: Option<int>,
    deltaPct: Option<real>,
    assessment: string)

  function Record(e: ScorecardEntry, res: ScorecardResult, today: int, now: int): ScorecardEntry
  {
    e.(actualValue := res.actualValue, actualUnit := res.actualUnit, actualDate := Some(today),
       resultFilingId := res.resultFilingId, deltaPct := res.deltaPct, assessment := res.assessment,
       updatedAt := Some(now))
  }

  /** `UPDATE management_scorecard SET … WHERE id = target`. */
  function RecordResult(rows: seq<ScorecardEntry>, target: int, res: ScorecardResult, today: int, now: int): (r: seq<ScorecardEntry>)
    ensures |r| == |rows|
    ensures forall i :: 0 <= i < |rows| ==>
              r[i] == if rows[i].id == target then Record(rows[i], res, today, now) else rows[i]
  {
    if |rows| == 0 then []
    else
      var last := rows[|rows| - 1];
      RecordResult(rows[..|rows| - 1], target, res, today, now) +
        [if last.id == target then Record(last, res, today, now) else last]
  }

  /** Promises still pending for a company, in table order. */
  function Pending(rows: seq<ScorecardEntry>, companyId: int): (r: seq<ScorecardEntry>)
    ensures forall e :: e in r <==> e in rows && e.companyId == companyId && e.assessment == "pending"
  {
    if |rows| == 0 then []
    else
      var rest := Pending(rows[..|rows| - 1], companyId);
      var e := rows[|rows| - 1];
      if e.companyId == companyId && e.assessment == "pending" then rest + [e] else rest
  }

  /** The first entry with id `target`, as `SELECT … WHERE id = target` returns it. */
  function EntryById(rows: seq<ScorecardEntry>, target: int): (r: Option<ScorecardEntry>)
    ensures r.Some? ==> r.value in rows && r.value.id == target
    ensures r.None? ==> forall e :: e in rows ==> e.id != target
  {
    if |rows| == 0 then None
    else if rows[0].id == target then Some(rows[0])
    else EntryById(rows[1..], target)
  }

  class Scorecard {
    var rows: seq<ScorecardEntry>

    constructor(initial: seq<ScorecardEntry>)
      ensures rows == initial
    {
      rows := initial;
    }

    method SetResult(target: int, res: ScorecardResult, today: int, now: int)
      modifies this
      ensures rows == RecordResult(old(rows), target, res, today, now)
    {
      rows := RecordResult(rows, target, res, today, now);
    }
  }

  // ---------------------------------------------------------------------
  // hypotheses and hypothesis_evidence

  datatype Hypothesis = Hypothesis(id: int, thesisId: int, status: string, confidence: real, updatedAt: Option<int>)

  datatype EvidenceEntry = EvidenceEntry(
    hypothesisId: int,
    direction: string,
    evidence: string,
    sourceType: string,
    sourceId: Option<int>,
    sourceDate: int)

  /** `UPDATE hypotheses SET status, confidence, updated_at WHERE id = target`. */
  function SetStatus(rows: seq<Hypothesis>, target: int, status: string, confidence: real, now: int): (r: seq<Hypothesis>)
    ensures |r| == |rows|
    ensures forall i :: 0 <= i < |rows| ==>
              r[i] == if rows[i].id == target
                      then rows[i].(status := status, confidence := confidence, updatedAt := Some(now))
                      else rows[i]
  {
    if |rows| == 0 then []
    else
      var last := rows[|rows| - 1];
      SetStatus(rows[..|rows| - 1], target, status, confidence, now) +
        [if last.id == target then last.(status := status, confidence := confidence, updatedAt := Some(now)) else last]
  }

  /** Hypotheses of a thesis whose status is in `statuses`, in id order. */
  function WithStatus(rows: seq<Hypothesis>, thesisId: int, statuses: set<string>): (r: seq<Hypothesis>)
    ensures forall h :: h in r <==> h in rows && h.thesisId == thesisId && h.status in statuses
  {
    if |rows| == 0 then []
    else
      var rest := WithStatus(rows[..|rows| - 1], thesisId, statuses);
      var h := rows[|rows| - 1];
      if h.thesisId == thesisId && h.status in statuses then rest + [h] else rest
  }

  class Hypotheses {
    var rows: seq<Hypothesis>
    var evidence: seq<EvidenceEntry>

    constructor(initial: seq<Hypothesis>, log: seq<EvidenceEntry>)
      ensures rows == initial && evidence == log
    {
      rows := initial;
      evidence := log;
    }

    method UpdateStatus(target: int, status: string, confidence: real, now: int)
      modifies this
      ensures rows == SetStatus(old(rows), target, status, confidence, now)
      ensures evidence == old(evidence)
    {
      rows := SetStatus(rows, target, status, confidence, now);
    }

    method LogEvidence(e: EvidenceEntry)
      modifies this
      ensures evidence == old(evidence) + [e] && rows == old(rows)
    {
      evidence := evidence + [e];
    }
  }

  // ---------------------------------------------------------------------
  // decision_log and expectation_results (append-only)

  /** A decision-log row; the free text, rationale and snapshot are not modelled. */
  datatype Decision = Decision(companyId: int, thesisId: int, decisionType: string)

  datatype ExpectationResultRow = ExpectationResultRow(
    expectationId: int,
    actualValue: real,
    actualUnit: Option<string>,
    sourceFilingId: int,
    vsExpectationPct: Option<real>,
    thesisImpact: string,
    interpretation: string)

  class DecisionLog {
    var rows: seq<Decision>

    constructor()
      ensures rows == []
    {
      rows := [];
    }

    method Log(d: Decision)
      modifies this
      ensures rows == old(rows) + [d]
    {
      rows := rows + [d];
    }
  }

  class ExpectationResults {
    var rows: seq<ExpectationResultRow>

    constructor()
      ensures rows == []
    {
      rows := [];
    }

    method Insert(r: ExpectationResultRow)
      modifies this
      ensures rows == old(rows) + [r]
    {
      rows := rows + [r];
    }
  }

  // ---------------------------------------------------------------------
  // investment_theses

  datatype InvestmentThesis = InvestmentThesis(
    id: int,
    companyId: int,
    isActive: bool,
    isDraft: bool,
    approvedBy: Option<string>,
    updatedAt: Option<int>)

  /** `UPDATE investment_theses SET updated_at = now WHERE id = target`. */
  function Touch(rows: seq<InvestmentThesis>, target: int, now: int): (r: seq<InvestmentThesis>)
    ensures |r| == |rows|
    ensures forall i :: 0 <= i < |rows| ==>
              r[i] == if rows[i].id == target then rows[i].(updatedAt := Some(now)) else rows[i]
  {
    if |rows| == 0 then []
    else
      var last := rows[|rows| - 1];
      Touch(rows[..|rows| - 1], target, now) + [if last.id == target then last.(updatedAt := Some(now)) else last]
  }

  class InvestmentTheses {
    var rows: seq<InvestmentThesis>

    constructor(initial: seq<InvestmentThesis>)
      ensures rows == initial
    {
      rows := initial;
    }

    method Stamp(target: int, now: int)
      modifies this
      ensures rows == Touch(old(rows), target, now)
    {
      rows := Touch(rows, target, now);
    }
  }
}
