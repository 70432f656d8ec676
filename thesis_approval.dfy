/**
 * Thesis approval (`approve_thesis.py`): a human turns a draft investment
 * thesis into the company's one active thesis, and the approval is logged.
 */
module ThesisApproval {
  import opened Wrappers
  import opened Text
  import opened ResearchDb

  // ---------------------------------------------------------------------
  // Probability check

  /** `(x or 0)` for a stored percentage: a NULL column (or 0.0) counts as 0. */
  function OrZero(p: Option<real>): (r: real)
    ensures p.None? ==> r == 0.0
    ensures p.Some? ==> r == p.value
  {
    if p.Some? then p.value else 0.0
  }

  /** The bull, base and bear probabilities summed, a missing one counting as 0. */
  function ProbabilityTotal(bull: Option<real>, base: Option<real>, bear: Option<real>): real
  {
    OrZero(bull) + OrZero(base) + OrZero(bear)
  }

  /** The review warns when the scenario probabilities are more than one point away from 100. */
  predicate ProbabilityWarning(bull: Option<real>, base: Option<real>, bear: Option<real>)
  {
    var total := ProbabilityTotal(bull, base, bear);
    (if total >= 100.0 then total - 100.0 else 100.0 - total) > 1.0
  }

  /** The warning is silent exactly when the total lies within one point of 100, ends included. */
  lemma ProbabilityWarningBand(bull: Option<real>, base: Option<real>, bear: Option<real>)
    ensures !ProbabilityWarning(bull, base, bear) <==> 99.0 <= ProbabilityTotal(bull, base, bear) <= 101.0
  {
  }

  /**
   * Missing probabilities count as 0: bull 100 alone passes, bull and base
   * of 50 pass, bull 60 with bear 30 warns; thirds of 33.3 (total 99.9) pass,
   * and the defaults 50, 30 and 20 pass.
   */
  lemma MissingProbabilitiesCountAsZero()
    ensures !ProbabilityWarning(Some(100.0), None, None)
    ensures !ProbabilityWarning(Some(50.0), Some(50.0), None)
    ensures ProbabilityWarning(Some(60.0), None, Some(30.0))
    ensures !ProbabilityWarning(Some(33.3), Some(33.3), Some(33.3))
    ensures !ProbabilityWarning(Some(50.0), Some(30.0), Some(20.0))
  {
  }

  // ---------------------------------------------------------------------
  // The approval transition

  /** `SELECT company_id FROM investment_theses WHERE id = thesis_id`: the first row with that id. */
  function FindThesis(rows: seq<InvestmentThesis>, id: int): (r: Option<nat>)
    ensures r.Some? ==> r.value < |rows| && rows[r.value].id == id &&
                        forall j :: 0 <= j < r.value ==> rows[j].id != id
    ensures r.None? ==> forall j :: 0 <= j < |rows| ==> rows[j].id != id
  {
    if |rows| == 0 then None
    else if rows[0].id == id then Some(0)
    else
      match FindThesis(rows[1..], id)
      case None => None
      case Some(k) => Some(k + 1)
  }

  /**
   * One row after the two updates: the company's other active theses are
   * deactivated, and the approved one becomes active, no longer a draft,
   * approved by 'human'; both stamp `updated_at`.
   */
  function ApprovedRow(t: InvestmentThesis, companyId: int, thesisId: int, now: int): InvestmentThesis
  {
    if t.id == thesisId then
      t.(isActive := true, isDraft := false, approvedBy := Some("human"), updatedAt := Some(now))
    else if t.companyId == companyId && t.isActive then
      t.(isActive := false, updatedAt := Some(now))
    else t
  }

  function ApproveRows(rows: seq<InvestmentThesis>, companyId: int, thesisId: int, now: int): (r: seq<InvestmentThesis>)
    ensures |r| == |rows|
    ensures forall i :: 0 <= i < |rows| ==> r[i] == ApprovedRow(rows[i], companyId, thesisId, now)
  {
    if |rows| == 0 then []
    else ApproveRows(rows[..|rows| - 1], companyId, thesisId, now) +
         [ApprovedRow(rows[|rows| - 1], companyId, thesisId, now)]
  }

  /** Thesis ids are table keys. */
  ghost predicate DistinctIds(rows: seq<InvestmentThesis>)
  {
    forall i, j :: 0 <= i < j < |rows| ==> rows[i].id != rows[j].id
  }

  /**
   * After approving the thesis at index `k`, it is the only active thesis
   * of its company, it is approved and no longer a draft, and the theses of
   * other companies are untouched.
   */
  lemma ApprovalLeavesOneActive(rows: seq<InvestmentThesis>, k: nat, now: int)
    requires DistinctIds(rows) && k < |rows|
    ensures var r := ApproveRows(rows, rows[k].companyId, rows[k].id, now);
            (forall i :: 0 <= i < |r| ==> (r[i].companyId == rows[k].companyId && r[i].isActive <==> i == k)) &&
            !r[k].isDraft && r[k].approvedBy == Some("human") &&
            (forall i :: 0 <= i < |r| && rows[i].companyId != rows[k].companyId ==> r[i] == rows[i])
  {
    var r := ApproveRows(rows, rows[k].companyId, rows[k].id, now);
    forall i | 0 <= i < |r|
      ensures r[i].companyId == rows[k].companyId && r[i].isActive <==> i == k
    {
      if i != k {
        assert rows[i].id != rows[k].id by {
          if i < k { assert rows[i].id != rows[k].id; } else { assert rows[k].id != rows[i].id; }
        }
      }
    }
  }

  /** Approving the same thesis again at the same time changes nothing. */
  lemma ApprovalIdempotent(rows: seq<InvestmentThesis>, companyId: int, thesisId: int, now: int)
    ensures ApproveRows(ApproveRows(rows, companyId, thesisId, now), companyId, thesisId, now) ==
            ApproveRows(rows, companyId, thesisId, now)
  {
    var r := ApproveRows(rows, companyId, thesisId, now);
    assert forall i :: 0 <= i < |r| ==> ApprovedRow(r[i], companyId, thesisId, now) == r[i];
  }

  /** The decision logged for an approval. */
  function ApprovalDecision(companyId: int, thesisId: int): Decision
  {
    Decision(companyId, thesisId, "thesis_approved")
  }

  /**
   * `approve_thesis`: an unknown id changes nothing and returns false;
   * otherwise the transition is applied and one decision is logged.
   */
  method ApproveThesis(theses: InvestmentTheses, log: DecisionLog, thesisId: int, now: int) returns (approved: bool)
    modifies theses, log
    ensures approved <==> FindThesis(old(theses.rows), thesisId).Some?
    ensures !approved ==> theses.rows == old(theses.rows) && log.rows == old(log.rows)
    ensures approved ==>
              var companyId := old(theses.rows)[FindThesis(old(theses.rows), thesisId).value].companyId;
              theses.rows == ApproveRows(old(theses.rows), companyId, thesisId, now) &&
              log.rows == old(log.rows) + [ApprovalDecision(companyId, thesisId)]
  {
    var found := FindThesis(theses.rows, thesisId);
    if found.None? {
      return false;
    }
    var companyId := theses.rows[found.value].companyId;
    theses.rows := ApproveRows(theses.rows, companyId, thesisId, now);
    log.Log(ApprovalDecision(companyId, thesisId));
    approved := true;
  }

  // ---------------------------------------------------------------------
  // The review session

  datatype ReviewOutcome = Listed | NotFound | AlreadyApproved | KeptAsDraft | Approved

  /** The operator's answer, stripped and lower-cased, is 'y' or 'yes'. */
  predicate Confirms(answer: string)
  {
    var a := Lower(Strip(answer));
    a == "y" || a == "yes"
  }

  /**
   * `main` after argument parsing: without a thesis id (or with id 0) the
   * drafts are listed; an unknown thesis or one that is not a draft is
   * refused; otherwise the thesis is approved iff the operator confirms.
   */
  method Review(theses: InvestmentTheses, log: DecisionLog, thesisId: Option<int>, listMode: bool,
                answer: string, now: int) returns (outcome: ReviewOutcome)
    modifies theses, log
    ensures outcome != Approved ==> theses.rows == old(theses.rows) && log.rows == old(log.rows)
    ensures outcome == Listed <==> listMode || thesisId.None? || thesisId.value == 0
    ensures outcome == Approved ==>
              thesisId.Some? && Confirms(answer) &&
              var k := FindThesis(old(theses.rows), thesisId.value);
              k.Some? && old(theses.rows)[k.value].isDraft &&
              theses.rows == ApproveRows(old(theses.rows), old(theses.rows)[k.value].companyId, thesisId.value, now) &&
              log.rows == old(log.rows) + [ApprovalDecision(old(theses.rows)[k.value].companyId, thesisId.value)]
    ensures outcome == AlreadyApproved ==>
              var k := FindThesis(old(theses.rows), thesisId.value);
              k.Some? && !old(theses.rows)[k.value].isDraft
  {
    if listMode || thesisId.None? || thesisId.value == 0 {
      return Listed;
    }
    var id := thesisId.value;
    var found := FindThesis(theses.rows, id);
    if found.None? {
      return NotFound;
    }
    if !theses.rows[found.value].isDraft {
      return AlreadyApproved;
    }
    if Confirms(answer) {
      var ok := ApproveThesis(theses, log, id, now);
      outcome := Approved;
    } else {
      outcome := KeptAsDraft;
    }
  }
}
