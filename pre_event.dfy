/**
 * The pre-event brief: the hypotheses it lists, the street consensus matched
 * to the requested period, the model's rationale merged into the
 * expectations in place, and the "Street" column of the brief.
 */
module PreEvent {
  import opened Wrappers
  import opened Text
  import opened ResearchDb
  import opened ModelExpectations

  // ---------------------------------------------------------------------
  // get_hypotheses

  /** `get_hypotheses`: the thesis's active and strengthened hypotheses. */
  function BriefHypotheses(rows: seq<Hypothesis>, thesisId: int): (r: seq<Hypothesis>)
    ensures forall h :: h in r <==> h in rows && h.thesisId == thesisId && (h.status == "active" || h.status == "strengthened")
    ensures forall h :: h in r ==> h.status != "weakened" && h.status != "disproved"
  {
    WithStatus(rows, thesisId, {"active", "strengthened"})
  }

  // ---------------------------------------------------------------------
  // The consensus map

  /** One analyst estimate; `period` is the text `str()` gives for its period. */
  datatype Estimate = Estimate(period: string, consensus: Option<real>)

  /** The StockAnalysis estimates (a missing list reads as empty). */
  datatype StockAnalysis = StockAnalysis(revenueEstimates: seq<Estimate>, epsEstimates: seq<Estimate>)

  datatype Consensus = Consensus(value: Option<real>, source: string)

  /** `p.lower().replace(' ', '')`. */
  function Normalised(p: string): (r: string)
    ensures ' ' !in r
  {
    Remove(Lower(p), ' ')
  }

  /** The requested period, normalised, occurs in the estimate's normalised period. */
  predicate Matches(e: Estimate, period: string)
  {
    Contains(Normalised(e.period), Normalised(period))
  }

  /** The position of the last estimate matching the period. */
  function LastMatch(ests: seq<Estimate>, period: string): (r: Option<nat>)
    ensures r.Some? ==> r.value < |ests| && Matches(ests[r.value], period) &&
                        forall j :: r.value < j < |ests| ==> !Matches(ests[j], period)
    ensures r.None? ==> forall j :: 0 <= j < |ests| ==> !Matches(ests[j], period)
  {
    LastWhere(ests, e => Matches(e, period))
  }

  /** The position of the last element satisfying `p`. */
  function LastWhere<T>(xs: seq<T>, p: T -> bool): (r: Option<nat>)
    ensures r.Some? ==> r.value < |xs| && p(xs[r.value]) && forall j :: r.value < j < |xs| ==> !p(xs[j])
    ensures r.None? ==> forall j :: 0 <= j < |xs| ==> !p(xs[j])
  {
    if |xs| == 0 then None
    else if p(xs[|xs| - 1]) then Some(|xs| - 1)
    else LastWhere(xs[..|xs| - 1], p)
  }

  /** `cmap` after one estimate loop has written `key` for every match. */
  function Recorded(cmap: map<string, Consensus>, key: string, ests: seq<Estimate>, period: string): map<string, Consensus>
  {
    match LastMatch(ests, period)
    case None => cmap
    case Some(k) => cmap[key := Consensus(ests[k].consensus, "StockAnalysis")]
  }

  /** The consensus map `main` builds: revenue, then EPS, from StockAnalysis only. */
  function ConsensusMap(period: string, sa: Option<StockAnalysis>): map<string, Consensus>
  {
    match sa
    case None => map[]
    case Some(s) => Recorded(Recorded(map[], "revenue", s.revenueEstimates, period), "eps", s.epsEstimates, period)
  }

  lemma LastMatchStep(ests: seq<Estimate>, i: nat, period: string)
    requires i < |ests|
    ensures LastMatch(ests[..i + 1], period) == if Matches(ests[i], period) then Some(i) else LastMatch(ests[..i], period)
  {
    assert ests[..i + 1][..i] == ests[..i];
    assert ests[..i + 1][i] == ests[i];
  }

  lemma RecordedStep(cmap: map<string, Consensus>, key: string, ests: seq<Estimate>, i: nat, period: string)
    requires i < |ests|
    ensures Recorded(cmap, key, ests[..i + 1], period) ==
            if Matches(ests[i], period) then Recorded(cmap, key, ests[..i], period)[key := Consensus(ests[i].consensus, "StockAnalysis")]
            else Recorded(cmap, key, ests[..i], period)
  {
    LastMatchStep(ests, i, period);
    if Matches(ests[i], period) {
      assert ests[..i + 1][i] == ests[i];
      RecordedOverwritten(cmap, key, ests[..i], period, Consensus(ests[i].consensus, "StockAnalysis"));
    }
  }

  /** Whatever the loop wrote for `key` so far, a new write replaces it. */
  lemma RecordedOverwritten(cmap: map<string, Consensus>, key: string, ests: seq<Estimate>, period: string, c: Consensus)
    ensures Recorded(cmap, key, ests, period)[key := c] == cmap[key := c]
  {
    match LastMatch(ests, period)
    case None =>
    case Some(k) =>
      assert cmap[key := Consensus(ests[k].consensus, "StockAnalysis")][key := c] == cmap[key := c];
  }

  /** One estimate loop: every matching estimate overwrites the entry for `key`. */
  method RecordMatches(cmap: map<string, Consensus>, key: string, ests: seq<Estimate>, period: string)
    returns (r: map<string, Consensus>)
    ensures r == Recorded(cmap, key, ests, period)
  {
    r := cmap;
    for i := 0 to |ests|
      invariant r == Recorded(cmap, key, ests[..i], period)
    {
      RecordedStep(cmap, key, ests, i, period);
      if Contains(Normalised(ests[i].period), Normalised(period)) {
        r := r[key := Consensus(ests[i].consensus, "StockAnalysis")];
      }
    }
    assert ests[..|ests|] == ests;
  }

  /** `main`'s consensus block: the revenue loop, then the EPS loop. */
  method BuildConsensusMap(period: string, sa: Option<StockAnalysis>) returns (cmap: map<string, Consensus>)
    ensures cmap == ConsensusMap(period, sa)
  {
    cmap := map[];
    if sa.Some? {
      cmap := RecordMatches(cmap, "revenue", sa.value.revenueEstimates, period);
      cmap := RecordMatches(cmap, "eps", sa.value.epsEstimates, period);
    }
  }

  /**
   * Only 'revenue' and 'eps' are ever filled, each exactly when some
   * estimate of its list matches the period, from the last matching
   * estimate, and always with StockAnalysis as the source.
   */
  lemma ConsensusFromLastMatch(period: string, s: StockAnalysis)
    ensures var m := ConsensusMap(period, Some(s));
            m.Keys <= {"revenue", "eps"} &&
            ("revenue" in m <==> exists i :: 0 <= i < |s.revenueEstimates| && Matches(s.revenueEstimates[i], period)) &&
            ("eps" in m <==> exists i :: 0 <= i < |s.epsEstimates| && Matches(s.epsEstimates[i], period)) &&
            (forall key :: key in m ==> m[key].source == "StockAnalysis")
    ensures var m := ConsensusMap(period, Some(s));
            "revenue" in m ==>
              exists i :: 0 <= i < |s.revenueEstimates| && Matches(s.revenueEstimates[i], period) &&
                          m["revenue"].value == s.revenueEstimates[i].consensus &&
                          forall j :: i < j < |s.revenueEstimates| ==> !Matches(s.revenueEstimates[j], period)
    ensures var m := ConsensusMap(period, Some(s));
            "eps" in m ==>
              exists i :: 0 <= i < |s.epsEstimates| && Matches(s.epsEstimates[i], period) &&
                          m["eps"].value == s.epsEstimates[i].consensus &&
                          forall j :: i < j < |s.epsEstimates| ==> !Matches(s.epsEstimates[j], period)
  {
    var rev := LastMatch(s.revenueEstimates, period);
    var eps := LastMatch(s.epsEstimates, period);
    if rev.Some? {
      assert Matches(s.revenueEstimates[rev.value], period);
    }
    if eps.Some? {
      assert Matches(s.epsEstimates[eps.value], period);
    }
  }

  /** An estimate labelled with the requested period itself matches it. */
  lemma PeriodMatchesItself(period: string, consensus: Option<real>)
    ensures Matches(Estimate(period, consensus), period)
  {
    var n := Normalised(period);
    assert OccursAt(n, n, 0);
    ContainsIff(n, n);
  }

  // ---------------------------------------------------------------------
  // add_claude_rationale

  /** An expectation of the brief, with the text fields the rationale fills in. */
  datatype BriefEntry = BriefEntry(expectation: Expectation, assumptionBasis: Option<string>, ourVsConsensus: Option<string>)

  /** One entry of the reply's "expectations" list; `None` fields are absent keys. */
  datatype Rationale = Rationale(metricName: Option<string>, assumptionBasis: Option<string>, ourVsConsensus: Option<string>)

  datatype TestedHypothesis = TestedHypothesis(hypothesisId: Option<int>, testDescription: Option<string>)

  datatype CriterionInPlay = CriterionInPlay(criterion: Option<string>, significance: Option<string>)

  /** The parsed reply; an absent list reads as empty. */
  datatype RationaleReply = RationaleReply(expectations: seq<Rationale>, hypothesesTested: seq<TestedHypothesis>,
                                           killCriteriaInPlay: seq<CriterionInPlay>)

  /**
   * What the model call yields: an exception (from the client or the
   * parser), a reply that is `None` or an empty object, or a reply.
   */
  datatype Answer = Failed | Falsy | Replied(reply: RationaleReply)

  /** The empty-input early return yields the bare list, not a triple. */
  datatype RationaleResult =
    | Bare(expectations: seq<BriefEntry>)
    | Triple(expectations: seq<BriefEntry>, hypothesesTested: seq<TestedHypothesis>, killCriteriaInPlay: seq<CriterionInPlay>)

  /** Every entry names its metric; otherwise building the map raises KeyError. */
  predicate AllNamed(rs: seq<Rationale>)
  {
    forall k :: 0 <= k < |rs| ==> rs[k].metricName.Some?
  }

  /** `{e['metric_name']: e for e in rs}`: a later entry replaces an earlier one of the same name. */
  function RationaleMap(rs: seq<Rationale>): map<string, Rationale>
    requires AllNamed(rs)
  {
    if |rs| == 0 then map[]
    else RationaleMap(rs[..|rs| - 1])[rs[|rs| - 1].metricName.value := rs[|rs| - 1]]
  }

  /** The map holds each named metric, with the last entry of that name. */
  lemma {:induction false} RationaleMapLastWins(rs: seq<Rationale>, name: string)
    requires AllNamed(rs)
    ensures name in RationaleMap(rs) <==> exists k :: 0 <= k < |rs| && rs[k].metricName == Some(name)
    ensures name in RationaleMap(rs) ==>
              exists k :: 0 <= k < |rs| && RationaleMap(rs)[name] == rs[k] && rs[k].metricName == Some(name) &&
                          forall j :: k < j < |rs| ==> rs[j].metricName != Some(name)
  {
    if |rs| > 0 {
      var front := rs[..|rs| - 1];
      var last := rs[|rs| - 1];
      assert AllNamed(front) by {
        forall k | 0 <= k < |front|
          ensures front[k].metricName.Some?
        {
          assert front[k] == rs[k];
        }
      }
      RationaleMapLastWins(front, name);
      if last.metricName == Some(name) {
        assert RationaleMap(rs)[name] == rs[|rs| - 1];
      } else {
        assert RationaleMap(rs) == RationaleMap(front)[last.metricName.value := last];
        if name in RationaleMap(front) {
          var k :| 0 <= k < |front| && RationaleMap(front)[name] == front[k] && front[k].metricName == Some(name) &&
                   forall j :: k < j < |front| ==> front[j].metricName != Some(name);
          assert rs[k] == front[k];
          assert forall j :: k < j < |rs| ==> rs[j].metricName != Some(name) by {
            forall j | k < j < |rs|
              ensures rs[j].metricName != Some(name)
            {
              if j < |front| {
                assert rs[j] == front[j];
              }
            }
          }
        }
        if exists k :: 0 <= k < |rs| && rs[k].metricName == Some(name) {
          var k :| 0 <= k < |rs| && rs[k].metricName == Some(name);
          assert k < |front| && front[k] == rs[k];
        }
        forall k | 0 <= k < |front| && front[k].metricName == Some(name)
          ensures rs[k].metricName == Some(name)
        {
          assert rs[k] == front[k];
        }
      }
    }
  }

  /**
   * The merge of one expectation: the basis is replaced only when the entry
   * supplies one (otherwise the old basis, or ''), the consensus remark is
   * always set, to '' when the entry has none.
   */
  function MergeOne(e: BriefEntry, rm: map<string, Rationale>): BriefEntry
  {
    var r := Get(rm, e.expectation.metric);
    var basis := if r.Some? && r.value.assumptionBasis.Some? then r.value.assumptionBasis.value else e.assumptionBasis.GetOr("");
    var vs := if r.Some? then r.value.ourVsConsensus.GetOr("") else "";
    e.(assumptionBasis := Some(basis), ourVsConsensus := Some(vs))
  }

  function Merged(es: seq<BriefEntry>, rm: map<string, Rationale>): seq<BriefEntry>
  {
    seq(|es|, k requires 0 <= k < |es| => MergeOne(es[k], rm))
  }

  /** `add_claude_rationale` after the model call. */
  function AddRationale(es: seq<BriefEntry>, answer: Answer): RationaleResult
  {
    if |es| == 0 then Bare(es)
    else match answer
      case Failed => Triple(es, [], [])
      case Falsy => Triple(es, [], [])
      case Replied(reply) =>
        if !AllNamed(reply.expectations) then Triple(es, [], [])
        else Triple(Merged(es, RationaleMap(reply.expectations)), reply.hypothesesTested, reply.killCriteriaInPlay)
  }

  /**
   * `add_claude_rationale` on the list itself: the rationale map is built
   * first, then each expectation is updated where it stands.
   */
  method AddRationaleInPlace(es: array<BriefEntry>, answer: Answer) returns (r: RationaleResult)
    modifies es
    ensures r == AddRationale(old(es[..]), answer)
    ensures es[..] == r.expectations
  {
    if es.Length == 0 {
      return Bare(es[..]);
    }
    if answer.Failed? || answer.Falsy? {
      return Triple(es[..], [], []);
    }
    var reply := answer.reply;
    if !AllNamed(reply.expectations) {
      return Triple(es[..], [], []);
    }
    var rm := RationaleMap(reply.expectations);
    ghost var before := es[..];
    for k := 0 to es.Length
      invariant es[..k] == Merged(before, rm)[..k]
      invariant es[k..] == before[k..]
    {
      assert es[k] == before[k];
      var rk := Get(rm, es[k].expectation.metric);
      var basis := if rk.Some? && rk.value.assumptionBasis.Some? then rk.value.assumptionBasis.value
                   else es[k].assumptionBasis.GetOr("");
      var vs := if rk.Some? then rk.value.ourVsConsensus.GetOr("") else "";
      es[k] := es[k].(assumptionBasis := Some(basis), ourVsConsensus := Some(vs));
    }
    assert es[..] == Merged(before, rm);
    return Triple(es[..], reply.hypothesesTested, reply.killCriteriaInPlay);
  }

  /**
   * The merge keeps the number and order of the expectations and their
   * figures; an empty list comes back as it was and not as a triple; an
   * exception, a falsy reply or an unnamed entry leaves every expectation
   * untouched with nothing tested and nothing in play.
   */
  lemma RationaleKeepsExpectations(es: seq<BriefEntry>, answer: Answer)
    ensures var r := AddRationale(es, answer);
            |r.expectations| == |es| &&
            forall k :: 0 <= k < |es| ==> r.expectations[k].expectation == es[k].expectation
    ensures |es| == 0 <==> AddRationale(es, answer).Bare?
    ensures |es| == 0 ==> AddRationale(es, answer).expectations == es
    ensures |es| > 0 && (answer.Failed? || answer.Falsy? || !AllNamed(answer.reply.expectations)) ==>
              AddRationale(es, answer) == Triple(es, [], [])
  {
  }

  /**
   * On a merge, an expectation's basis is the entry's when the entry
   * supplies one and its own (or '') otherwise, and its consensus remark is
   * the entry's, or '' when there is no entry or the entry has none.
   */
  lemma RationaleFields(es: seq<BriefEntry>, reply: RationaleReply, k: int)
    requires |es| > 0 && AllNamed(reply.expectations) && 0 <= k < |es|
    ensures var r := AddRationale(es, Replied(reply)).expectations[k];
            var m := es[k].expectation.metric;
            var rm := RationaleMap(reply.expectations);
            (m in rm && rm[m].assumptionBasis.Some? ==> r.assumptionBasis == rm[m].assumptionBasis) &&
            (!(m in rm && rm[m].assumptionBasis.Some?) ==> r.assumptionBasis == Some(es[k].assumptionBasis.GetOr(""))) &&
            (m in rm ==> r.ourVsConsensus == Some(rm[m].ourVsConsensus.GetOr(""))) &&
            (m !in rm ==> r.ourVsConsensus == Some(""))
    ensures AddRationale(es, Replied(reply)).hypothesesTested == reply.hypothesesTested
  {
  }

  // ---------------------------------------------------------------------
  // format_brief: the street column

  datatype Street = StreetNA | StreetValue(value: real)

  /** `cons.get('value')` tested for truth: a missing entry, a NULL and 0 all give N/A. */
  function StreetOf(cmap: map<string, Consensus>, metric: string): (s: Street)
    ensures s.StreetNA? <==> metric !in cmap || cmap[metric].value.None? || cmap[metric].value.value == 0.0
    ensures s.StreetValue? ==> s.value == cmap[metric].value.value
  {
    if metric in cmap && cmap[metric].value.Some? && cmap[metric].value.value != 0.0
    then StreetValue(cmap[metric].value.value)
    else StreetNA
  }

  /** The street column; `show` is how Python prints the number. */
  function StreetLabel(s: Street, unit: string, show: real -> string): string
  {
    match s
    case StreetNA => "Street: N/A"
    case StreetValue(v) => "Street: $" + show(v) + unit
  }

  /** The brief reads "Street: N/A" exactly when no consensus value exists for the metric. */
  lemma StreetNotAvailable(cmap: map<string, Consensus>, metric: string, unit: string, show: real -> string)
    ensures StreetLabel(StreetOf(cmap, metric), unit, show) == "Street: N/A" <==>
            metric !in cmap || cmap[metric].value.None? || cmap[metric].value.value == 0.0
  {
    var s := StreetOf(cmap, metric);
    if s.StreetValue? {
      assert StreetLabel(s, unit, show)[8] == '$';
    }
  }
}
