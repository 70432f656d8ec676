/**
 * Quarterly expectations from the E&P model, scoring of reported actuals
 * against them, and kill-criterion checks (`generate_expectations`,
 * `score_actuals`, `check_kill_criteria` of `EPModel`).
 */
module ModelExpectations {
  import opened Wrappers
  import opened PyNum
  import opened FinancialModel

  /** A quantitative expectation; stored rows may lack any bound. */
  datatype Expectation = Expectation(metric: string, low: Option<real>, mid: Option<real>, high: Option<real>, unit: string)

  /** Reported actuals by metric name; a stored `None` reads like a missing key. */
  type Actuals = map<string, Option<real>>

  /** `actuals.get(name)`. */
  function ActualOf(actuals: Actuals, name: string): Option<real>
  {
    if name in actuals then actuals[name] else None
  }

  // ---------------------------------------------------------------------
  // generate_expectations

  /** A quarterly range built from two annual figures and the rounded midpoint of the two quarterly ends. */
  function QuarterRange(metric: string, annualLow: real, annualHigh: real): Expectation
  {
    var lo := RoundInt(annualLow / 4.0);
    var hi := RoundInt(annualHigh / 4.0);
    Expectation(metric, Some(lo), Some(RoundInt((lo + hi) / 2.0)), Some(hi), "M")
  }

  /** The high revenue price: the forward curve if it is above realized, else realized plus 10 %. */
  function HighPrice(price: real, fwd: Option<real>): (r: real)
    ensures price >= 0.0 ==> r >= price
  {
    if Truthy(fwd) && fwd.value > price then fwd.value else price * 1.1
  }

  /** Quarterly revenue between the realized and the high price. */
  function RevenueRange(prod: real, price: real, highPrice: real): Expectation
  {
    QuarterRange("revenue", prod * price, prod * highPrice)
  }

  function RevenueExpectation(p: Params): Option<Expectation>
  {
    if p.productionVolume.Some? && p.realizedPrice.Some? then
      Some(RevenueRange(p.productionVolume.value, p.realizedPrice.value, HighPrice(p.realizedPrice.value, p.forwardCurvePrice)))
    else None
  }

  /** Quarterly OCF with a fixed -10 % / +10 % band around it. */
  function OcfExpectation(p: Params): Option<Expectation>
  {
    var ocf := OperatingCashFlow(p);
    if ocf.Some? then
      var mid := RoundInt(ocf.value / 4.0);
      Some(Expectation("operating_cash_flow", Some(RoundInt(mid * 0.9)), Some(mid), Some(RoundInt(mid * 1.1)), "M"))
    else None
  }

  function CapexExpectation(p: Params): Option<Expectation>
  {
    if p.capexLow.Some? then Some(QuarterRange("capex", p.capexLow.value, CapexUpper(p).value))
    else None
  }

  /** Quarterly production to 0.1 with a fixed -3 % / +3 % band. */
  function ProductionExpectation(p: Params): Option<Expectation>
  {
    if p.productionVolume.Some? then
      var q := Round(p.productionVolume.value / 4.0, 1);
      var unit := if p.productionUnit.Some? then p.productionUnit.value else "Bcf";
      Some(Expectation("production_volume", Some(Round(q * 0.97, 1)), Some(q), Some(Round(q * 1.03, 1)), unit))
    else None
  }

  function GapExpectation(p: Params): Option<Expectation>
  {
    var gap := FundingGap(p);
    if gap.Some? then Some(QuarterRange("funding_gap", gap.value.low, gap.value.high)) else None
  }

  function AsSeq(o: Option<Expectation>): seq<Expectation>
  {
    if o.Some? then [o.value] else []
  }

  /** `generate_expectations`: the five quarterly expectations, each only when its inputs exist. */
  function Expectations(p: Params): seq<Expectation>
  {
    AsSeq(RevenueExpectation(p)) + AsSeq(OcfExpectation(p)) + AsSeq(CapexExpectation(p))
    + AsSeq(ProductionExpectation(p)) + AsSeq(GapExpectation(p))
  }

  function Metrics(es: seq<Expectation>): seq<string>
  {
    seq(|es|, i requires 0 <= i < |es| => es[i].metric)
  }

  function If(b: bool, name: string): seq<string>
  {
    if b then [name] else []
  }

  lemma MetricsAppend(a: seq<Expectation>, b: seq<Expectation>)
    ensures Metrics(a + b) == Metrics(a) + Metrics(b)
  {
  }

  lemma MetricsOfOption(o: Option<Expectation>, present: bool, name: string)
    requires o.Some? <==> present
    requires o.Some? ==> o.value.metric == name
    ensures Metrics(AsSeq(o)) == If(present, name)
  {
  }

  /** The expectations come in a fixed order, each present exactly when its inputs are. */
  lemma ExpectationsOrderAndPresence(p: Params)
    ensures Metrics(Expectations(p)) ==
              If(p.productionVolume.Some? && p.realizedPrice.Some?, "revenue")
              + If(OperatingCashFlow(p).Some?, "operating_cash_flow")
              + If(p.capexLow.Some?, "capex")
              + If(p.productionVolume.Some?, "production_volume")
              + If(OperatingCashFlow(p).Some? && p.capexLow.Some?, "funding_gap")
  {
    var a, b, c := AsSeq(RevenueExpectation(p)), AsSeq(OcfExpectation(p)), AsSeq(CapexExpectation(p));
    var d, e := AsSeq(ProductionExpectation(p)), AsSeq(GapExpectation(p));
    MetricsOfOption(RevenueExpectation(p), p.productionVolume.Some? && p.realizedPrice.Some?, "revenue");
    MetricsOfOption(OcfExpectation(p), OperatingCashFlow(p).Some?, "operating_cash_flow");
    MetricsOfOption(CapexExpectation(p), p.capexLow.Some?, "capex");
    MetricsOfOption(ProductionExpectation(p), p.productionVolume.Some?, "production_volume");
    MetricsOfOption(GapExpectation(p), OperatingCashFlow(p).Some? && p.capexLow.Some?, "funding_gap");
    MetricsAppend(a, b);
    MetricsAppend(a + b, c);
    MetricsAppend(a + b + c, d);
    MetricsAppend(a + b + c + d, e);
  }

  predicate Ordered(e: Expectation)
  {
    e.low.Some? && e.mid.Some? && e.high.Some? && e.low.value <= e.mid.value <= e.high.value
  }

  /** The rounded midpoint of two whole numbers lies between them. */
  lemma MidBetween(lo: real, hi: real)
    requires lo <= hi && lo.Floor as real == lo && hi.Floor as real == hi
    ensures lo <= RoundInt((lo + hi) / 2.0) <= hi
  {
    RoundIntMonotone(lo, (lo + hi) / 2.0);
    RoundIntMonotone((lo + hi) / 2.0, hi);
    RoundIntOfInt(lo.Floor);
    RoundIntOfInt(hi.Floor);
  }

  lemma QuarterRangeOrdered(metric: string, a: real, b: real)
    requires a <= b
    ensures Ordered(QuarterRange(metric, a, b))
  {
    RoundIntMonotone(a / 4.0, b / 4.0);
    MidBetween(RoundInt(a / 4.0), RoundInt(b / 4.0));
  }

  lemma RevenueExpectationOrdered(p: Params)
    requires RevenueExpectation(p).Some?
    requires p.productionVolume.value >= 0.0 && p.realizedPrice.value >= 0.0
    ensures Ordered(RevenueExpectation(p).value)
  {
    var price := p.realizedPrice.value;
    RevenueRangeOrdered(p.productionVolume.value, price, HighPrice(price, p.forwardCurvePrice));
  }

  lemma RevenueRangeOrdered(prod: real, price: real, highPrice: real)
    requires prod >= 0.0 && price <= highPrice
    ensures Ordered(RevenueRange(prod, price, highPrice))
  {
    MulMonotone(prod, price, highPrice);
    QuarterRangeOrdered("revenue", prod * price, prod * highPrice);
  }

  lemma OcfBandOrdered(ocf: real)
    requires ocf >= 0.0
    ensures var mid := RoundInt(ocf / 4.0);
            RoundInt(mid * 0.9) <= mid <= RoundInt(mid * 1.1)
  {
    var mid := RoundInt(ocf / 4.0);
    RoundIntMonotone(0.0, ocf / 4.0);
    RoundIntOfInt(0);
    RoundIntMonotone(mid * 0.9, mid);
    RoundIntMonotone(mid, mid * 1.1);
    RoundIntOfInt(mid.Floor);
  }

  lemma ProductionBandOrdered(prod: real)
    requires prod >= 0.0
    ensures var q := Round(prod / 4.0, 1);
            Round(q * 0.97, 1) <= q <= Round(q * 1.03, 1)
  {
    var x := prod / 4.0;
    var q := Round(x, 1);
    RoundMonotone(0.0, x, 1);
    RoundExact(0, 1);
    RoundExact(RoundHalfEven(x * 10.0), 1);
    assert Round(q, 1) == q;
    RoundMonotone(q * 0.97, q, 1);
    RoundMonotone(q, q * 1.03, 1);
  }

  /** Every expectation is one of the five builders' results. */
  lemma ExpectationsMembers(p: Params, e: Expectation)
    requires e in Expectations(p)
    ensures RevenueExpectation(p) == Some(e) || OcfExpectation(p) == Some(e) || CapexExpectation(p) == Some(e)
            || ProductionExpectation(p) == Some(e) || GapExpectation(p) == Some(e)
  {
  }

  lemma OcfExpectationOrdered(p: Params)
    requires OcfExpectation(p).Some? && OperatingCashFlow(p).value >= 0.0
    ensures Ordered(OcfExpectation(p).value)
  {
    OcfBandOrdered(OperatingCashFlow(p).value);
  }

  lemma CapexExpectationOrdered(p: Params)
    requires CapexExpectation(p).Some?
    requires p.capexHigh.Some? ==> p.capexLow.value <= p.capexHigh.value
    ensures Ordered(CapexExpectation(p).value)
  {
    QuarterRangeOrdered("capex", p.capexLow.value, CapexUpper(p).value);
  }

  lemma ProductionExpectationOrdered(p: Params)
    requires ProductionExpectation(p).Some? && p.productionVolume.value >= 0.0
    ensures Ordered(ProductionExpectation(p).value)
  {
    ProductionBandOrdered(p.productionVolume.value);
  }

  lemma GapExpectationOrdered(p: Params)
    requires GapExpectation(p).Some?
    ensures Ordered(GapExpectation(p).value)
  {
    QuarterRangeOrdered("funding_gap", FundingGap(p).value.low, FundingGap(p).value.high);
  }

  /**
   * For non-negative inputs, capex guidance with low <= high and non-negative
   * operating cash flow, every expectation satisfies low <= mid <= high.
   */
  lemma ExpectationsOrdered(p: Params)
    requires p.productionVolume.Some? ==> p.productionVolume.value >= 0.0
    requires p.realizedPrice.Some? ==> p.realizedPrice.value >= 0.0
    requires p.capexLow.Some? && p.capexHigh.Some? ==> p.capexLow.value <= p.capexHigh.value
    requires OperatingCashFlow(p).Some? ==> OperatingCashFlow(p).value >= 0.0
    ensures forall e :: e in Expectations(p) ==> Ordered(e)
  {
    if RevenueExpectation(p).Some? { RevenueExpectationOrdered(p); }
    if OcfExpectation(p).Some? { OcfExpectationOrdered(p); }
    if CapexExpectation(p).Some? { CapexExpectationOrdered(p); }
    if ProductionExpectation(p).Some? { ProductionExpectationOrdered(p); }
    if GapExpectation(p).Some? { GapExpectationOrdered(p); }
    forall e | e in Expectations(p)
      ensures Ordered(e)
    {
      ExpectationsMembers(p, e);
    }
  }

  /** With negative OCF the fixed 0.9x/1.1x band comes out inverted (e.g. annual OCF of -400 $M). */
  lemma OcfBandInvertsForNegativeOcf()
    ensures var e := OcfExpectation(NoParams.(operatingCashFlow := Some(-400.0)));
            e.Some? && e.value.low == Some(-90.0) && e.value.mid == Some(-100.0) && e.value.high == Some(-110.0)
  {
    var p := NoParams.(operatingCashFlow := Some(-400.0));
    assert OperatingCashFlow(p) == Some(-400.0);
    RoundIntOfInt(-100);
    RoundIntOfInt(-90);
    RoundIntOfInt(-110);
    assert RoundInt(-400.0 / 4.0) == -100.0;
    assert RoundInt(-100.0 * 0.9) == -90.0;
    assert RoundInt(-100.0 * 1.1) == -110.0;
  }

  // ---------------------------------------------------------------------
  // score_actuals

  datatype Impact = Confirms | Challenges | Breaks | Neutral

  datatype ScoredResult = ScoredResult(
    metric: string,
    expectedMid: Option<real>,
    expectedLow: Option<real>,
    expectedHigh: Option<real>,
    actual: real,
    vsExpectedPct: Option<real>,
    withinRange: bool,
    impact: Impact)

  /** Percentage distance from the expected midpoint (to 0.01), when the midpoint is truthy. */
  function VsExpectedPct(actual: real, mid: Option<real>): (r: Option<real>)
    ensures r.Some? <==> Truthy(mid)
    ensures r.Some? ==> Abs(r.value - (actual - mid.value) / Abs(mid.value) * 100.0) * 200.0 <= 1.0
  {
    if Truthy(mid) then
      var x := (actual - mid.value) / Abs(mid.value) * 100.0;
      RoundAccuracy2(x);
      Some(Round(x, 2))
    else None
  }

  /** Inclusive range test; both bounds must exist. */
  predicate WithinRange(low: Option<real>, high: Option<real>, actual: real)
  {
    low.Some? && high.Some? && low.value <= actual <= high.value
  }

  /**
   * Thesis impact: confirms inside the range; outside it, breaks beyond 25 %,
   * challenges beyond 5 % (the 15 % tier also yields challenges), else neutral.
   */
  function ImpactOf(within: bool, vs: Option<real>): (r: Impact)
    ensures r == Confirms <==> within
    ensures r == Breaks <==> !within && vs.Some? && Abs(vs.value) > 25.0
    ensures r == Challenges <==> !within && vs.Some? && 5.0 < Abs(vs.value) <= 25.0
    ensures r == Neutral <==> !within && (vs.None? || Abs(vs.value) <= 5.0)
  {
    if within then Confirms
    else if vs.Some? && Abs(vs.value) > 15.0 then (if Abs(vs.value) > 25.0 then Breaks else Challenges)
    else if vs.Some? && Abs(vs.value) > 5.0 then Challenges
    else Neutral
  }

  function ScoreOne(e: Expectation, actual: real): (r: ScoredResult)
    ensures r.metric == e.metric && r.actual == actual
    ensures r.withinRange <==> WithinRange(e.low, e.high, actual)
    ensures r.vsExpectedPct.None? <==> !Truthy(e.mid)
    ensures !r.withinRange && r.vsExpectedPct.None? ==> r.impact == Neutral
  {
    var vs := VsExpectedPct(actual, e.mid);
    var within := WithinRange(e.low, e.high, actual);
    ScoredResult(e.metric, e.mid, e.low, e.high, actual, vs, within, ImpactOf(within, vs))
  }

  /** The expectations that have an actual, in order. */
  function WithActuals(es: seq<Expectation>, actuals: Actuals): (r: seq<Expectation>)
    ensures |r| <= |es|
    ensures forall e :: e in r ==> e in es && ActualOf(actuals, e.metric).Some?
  {
    if |es| == 0 then []
    else
      var rest := WithActuals(es[..|es| - 1], actuals);
      var e := es[|es| - 1];
      if ActualOf(actuals, e.metric).Some? then rest + [e] else rest
  }

  /** `score_actuals` specified: one result per expectation that has an actual, in order. */
  function Scored(es: seq<Expectation>, actuals: Actuals): seq<ScoredResult>
  {
    if |es| == 0 then []
    else
      var rest := Scored(es[..|es| - 1], actuals);
      var e := es[|es| - 1];
      var a := ActualOf(actuals, e.metric);
      if a.Some? then rest + [ScoreOne(e, a.value)] else rest
  }

  /** The scored results are exactly the expectations with an actual, each scored against its actual. */
  lemma {:induction false} ScoredMatchesWithActuals(es: seq<Expectation>, actuals: Actuals)
    ensures |Scored(es, actuals)| == |WithActuals(es, actuals)|
    ensures forall j :: 0 <= j < |Scored(es, actuals)| ==>
              var e := WithActuals(es, actuals)[j];
              Scored(es, actuals)[j] == ScoreOne(e, ActualOf(actuals, e.metric).value)
  {
    if |es| > 0 {
      ScoredMatchesWithActuals(es[..|es| - 1], actuals);
    }
  }

  /** `EPModel.score_actuals`. */
  method ScoreActuals(es: seq<Expectation>, actuals: Actuals) returns (results: seq<ScoredResult>)
    ensures results == Scored(es, actuals)
  {
    results := [];
    for i := 0 to |es|
      invariant results == Scored(es[..i], actuals)
    {
      assert es[..i + 1][..i] == es[..i];
      var e := es[i];
      var actual := ActualOf(actuals, e.metric);
      if actual.None? {
        continue;
      }
      var vs := VsExpectedPct(actual.value, e.mid);
      var within := e.low.Some? && e.high.Some? && e.low.value <= actual.value <= e.high.value;
      var impact;
      if within {
        impact := Confirms;
      } else if vs.Some? && Abs(vs.value) > 15.0 {
        impact := if Abs(vs.value) > 25.0 then Breaks else Challenges;
      } else if vs.Some? && Abs(vs.value) > 5.0 {
        impact := Challenges;
      } else {
        impact := Neutral;
      }
      results := results + [ScoredResult(e.metric, e.mid, e.low, e.high, actual.value, vs, within, impact)];
    }
    assert es[..|es|] == es;
  }

  // ---------------------------------------------------------------------
  // check_kill_criteria

  /** `threshold_operator`: key missing (defaults to '>'), stored as `None`, or a string. */
  datatype OperatorField = OperatorMissing | OperatorNull | Operator(symbol: string)

  datatype Criterion = Criterion(
    id: Option<int>,
    criterion: Option<string>,
    metricName: Option<string>,
    threshold: Option<real>,
    operator: OperatorField)

  datatype KillCheck = KillCheck(
    criterionId: Option<int>,
    criterion: Option<string>,
    metricName: Option<string>,
    threshold: Option<real>,
    operator: Option<string>,
    actual: Option<real>,
    triggered: bool)

  const KnownOperators: set<string> := {">", "<", ">=", "<=", "!=", "="}

  function EffectiveOperator(op: OperatorField): Option<string>
  {
    match op
    case OperatorMissing => Some(">")
    case OperatorNull => None
    case Operator(s) => Some(s)
  }

  /** Applies a comparison operator; `None` for an operator outside the table. */
  function Compare(op: string, a: real, t: real): (r: Option<bool>)
    ensures r.Some? <==> op in KnownOperators
  {
    match op
    case ">" => Some(a > t)
    case "<" => Some(a < t)
    case ">=" => Some(a >= t)
    case "<=" => Some(a <= t)
    case "!=" => Some(a != t)
    case "=" => Some(a == t)
    case _ => None
  }

  /** The actual a criterion looks at: none for a missing or empty metric name. */
  function CriterionActual(c: Criterion, actuals: Actuals): Option<real>
  {
    if c.metricName.Some? && c.metricName.value != "" then ActualOf(actuals, c.metricName.value) else None
  }

  /** One criterion checked against the actuals. */
  function CheckOne(c: Criterion, actuals: Actuals): (r: KillCheck)
    ensures r.criterionId == c.id && r.metricName == c.metricName && r.threshold == c.threshold
    ensures r.operator == EffectiveOperator(c.operator) && r.actual == CriterionActual(c, actuals)
    ensures r.triggered ==> r.actual.Some? && r.threshold.Some? && r.operator.Some? && r.operator.value in KnownOperators
    ensures r.actual.Some? && r.threshold.Some? && c.operator == OperatorMissing ==>
              (r.triggered <==> r.actual.value > r.threshold.value)
  {
    var actual := CriterionActual(c, actuals);
    var op := EffectiveOperator(c.operator);
    var triggered :=
      if actual.Some? && c.threshold.Some? && op.Some? then
        var cmp := Compare(op.value, actual.value, c.threshold.value);
        cmp.Some? && cmp.value
      else false;
    KillCheck(c.id, c.criterion, c.metricName, c.threshold, op, actual, triggered)
  }

  /** `EPModel.check_kill_criteria`: exactly one result per criterion, in input order. */
  method CheckKillCriteria(criteria: seq<Criterion>, actuals: Actuals) returns (results: seq<KillCheck>)
    ensures |results| == |criteria|
    ensures forall i :: 0 <= i < |criteria| ==> results[i] == CheckOne(criteria[i], actuals)
  {
    results := [];
    for i := 0 to |criteria|
      invariant |results| == i
      invariant forall j :: 0 <= j < i ==> results[j] == CheckOne(criteria[j], actuals)
    {
      var c := criteria[i];
      var op := EffectiveOperator(c.operator);
      var actual := CriterionActual(c, actuals);
      var triggered := false;
      if actual.Some? && c.threshold.Some? && op.Some? {
        var cmp := Compare(op.value, actual.value, c.threshold.value);
        if cmp.Some? {
          triggered := cmp.value;
        }
      }
      results := results + [KillCheck(c.id, c.criterion, c.metricName, c.threshold, op, actual, triggered)];
    }
  }
}
