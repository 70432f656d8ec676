/**
 * The deterministic E&P financial model (`EPModel`): a sparse parameter
 * record turned into revenue, operating cash flow, funding gap, breakeven
 * and coverage/leverage ratios. A missing input yields a missing output;
 * absence is never read as zero. Units follow the source: volumes in Bcf(e),
 * prices in $/Mcf(e), money in $M.
 */
module FinancialModel {
  import opened Wrappers
  import opened PyNum

  /** The model's parameter map; every absent (or `None`) key is `None`. */
  datatype Params = Params(
    productionVolume: Option<real>,
    productionUnit: Option<string>,
    realizedPrice: Option<real>,
    priceUnit: Option<string>,
    operatingCostPerUnit: Option<real>,
    capexLow: Option<real>,
    capexHigh: Option<real>,
    hedgeVolume: Option<real>,
    hedgePrice: Option<real>,
    forwardCurvePrice: Option<real>,
    winterStrip: Option<real>,
    summerStrip: Option<real>,
    strip24m: Option<real>,
    priorCapex: Option<real>,
    priorProduction: Option<real>,
    operatingCashFlow: Option<real>,
    netDebt: Option<real>,
    interestExpense: Option<real>,
    creditFacilityAvailable: Option<real>,
    debtMaturityNext: Option<real>,
    totalLongTermDebt: Option<real>,
    maintenanceCapex: Option<real>)

  const NoParams: Params := Params(None, None, None, None, None, None, None, None, None, None, None,
                                   None, None, None, None, None, None, None, None, None, None, None)

  /** A low/high range in $M. */
  datatype Gap = Gap(low: real, high: real)

  /** How a funding gap could be covered; an absent key is `None`. */
  datatype GapCoverage = GapCoverage(
    gapLow: real,
    gapHigh: real,
    creditFacilityAvailable: Option<real>,
    facilityCoversGapPct: Option<real>,
    annualInterestExpense: Option<real>,
    impliedInterestRatePct: Option<real>,
    nextMaturity: Option<real>)

  // ---------------------------------------------------------------------
  // Parameter access

  /** `_capex_high`: the high end, falling back to the low end. */
  function CapexHigh(p: Params): Option<real>
  {
    if p.capexHigh.Some? then p.capexHigh else p.capexLow
  }

  /** `capex_high or capex_low`: the upper capex figure the gap and expectations use. */
  function CapexUpper(p: Params): Option<real>
  {
    Or(CapexHigh(p), p.capexLow)
  }

  /** `_capex_mid`: the midpoint of the guidance range, else whichever end exists. */
  function CapexMid(p: Params): (r: Option<real>)
    ensures r.None? <==> p.capexLow.None? && p.capexHigh.None?
    ensures p.capexLow.Some? && p.capexHigh.Some? ==> r == Some((p.capexLow.value + p.capexHigh.value) / 2.0)
    ensures p.capexLow.Some? && p.capexHigh.None? ==> r == p.capexLow
    ensures p.capexLow.None? ==> r == p.capexHigh
  {
    var low := p.capexLow;
    var high := CapexHigh(p);
    if low.Some? && high.Some? then Some((low.value + high.value) / 2.0)
    else Or(low, high)
  }

  // ---------------------------------------------------------------------
  // Revenue and cash flow

  /** Production (Bcf) times realized price ($/Mcf) is revenue in $M, rounded to a whole $M. */
  function Revenue(p: Params): (r: Option<real>)
    ensures r.Some? <==> p.productionVolume.Some? && p.realizedPrice.Some?
    ensures r.Some? ==> Abs(r.value - p.productionVolume.value * p.realizedPrice.value) <= 0.5
    ensures r.Some? ==> r.value.Floor as real == r.value
  {
    if p.productionVolume.Some? && p.realizedPrice.Some? then
      Some(RoundInt(p.productionVolume.value * p.realizedPrice.value))
    else None
  }

  /** Hedged volume times hedge price, rounded to a whole $M. */
  function HedgedRevenue(p: Params): (r: Option<real>)
    ensures r.Some? <==> p.hedgeVolume.Some? && p.hedgePrice.Some?
    ensures r.Some? ==> Abs(r.value - p.hedgeVolume.value * p.hedgePrice.value) <= 0.5
  {
    if p.hedgeVolume.Some? && p.hedgePrice.Some? then
      Some(RoundInt(p.hedgeVolume.value * p.hedgePrice.value))
    else None
  }

  /** Production not covered by hedges, to 0.1 Bcf. */
  function UnhedgedVolume(p: Params): (r: Option<real>)
    ensures r.Some? <==> p.productionVolume.Some? && p.hedgeVolume.Some?
    ensures r.Some? ==> Abs(r.value - (p.productionVolume.value - p.hedgeVolume.value)) * 20.0 <= 1.0
  {
    if p.productionVolume.Some? && p.hedgeVolume.Some? then
      RoundAccuracy1(p.productionVolume.value - p.hedgeVolume.value);
      Some(Round(p.productionVolume.value - p.hedgeVolume.value, 1))
    else None
  }

  /** The price `unhedged_revenue` uses: the argument, else the forward curve, else realized (Python `or`). */
  function UnhedgedPrice(p: Params, price: Option<real>): Option<real>
  {
    Or(Or(price, p.forwardCurvePrice), p.realizedPrice)
  }

  /** Unhedged volume valued at the chosen price, rounded to a whole $M. */
  function UnhedgedRevenue(p: Params, price: Option<real>): (r: Option<real>)
    ensures r.Some? <==> UnhedgedVolume(p).Some? && UnhedgedPrice(p, price).Some?
    ensures Truthy(price) && UnhedgedVolume(p).Some? ==>
              r.Some? && Abs(r.value - UnhedgedVolume(p).value * price.value) <= 0.5
    ensures !Truthy(price) && Truthy(p.forwardCurvePrice) && UnhedgedVolume(p).Some? ==>
              r.Some? && Abs(r.value - UnhedgedVolume(p).value * p.forwardCurvePrice.value) <= 0.5
  {
    if UnhedgedVolume(p).None? then None
    else if UnhedgedPrice(p, price).Some? then
      Some(RoundInt(UnhedgedVolume(p).value * UnhedgedPrice(p, price).value))
    else None
  }

  /** With neither a truthy price argument nor a truthy forward curve, the realized price values the volume. */
  lemma UnhedgedRevenueFallsBackToRealized(p: Params, price: Option<real>)
    requires !Truthy(price) && !Truthy(p.forwardCurvePrice)
    requires UnhedgedVolume(p).Some? && p.realizedPrice.Some?
    ensures UnhedgedRevenue(p, price).Some?
    ensures Abs(UnhedgedRevenue(p, price).value - UnhedgedVolume(p).value * p.realizedPrice.value) <= 0.5
  {
    assert UnhedgedPrice(p, price) == p.realizedPrice;
  }

  /**
   * Operating cash flow: the reported figure when there is one, otherwise
   * revenue less production times unit operating cost (both rounded to $M).
   */
  function OperatingCashFlow(p: Params): (r: Option<real>)
    ensures p.operatingCashFlow.Some? ==> r == p.operatingCashFlow
    ensures p.operatingCashFlow.None? ==>
              (r.Some? <==> p.productionVolume.Some? && p.realizedPrice.Some? && p.operatingCostPerUnit.Some?)
    ensures p.operatingCashFlow.None? && r.Some? ==>
              Abs(r.value - p.productionVolume.value * (p.realizedPrice.value - p.operatingCostPerUnit.value)) <= 1.0
  {
    if p.operatingCashFlow.Some? then p.operatingCashFlow
    else
      if Revenue(p).Some? && p.productionVolume.Some? && p.operatingCostPerUnit.Some? then
        MulSubDistributes(p.productionVolume.value, p.realizedPrice.value, p.operatingCostPerUnit.value);
        DifferenceNear(Revenue(p).value, p.productionVolume.value * p.realizedPrice.value,
                       RoundInt(p.productionVolume.value * p.operatingCostPerUnit.value),
                       p.productionVolume.value * p.operatingCostPerUnit.value);
        Some(Revenue(p).value - RoundInt(p.productionVolume.value * p.operatingCostPerUnit.value))
      else None
  }

  lemma MulSubDistributes(a: real, b: real, c: real)
    ensures a * (b - c) == a * b - a * c
  {
  }

  /** Two values each within 0.5 of their targets differ by within 1 of the targets' difference. */
  lemma DifferenceNear(a: real, x: real, b: real, y: real)
    requires Abs(a - x) <= 0.5 && Abs(b - y) <= 0.5
    ensures Abs((a - b) - (x - y)) <= 1.0
  {
  }

  // ---------------------------------------------------------------------
  // Funding gap

  /** Capex less OCF at both ends of the guidance range, as an ordered pair. */
  function FundingGap(p: Params): (r: Option<Gap>)
    ensures r.Some? <==> OperatingCashFlow(p).Some? && p.capexLow.Some?
    ensures r.Some? ==> r.value.low <= r.value.high
    ensures r.Some? ==>
              var a := RoundInt(p.capexLow.value - OperatingCashFlow(p).value);
              var b := RoundInt(CapexUpper(p).value - OperatingCashFlow(p).value);
              (r.value.low == a && r.value.high == b) || (r.value.low == b && r.value.high == a)
  {
    var ocf := OperatingCashFlow(p);
    if ocf.Some? && p.capexLow.Some? then
      var gapLow := RoundInt(p.capexLow.value - ocf.value);
      var gapHigh := RoundInt(CapexUpper(p).value - ocf.value);
      Some(Gap(Min(gapLow, gapHigh), Max(gapLow, gapHigh)))
    else None
  }

  /** With guidance ordered low <= high, the gap's ends come from the matching capex ends. */
  lemma FundingGapFollowsGuidance(p: Params)
    requires OperatingCashFlow(p).Some? && p.capexLow.Some?
    requires p.capexLow.value <= CapexUpper(p).value
    ensures FundingGap(p).Some?
    ensures FundingGap(p).value.low == RoundInt(p.capexLow.value - OperatingCashFlow(p).value)
    ensures FundingGap(p).value.high == RoundInt(CapexUpper(p).value - OperatingCashFlow(p).value)
  {
    var ocf := OperatingCashFlow(p).value;
    RoundIntMonotone(p.capexLow.value - ocf, CapexUpper(p).value - ocf);
  }

  /** More operating cash flow never widens the gap. */
  lemma FundingGapAntitoneInOcf(p: Params, ocf1: real, ocf2: real)
    requires p.capexLow.Some? && ocf1 <= ocf2
    ensures FundingGap(p.(operatingCashFlow := Some(ocf2))).value.high
            <= FundingGap(p.(operatingCashFlow := Some(ocf1))).value.high
    ensures FundingGap(p.(operatingCashFlow := Some(ocf2))).value.low
            <= FundingGap(p.(operatingCashFlow := Some(ocf1))).value.low
  {
    var p1, p2 := p.(operatingCashFlow := Some(ocf1)), p.(operatingCashFlow := Some(ocf2));
    assert OperatingCashFlow(p1) == Some(ocf1) && OperatingCashFlow(p2) == Some(ocf2);
    assert CapexUpper(p1) == CapexUpper(p2) == CapexUpper(p);
    RoundIntMonotone(p.capexLow.value - ocf2, p.capexLow.value - ocf1);
    RoundIntMonotone(CapexUpper(p).value - ocf2, CapexUpper(p).value - ocf1);
  }

  /** Free cash flow is the funding gap negated, with its ends swapped. */
  function FreeCashFlow(p: Params): (r: Option<Gap>)
    ensures r.Some? <==> FundingGap(p).Some?
    ensures r.Some? ==> r.value.low == -FundingGap(p).value.high && r.value.high == -FundingGap(p).value.low
    ensures r.Some? ==> r.value.low <= r.value.high
  {
    var gap := FundingGap(p);
    if gap.Some? then Some(Gap(-gap.value.high, -gap.value.low)) else None
  }

  // ---------------------------------------------------------------------
  // Ratios, each guarded by its denominator

  /** The realized price at which OCF, scaled with price, equals the capex midpoint (0.01 precision). */
  function BreakevenPrice(p: Params): (r: Option<real>)
    ensures r.Some? <==> Truthy(CapexMid(p)) && Truthy(p.realizedPrice)
                         && OperatingCashFlow(p).Some? && OperatingCashFlow(p).value > 0.0
    ensures r.Some? ==>
              Abs(r.value - ExactBreakeven(CapexMid(p).value, p.realizedPrice.value, OperatingCashFlow(p).value)) * 200.0 <= 1.0
  {
    if Truthy(CapexMid(p)) && Truthy(OperatingCashFlow(p)) && Truthy(p.realizedPrice)
       && OperatingCashFlow(p).value > 0.0
    then
      RoundAccuracy2(ExactBreakeven(CapexMid(p).value, p.realizedPrice.value, OperatingCashFlow(p).value));
      Some(Round(ExactBreakeven(CapexMid(p).value, p.realizedPrice.value, OperatingCashFlow(p).value), 2))
    else None
  }

  /** Capex midpoint times realized price over OCF, before rounding. */
  function ExactBreakeven(mid: real, realized: real, ocf: real): real
    requires ocf != 0.0
  {
    mid * realized / ocf
  }

  /** The unrounded breakeven is the price at which OCF, scaled in proportion to price, equals the capex midpoint. */
  lemma BreakevenScalesOcfToCapexMid(mid: real, realized: real, ocf: real)
    requires ocf > 0.0 && realized != 0.0
    ensures ocf * (ExactBreakeven(mid, realized, ocf) / realized) == mid
  {
    var b := ExactBreakeven(mid, realized, ocf);
    assert b * ocf == mid * realized;
    assert ocf * (b / realized) == (b * ocf) / realized;
  }

  /** Hedged share of production, in percent to 0.1. */
  function HedgeCoveragePct(p: Params): (r: Option<real>)
    ensures r.Some? <==> p.hedgeVolume.Some? && p.productionVolume.Some? && p.productionVolume.value > 0.0
    ensures r.Some? ==>
              Abs(r.value - p.hedgeVolume.value / p.productionVolume.value * 100.0) * 20.0 <= 1.0
  {
    if p.hedgeVolume.Some? && p.productionVolume.Some? && p.productionVolume.value > 0.0 then
      RoundAccuracy1(p.hedgeVolume.value / p.productionVolume.value * 100.0);
      Some(Round(p.hedgeVolume.value / p.productionVolume.value * 100.0, 1))
    else None
  }

  /** Year-over-year change of the capex midpoint, in percent to 0.1. */
  function CapexChangePct(p: Params): (r: Option<real>)
    ensures r.Some? <==> CapexMid(p).Some? && p.priorCapex.Some? && p.priorCapex.value > 0.0
    ensures r.Some? ==>
              Abs(r.value - (CapexMid(p).value - p.priorCapex.value) / p.priorCapex.value * 100.0) * 20.0 <= 1.0
  {
    if CapexMid(p).Some? && p.priorCapex.Some? && p.priorCapex.value > 0.0 then
      RoundAccuracy1((CapexMid(p).value - p.priorCapex.value) / p.priorCapex.value * 100.0);
      Some(Round((CapexMid(p).value - p.priorCapex.value) / p.priorCapex.value * 100.0, 1))
    else None
  }

  /** Year-over-year production change, in percent to 0.1. */
  function ProductionChangePct(p: Params): (r: Option<real>)
    ensures r.Some? <==> p.productionVolume.Some? && p.priorProduction.Some? && p.priorProduction.value > 0.0
    ensures r.Some? ==>
              Abs(r.value - (p.productionVolume.value - p.priorProduction.value) / p.priorProduction.value * 100.0) * 20.0 <= 1.0
  {
    if p.productionVolume.Some? && p.priorProduction.Some? && p.priorProduction.value > 0.0 then
      RoundAccuracy1((p.productionVolume.value - p.priorProduction.value) / p.priorProduction.value * 100.0);
      Some(Round((p.productionVolume.value - p.priorProduction.value) / p.priorProduction.value * 100.0, 1))
    else None
  }

  /** Extra revenue if the unhedged volume sold at the forward curve instead of the realized price. */
  function ForwardCurveUpside(p: Params): (r: Option<real>)
    ensures r.Some? <==> p.forwardCurvePrice.Some? && p.realizedPrice.Some? && UnhedgedVolume(p).Some?
    ensures r.Some? ==>
              Abs(r.value - (p.forwardCurvePrice.value - p.realizedPrice.value) * UnhedgedVolume(p).value) <= 0.5
  {
    if p.forwardCurvePrice.Some? && p.realizedPrice.Some? && UnhedgedVolume(p).Some? then
      Some(RoundInt((p.forwardCurvePrice.value - p.realizedPrice.value) * UnhedgedVolume(p).value))
    else None
  }

  /** Net debt in turns of OCF (to 0.1), only for positive OCF. */
  function NetDebtToOcf(p: Params): (r: Option<real>)
    ensures r.Some? <==> p.netDebt.Some? && OperatingCashFlow(p).Some? && OperatingCashFlow(p).value > 0.0
    ensures r.Some? ==> Abs(r.value - p.netDebt.value / OperatingCashFlow(p).value) * 20.0 <= 1.0
  {
    if p.netDebt.Some? && OperatingCashFlow(p).Some? && OperatingCashFlow(p).value > 0.0 then
      RoundAccuracy1(p.netDebt.value / OperatingCashFlow(p).value);
      Some(Round(p.netDebt.value / OperatingCashFlow(p).value, 1))
    else None
  }

  /** OCF over annual interest (to 0.1), only for positive interest. */
  function InterestCoverage(p: Params): (r: Option<real>)
    ensures r.Some? <==> OperatingCashFlow(p).Some? && p.interestExpense.Some? && p.interestExpense.value > 0.0
    ensures r.Some? ==> Abs(r.value - OperatingCashFlow(p).value / p.interestExpense.value) * 20.0 <= 1.0
  {
    if OperatingCashFlow(p).Some? && p.interestExpense.Some? && p.interestExpense.value > 0.0 then
      RoundAccuracy1(OperatingCashFlow(p).value / p.interestExpense.value);
      Some(Round(OperatingCashFlow(p).value / p.interestExpense.value, 1))
    else None
  }

  /** Maintenance capex: the reported figure, else 40 % of the capex midpoint. */
  function MaintenanceCapex(p: Params): (r: Option<real>)
    ensures p.maintenanceCapex.Some? ==> r == p.maintenanceCapex
    ensures p.maintenanceCapex.None? && CapexMid(p).Some? ==> r == Some(CapexMid(p).value * 0.4)
    ensures p.maintenanceCapex.None? && CapexMid(p).None? ==> r.None?
  {
    if p.maintenanceCapex.Some? then p.maintenanceCapex
    else if CapexMid(p).Some? then Some(CapexMid(p).value * 0.4)
    else None
  }

  /** (OCF - maintenance capex) over interest (to 0.1), only for positive interest. */
  function DebtServiceCapacity(p: Params): (r: Option<real>)
    ensures r.Some? <==> OperatingCashFlow(p).Some? && p.interestExpense.Some? && p.interestExpense.value > 0.0
                         && MaintenanceCapex(p).Some?
    ensures r.Some? ==>
              Abs(r.value - (OperatingCashFlow(p).value - MaintenanceCapex(p).value) / p.interestExpense.value) * 20.0 <= 1.0
  {
    if OperatingCashFlow(p).None? || p.interestExpense.None? || p.interestExpense.value <= 0.0 then None
    else if MaintenanceCapex(p).None? then None
    else
      RoundAccuracy1((OperatingCashFlow(p).value - MaintenanceCapex(p).value) / p.interestExpense.value);
      Some(Round((OperatingCashFlow(p).value - MaintenanceCapex(p).value) / p.interestExpense.value, 1))
  }

  /** The debt figure the implied interest rate divides by: long-term debt, else net debt. */
  function TotalDebt(p: Params): Option<real>
  {
    Or(p.totalLongTermDebt, p.netDebt)
  }

  /** The share of a positive gap the credit facility covers, in percent to 0.1. */
  function FacilityCoversGapPct(facility: Option<real>, gapHigh: real): (r: Option<real>)
    requires gapHigh > 0.0
    ensures r.Some? <==> facility.Some?
    ensures r.Some? ==> Abs(r.value - facility.value / gapHigh * 100.0) * 20.0 <= 1.0
  {
    if facility.Some? then
      RoundAccuracy1(facility.value / gapHigh * 100.0);
      Some(Round(facility.value / gapHigh * 100.0, 1))
    else None
  }

  /** Annual interest over debt, in percent to 0.1, when the debt figure is positive. */
  function ImpliedInterestRatePct(interest: Option<real>, debt: Option<real>): (r: Option<real>)
    ensures r.Some? <==> interest.Some? && debt.Some? && debt.value > 0.0
    ensures r.Some? ==> Abs(r.value - interest.value / debt.value * 100.0) * 20.0 <= 1.0
  {
    if interest.Some? && Truthy(debt) && debt.value > 0.0 then
      RoundAccuracy1(interest.value / debt.value * 100.0);
      Some(Round(interest.value / debt.value * 100.0, 1))
    else None
  }

  /** Coverage sources for a positive funding gap. */
  function FundingGapCoverage(p: Params): (r: Option<GapCoverage>)
    ensures r.Some? <==> FundingGap(p).Some? && FundingGap(p).value.high > 0.0
    ensures r.Some? ==> r.value.gapLow == FundingGap(p).value.low && r.value.gapHigh == FundingGap(p).value.high
    ensures r.Some? ==> r.value.creditFacilityAvailable == p.creditFacilityAvailable
    ensures r.Some? ==> (r.value.facilityCoversGapPct.Some? <==> p.creditFacilityAvailable.Some?)
    ensures r.Some? && r.value.facilityCoversGapPct.Some? ==>
              Abs(r.value.facilityCoversGapPct.value - p.creditFacilityAvailable.value / r.value.gapHigh * 100.0) * 20.0 <= 1.0
    ensures r.Some? ==> r.value.annualInterestExpense == p.interestExpense
    ensures r.Some? ==> (r.value.impliedInterestRatePct.Some? <==>
                         p.interestExpense.Some? && TotalDebt(p).Some? && TotalDebt(p).value > 0.0)
    ensures r.Some? && r.value.impliedInterestRatePct.Some? ==>
              Abs(r.value.impliedInterestRatePct.value - p.interestExpense.value / TotalDebt(p).value * 100.0) * 20.0 <= 1.0
    ensures r.Some? ==> r.value.nextMaturity == p.debtMaturityNext
  {
    if FundingGap(p).None? || FundingGap(p).value.high <= 0.0 then None
    else
      Some(GapCoverage(FundingGap(p).value.low, FundingGap(p).value.high, p.creditFacilityAvailable,
                       FacilityCoversGapPct(p.creditFacilityAvailable, FundingGap(p).value.high),
                       p.interestExpense, ImpliedInterestRatePct(p.interestExpense, TotalDebt(p)),
                       p.debtMaturityNext))
  }

  /** OCF as a percentage of the capex midpoint (to 0.1), only for a positive midpoint. */
  function OcfCoveragePct(p: Params): (r: Option<real>)
    ensures r.Some? <==> OperatingCashFlow(p).Some? && CapexMid(p).Some? && CapexMid(p).value > 0.0
    ensures r.Some? ==> Abs(r.value - OperatingCashFlow(p).value / CapexMid(p).value * 100.0) * 20.0 <= 1.0
  {
    if OperatingCashFlow(p).Some? && CapexMid(p).Some? && CapexMid(p).value > 0.0 then
      RoundAccuracy1(OperatingCashFlow(p).value / CapexMid(p).value * 100.0);
      Some(Round(OperatingCashFlow(p).value / CapexMid(p).value * 100.0, 1))
    else None
  }
}
