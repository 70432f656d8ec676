/**
 * The bridge between stored financial claims and the E&P model: deriving
 * model outputs back into a claims dictionary (`compute_derived_claims`,
 * which updates the caller's dictionary in place) and building the model's
 * parameters from claims plus external market context (`params_from_claims`).
 */
module ModelClaims {
  import opened Wrappers
  import opened PyNum
  import opened FinancialModel

  /** One stored claim; an absent key is `None`. `coverage` holds a composite value. */
  datatype Claim = Claim(
    value: Option<real>,
    low: Option<real>,
    high: Option<real>,
    price: Option<real>,
    unit: Option<string>,
    source: Option<string>,
    coverage: Option<GapCoverage>)

  /** The keys `compute_derived_claims` may write, in the order it writes them. */
  const DerivedKeys: seq<string> := [
    "funding_gap", "capex_increase_pct", "hedge_coverage_pct", "breakeven_price", "net_debt_to_ocf",
    "ocf_coverage_pct", "interest_coverage", "debt_service_capacity", "funding_gap_coverage"]

  const Derived := Some("derived")

  function ValueClaim(v: real, unit: string): Claim
  {
    Claim(Some(v), None, None, None, Some(unit), Derived, None)
  }

  /** The claim the model derives for `key`, if the model can compute it. */
  function DerivedClaim(p: Params, key: string): (r: Option<Claim>)
    ensures r.Some? ==> key in DerivedKeys && r.value.source == Derived
  {
    match key
    case "funding_gap" =>
      var gap := FundingGap(p);
      if gap.Some? then Some(Claim(None, Some(gap.value.low), Some(gap.value.high), None, Some("M"), Derived, None))
      else None
    case "capex_increase_pct" =>
      var pct := CapexChangePct(p);
      if pct.Some? then Some(ValueClaim(pct.value, "%")) else None
    case "hedge_coverage_pct" =>
      var cov := HedgeCoveragePct(p);
      if cov.Some? then Some(ValueClaim(cov.value, "%")) else None
    case "breakeven_price" =>
      var brk := BreakevenPrice(p);
      if brk.Some? then Some(ValueClaim(brk.value, if p.priceUnit.Some? then p.priceUnit.value else "$/Mcfe"))
      else None
    case "net_debt_to_ocf" =>
      var lev := NetDebtToOcf(p);
      if lev.Some? then Some(ValueClaim(lev.value, "x")) else None
    case "ocf_coverage_pct" =>
      var cov := OcfCoveragePct(p);
      if cov.Some? then Some(ValueClaim(cov.value, "%")) else None
    case "interest_coverage" =>
      var ic := InterestCoverage(p);
      if ic.Some? then Some(ValueClaim(ic.value, "x")) else None
    case "debt_service_capacity" =>
      var dsc := DebtServiceCapacity(p);
      if dsc.Some? then Some(ValueClaim(dsc.value, "x")) else None
    case "funding_gap_coverage" =>
      var fgc := FundingGapCoverage(p);
      if fgc.Some? then Some(Claim(None, None, None, None, Some("composite"), Derived, fgc)) else None
    case _ => None
  }

  /** What `compute_derived_claims` writes under `key` into `claims`: an existing breakeven is kept. */
  function Written(p: Params, claims: map<string, Claim>, key: string): Option<Claim>
  {
    if key == "breakeven_price" && key in claims then None else DerivedClaim(p, key)
  }

  /** The keys the derivation adds to a non-empty map. */
  function NewKeys(p: Params, claims: map<string, Claim>): set<string>
  {
    set k | k in DerivedKeys && Written(p, claims, k).Some?
  }

  /**
   * The claims map after derivation: an empty map is returned unchanged;
   * otherwise every derived value the model can compute is written under its
   * key (replacing what was there), except that an existing breakeven stays.
   */
  function DerivedClaims(p: Params, claims: map<string, Claim>): (r: map<string, Claim>)
    ensures |claims| == 0 ==> r == claims
    ensures claims.Keys <= r.Keys
    ensures forall k :: k in r.Keys && k !in claims.Keys ==> k in DerivedKeys
  {
    if |claims| == 0 then claims
    else
      map k | k in claims.Keys + NewKeys(p, claims) ::
        if Written(p, claims, k).Some? then Written(p, claims, k).value else claims[k]
  }

  /** Every entry is either untouched or a derived claim under a derived key; nothing is deleted. */
  lemma DerivedClaimsOnlyWritesDerived(p: Params, claims: map<string, Claim>)
    ensures forall k :: k in claims ==> k in DerivedClaims(p, claims)
    ensures forall k :: k in DerivedClaims(p, claims) ==>
              (k in claims && DerivedClaims(p, claims)[k] == claims[k])
              || (k in DerivedKeys && DerivedClaims(p, claims)[k].source == Derived)
  {
  }

  /** An existing breakeven is never replaced. */
  lemma DerivedClaimsKeepBreakeven(p: Params, claims: map<string, Claim>)
    requires "breakeven_price" in claims
    ensures DerivedClaims(p, claims)["breakeven_price"] == claims["breakeven_price"]
  {
  }

  /** Every other derived key is overwritten whenever the model has a value for it. */
  lemma DerivedClaimsOverwrite(p: Params, claims: map<string, Claim>, key: string)
    requires |claims| > 0 && key != "breakeven_price" && DerivedClaim(p, key).Some?
    ensures key in DerivedClaims(p, claims)
    ensures DerivedClaims(p, claims)[key] == DerivedClaim(p, key).value
  {
  }

  /** The derivation reads only the model's parameters, so running it twice changes nothing more. */
  lemma {:induction false} DerivedClaimsIdempotent(p: Params, claims: map<string, Claim>)
    ensures DerivedClaims(p, DerivedClaims(p, claims)) == DerivedClaims(p, claims)
  {
    var once := DerivedClaims(p, claims);
    if |claims| > 0 {
      assert claims.Keys <= once.Keys;
      assert |once| > 0 by {
        var k :| k in claims.Keys;
        assert k in once.Keys;
      }
      var twice := DerivedClaims(p, once);
      forall k | k in twice.Keys
        ensures k in once.Keys && twice[k] == once[k]
      {
        if k == "breakeven_price" && k in once {
        } else if Written(p, once, k).Some? {
          assert Written(p, claims, k) == Written(p, once, k);
        }
      }
      assert twice.Keys == once.Keys;
    }
  }

  /** A claims dictionary that is updated in place. */
  class ClaimsDict {
    var entries: map<string, Claim>

    constructor (initial: map<string, Claim>)
      ensures entries == initial
    {
      entries := initial;
    }
  }

  /** The map after the first `n` derived keys have been written (in source order). */
  function PartlyDerived(p: Params, claims: map<string, Claim>, n: nat): map<string, Claim>
    requires n <= |DerivedKeys|
  {
    map k | k in claims.Keys + (set key | key in DerivedKeys[..n] && Written(p, claims, key).Some?) ::
      if k in DerivedKeys[..n] && Written(p, claims, k).Some? then Written(p, claims, k).value else claims[k]
  }

  /**
   * `EPModel.compute_derived_claims`: writes the derived claims into `claims`
   * and returns the same object. The source's nine guarded writes are taken
   * in their source order, one key per iteration.
   */
  method ComputeDerivedClaims(p: Params, claims: ClaimsDict) returns (r: ClaimsDict)
    modifies claims
    ensures r == claims
    ensures claims.entries == DerivedClaims(p, old(claims.entries))
  {
    r := claims;
    if |claims.entries| == 0 {
      return;
    }
    ghost var initial := claims.entries;
    var m := claims.entries;
    for i := 0 to |DerivedKeys|
      invariant m == PartlyDerived(p, initial, i)
    {
      var key := DerivedKeys[i];
      var d := DerivedClaim(p, key);
      PartlyDerivedStep(p, initial, i);
      if d.Some? && !(key == "breakeven_price" && key in m) {
        m := m[key := d.value];
      }
    }
    PartlyDerivedComplete(p, initial);
    claims.entries := m;
  }

  /** Taking one more key: the write happens exactly when `Written` says so. */
  lemma PartlyDerivedStep(p: Params, claims: map<string, Claim>, i: nat)
    requires i < |DerivedKeys|
    ensures var key := DerivedKeys[i];
            var m := PartlyDerived(p, claims, i);
            var d := DerivedClaim(p, key);
            PartlyDerived(p, claims, i + 1)
            == if d.Some? && !(key == "breakeven_price" && key in m) then m[key := d.value] else m
  {
    var key := DerivedKeys[i];
    var m := PartlyDerived(p, claims, i);
    assert DerivedKeys[..i + 1] == DerivedKeys[..i] + [key];
    assert key !in DerivedKeys[..i] by {
      DerivedKeysDistinct();
    }
    assert (key == "breakeven_price" && key in m) <==> (key == "breakeven_price" && key in claims) by {
      if key == "breakeven_price" {
        assert key !in DerivedKeys[..i];
      }
    }
    PartlyDerivedExtend(p, claims, i, key);
  }

  lemma DerivedKeysDistinct()
    ensures forall a, b :: 0 <= a < b < |DerivedKeys| ==> DerivedKeys[a] != DerivedKeys[b]
  {
  }

  lemma PartlyDerivedExtend(p: Params, claims: map<string, Claim>, i: nat, key: string)
    requires i < |DerivedKeys| && key == DerivedKeys[i]
    requires DerivedKeys[..i + 1] == DerivedKeys[..i] + [key]
    requires key !in DerivedKeys[..i]
    requires (key == "breakeven_price" && key in PartlyDerived(p, claims, i)) <==> (key == "breakeven_price" && key in claims)
    ensures var m := PartlyDerived(p, claims, i);
            var d := DerivedClaim(p, key);
            PartlyDerived(p, claims, i + 1)
            == if d.Some? && !(key == "breakeven_price" && key in m) then m[key := d.value] else m
  {
  }

  lemma PartlyDerivedComplete(p: Params, claims: map<string, Claim>)
    requires |claims| > 0
    ensures PartlyDerived(p, claims, |DerivedKeys|) == DerivedClaims(p, claims)
  {
    assert DerivedKeys[..|DerivedKeys|] == DerivedKeys;
  }

  // ---------------------------------------------------------------------
  // params_from_claims

  /** A futures quote: either field may carry the price. */
  datatype PricePoint = PricePoint(price: Option<real>, value: Option<real>)

  /** The spot price entry: an object (a missing entry reads as an empty object), a bare number, or anything else. */
  datatype SpotPrice = SpotRecord(price: Option<real>, value: Option<real>) | SpotNumber(x: real) | SpotOther

  datatype StripAverages = StripAverages(strip12m: Option<real>, winterStrip: Option<real>,
                                         summerStrip: Option<real>, strip24m: Option<real>)

  /** External market context; a falsy (empty or missing) context is `None` at the call. */
  datatype ExternalContext = ExternalContext(strip: StripAverages, futures: map<string, PricePoint>, spot: SpotPrice)

  /** Futures keys tried, in order, when there is no 12-month strip. */
  const FuturesKeys: seq<string> := ["12_month", "12m", "cal_2026", "cal_2027"]

  /** The first of `keys` present in `futures`. */
  function FirstPresent(futures: map<string, PricePoint>, keys: seq<string>): (r: Option<nat>)
    ensures r.Some? ==> r.value < |keys| && keys[r.value] in futures
                        && forall j :: 0 <= j < r.value ==> keys[j] !in futures
    ensures r.None? ==> forall j :: 0 <= j < |keys| ==> keys[j] !in futures
  {
    if |keys| == 0 then None
    else if keys[0] in futures then Some(0)
    else
      var rest := FirstPresent(futures, keys[1..]);
      if rest.Some? then Some(rest.value + 1) else None
  }

  /** The forward price and strip fields taken from the external context. */
  datatype Forward = Forward(price: Option<real>, winter: Option<real>, summer: Option<real>, strip24m: Option<real>)

  function ForwardFromContext(ctx: ExternalContext): Forward
  {
    if Truthy(ctx.strip.strip12m) then
      Forward(ctx.strip.strip12m, ctx.strip.winterStrip, ctx.strip.summerStrip, ctx.strip.strip24m)
    else
      var first := FirstPresent(ctx.futures, FuturesKeys);
      var fromFutures :=
        if first.Some? then
          var q := ctx.futures[FuturesKeys[first.value]];
          Or(q.price, q.value)
        else None;
      var price :=
        if Truthy(fromFutures) then fromFutures
        else match ctx.spot
          case SpotRecord(pr, v) => Or(pr, v)
          case SpotNumber(x) => Some(x)
          case SpotOther => fromFutures;
      Forward(price, None, None, None)
  }

  /** `_val(name, key)` with key 'value'. */
  function ValueOf(claims: map<string, Claim>, name: string): Option<real>
  {
    if name in claims then claims[name].value else None
  }

  /** `claims.get(name, {}).get('unit', default)`. */
  function UnitOf(claims: map<string, Claim>, name: string, default: string): string
  {
    if name in claims && claims[name].unit.Some? then claims[name].unit.value else default
  }

  /** `EPModel.params_from_claims`. */
  function ParamsFromClaims(claims: map<string, Claim>, ctx: Option<ExternalContext>): (r: Params)
    ensures |claims| == 0 ==> r == NoParams
    ensures |claims| > 0 ==> r.productionUnit.Some? && r.priceUnit.Some?
    ensures ctx.None? || |claims| == 0 ==> r.forwardCurvePrice.None? && r.winterStrip.None?
    ensures r.operatingCashFlow.Some? ==> "operating_cash_flow" in claims
  {
    if |claims| == 0 then NoParams
    else
      var capex := if "capex_guidance" in claims then Some(claims["capex_guidance"]) else None;
      var capexLow := if capex.Some? then Or(capex.value.low, capex.value.value) else None;
      var capexHigh := if capex.Some? then Or(capex.value.high, capex.value.value) else None;
      var hedgeQuotePrice := if "hedge_volume" in claims then claims["hedge_volume"].price else None;
      var fwd := if ctx.Some? then ForwardFromContext(ctx.value) else Forward(None, None, None, None);
      Params(
        productionVolume := ValueOf(claims, "production_volume"),
        productionUnit := Some(UnitOf(claims, "production_volume", "Bcfe")),
        realizedPrice := ValueOf(claims, "realized_price"),
        priceUnit := Some(UnitOf(claims, "realized_price", "$/Mcfe")),
        operatingCostPerUnit := ValueOf(claims, "operating_cost_per_unit"),
        capexLow := capexLow,
        capexHigh := capexHigh,
        hedgeVolume := ValueOf(claims, "hedge_volume"),
        hedgePrice := Or(hedgeQuotePrice, ValueOf(claims, "hedge_price")),
        forwardCurvePrice := fwd.price,
        winterStrip := fwd.winter,
        summerStrip := fwd.summer,
        strip24m := fwd.strip24m,
        priorCapex := ValueOf(claims, "prior_capex"),
        priorProduction := ValueOf(claims, "prior_production"),
        operatingCashFlow := ValueOf(claims, "operating_cash_flow"),
        netDebt := ValueOf(claims, "net_debt"),
        interestExpense := ValueOf(claims, "interest_expense"),
        creditFacilityAvailable := ValueOf(claims, "credit_facility_available"),
        debtMaturityNext := ValueOf(claims, "debt_maturity_next"),
        totalLongTermDebt := ValueOf(claims, "total_long_term_debt"),
        maintenanceCapex := ValueOf(claims, "maintenance_capex"))
  }

  /** A single capex figure with no range becomes both ends of the range. */
  lemma CapexSingleValueIsBothEnds(claims: map<string, Claim>, ctx: Option<ExternalContext>, v: real)
    requires "capex_guidance" in claims && v != 0.0
    requires claims["capex_guidance"].value == Some(v)
    requires !Truthy(claims["capex_guidance"].low) && !Truthy(claims["capex_guidance"].high)
    ensures ParamsFromClaims(claims, ctx).capexLow == Some(v)
    ensures ParamsFromClaims(claims, ctx).capexHigh == Some(v)
  {
  }

  /**
   * The forward price prefers a truthy 12-month strip, then the first futures
   * key present (when its price is truthy), then the spot quote.
   */
  lemma ForwardPricePreference(claims: map<string, Claim>, ctx: ExternalContext)
    requires |claims| > 0
    ensures Truthy(ctx.strip.strip12m) ==>
              ParamsFromClaims(claims, Some(ctx)).forwardCurvePrice == ctx.strip.strip12m
    ensures !Truthy(ctx.strip.strip12m) ==>
              ParamsFromClaims(claims, Some(ctx)).winterStrip.None? && ParamsFromClaims(claims, Some(ctx)).strip24m.None?
    ensures forall i :: 0 <= i < |FuturesKeys| && !Truthy(ctx.strip.strip12m)
                        && FuturesKeys[i] in ctx.futures && (forall j :: 0 <= j < i ==> FuturesKeys[j] !in ctx.futures)
                        && Truthy(Or(ctx.futures[FuturesKeys[i]].price, ctx.futures[FuturesKeys[i]].value)) ==>
              ParamsFromClaims(claims, Some(ctx)).forwardCurvePrice
              == Or(ctx.futures[FuturesKeys[i]].price, ctx.futures[FuturesKeys[i]].value)
    ensures !Truthy(ctx.strip.strip12m) && (forall j :: 0 <= j < |FuturesKeys| ==> FuturesKeys[j] !in ctx.futures)
            && ctx.spot.SpotNumber? ==>
              ParamsFromClaims(claims, Some(ctx)).forwardCurvePrice == Some(ctx.spot.x)
  {
    var first := FirstPresent(ctx.futures, FuturesKeys);
    forall i | 0 <= i < |FuturesKeys| && FuturesKeys[i] in ctx.futures
                && (forall j :: 0 <= j < i ==> FuturesKeys[j] !in ctx.futures)
      ensures first == Some(i)
    {
      assert first.Some?;
    }
  }
}
