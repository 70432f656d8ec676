/**
 * Thesis generation (`generate_thesis.py`): the standalone derivation of
 * financial claims from a freshly generated thesis, which adds derived
 * entries to the claims dictionary in place, and the activation step that
 * saves a new bull thesis in place of the company's previous ones.
 */
module ThesisGeneration {
  import opened Wrappers
  import opened PyNum
  import opened ResearchDb

  // ---------------------------------------------------------------------
  // Claims as JSON dictionaries

  /** A JSON scalar inside a claim. */
  datatype Json = Num(x: real) | Str(s: string) | Null

  /** One claim's dictionary, and the claims dictionary of a thesis. */
  type Fields = map<string, Json>
  type Claims = map<string, Fields>

  /** `claims.get(key, {})`. */
  function FieldsOf(c: Claims, key: string): Fields
  {
    if key in c then c[key] else map[]
  }

  /** `fields.get(key)` where a number is expected. */
  function NumOf(f: Fields, key: string): (r: Option<real>)
    ensures r.Some? <==> key in f && f[key].Num?
  {
    if key in f && f[key].Num? then Some(f[key].x) else None
  }

  /** The keys this derivation writes. */
  const DerivedKeys: set<string> := {"funding_gap", "capex_increase_pct", "hedge_coverage_pct", "breakeven_price"}

  /** The keys it reads. */
  const InputKeys: set<string> :=
    {"capex_guidance", "operating_cash_flow", "prior_capex", "hedge_volume", "production_volume", "realized_price"}

  lemma InputsAreNotDerived()
    ensures InputKeys !! DerivedKeys
  {
  }

  // ---------------------------------------------------------------------
  // The derived values

  /** The capex midpoint: the single value, else the mean of low and high (high defaulting to 0). */
  datatype Mid = Mid(value: Option<real>) | MidRaises

  /**
   * `capex.get('value') or ((low + capex.get('high', 0)) / 2 if low else None)`;
   * a stored high that is not a number makes the addition raise `TypeError`.
   */
  function CapexMid(capex: Fields): (r: Mid)
    ensures Truthy(NumOf(capex, "value")) ==> r == Mid(NumOf(capex, "value"))
    ensures !Truthy(NumOf(capex, "value")) && !Truthy(NumOf(capex, "low")) ==> r == Mid(None)
    ensures r == MidRaises <==> !Truthy(NumOf(capex, "value")) && Truthy(NumOf(capex, "low")) &&
                                "high" in capex && !capex["high"].Num?
  {
    var v := NumOf(capex, "value");
    if Truthy(v) then Mid(v)
    else
      var low := NumOf(capex, "low");
      if Truthy(low) then
        if "high" !in capex then Mid(Some(low.value / 2.0))
        else if capex["high"].Num? then Mid(Some((low.value + capex["high"].x) / 2.0))
        else MidRaises
      else Mid(None)
  }

  /** The funding gap's ends: capex low and high (each falling back to the single value) minus OCF. */
  function GapEnds(capex: Fields, ocf: Fields): (r: Option<(real, real)>)
    ensures r.Some? <==> |capex| > 0 && |ocf| > 0 && NumOf(ocf, "value").Some? &&
                         Or(NumOf(capex, "low"), NumOf(capex, "value")).Some?
    ensures r.Some? ==> r.value.0 <= r.value.1
    ensures r.Some? ==>
              var ocfVal := NumOf(ocf, "value").value;
              var capexLow := Or(NumOf(capex, "low"), NumOf(capex, "value")).value;
              var capexHigh := Or(Or(NumOf(capex, "high"), NumOf(capex, "value")), Some(capexLow)).value;
              var a := RoundInt(capexLow - ocfVal);
              var b := RoundInt(capexHigh - ocfVal);
              (r.value.0 == a || r.value.0 == b) && (r.value.1 == a || r.value.1 == b)
  {
    if |capex| > 0 && |ocf| > 0 then
      var ocfVal := NumOf(ocf, "value");
      var capexLow := Or(NumOf(capex, "low"), NumOf(capex, "value"));
      var capexHigh := Or(NumOf(capex, "high"), NumOf(capex, "value"));
      if ocfVal.Some? && capexLow.Some? then
        var gapLow := RoundInt(capexLow.value - ocfVal.value);
        var gapHigh := RoundInt(Or(capexHigh, capexLow).value - ocfVal.value);
        Some((Min(gapLow, gapHigh), Max(gapLow, gapHigh)))
      else None
    else None
  }

  /** A derived percentage or price, or the `TypeError` of the capex midpoint. */
  datatype Pct = Pct(value: Option<real>) | PctRaises

  /** The capex change against the prior year, to 0.1 %; only for a positive prior and a truthy midpoint. */
  function CapexIncrease(capex: Fields, prior: Fields): (r: Pct)
    ensures r == PctRaises <==> |capex| > 0 && |prior| > 0 && CapexMid(capex) == MidRaises
    ensures r.Pct? && r.value.Some? ==>
              var p := Or(NumOf(prior, "value"), NumOf(prior, "high"));
              var m := CapexMid(capex);
              p.Some? && p.value > 0.0 && m.Mid? && Truthy(m.value) &&
              Abs(r.value.value - (m.value.value - p.value) / p.value * 100.0) * 20.0 <= 1.0
  {
    if |capex| > 0 && |prior| > 0 then
      var priorVal := Or(NumOf(prior, "value"), NumOf(prior, "high"));
      var capexMid := CapexMid(capex);
      if capexMid.MidRaises? then PctRaises
      else if Truthy(priorVal) && Truthy(capexMid.value) && priorVal.value > 0.0 then
        var x := (capexMid.value.value - priorVal.value) / priorVal.value * 100.0;
        RoundAccuracy1(x);
        Pct(Some(Round(x, 1)))
      else Pct(None)
    else Pct(None)
  }

  /** Hedged volume as a percentage of production, to 0.1 %; only for truthy volumes and positive production. */
  function HedgeCoverage(hedge: Fields, production: Fields): (r: Option<real>)
    ensures r.Some? <==> |hedge| > 0 && |production| > 0 && Truthy(NumOf(hedge, "value")) &&
                         Truthy(NumOf(production, "value")) && NumOf(production, "value").value > 0.0
    ensures r.Some? ==>
              var h := NumOf(hedge, "value").value;
              var p := NumOf(production, "value").value;
              Abs(r.value - h / p * 100.0) * 20.0 <= 1.0
  {
    if |hedge| > 0 && |production| > 0 then
      var hedgeVol := NumOf(hedge, "value");
      var prodVol := NumOf(production, "value");
      if Truthy(hedgeVol) && Truthy(prodVol) && prodVol.value > 0.0 then
        var x := hedgeVol.value / prodVol.value * 100.0;
        RoundAccuracy1(x);
        Some(Round(x, 1))
      else None
    else None
  }

  /** The price at which operating cash flow would fund the capex midpoint. */
  function SelfFundingPrice(capexMid: real, realized: real, ocf: real): real
    requires ocf != 0.0
  {
    capexMid * realized / ocf
  }

  /**
   * The self-funding breakeven price to the cent, when the claims hold none
   * yet; it needs truthy inputs with positive production and price, but the
   * sign of OCF is not checked.
   */
  function Breakeven(c: Claims, capex: Fields, ocf: Fields, production: Fields): (r: Pct)
    ensures "breakeven_price" in c ==> r == Pct(None)
    ensures r == PctRaises <==> "breakeven_price" !in c && |capex| > 0 && |ocf| > 0 && |production| > 0 &&
                                CapexMid(capex) == MidRaises
    ensures r.Pct? && r.value.Some? ==>
              var m := CapexMid(capex);
              var ocfVal := NumOf(ocf, "value");
              var realized := NumOf(FieldsOf(c, "realized_price"), "value");
              var prodVol := NumOf(production, "value");
              m.Mid? && Truthy(m.value) && Truthy(ocfVal) && Truthy(prodVol) && prodVol.value > 0.0 &&
              realized.Some? && realized.value > 0.0 &&
              Abs(r.value.value - SelfFundingPrice(m.value.value, realized.value, ocfVal.value)) * 200.0 <= 1.0
  {
    if "breakeven_price" in c then Pct(None)
    else if |capex| > 0 && |ocf| > 0 && |production| > 0 then
      var capexMid := CapexMid(capex);
      if capexMid.MidRaises? then PctRaises
      else
        var prodVol := NumOf(production, "value");
        var ocfVal := NumOf(ocf, "value");
        var realized := NumOf(FieldsOf(c, "realized_price"), "value");
        if Truthy(capexMid.value) && Truthy(prodVol) && Truthy(ocfVal) && Truthy(realized) &&
           prodVol.value > 0.0 && realized.value > 0.0 then
          var x := SelfFundingPrice(capexMid.value.value, realized.value, ocfVal.value);
          RoundAccuracy2(x);
          Pct(Some(Round(x, 2)))
        else Pct(None)
    else Pct(None)
  }

  /** Without an OCF guard a negative operating cash flow yields a negative breakeven price. */
  lemma NegativeOcfGivesNegativeBreakeven()
    ensures Breakeven(map[], map["value" := Num(1000.0)], map["value" := Num(-500.0)], map["value" := Num(100.0)]) == Pct(None)
    ensures var c: Claims := map["realized_price" := map["value" := Num(3.0)]];
            Breakeven(c, map["value" := Num(1000.0)], map["value" := Num(-500.0)], map["value" := Num(100.0)]) ==
            Pct(Some(-6.0))
  {
    var c: Claims := map["realized_price" := map["value" := Num(3.0)]];
    assert FieldsOf(c, "realized_price") == map["value" := Num(3.0)];
    assert SelfFundingPrice(1000.0, 3.0, -500.0) == -6.0;
    RoundHalfEvenOfInt(-600);
    assert -6.0 * Scale(2) == -600.0;
  }

  // ---------------------------------------------------------------------
  // The derivation, step by step

  const DerivedSource := Str("derived")

  function GapEntry(ends: (real, real)): Fields
  {
    map["low" := Num(ends.0), "high" := Num(ends.1), "unit" := Str("M"),
        "methodology" := Str("capex_guidance minus operating_cash_flow"), "source" := DerivedSource]
  }

  /** The percentage entries; the capex baseline text is not modelled. */
  function PctEntry(v: real): Fields
  {
    map["value" := Num(v), "unit" := Str("%"), "source" := DerivedSource]
  }

  /** The breakeven entry takes its unit from the realized price, defaulting to $/Mcfe. */
  function BreakevenEntry(v: real, c: Claims): Fields
  {
    var rp := FieldsOf(c, "realized_price");
    map["value" := Num(v), "unit" := (if "unit" in rp then rp["unit"] else Str("$/Mcfe")),
        "basis" := Str("self-funding at capex guidance"), "source" := DerivedSource]
  }

  /** `r` differs from `c` only by entries under `keys`, added or overwritten. */
  ghost predicate WritesWithin(c: Claims, r: Claims, keys: set<string>)
  {
    c.Keys <= r.Keys && r.Keys <= c.Keys + keys &&
    forall k :: k in c && k !in keys ==> r[k] == c[k]
  }

  lemma WritesWithinChain(a: Claims, b: Claims, c: Claims, ks1: set<string>, ks2: set<string>)
    requires WritesWithin(a, b, ks1) && WritesWithin(b, c, ks2)
    ensures WritesWithin(a, c, ks1 + ks2)
  {
  }

  /** The outcome of the derivation: the new claims, or the `TypeError` of the capex midpoint. */
  datatype Derivation = Done(claims: Claims) | DerivationRaised

  function GapStep(c: Claims, capex: Fields, ocf: Fields): (r: Claims)
    ensures WritesWithin(c, r, {"funding_gap"})
    ensures GapEnds(capex, ocf).Some? ==> "funding_gap" in r && r["funding_gap"] == GapEntry(GapEnds(capex, ocf).value)
  {
    var g := GapEnds(capex, ocf);
    if g.Some? then c["funding_gap" := GapEntry(g.value)] else c
  }

  function IncreaseStep(c: Claims, capex: Fields, prior: Fields): (r: Derivation)
    ensures r.Done? <==> CapexIncrease(capex, prior).Pct?
    ensures r.Done? ==> WritesWithin(c, r.claims, {"capex_increase_pct"})
  {
    var pct := CapexIncrease(capex, prior);
    if pct.PctRaises? then DerivationRaised
    else if pct.value.Some? then Done(c["capex_increase_pct" := PctEntry(pct.value.value)])
    else Done(c)
  }

  function HedgeStep(c: Claims, hedge: Fields, production: Fields): (r: Claims)
    ensures WritesWithin(c, r, {"hedge_coverage_pct"})
  {
    var h := HedgeCoverage(hedge, production);
    if h.Some? then c["hedge_coverage_pct" := PctEntry(h.value)] else c
  }

  function BreakevenStep(c: Claims, capex: Fields, ocf: Fields, production: Fields): (r: Derivation)
    ensures r.Done? <==> Breakeven(c, capex, ocf, production).Pct?
    ensures "breakeven_price" in c ==> r == Done(c)
    ensures r.Done? ==> WritesWithin(c, r.claims, {"breakeven_price"})
  {
    var b := Breakeven(c, capex, ocf, production);
    if b.PctRaises? then DerivationRaised
    else if b.value.Some? then Done(c["breakeven_price" := BreakevenEntry(b.value.value, c)])
    else Done(c)
  }

  /**
   * `compute_derived_claims` specified: the four steps in order, each
   * reading its inputs where the source reads them; an empty dictionary is
   * returned as it is.
   */
  function Derive(c: Claims): Derivation
  {
    if |c| == 0 then Done(c)
    else
      var capex := FieldsOf(c, "capex_guidance");
      var ocf := FieldsOf(c, "operating_cash_flow");
      var c1 := GapStep(c, capex, ocf);
      var s2 := IncreaseStep(c1, capex, FieldsOf(c1, "prior_capex"));
      if s2.DerivationRaised? then DerivationRaised
      else
        var c2 := s2.claims;
        var production := FieldsOf(c2, "production_volume");
        var c3 := HedgeStep(c2, FieldsOf(c2, "hedge_volume"), production);
        BreakevenStep(c3, capex, ocf, production)
  }

  /** A dictionary changed only under derived keys reads the same inputs. */
  lemma SameInputs(c: Claims, r: Claims, keys: set<string>)
    requires WritesWithin(c, r, keys) && keys <= DerivedKeys
    ensures forall key :: key in InputKeys ==> FieldsOf(r, key) == FieldsOf(c, key)
  {
  }

  /**
   * The derivation only adds or overwrites derived keys: every other key
   * keeps its entry, nothing is deleted, and an existing breakeven price is
   * kept.
   */
  lemma DeriveOnlyWritesDerived(c: Claims)
    requires Derive(c).Done?
    ensures WritesWithin(c, Derive(c).claims, DerivedKeys)
    ensures "breakeven_price" in c ==> Derive(c).claims["breakeven_price"] == c["breakeven_price"]
  {
    if |c| > 0 {
      var capex := FieldsOf(c, "capex_guidance");
      var ocf := FieldsOf(c, "operating_cash_flow");
      var c1 := GapStep(c, capex, ocf);
      var c2 := IncreaseStep(c1, capex, FieldsOf(c1, "prior_capex")).claims;
      var production := FieldsOf(c2, "production_volume");
      var c3 := HedgeStep(c2, FieldsOf(c2, "hedge_volume"), production);
      WritesWithinChain(c, c1, c2, {"funding_gap"}, {"capex_increase_pct"});
      WritesWithinChain(c, c2, c3, {"funding_gap", "capex_increase_pct"}, {"hedge_coverage_pct"});
      WritesWithinChain(c, c3, Derive(c).claims, {"funding_gap", "capex_increase_pct", "hedge_coverage_pct"}, {"breakeven_price"});
      assert {"funding_gap", "capex_increase_pct", "hedge_coverage_pct"} + {"breakeven_price"} == DerivedKeys;
    }
  }

  /** The funding gap written is ordered: its low end never exceeds its high end. */
  lemma DerivedGapOrdered(c: Claims)
    requires Derive(c).Done? && |c| > 0
    requires GapEnds(FieldsOf(c, "capex_guidance"), FieldsOf(c, "operating_cash_flow")).Some?
    ensures var gap := Derive(c).claims["funding_gap"];
            NumOf(gap, "low").Some? && NumOf(gap, "high").Some? &&
            NumOf(gap, "low").value <= NumOf(gap, "high").value
  {
    var capex := FieldsOf(c, "capex_guidance");
    var ocf := FieldsOf(c, "operating_cash_flow");
    var c1 := GapStep(c, capex, ocf);
    var c2 := IncreaseStep(c1, capex, FieldsOf(c1, "prior_capex")).claims;
    var production := FieldsOf(c2, "production_volume");
    var c3 := HedgeStep(c2, FieldsOf(c2, "hedge_volume"), production);
    assert c3["funding_gap"] == c1["funding_gap"];
    assert Derive(c).claims["funding_gap"] == c1["funding_gap"];
    GapEntryReads(GapEnds(capex, ocf).value);
  }

  lemma GapEntryReads(ends: (real, real))
    ensures NumOf(GapEntry(ends), "low") == Some(ends.0) && NumOf(GapEntry(ends), "high") == Some(ends.1)
  {
  }

  /** Rewriting an entry with the value it already has changes nothing. */
  lemma RewriteSame(c: Claims, k: string, f: Fields)
    requires k in c && c[k] == f
    ensures c[k := f] == c
  {
  }

  /** Running the derivation again on its own result changes nothing. */
  lemma DeriveIdempotent(c: Claims)
    requires Derive(c).Done?
    ensures Derive(Derive(c).claims) == Derive(c)
  {
    if |c| > 0 {
      var r := Derive(c).claims;
      var capex := FieldsOf(c, "capex_guidance");
      var ocf := FieldsOf(c, "operating_cash_flow");
      var c1 := GapStep(c, capex, ocf);
      var prior := FieldsOf(c1, "prior_capex");
      var c2 := IncreaseStep(c1, capex, prior).claims;
      var production := FieldsOf(c2, "production_volume");
      var hedge := FieldsOf(c2, "hedge_volume");
      var c3 := HedgeStep(c2, hedge, production);
      DeriveOnlyWritesDerived(c);
      SameInputs(c, r, DerivedKeys);
      SameInputs(c, c1, {"funding_gap"});
      WritesWithinChain(c, c1, c2, {"funding_gap"}, {"capex_increase_pct"});
      SameInputs(c, c2, {"funding_gap", "capex_increase_pct"});
      var k :| k in c;
      assert k in r;
      // second run, step by step
      assert GapStep(r, capex, ocf) == r by {
        if GapEnds(capex, ocf).Some? {
          assert r["funding_gap"] == c1["funding_gap"];
          RewriteSame(r, "funding_gap", c1["funding_gap"]);
        }
      }
      assert IncreaseStep(r, capex, FieldsOf(r, "prior_capex")) == Done(r) by {
        var pct := CapexIncrease(capex, prior);
        if pct.value.Some? {
          assert r["capex_increase_pct"] == c2["capex_increase_pct"];
          RewriteSame(r, "capex_increase_pct", c2["capex_increase_pct"]);
        }
      }
      assert HedgeStep(r, FieldsOf(r, "hedge_volume"), FieldsOf(r, "production_volume")) == r by {
        var h := HedgeCoverage(hedge, production);
        if h.Some? {
          assert r["hedge_coverage_pct"] == c3["hedge_coverage_pct"];
          RewriteSame(r, "hedge_coverage_pct", c3["hedge_coverage_pct"]);
        }
      }
      if "breakeven_price" !in r {
        assert "breakeven_price" !in c3;
        assert Breakeven(c3, capex, ocf, production) == Pct(None);
        assert FieldsOf(r, "realized_price") == FieldsOf(c3, "realized_price");
        assert Breakeven(r, capex, ocf, production) == Pct(None);
      }
    }
  }

  // ---------------------------------------------------------------------
  // The in-place derivation

  /** The caller's claims dictionary, which the derivation updates in place. */
  class ClaimsBook {
    var entries: Claims

    constructor(initial: Claims)
      ensures entries == initial
    {
      entries := initial;
    }
  }

  method FundingGap(book: ClaimsBook, capex: Fields, ocf: Fields)
    modifies book
    ensures book.entries == GapStep(old(book.entries), capex, ocf)
  {
    if |capex| > 0 && |ocf| > 0 {
      var ocfVal := NumOf(ocf, "value");
      var capexLow := Or(NumOf(capex, "low"), NumOf(capex, "value"));
      var capexHigh := Or(NumOf(capex, "high"), NumOf(capex, "value"));
      if ocfVal.Some? && capexLow.Some? {
        var gapLow := RoundInt(capexLow.value - ocfVal.value);
        var gapHigh := RoundInt(Or(capexHigh, capexLow).value - ocfVal.value);
        assert GapEnds(capex, ocf) == Some((Min(gapLow, gapHigh), Max(gapLow, gapHigh)));
        book.entries := book.entries["funding_gap" := GapEntry((Min(gapLow, gapHigh), Max(gapLow, gapHigh)))];
      } else {
        assert GapEnds(capex, ocf).None?;
      }
    } else {
      assert GapEnds(capex, ocf).None?;
    }
  }

  method CapexIncreasePct(book: ClaimsBook, capex: Fields) returns (raised: bool)
    modifies book
    ensures var s := IncreaseStep(old(book.entries), capex, FieldsOf(old(book.entries), "prior_capex"));
            (raised <==> s.DerivationRaised?) && (!raised ==> book.entries == s.claims)
  {
    raised := false;
    var priorCapex := FieldsOf(book.entries, "prior_capex");
    if |capex| > 0 && |priorCapex| > 0 {
      var priorVal := Or(NumOf(priorCapex, "value"), NumOf(priorCapex, "high"));
      var capexMid := CapexMid(capex);
      if capexMid.MidRaises? {
        return true;
      }
      if Truthy(priorVal) && Truthy(capexMid.value) && priorVal.value > 0.0 {
        var pct := Round((capexMid.value.value - priorVal.value) / priorVal.value * 100.0, 1);
        book.entries := book.entries["capex_increase_pct" := PctEntry(pct)];
      }
    }
  }

  method HedgeCoveragePct(book: ClaimsBook, hedge: Fields, production: Fields)
    modifies book
    ensures book.entries == HedgeStep(old(book.entries), hedge, production)
  {
    if |hedge| > 0 && |production| > 0 {
      var hedgeVol := NumOf(hedge, "value");
      var prodVol := NumOf(production, "value");
      if Truthy(hedgeVol) && Truthy(prodVol) && prodVol.value > 0.0 {
        book.entries := book.entries["hedge_coverage_pct" := PctEntry(Round(hedgeVol.value / prodVol.value * 100.0, 1))];
      }
    }
  }

  method BreakevenPrice(book: ClaimsBook, capex: Fields, ocf: Fields, production: Fields) returns (raised: bool)
    modifies book
    ensures var s := BreakevenStep(old(book.entries), capex, ocf, production);
            (raised <==> s.DerivationRaised?) && (!raised ==> book.entries == s.claims)
  {
    raised := false;
    if "breakeven_price" !in book.entries && |capex| > 0 && |ocf| > 0 && |production| > 0 {
      var capexMid := CapexMid(capex);
      if capexMid.MidRaises? {
        return true;
      }
      var prodVol := NumOf(production, "value");
      var ocfVal := NumOf(ocf, "value");
      var realized := NumOf(FieldsOf(book.entries, "realized_price"), "value");
      if Truthy(capexMid.value) && Truthy(prodVol) && Truthy(ocfVal) && Truthy(realized) &&
         prodVol.value > 0.0 && realized.value > 0.0 {
        var breakeven := Round(capexMid.value.value * realized.value / ocfVal.value, 2);
        book.entries := book.entries["breakeven_price" := BreakevenEntry(breakeven, book.entries)];
      }
    }
  }

  /** `compute_derived_claims`: `raised` reports the `TypeError` of a capex high that is not a number. */
  method ComputeDerivedClaims(book: ClaimsBook) returns (raised: bool)
    modifies book
    ensures raised <==> Derive(old(book.entries)).DerivationRaised?
    ensures !raised ==> book.entries == Derive(old(book.entries)).claims
  {
    raised := false;
    if |book.entries| == 0 {
      return;
    }
    var capex := FieldsOf(book.entries, "capex_guidance");
    var ocf := FieldsOf(book.entries, "operating_cash_flow");
    FundingGap(book, capex, ocf);
    raised := CapexIncreasePct(book, capex);
    if raised {
      return;
    }
    var hedge := FieldsOf(book.entries, "hedge_volume");
    var production := FieldsOf(book.entries, "production_volume");
    HedgeCoveragePct(book, hedge, production);
    raised := BreakevenPrice(book, capex, ocf, production);
  }

  // ---------------------------------------------------------------------
  // save_thesis

  datatype CompanyThesis = CompanyThesis(
    id: int,
    companyId: int,
    thesisType: string,
    summary: string,
    financialClaims: Claims,
    sourceFilingIds: seq<int>,
    modelUsed: string,
    expiresAt: int,
    isActive: bool,
    updatedAt: Option<int>)

  predicate IsBullOf(t: CompanyThesis, companyId: int)
  {
    t.companyId == companyId && t.thesisType == "bull"
  }

  function ThesisIds(rows: seq<CompanyThesis>): (r: seq<int>)
    ensures |r| == |rows| && forall i :: 0 <= i < |rows| ==> r[i] == rows[i].id
  {
    if |rows| == 0 then [] else ThesisIds(rows[..|rows| - 1]) + [rows[|rows| - 1].id]
  }

  /** `DELETE … WHERE company_id AND thesis_type = 'bull' AND NOT is_active`. */
  function PruneInactive(rows: seq<CompanyThesis>, companyId: int): (r: seq<CompanyThesis>)
    ensures forall t :: t in r <==> t in rows && !(IsBullOf(t, companyId) && !t.isActive)
    ensures |r| <= |rows|
  {
    if |rows| == 0 then []
    else
      var rest := PruneInactive(rows[..|rows| - 1], companyId);
      var t := rows[|rows| - 1];
      if IsBullOf(t, companyId) && !t.isActive then rest else rest + [t]
  }

  /** `UPDATE … SET is_active = FALSE, updated_at = now WHERE company_id AND 'bull' AND is_active`. */
  function DeactivateBull(rows: seq<CompanyThesis>, companyId: int, now: int): (r: seq<CompanyThesis>)
    ensures |r| == |rows|
    ensures forall i :: 0 <= i < |rows| ==>
              r[i] == if IsBullOf(rows[i], companyId) && rows[i].isActive
                      then rows[i].(isActive := false, updatedAt := Some(now))
                      else rows[i]
  {
    if |rows| == 0 then []
    else
      var t := rows[|rows| - 1];
      DeactivateBull(rows[..|rows| - 1], companyId, now) +
        [if IsBullOf(t, companyId) && t.isActive then t.(isActive := false, updatedAt := Some(now)) else t]
  }

  /** Seconds in the one-year validity of a saved thesis. */
  const YearSeconds := 365 * 86400

  class CompanyTheses {
    var rows: seq<CompanyThesis>
    var nextId: int

    ghost predicate Valid()
      reads this
    {
      Serial(ThesisIds(rows), nextId)
    }

    constructor(initial: seq<CompanyThesis>, next: int)
      requires Serial(ThesisIds(initial), next)
      ensures Valid() && rows == initial && nextId == next
    {
      rows := initial;
      nextId := next;
    }

    /** `save_thesis`: prune, deactivate, then insert the new active bull thesis. */
    method SaveThesis(companyId: int, summary: string, claims: Claims, filingId: int, model: string, now: int)
      returns (id: int)
      requires Valid()
      modifies this
      ensures Valid()
      ensures id == old(nextId) && nextId == old(nextId) + 1
      ensures rows == DeactivateBull(PruneInactive(old(rows), companyId), companyId, now) +
                      [CompanyThesis(id, companyId, "bull", summary, claims, [filingId], model, now + YearSeconds, true, None)]
    {
      ghost var ids0 := ThesisIds(rows);
      rows := PruneInactive(rows, companyId);
      PruneKeepsSerial(old(rows), companyId, nextId);
      rows := DeactivateBull(rows, companyId, now);
      assert ThesisIds(rows) == ThesisIds(PruneInactive(old(rows), companyId));
      id := nextId;
      rows := rows + [CompanyThesis(id, companyId, "bull", summary, claims, [filingId], model, now + YearSeconds, true, None)];
      assert ThesisIds(rows) == ThesisIds(DeactivateBull(PruneInactive(old(rows), companyId), companyId, now)) + [id];
      SerialAppend(ThesisIds(PruneInactive(old(rows), companyId)), id);
      nextId := nextId + 1;
    }
  }

  /** Deleting rows keeps the ids serial. */
  lemma {:induction false} PruneKeepsSerial(rows: seq<CompanyThesis>, companyId: int, nextId: int)
    requires Serial(ThesisIds(rows), nextId)
    ensures Serial(ThesisIds(PruneInactive(rows, companyId)), nextId)
  {
    if |rows| > 0 {
      var init := rows[..|rows| - 1];
      var t := rows[|rows| - 1];
      SerialPrefix(ThesisIds(rows), |rows| - 1, nextId);
      assert ThesisIds(init) == ThesisIds(rows)[..|rows| - 1];
      PruneKeepsSerial(init, companyId, nextId);
      var rest := PruneInactive(init, companyId);
      if !(IsBullOf(t, companyId) && !t.isActive) {
        forall i | 0 <= i < |rest|
          ensures ThesisIds(rest)[i] < t.id
        {
          assert rest[i] in init;
          var j :| 0 <= j < |init| && init[j] == rest[i];
          assert ThesisIds(rows)[j] < ThesisIds(rows)[|rows| - 1];
        }
        SerialSnoc(ThesisIds(rest), t.id, nextId);
        assert ThesisIds(rest + [t]) == ThesisIds(rest) + [t.id];
      }
    }
  }

  lemma SerialPrefix(ids: seq<int>, n: nat, nextId: int)
    requires Serial(ids, nextId) && n <= |ids|
    ensures Serial(ids[..n], nextId)
  {
  }

  lemma SerialSnoc(ids: seq<int>, x: int, nextId: int)
    requires Serial(ids, nextId) && 1 <= x < nextId
    requires forall i :: 0 <= i < |ids| ==> ids[i] < x
    ensures Serial(ids + [x], nextId)
  {
  }

  /**
   * After saving, the new thesis is the company's only active bull thesis,
   * and theses of other companies or other types are untouched.
   */
  lemma SaveLeavesOneActiveBull(rows: seq<CompanyThesis>, companyId: int, now: int, newRow: CompanyThesis)
    requires IsBullOf(newRow, companyId) && newRow.isActive
    ensures var after := DeactivateBull(PruneInactive(rows, companyId), companyId, now) + [newRow];
            (forall t :: t in after && IsBullOf(t, companyId) && t.isActive ==> t == newRow) &&
            (forall t :: t in rows && !IsBullOf(t, companyId) ==> t in after) &&
            (forall t :: t in after && !IsBullOf(t, companyId) ==> t in rows)
  {
    var pruned := PruneInactive(rows, companyId);
    var after := DeactivateBull(pruned, companyId, now) + [newRow];
    forall t | t in after && IsBullOf(t, companyId) && t.isActive
      ensures t == newRow
    {
      var i :| 0 <= i < |after| && after[i] == t;
    }
    forall t | t in rows && !IsBullOf(t, companyId)
      ensures t in after
    {
      var i :| 0 <= i < |pruned| && pruned[i] == t;
      assert after[i] == DeactivateBull(pruned, companyId, now)[i];
    }
    forall t | t in after && !IsBullOf(t, companyId)
      ensures t in rows
    {
      var i :| 0 <= i < |after| && after[i] == t;
      if i < |pruned| {
        assert after[i] == DeactivateBull(pruned, companyId, now)[i];
        assert pruned[i] in pruned;
      }
    }
  }
}
