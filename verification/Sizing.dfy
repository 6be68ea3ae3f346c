/** The hypothetical reference size of app/risk/reference_position_sizing.py. */
module Sizing {
  import opened Options
  import opened RiskModel
  import opened Rounding

  datatype ReferencePosition = ReferencePosition(
    cashRisk: real,
    riskPerUnit: real,
    quantity: real,
    notional: real,
    effectiveCashRisk: real)

  function CashRisk(s: RiskSettings): real {
    s.virtualAccount * s.riskPerPlanPct / 100.0
  }

  /** What a quantity is worth at a price, or risks at a distance. */
  function Amount(quantity: real, perUnit: real): real {
    quantity * perUnit
  }

  function SizeReferencePosition(i: Instrument, entry: real, riskPerUnit: real, s: RiskSettings)
    : Result<ReferencePosition, PlanRejection>
  {
    if entry <= 0.0 || riskPerUnit <= 0.0 then Err(ReferenceQuantityInvalid)
    else
      var cashRisk := CashRisk(s);
      var uncapped := RoundQuantityDown(cashRisk / riskPerUnit, i.quantityDecimals);
      if uncapped <= 0.0 then Err(ReferenceQuantityInvalid)
      else if i.minNotional.None? then Err(InstrumentRiskDataMissing)
      else if Amount(uncapped, entry) < i.minNotional.value then Err(MinNotionalViolation)
      else
        var capped := Amount(uncapped, entry) > s.maxReferenceNotional;
        var quantity :=
          if capped then RoundQuantityDown(s.maxReferenceNotional / entry, i.quantityDecimals) else uncapped;
        if capped && quantity <= 0.0 then Err(ReferenceQuantityInvalid)
        else if capped && Amount(quantity, entry) < i.minNotional.value then Err(MinNotionalViolation)
        else if FailsFinalCheck(Amount(quantity, riskPerUnit), cashRisk) then Err(ReferenceQuantityInvalid)
        else Ok(ReferencePosition(cashRisk, riskPerUnit, quantity, Amount(quantity, entry),
                                  Amount(quantity, riskPerUnit)))
  }

  predicate FailsFinalCheck(effective: real, cashRisk: real) {
    effective <= 0.0 || effective > cashRisk * 1.0001
  }

  /** A quantity inside both the cash-risk budget and the notional cap. */
  predicate Affordable(quantity: real, entry: real, riskPerUnit: real, s: RiskSettings) {
    Amount(quantity, riskPerUnit) <= CashRisk(s) && Amount(quantity, entry) <= s.maxReferenceNotional
  }

  /** No grid quantity within both limits is larger. */
  ghost predicate LargestAffordable(quantity: real, decimals: int, entry: real, riskPerUnit: real, s: RiskSettings) {
    && (exists k: int :: quantity == OnGrid(k, Quantum(decimals)))
    && Affordable(quantity, entry, riskPerUnit, s)
    && forall k: int :: Affordable(OnGrid(k, Quantum(decimals)), entry, riskPerUnit, s)
                        ==> OnGrid(k, Quantum(decimals)) <= quantity
  }

  lemma Quotient(x: real, limit: real, unit: real)
    requires unit > 0.0
    ensures x * unit <= limit <==> x <= limit / unit
  {
  }

  function Best(i: Instrument, entry: real, riskPerUnit: real, s: RiskSettings): real
    requires entry > 0.0 && riskPerUnit > 0.0
  {
    var byRisk := RoundQuantityDown(CashRisk(s) / riskPerUnit, i.quantityDecimals);
    var byNotional := RoundQuantityDown(s.maxReferenceNotional / entry, i.quantityDecimals);
    if byNotional < byRisk then byNotional else byRisk
  }

  lemma AffordableMeans(quantity: real, entry: real, riskPerUnit: real, s: RiskSettings)
    requires entry > 0.0 && riskPerUnit > 0.0
    ensures Affordable(quantity, entry, riskPerUnit, s) <==>
            quantity <= CashRisk(s) / riskPerUnit && quantity <= s.maxReferenceNotional / entry
  {
  }

  lemma BestIsLargest(i: Instrument, entry: real, riskPerUnit: real, s: RiskSettings)
    requires entry > 0.0 && riskPerUnit > 0.0
    ensures LargestAffordable(Best(i, entry, riskPerUnit, s), i.quantityDecimals, entry, riskPerUnit, s)
  {
    var step := Quantum(i.quantityDecimals);
    var best := Best(i, entry, riskPerUnit, s);
    BestOnGrid(i, entry, riskPerUnit, s);
    hide RoundTo, Quantum, CashRisk, OnGrid, Affordable;
    RoundingIsTight(CashRisk(s) / riskPerUnit, step, 0);
    RoundingIsTight(s.maxReferenceNotional / entry, step, 0);
    AffordableMeans(best, entry, riskPerUnit, s);
    forall k: int | Affordable(OnGrid(k, step), entry, riskPerUnit, s)
      ensures OnGrid(k, step) <= best
    {
      AffordableMeans(OnGrid(k, step), entry, riskPerUnit, s);
      RoundingIsTight(CashRisk(s) / riskPerUnit, step, k);
      RoundingIsTight(s.maxReferenceNotional / entry, step, k);
    }
  }

  lemma BestOnGrid(i: Instrument, entry: real, riskPerUnit: real, s: RiskSettings)
    requires entry > 0.0 && riskPerUnit > 0.0
    ensures exists k: int :: Best(i, entry, riskPerUnit, s) == OnGrid(k, Quantum(i.quantityDecimals))
  {
    var step := Quantum(i.quantityDecimals);
    assert RoundQuantityDown(CashRisk(s) / riskPerUnit, i.quantityDecimals)
        == OnGrid(Ticks(CashRisk(s) / riskPerUnit / step, Down), step);
    assert RoundQuantityDown(s.maxReferenceNotional / entry, i.quantityDecimals)
        == OnGrid(Ticks(s.maxReferenceNotional / entry / step, Down), step);
  }

  /** Whenever a position gets as far as the post-rounding check it passes it: the check never fires. */
  lemma FinalCheckNeverFires(i: Instrument, entry: real, riskPerUnit: real, s: RiskSettings, quantity: real)
    requires riskPerUnit > 0.0 && quantity > 0.0 && Amount(quantity, riskPerUnit) <= CashRisk(s)
    ensures !FailsFinalCheck(Amount(quantity, riskPerUnit), CashRisk(s))
  {
  }

  lemma SizedIsBest(i: Instrument, entry: real, riskPerUnit: real, s: RiskSettings)
    requires entry > 0.0 && riskPerUnit > 0.0
    ensures var uncapped := RoundQuantityDown(CashRisk(s) / riskPerUnit, i.quantityDecimals);
            Best(i, entry, riskPerUnit, s)
            == if Amount(uncapped, entry) > s.maxReferenceNotional
               then RoundQuantityDown(s.maxReferenceNotional / entry, i.quantityDecimals) else uncapped
  {
    var step := Quantum(i.quantityDecimals);
    var uncapped := RoundQuantityDown(CashRisk(s) / riskPerUnit, i.quantityDecimals);
    Quotient(uncapped, s.maxReferenceNotional, entry);
    RoundingIsTight(s.maxReferenceNotional / entry, step, Ticks(CashRisk(s) / riskPerUnit / step, Down));
  }

  lemma BestWithinRisk(i: Instrument, entry: real, riskPerUnit: real, s: RiskSettings)
    requires entry > 0.0 && riskPerUnit > 0.0
    ensures Amount(Best(i, entry, riskPerUnit, s), riskPerUnit) <= CashRisk(s)
  {
    BestIsLargest(i, entry, riskPerUnit, s);
    hide Best, CashRisk;
  }

  lemma UncappedAtLeast(i: Instrument, entry: real, riskPerUnit: real, s: RiskSettings)
    requires entry > 0.0 && riskPerUnit > 0.0
    ensures var uncapped := RoundQuantityDown(CashRisk(s) / riskPerUnit, i.quantityDecimals);
            && Best(i, entry, riskPerUnit, s) <= uncapped
            && Amount(Best(i, entry, riskPerUnit, s), entry) <= Amount(uncapped, entry)
  {
    hide RoundQuantityDown;
  }

  lemma LargestIsUnique(i: Instrument, entry: real, riskPerUnit: real, s: RiskSettings)
    requires entry > 0.0 && riskPerUnit > 0.0
    ensures forall q | LargestAffordable(q, i.quantityDecimals, entry, riskPerUnit, s) ::
              q == Best(i, entry, riskPerUnit, s)
  {
    BestIsLargest(i, entry, riskPerUnit, s);
  }

  /** The position that goes with a quantity. */
  function PositionOf(quantity: real, entry: real, riskPerUnit: real, s: RiskSettings): ReferencePosition {
    ReferencePosition(CashRisk(s), riskPerUnit, quantity, Amount(quantity, entry), Amount(quantity, riskPerUnit))
  }

  lemma SizedWhen(i: Instrument, entry: real, riskPerUnit: real, s: RiskSettings)
    requires entry > 0.0 && riskPerUnit > 0.0
    ensures var r, best := SizeReferencePosition(i, entry, riskPerUnit, s), Best(i, entry, riskPerUnit, s);
            && (r.Ok? <==> i.minNotional.Some? && best > 0.0 && Amount(best, entry) >= i.minNotional.value)
            && (r.Ok? ==> r.value == PositionOf(best, entry, riskPerUnit, s))
  {
    var best := Best(i, entry, riskPerUnit, s);
    SizedIsBest(i, entry, riskPerUnit, s);
    UncappedAtLeast(i, entry, riskPerUnit, s);
    hide Best, RoundQuantityDown, CashRisk, FailsFinalCheck, Amount;
    if best > 0.0 {
      BestWithinRisk(i, entry, riskPerUnit, s);
      FinalCheckNeverFires(i, entry, riskPerUnit, s, best);
    }
  }

  /**
   * Sizing is exact: the size returned is the largest grid quantity within both limits, and one is returned
   * exactly when that quantity is positive and reaches the instrument's minimum notional.
   */
  lemma SizingIsExact(i: Instrument, entry: real, riskPerUnit: real, s: RiskSettings)
    ensures var r := SizeReferencePosition(i, entry, riskPerUnit, s);
            && (r.Ok? <==>
                  && entry > 0.0 && riskPerUnit > 0.0 && i.minNotional.Some?
                  && exists q :: LargestAffordable(q, i.quantityDecimals, entry, riskPerUnit, s)
                                 && q > 0.0 && Amount(q, entry) >= i.minNotional.value)
            && (r.Ok? ==>
                  && LargestAffordable(r.value.quantity, i.quantityDecimals, entry, riskPerUnit, s)
                  && r.value == PositionOf(r.value.quantity, entry, riskPerUnit, s))
  {
    if entry > 0.0 && riskPerUnit > 0.0 {
      hide LargestAffordable, Best, SizeReferencePosition, PositionOf, Amount;
      BestIsLargest(i, entry, riskPerUnit, s);
      LargestIsUnique(i, entry, riskPerUnit, s);
      SizedWhen(i, entry, riskPerUnit, s);
      assert PositionOf(Best(i, entry, riskPerUnit, s), entry, riskPerUnit, s).quantity
          == Best(i, entry, riskPerUnit, s) by {
        PositionHasQuantity(Best(i, entry, riskPerUnit, s), entry, riskPerUnit, s);
      }
    }
  }

  lemma PositionHasQuantity(quantity: real, entry: real, riskPerUnit: real, s: RiskSettings)
    ensures PositionOf(quantity, entry, riskPerUnit, s).quantity == quantity
  {
  }
}
