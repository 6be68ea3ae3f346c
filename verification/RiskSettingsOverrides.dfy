/** Per-symbol and per-asset-class overrides of the risk settings (app/risk/risk_engine.py). */
module RiskSettingsOverrides {
  import opened RiskModel

  type Updates = map<SettingKey, real>

  datatype Overrides = Overrides(byAssetClass: map<string, Updates>, bySymbol: map<string, Updates>)

  predicate Overridable(key: SettingKey) {
    !key.OtherSetting?
  }

  function OverridesFor(table: map<string, Updates>, name: string): Updates {
    if name in table then table[name] else map[]
  }

  /** One source's overridable entries written over what was collected before. */
  function Collected(updates: Updates, source: Updates): Updates {
    map key | key in updates.Keys + source.Keys && (key in updates || Overridable(key)) ::
      if key in source && Overridable(key) then source[key] else updates[key]
  }

  method Collect(updates: Updates, source: Updates) returns (collected: Updates)
    ensures collected == Collected(updates, source)
  {
    collected := updates;
    var rest := source.Items;
    while rest != {}
      invariant rest <= source.Items
      invariant forall key | key in collected :: key in updates || (key in source && Overridable(key))
      invariant forall key | key in updates :: key in collected
      invariant forall key | key in source && (key, source[key]) !in rest && Overridable(key) ::
                  key in collected && collected[key] == source[key]
      invariant forall key | key in updates && !(key in source && (key, source[key]) !in rest && Overridable(key)) ::
                  collected[key] == updates[key]
      decreases rest
    {
      var item :| item in rest;
      rest := rest - {item};
      if Overridable(item.0) {
        collected := collected[item.0 := item.1];
      }
    }
    assert forall key | key in source :: (key, source[key]) in source.Items;
  }

  /** The symbol's override of a key, else the asset class's, else the configured value. */
  function Effective(o: Overrides, symbol: string, assetClass: string, key: SettingKey, configured: real): real {
    var forSymbol, forClass := OverridesFor(o.bySymbol, symbol), OverridesFor(o.byAssetClass, assetClass);
    if key in forSymbol then forSymbol[key] else if key in forClass then forClass[key] else configured
  }

  function CappedLeverage(leverage: real): real {
    if leverage > 3.0 then 3.0 else leverage
  }

  function Updated(updates: Updates, key: SettingKey, configured: real): real {
    if key in updates then updates[key] else configured
  }

  /** Exactly seven settings can be overridden, and the leverage cap of 3 survives every override. */
  predicate AreEffective(e: RiskSettings, s: RiskSettings, o: Overrides, symbol: string, assetClass: string) {
    e == s.(
      minNetRr := Effective(o, symbol, assetClass, MinNetRr, s.minNetRr),
      maxCostToRiskPct := Effective(o, symbol, assetClass, MaxCostToRiskPct, s.maxCostToRiskPct),
      minDistanceBps := Effective(o, symbol, assetClass, MinDistanceBps, s.minDistanceBps),
      maxDistanceBps := Effective(o, symbol, assetClass, MaxDistanceBps, s.maxDistanceBps),
      riskPerPlanPct := Effective(o, symbol, assetClass, ReferenceRiskPerPlanPct, s.riskPerPlanPct),
      maxReferenceLeverage :=
        CappedLeverage(Effective(o, symbol, assetClass, MaxReferenceLeverage, s.maxReferenceLeverage)),
      eligibilityMinScore := Effective(o, symbol, assetClass, EligibilityMinScore, s.eligibilityMinScore))
  }

  function AllUpdates(o: Overrides, symbol: string, assetClass: string): Updates {
    Collected(Collected(map[], OverridesFor(o.byAssetClass, assetClass)), OverridesFor(o.bySymbol, symbol))
  }

  lemma UpdatesAreEffective(o: Overrides, symbol: string, assetClass: string, key: SettingKey, configured: real)
    requires Overridable(key)
    ensures Updated(AllUpdates(o, symbol, assetClass), key, configured)
            == Effective(o, symbol, assetClass, key, configured)
  {
  }

  method EffectiveRiskSettings(s: RiskSettings, o: Overrides, symbol: string, assetClass: string)
    returns (e: RiskSettings)
    requires s.maxReferenceLeverage <= 3.0
    ensures e.maxReferenceLeverage <= 3.0
    ensures AreEffective(e, s, o, symbol, assetClass)
    ensures FixedSettingsValid(s) ==> FixedSettingsValid(e)
  {
    hide Collected, Effective, OverridesFor;
    var updates := Collect(map[], OverridesFor(o.byAssetClass, assetClass));
    updates := Collect(updates, OverridesFor(o.bySymbol, symbol));
    assert updates == AllUpdates(o, symbol, assetClass);
    UpdatesAreEffective(o, symbol, assetClass, MinNetRr, s.minNetRr);
    UpdatesAreEffective(o, symbol, assetClass, MaxCostToRiskPct, s.maxCostToRiskPct);
    UpdatesAreEffective(o, symbol, assetClass, MinDistanceBps, s.minDistanceBps);
    UpdatesAreEffective(o, symbol, assetClass, MaxDistanceBps, s.maxDistanceBps);
    UpdatesAreEffective(o, symbol, assetClass, ReferenceRiskPerPlanPct, s.riskPerPlanPct);
    UpdatesAreEffective(o, symbol, assetClass, MaxReferenceLeverage, s.maxReferenceLeverage);
    UpdatesAreEffective(o, symbol, assetClass, EligibilityMinScore, s.eligibilityMinScore);
    hide AllUpdates;
    if MaxReferenceLeverage in updates {
      updates := updates[MaxReferenceLeverage := CappedLeverage(updates[MaxReferenceLeverage])];
    }
    e := s.(minNetRr := Updated(updates, MinNetRr, s.minNetRr),
            maxCostToRiskPct := Updated(updates, MaxCostToRiskPct, s.maxCostToRiskPct),
            minDistanceBps := Updated(updates, MinDistanceBps, s.minDistanceBps),
            maxDistanceBps := Updated(updates, MaxDistanceBps, s.maxDistanceBps),
            riskPerPlanPct := Updated(updates, ReferenceRiskPerPlanPct, s.riskPerPlanPct),
            maxReferenceLeverage := Updated(updates, MaxReferenceLeverage, s.maxReferenceLeverage),
            eligibilityMinScore := Updated(updates, EligibilityMinScore, s.eligibilityMinScore));
  }
}
