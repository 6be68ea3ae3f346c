/** Reference targets from technical levels (app/risk/reference_targets.py). */
module Targets {
  import opened Options
  import opened RiskModel
  import opened Sorting

  datatype TechnicalLevel = TechnicalLevel(price: real, relevance: real)

  const MAX_TARGETS := 3

  predicate IsRelevant(l: TechnicalLevel, s: RiskSettings) {
    l.price > 0.0 && l.relevance >= s.targetMinRelevance
  }

  function Relevant(levels: seq<TechnicalLevel>, s: RiskSettings): seq<TechnicalLevel> {
    if levels == [] then []
    else
      (if IsRelevant(levels[0], s) then [levels[0]] else [])
      + Relevant(levels[1..], s)
  }

  /** Beyond the entry by more than the minimum gap, on the profitable side. */
  predicate Profitable(bullish: bool, price: real, entry: real, gap: real) {
    if bullish then price > entry + gap else price < entry - gap
  }

  function OnProfitableSide(levels: seq<TechnicalLevel>, bullish: bool, entry: real, gap: real): seq<TechnicalLevel> {
    if levels == [] then []
    else
      (if Profitable(bullish, levels[0].price, entry, gap) then [levels[0]] else [])
      + OnProfitableSide(levels[1..], bullish, entry, gap)
  }

  predicate Nearer(bullish: bool, a: TechnicalLevel, b: TechnicalLevel) {
    if bullish then a.price <= b.price else a.price >= b.price
  }

  predicate NearestFirst(bullish: bool, levels: seq<TechnicalLevel>) {
    forall j, k | 0 <= j < k < |levels| :: Nearer(bullish, levels[j], levels[k])
  }

  function PriceOf(l: TechnicalLevel): real {
    l.price
  }

  function PriceDown(l: TechnicalLevel): real {
    -l.price
  }

  function SortKey(bullish: bool): TechnicalLevel -> real {
    if bullish then PriceOf else PriceDown
  }

  /** The in-place sort by price, descending for bearish candidates. */
  function SortedByPrice(bullish: bool, levels: seq<TechnicalLevel>): seq<TechnicalLevel> {
    Sorted(SortKey(bullish), levels)
  }

  /** Sorting by the key is sorting by distance on the profitable side. */
  lemma SortedIsNearestFirst(bullish: bool, levels: seq<TechnicalLevel>)
    ensures NearestFirst(bullish, SortedByPrice(bullish, levels))
    ensures multiset(SortedByPrice(bullish, levels)) == multiset(levels)
  {
    SortSorts(SortKey(bullish), levels);
  }

  function Gap(entry: real, s: RiskSettings): real {
    entry * s.minDistanceBps / 10000.0
  }

  function CandidatesFor(levels: seq<TechnicalLevel>, bullish: bool, entry: real,
                         s: RiskSettings): seq<TechnicalLevel> {
    OnProfitableSide(Relevant(levels, s), bullish, entry, Gap(entry, s))
  }

  lemma {:induction false} RelevantCount(levels: seq<TechnicalLevel>, s: RiskSettings, l: TechnicalLevel)
    ensures multiset(Relevant(levels, s))[l] == if IsRelevant(l, s) then multiset(levels)[l] else 0
  {
    if levels != [] {
      RelevantCount(levels[1..], s, l);
      assert levels == [levels[0]] + levels[1..];
    }
  }

  lemma {:induction false} ProfitableCount(levels: seq<TechnicalLevel>, bullish: bool, entry: real, gap: real,
                                           l: TechnicalLevel)
    ensures multiset(OnProfitableSide(levels, bullish, entry, gap))[l]
            == if Profitable(bullish, l.price, entry, gap) then multiset(levels)[l] else 0
  {
    if levels != [] {
      ProfitableCount(levels[1..], bullish, entry, gap, l);
      assert levels == [levels[0]] + levels[1..];
    }
  }

  /** Exactly the relevant levels of the list on the profitable side, with their multiplicity. */
  lemma CandidatesAreExactly(levels: seq<TechnicalLevel>, bullish: bool, entry: real, s: RiskSettings,
                             l: TechnicalLevel)
    ensures multiset(CandidatesFor(levels, bullish, entry, s))[l]
            == if IsRelevant(l, s) && Profitable(bullish, l.price, entry, Gap(entry, s))
               then multiset(levels)[l] else 0
  {
    RelevantCount(levels, s, l);
    ProfitableCount(Relevant(levels, s), bullish, entry, Gap(entry, s), l);
    hide Gap, IsRelevant, Profitable;
  }

  predicate Beyond(bullish: bool, price: real, entry: real) {
    if bullish then price > entry else price < entry
  }

  lemma GapSign(entry: real, s: RiskSettings)
    requires entry > 0.0
    ensures Gap(entry, s) >= 0.0 <==> s.minDistanceBps >= 0.0
  {
  }

  lemma CandidatesComeFromLevels(levels: seq<TechnicalLevel>, bullish: bool, entry: real, s: RiskSettings,
                                 l: TechnicalLevel)
    ensures l in CandidatesFor(levels, bullish, entry, s) <==>
            l in levels && IsRelevant(l, s) && Profitable(bullish, l.price, entry, Gap(entry, s))
  {
    CandidatesAreExactly(levels, bullish, entry, s, l);
    hide CandidatesFor, Gap;
    assert l in multiset(CandidatesFor(levels, bullish, entry, s)) <==> l in CandidatesFor(levels, bullish, entry, s);
    assert l in multiset(levels) <==> l in levels;
  }

  ghost predicate OnlyBeyondEntry(bullish: bool, entry: real, s: RiskSettings) {
    forall levels: seq<TechnicalLevel>, l ::
      l in CandidatesFor(levels, bullish, entry, s) ==> Beyond(bullish, l.price, entry)
  }

  /** For all level lists only targets beyond the entry are offered exactly when the minimum gap is not negative. */
  lemma OnlyBeyondEntryExactlyWhen(bullish: bool, entry: real, s: RiskSettings)
    requires entry > 0.0
    ensures OnlyBeyondEntry(bullish, entry, s) <==> s.minDistanceBps >= 0.0
  {
    GapSign(entry, s);
    hide CandidatesFor, Gap;
    forall levels: seq<TechnicalLevel>, l | l in CandidatesFor(levels, bullish, entry, s)
      ensures s.minDistanceBps >= 0.0 ==> Beyond(bullish, l.price, entry)
    {
      CandidatesComeFromLevels(levels, bullish, entry, s, l);
    }
    var atEntry := TechnicalLevel(entry, s.targetMinRelevance);
    CandidatesComeFromLevels([atEntry], bullish, entry, s, atEntry);
    assert OnlyBeyondEntry(bullish, entry, s) && atEntry in CandidatesFor([atEntry], bullish, entry, s) ==>
             Beyond(bullish, atEntry.price, entry);
  }

  /** With an override of -100 bps, a level half a percent on the wrong side is offered, in both directions. */
  lemma WrongSideIsOffered(s: RiskSettings)
    requires s.minDistanceBps == -100.0
    ensures var below, above := TechnicalLevel(99.5, s.targetMinRelevance), TechnicalLevel(100.5, s.targetMinRelevance);
            && CandidatesFor([below], true, 100.0, s) == [below] && !Beyond(true, below.price, 100.0)
            && CandidatesFor([above], false, 100.0, s) == [above] && !Beyond(false, above.price, 100.0)
  {
    assert Gap(100.0, s) == -1.0;
    hide Gap;
    var below, above := TechnicalLevel(99.5, s.targetMinRelevance), TechnicalLevel(100.5, s.targetMinRelevance);
    assert Relevant([below], s) == [below] + Relevant([], s) && Relevant([above], s) == [above] + Relevant([], s);
    assert OnProfitableSide([below], true, 100.0, -1.0) == [below] + OnProfitableSide([], true, 100.0, -1.0);
    assert OnProfitableSide([above], false, 100.0, -1.0) == [above] + OnProfitableSide([], false, 100.0, -1.0);
  }

  /** The nearest of the candidates: in order, at most three, and no nearer one left out. */
  ghost predicate AreNearest(bullish: bool, candidates: seq<TechnicalLevel>, targets: seq<TechnicalLevel>) {
    exists rest: seq<TechnicalLevel> ::
      && multiset(targets + rest) == multiset(candidates)
      && NearestFirst(bullish, targets + rest)
      && |targets| == if |candidates| < MAX_TARGETS then |candidates| else MAX_TARGETS
  }

  function Count(levels: seq<TechnicalLevel>): nat {
    if |levels| < MAX_TARGETS then |levels| else MAX_TARGETS
  }

  lemma FirstOnesAreNearest(bullish: bool, candidates: seq<TechnicalLevel>)
    ensures var ordered := SortedByPrice(bullish, candidates);
            |ordered| == |candidates| && AreNearest(bullish, candidates, ordered[..Count(ordered)])
  {
    var ordered := SortedByPrice(bullish, candidates);
    SortedIsNearestFirst(bullish, candidates);
    assert |multiset(ordered)| == |multiset(candidates)|;
    assert ordered[..Count(ordered)] + ordered[Count(ordered)..] == ordered;
  }

  method TakeTargets(ordered: seq<TechnicalLevel>) returns (targets: seq<TechnicalLevel>)
    ensures targets == ordered[..Count(ordered)]
  {
    targets := [];
    for k := 0 to Count(ordered)
      invariant targets == ordered[..k]
    {
      targets := targets + [ordered[k]];
    }
  }

  function DerivedTargets(levels: seq<TechnicalLevel>, bullish: bool, entry: real, s: RiskSettings)
    : Result<seq<TechnicalLevel>, PlanRejection>
  {
    if entry <= 0.0 || Relevant(levels, s) == [] then Err(ReferenceTargetUnavailable)
    else
      var candidates := CandidatesFor(levels, bullish, entry, s);
      if candidates == [] then Err(TargetWrongSide)
      else
        var ordered := SortedByPrice(bullish, candidates);
        Ok(ordered[..Count(ordered)])
  }

  /** What is derived are the nearest of the candidates, and at least one. */
  lemma DerivedAreNearest(levels: seq<TechnicalLevel>, bullish: bool, entry: real, s: RiskSettings)
    ensures var r := DerivedTargets(levels, bullish, entry, s);
            r.Ok? ==> r.value != [] && AreNearest(bullish, CandidatesFor(levels, bullish, entry, s), r.value)
  {
    FirstOnesAreNearest(bullish, CandidatesFor(levels, bullish, entry, s));
    hide CandidatesFor, SortedByPrice, AreNearest;
  }

  method DeriveTargets(levels: seq<TechnicalLevel>, bullish: bool, entry: real, s: RiskSettings)
    returns (r: Result<seq<TechnicalLevel>, PlanRejection>)
    ensures r == DerivedTargets(levels, bullish, entry, s)
    ensures r.Ok? ==> r.value != [] && AreNearest(bullish, CandidatesFor(levels, bullish, entry, s), r.value)
  {
    DerivedAreNearest(levels, bullish, entry, s);
    hide Gap, Relevant, SortedByPrice, AreNearest;
    if entry <= 0.0 {
      return Err(ReferenceTargetUnavailable);
    }
    var relevant := Relevant(levels, s);
    if relevant == [] {
      return Err(ReferenceTargetUnavailable);
    }
    var candidates := OnProfitableSide(relevant, bullish, entry, Gap(entry, s));
    if candidates == [] {
      return Err(TargetWrongSide);
    }
    var targets := TakeTargets(SortedByPrice(bullish, candidates));
    r := Ok(targets);
  }
}
