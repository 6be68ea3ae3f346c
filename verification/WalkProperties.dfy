/** What walking the book guarantees: best possible notional, nothing eligible missed, monotone slippage. */
module WalkProperties {
  import opened Arithmetic
  import opened Options
  import opened OrderBook
  import opened OrderBookState
  import opened Depth
  import opened Vwap

  /** Prices turned so that less is better: what is paid on the ask side, what is given up on the bid side. */
  function Weight(which: Side, price: real): real {
    if which == Ask then price else -price
  }

  function Times(take: real, weight: real): real {
    take * weight
  }

  function Weighed(which: Side, levels: seq<Level>, takes: seq<real>): real
    requires |takes| == |levels|
  {
    if takes == [] then 0.0
    else Times(takes[0], Weight(which, levels[0].price)) + Weighed(which, levels[1..], takes[1..])
  }

  lemma {:induction false} WeighedIsNotional(which: Side, levels: seq<Level>, takes: seq<real>)
    requires |takes| == |levels|
    ensures Weighed(which, levels, takes) == Weight(which, Notional(levels, takes))
  {
    if takes != [] {
      WeighedIsNotional(which, levels[1..], takes[1..]);
    }
  }

  /** A way to take from the levels: from none more than it holds. */
  predicate Feasible(levels: seq<Level>, takes: seq<real>) {
    && |takes| == |levels|
    && forall i | 0 <= i < |takes| :: 0.0 <= takes[i] <= levels[i].quantity
  }

  predicate AtLeast(which: Side, levels: seq<Level>, w: real) {
    forall i | 0 <= i < |levels| :: w <= Weight(which, levels[i].price)
  }

  lemma TailOrdered(which: Side, levels: seq<Level>)
    requires levels != [] && SortedSide(which, levels)
    ensures SortedSide(which, levels[1..])
    ensures AtLeast(which, levels[1..], Weight(which, levels[0].price))
  {
  }

  lemma HeadCosts(w: real, first: real, t: real, st: real, wt: real)
    requires w <= first && t >= 0.0 && wt >= w * st
    ensures t * first + wt >= w * (t + st)
  {
  }

  lemma Scale(low: real, high: real, amount: real)
    requires low <= high && amount >= 0.0
    ensures low * amount <= high * amount
  {
  }

  lemma {:induction false} WeighedAtLeast(which: Side, levels: seq<Level>, takes: seq<real>, w: real)
    requires Feasible(levels, takes) && AtLeast(which, levels, w)
    ensures Weighed(which, levels, takes) >= w * Sum(takes) && Sum(takes) >= 0.0
  {
    if takes != [] {
      WeighedAtLeast(which, levels[1..], takes[1..], w);
      HeadCosts(w, Weight(which, levels[0].price), takes[0], Sum(takes[1..]), Weighed(which, levels[1..], takes[1..]));
    }
  }

  lemma Unfold(which: Side, levels: seq<Level>, takes: seq<real>)
    requires levels != [] && |takes| == |levels|
    ensures Sum(takes) == takes[0] + Sum(takes[1..])
    ensures Weighed(which, levels, takes) ==
            Times(takes[0], Weight(which, levels[0].price)) + Weighed(which, levels[1..], takes[1..])
  {
  }

  /** The three ways a walk passes its first level. */
  lemma WalkHead(levels: seq<Level>, remaining: real)
    requires levels != [] && remaining > 0.0 && PositiveLevels(levels)
    ensures var takes := Takes(levels, remaining);
            && takes[0] == Min(remaining, levels[0].quantity) > 0.0
            && if remaining - takes[0] <= DUST then takes[1..] == Nothing(levels[1..])
               else takes[0] == levels[0].quantity && takes[1..] == Takes(levels[1..], remaining - takes[0])
  {
  }

  lemma {:induction false} TakesFeasible(levels: seq<Level>, remaining: real)
    requires remaining > 0.0 && PositiveLevels(levels)
    ensures Feasible(levels, Takes(levels, remaining))
    ensures Sum(Takes(levels, remaining)) <= remaining
  {
    if levels != [] {
      WalkHead(levels, remaining);
      var takes := Takes(levels, remaining);
      hide Takes;
      assert PositiveLevels(levels[1..]);
      assert takes == [takes[0]] + takes[1..];
      if remaining - takes[0] <= DUST {
        NothingTakes(levels[1..]);
        assert forall i | 0 <= i < |levels| :: levels[i] in levels;
      } else {
        TakesFeasible(levels[1..], remaining - takes[0]);
      }
    }
  }

  ghost predicate AtRate(w: real, cost: real, amount: real) {
    cost >= w * amount
  }

  /** One way of taking costs more than another by at least rate w for what it takes more. */
  ghost predicate Dearer(which: Side, levels: seq<Level>, other: seq<real>, takes: seq<real>, w: real)
    requires |other| == |takes| == |levels|
  {
    AtRate(w, Weighed(which, levels, other) - Weighed(which, levels, takes), Sum(other) - Sum(takes))
  }

  lemma DearerTail(which: Side, levels: seq<Level>, other: seq<real>, takes: seq<real>, w: real)
    requires levels != [] && |other| == |takes| == |levels| && w <= Weight(which, levels[0].price)
    requires Dearer(which, levels[1..], other[1..], takes[1..], Weight(which, levels[0].price))
    requires Sum(other) >= Sum(takes)
    ensures Dearer(which, levels, other, takes, w)
  {
    var first := Weight(which, levels[0].price);
    hide Weighed, Sum, Weight, AtRate, Times;
    Unfold(which, levels, takes);
    Unfold(which, levels, other);
    RestCosts(w, first, other[0], Sum(other[1..]), Weighed(which, levels[1..], other[1..]), Sum(other),
              Weighed(which, levels, other), takes[0], Sum(takes[1..]), Weighed(which, levels[1..], takes[1..]),
              Sum(takes), Weighed(which, levels, takes));
  }

  lemma DearerThanNothing(which: Side, levels: seq<Level>, other: seq<real>, w: real)
    requires Feasible(levels, other) && AtLeast(which, levels, w)
    ensures Dearer(which, levels, other, Nothing(levels), w)
  {
    NothingTakesWeighed(which, levels);
    WeighedAtLeast(which, levels, other, w);
  }

  /** Any way of taking at least as much is dearer than the walk, at the best rate around. */
  lemma {:induction false} NoCheaperWay(which: Side, levels: seq<Level>, remaining: real, other: seq<real>, w: real)
    requires remaining > 0.0 && PositiveLevels(levels) && SortedSide(which, levels) && AtLeast(which, levels, w)
    requires Feasible(levels, other) && Sum(other) >= Sum(Takes(levels, remaining))
    ensures Dearer(which, levels, other, Takes(levels, remaining), w)
  {
    if levels != [] {
      var takes, first := Takes(levels, remaining), Weight(which, levels[0].price);
      var rest := levels[1..];
      hide Takes, Weighed, Sum, Nothing, SortedSide, Dearer;
      WalkHead(levels, remaining);
      TailOrdered(which, levels);
      assert PositiveLevels(rest) && Feasible(rest, other[1..]);
      if remaining - takes[0] <= DUST {
        DearerThanNothing(which, rest, other[1..], first);
      } else {
        SumHeads(other, takes);
        NoCheaperWay(which, rest, remaining - takes[0], other[1..], first);
      }
      DearerTail(which, levels, other, takes, w);
    }
  }

  lemma SumHeads(other: seq<real>, takes: seq<real>)
    requires other != [] && takes != [] && other[0] <= takes[0] && Sum(other) >= Sum(takes)
    ensures Sum(other[1..]) >= Sum(takes[1..])
  {
  }

  lemma NothingTakesWeighed(which: Side, levels: seq<Level>)
    ensures Weighed(which, levels, Nothing(levels)) == 0.0 && Sum(Nothing(levels)) == 0.0
  {
    NothingTakes(levels);
    WeighedIsNotional(which, levels, Nothing(levels));
  }

  /** From the tails to the whole: x and t head the two ways, s and c are their sums and costs. */
  lemma RestCosts(w: real, first: real, x: real, sx: real, cx: real, sOther: real, cOther: real,
                  t: real, st: real, ct: real, sTakes: real, cTakes: real)
    requires w <= first && AtRate(first, cx - ct, sx - st)
    requires sOther == x + sx && cOther == Times(x, first) + cx
    requires sTakes == t + st && cTakes == Times(t, first) + ct
    requires sOther >= sTakes
    ensures AtRate(w, cOther - cTakes, sOther - sTakes)
  {
  }

  lemma DearerForTheSame(which: Side, levels: seq<Level>, other: seq<real>, takes: seq<real>, w: real)
    requires |other| == |takes| == |levels| && Dearer(which, levels, other, takes, w) && Sum(other) == Sum(takes)
    ensures Weighed(which, levels, other) >= Weighed(which, levels, takes)
  {
    hide Weighed, Sum;
    assert w * (Sum(other) - Sum(takes)) == 0.0;
  }

  /**
   * Optimality. Of all ways to take the walk's own quantity from the eligible levels, none pays less on the
   * ask side and none receives more on the bid side.
   */
  lemma WalkIsOptimal(which: Side, levels: seq<Level>, quantity: real, other: seq<real>)
    requires quantity > 0.0 && PositiveLevels(levels) && SortedSide(which, levels)
    requires Feasible(levels, other) && Sum(other) == Sum(Takes(levels, quantity))
    ensures if which == Ask then Notional(levels, Takes(levels, quantity)) <= Notional(levels, other)
            else Notional(levels, Takes(levels, quantity)) >= Notional(levels, other)
  {
    if levels != [] {
      TailOrdered(which, levels);
      var w := Weight(which, levels[0].price);
      assert AtLeast(which, levels, w) by {
        assert forall i | 0 < i < |levels| :: levels[1..][i - 1] == levels[i];
      }
      hide Takes, Sum, Weighed, Notional, SortedSide, Dearer;
      NoCheaperWay(which, levels, quantity, other, w);
      DearerForTheSame(which, levels, other, Takes(levels, quantity), w);
      WeighedIsNotional(which, levels, other);
      WeighedIsNotional(which, levels, Takes(levels, quantity));
    }
  }

  /** The same for what is reported: average price times filled quantity. */
  lemma ReportedPriceIsBestPossible(book: OrderbookDepthSnapshot, which: Side, quantity: real,
                                    maxLevels: nat, maxDistanceBps: real, other: seq<real>)
    requires book.isFresh && Walkable(book) && SideLevels(book, which) != [] && quantity > 0.0
    requires var v := Walked(book, which, quantity, maxLevels, maxDistanceBps);
             && v.vwapPrice.Some?
             && Feasible(Eligible(SideLevels(book, which), maxLevels, maxDistanceBps), other) && Sum(other) == v.filled
    ensures var v := Walked(book, which, quantity, maxLevels, maxDistanceBps);
            var notional := Notional(Eligible(SideLevels(book, which), maxLevels, maxDistanceBps), other);
            if which == Ask then v.vwapPrice.value * v.filled <= notional else v.vwapPrice.value * v.filled >= notional
  {
    EligibleIsSorted(which, SideLevels(book, which), maxLevels, maxDistanceBps);
    var eligible := Eligible(SideLevels(book, which), maxLevels, maxDistanceBps);
    ReportedTotals(book, which, quantity, maxLevels, maxDistanceBps);
    hide Eligible, Takes, Sum, Notional, SortedSide, Walked;
    WalkIsOptimal(which, eligible, quantity, other);
  }

  lemma ReportedTotals(book: OrderbookDepthSnapshot, which: Side, quantity: real, maxLevels: nat, maxDistanceBps: real)
    requires book.isFresh && SideLevels(book, which) != [] && quantity > 0.0
    ensures var v := Walked(book, which, quantity, maxLevels, maxDistanceBps);
            var eligible := Eligible(SideLevels(book, which), maxLevels, maxDistanceBps);
            v.vwapPrice.Some? ==>
              && v.filled == Sum(Takes(eligible, quantity))
              && v.vwapPrice.value * v.filled == Notional(eligible, Takes(eligible, quantity))
  {
    var eligible := Eligible(SideLevels(book, which), maxLevels, maxDistanceBps);
    hide Eligible, Takes, Sum, Notional, Consumed, Settled, Abs;
    var takes := Takes(eligible, quantity);
    if Sum(takes) > 0.0 {
      AverageTimesSum(Notional(eligible, takes), Sum(takes));
      assert Walked(book, which, quantity, maxLevels, maxDistanceBps).vwapPrice
          == Some(Notional(eligible, takes) / Sum(takes));
    }
  }

  lemma AverageTimesSum(total: real, sum: real)
    requires sum > 0.0
    ensures total / sum * sum == total
  {
  }

  // ---------------------------------------------------------------- the window

  /** Stopping at the first level outside the window keeps a prefix. */
  lemma {:induction false} WindowIsPrefix(levels: seq<Level>, reference: real, maxDistanceBps: real)
    ensures var window := InWindow(levels, reference, maxDistanceBps);
            && |window| <= |levels| && window == levels[..|window|]
            && (forall i | 0 <= i < |window| :: WithinDistance(levels[i].price, reference, maxDistanceBps))
            && (|window| < |levels| ==> !WithinDistance(levels[|window|].price, reference, maxDistanceBps))
  {
    hide WithinDistance;
    if levels != [] && WithinDistance(levels[0].price, reference, maxDistanceBps) {
      WindowIsPrefix(levels[1..], reference, maxDistanceBps);
      var window := InWindow(levels, reference, maxDistanceBps);
      assert window == [levels[0]] + InWindow(levels[1..], reference, maxDistanceBps);
      assert forall i | 0 < i < |levels| :: levels[i] == levels[1..][i - 1];
    }
  }

  lemma FartherIsOutside(near: real, far: real, reference: real, maxDistanceBps: real)
    requires Abs(near - reference) <= Abs(far - reference) && WithinDistance(far, reference, maxDistanceBps)
    ensures WithinDistance(near, reference, maxDistanceBps)
  {
    SlippageScales(reference, Abs(near - reference), Abs(far - reference));
  }

  /** So many basis points of the best price. */
  lemma WindowMeans(price: real, reference: real, maxDistanceBps: real)
    ensures WithinDistance(price, reference, maxDistanceBps) <==>
              reference > 0.0 && Abs(price - reference) * 10000.0 <= maxDistanceBps * reference
  {
    if reference > 0.0 {
      var share := Abs(price - reference) / reference;
      assert share * reference == Abs(price - reference);
      assert share * 10000.0 <= maxDistanceBps <==> share * 10000.0 * reference <= maxDistanceBps * reference;
    }
  }

  /**
   * On a sorted side the break loses nothing: the eligible levels are the first ones of the side, and a level is
   * among them exactly when it is one of the first maxLevels and itself within the window around the best price.
   */
  lemma NothingEligibleIsLost(which: Side, levels: seq<Level>, maxLevels: nat, maxDistanceBps: real, i: nat)
    requires SortedSide(which, levels) && i < |levels|
    ensures var eligible := Eligible(levels, maxLevels, maxDistanceBps);
            && eligible <= levels
            && (i < |eligible| <==>
                  && i < maxLevels && levels[0].price > 0.0
                  && Abs(levels[i].price - levels[0].price) * 10000.0 <= maxDistanceBps * levels[0].price)
  {
    WindowIsPrefix(First(levels, maxLevels), levels[0].price, maxDistanceBps);
    WindowMeans(levels[i].price, levels[0].price, maxDistanceBps);
    hide WithinDistance, InWindow, Abs;
    if i < |First(levels, maxLevels)| {
      EligibleWhenWithin(which, levels, maxLevels, maxDistanceBps, i);
    }
  }

  lemma EligibleWhenWithin(which: Side, levels: seq<Level>, maxLevels: nat, maxDistanceBps: real, i: nat)
    requires SortedSide(which, levels) && i < |First(levels, maxLevels)|
    ensures WithinDistance(levels[i].price, levels[0].price, maxDistanceBps)
            <==> i < |Eligible(levels, maxLevels, maxDistanceBps)|
  {
    var reference := levels[0].price;
    WindowIsPrefix(First(levels, maxLevels), reference, maxDistanceBps);
    var k := |Eligible(levels, maxLevels, maxDistanceBps)|;
    hide WithinDistance, InWindow;
    if k <= i && WithinDistance(levels[i].price, reference, maxDistanceBps) {
      assert k < i ==> Better(which, levels[k].price, levels[i].price);
      assert 0 < k ==> Better(which, levels[0].price, levels[k].price);
      FartherIsOutside(levels[k].price, levels[i].price, reference, maxDistanceBps);
    }
  }

  lemma EligibleIsSorted(which: Side, levels: seq<Level>, maxLevels: nat, maxDistanceBps: real)
    requires levels != [] && SortedSide(which, levels) && PositiveLevels(levels)
    ensures var eligible := Eligible(levels, maxLevels, maxDistanceBps);
            && SortedSide(which, eligible) && PositiveLevels(eligible)
            && AtLeast(which, eligible, Weight(which, levels[0].price))
  {
    WindowIsPrefix(First(levels, maxLevels), levels[0].price, maxDistanceBps);
    var eligible := Eligible(levels, maxLevels, maxDistanceBps);
    assert forall i | 0 <= i < |eligible| :: eligible[i] == levels[i] && levels[i] in levels;
    assert forall i | 0 < i < |eligible| :: Better(which, levels[0].price, levels[i].price);
  }

  // ---------------------------------------------------------------- how much is filled

  function TotalQuantity(levels: seq<Level>): real {
    if levels == [] then 0.0 else levels[0].quantity + TotalQuantity(levels[1..])
  }

  lemma {:induction false} TakesBounded(levels: seq<Level>, remaining: real)
    requires remaining > 0.0
    ensures 0.0 <= Sum(Takes(levels, remaining)) <= remaining
  {
    if levels != [] {
      var take := Min(remaining, levels[0].quantity);
      var takes := Takes(levels, remaining);
      NothingTakes(levels[1..]);
      if take <= 0.0 {
        TakesBounded(levels[1..], remaining);
      } else if remaining - take > DUST {
        TakesBounded(levels[1..], remaining - take);
      }
      assert takes == [takes[0]] + takes[1..];
    }
  }

  /** Nothing is lost and nothing invented: filled and unfilled add up to the request, up to the dust cut-off. */
  lemma FilledAndUnfilledAddUp(book: OrderbookDepthSnapshot, which: Side, quantity: real,
                               maxLevels: nat, maxDistanceBps: real)
    ensures var v := Walked(book, which, quantity, maxLevels, maxDistanceBps);
            var request := if quantity > 0.0 then quantity else 0.0;
            && v.filled >= 0.0 && v.unfilled >= 0.0
            && 0.0 <= request - (v.filled + v.unfilled) <= DUST
  {
    var levels := SideLevels(book, which);
    if quantity > 0.0 && book.isFresh && levels != [] {
      TakesBounded(Eligible(levels, maxLevels, maxDistanceBps), quantity);
    }
  }

  lemma {:induction false} TakesAllOrEnough(levels: seq<Level>, remaining: real)
    requires remaining > 0.0 && PositiveLevels(levels) && levels != []
    ensures TotalQuantity(levels) > 0.0
    ensures TotalQuantity(levels) >= remaining - DUST ==> Sum(Takes(levels, remaining)) >= remaining - DUST
    ensures TotalQuantity(levels) < remaining - DUST ==> Sum(Takes(levels, remaining)) == TotalQuantity(levels)
  {
    WalkHead(levels, remaining);
    var takes, rest := Takes(levels, remaining), levels[1..];
    assert PositiveLevels(rest) && takes == [takes[0]] + takes[1..];
    NothingTakes(rest);
    TotalNotNegative(rest);
    if remaining - takes[0] > DUST && rest != [] {
      TakesAllOrEnough(rest, remaining - takes[0]);
    }
  }

  lemma {:induction false} TotalNotNegative(levels: seq<Level>)
    requires PositiveLevels(levels)
    ensures TotalQuantity(levels) >= 0.0
  {
    if levels != [] {
      assert levels[0] in levels && PositiveLevels(levels[1..]);
      TotalNotNegative(levels[1..]);
    }
  }

  /** A request is fully filled exactly when the eligible levels hold it; otherwise all of them are taken. */
  lemma FullyFilledExactlyWhen(book: OrderbookDepthSnapshot, which: Side, quantity: real,
                               maxLevels: nat, maxDistanceBps: real)
    requires book.isFresh && Walkable(book) && SideLevels(book, which) != [] && quantity > 0.0
    ensures var v := Walked(book, which, quantity, maxLevels, maxDistanceBps);
            var eligible := Eligible(SideLevels(book, which), maxLevels, maxDistanceBps);
            && (FullyFilled(v) <==> eligible != [] && TotalQuantity(eligible) >= quantity - DUST)
            && (!FullyFilled(v) ==> v.filled == TotalQuantity(eligible))
  {
    var levels := SideLevels(book, which);
    EligibleIsSorted(which, levels, maxLevels, maxDistanceBps);
    var eligible := Eligible(levels, maxLevels, maxDistanceBps);
    TakesBounded(eligible, quantity);
    if eligible != [] {
      TakesAllOrEnough(eligible, quantity);
      WalkTakesSomething(eligible, quantity);
    }
  }

  // ---------------------------------------------------------------- slippage grows with size

  ghost predicate NoDearer(which: Side, levels: seq<Level>, takes: seq<real>, w: real)
    requires |takes| == |levels|
  {
    Weighed(which, levels, takes) <= w * Sum(takes)
  }

  lemma NothingIsNoDearer(which: Side, levels: seq<Level>, w: real)
    ensures NoDearer(which, levels, Nothing(levels), w)
  {
    NothingTakesWeighed(which, levels);
  }

  lemma NoDearerTail(which: Side, levels: seq<Level>, takes: seq<real>, w: real)
    requires levels != [] && |takes| == |levels| && takes[0] >= 0.0 && Weight(which, levels[0].price) <= w
    requires NoDearer(which, levels[1..], takes[1..], w)
    ensures NoDearer(which, levels, takes, w)
  {
  }

  lemma {:induction false} SumNotNegative(levels: seq<Level>, takes: seq<real>)
    requires Feasible(levels, takes)
    ensures Sum(takes) >= 0.0
  {
    if levels != [] {
      SumNotNegative(levels[1..], takes[1..]);
    }
  }

  lemma DearerSameHead(which: Side, levels: seq<Level>, other: seq<real>, takes: seq<real>, w: real)
    requires levels != [] && |other| == |takes| == |levels| && other[0] == takes[0]
    requires Dearer(which, levels[1..], other[1..], takes[1..], w)
    ensures Dearer(which, levels, other, takes, w)
  {
  }

  /** What relates a smaller and a larger walk of one side at a weight. */
  ghost predicate MeetAt(which: Side, levels: seq<Level>, few: seq<real>, many: seq<real>, w: real)
    requires |few| == |many| == |levels|
  {
    NoDearer(which, levels, few, w) && Sum(few) <= Sum(many) && Dearer(which, levels, many, few, w)
  }

  /** The smaller walk ends at the first level. */
  lemma MeetHere(which: Side, levels: seq<Level>, few: seq<real>, many: seq<real>)
    requires levels != [] && Feasible(levels, few) && Feasible(levels, many) && few[0] <= many[0]
    requires few[1..] == Nothing(levels[1..]) && AtLeast(which, levels[1..], Weight(which, levels[0].price))
    ensures MeetAt(which, levels, few, many, Weight(which, levels[0].price))
  {
    var rest, first := levels[1..], Weight(which, levels[0].price);
    Unfold(which, levels, few);
    Unfold(which, levels, many);
    hide Weighed, Sum, Nothing, Dearer, NoDearer, Weight, Times, AtRate;
    assert Feasible(rest, many[1..]);
    NothingTakesWeighed(which, rest);
    NothingIsNoDearer(which, rest, first);
    DearerThanNothing(which, rest, many[1..], first);
    SumNotNegative(rest, many[1..]);
    DearerTail(which, levels, many, few, first);
    NoDearerTail(which, levels, few, first);
  }

  /** Both walks empty the first level and go on. */
  lemma MeetLater(which: Side, levels: seq<Level>, few: seq<real>, many: seq<real>, w: real)
    requires levels != [] && |few| == |many| == |levels| && 0.0 <= few[0] == many[0]
    requires Weight(which, levels[0].price) <= w && MeetAt(which, levels[1..], few[1..], many[1..], w)
    ensures MeetAt(which, levels, few, many, w)
  {
    Unfold(which, levels, few);
    Unfold(which, levels, many);
    hide Weighed, Sum, Dearer, NoDearer, Weight, Times;
    DearerSameHead(which, levels, many, few, w);
    NoDearerTail(which, levels, few, w);
  }

  /** Two walks of one side: up to some weight lies the smaller one, and from it on all that the larger adds. */
  lemma {:induction false} WalksMeetAt(which: Side, levels: seq<Level>, small: real, large: real, low: real)
    returns (w: real)
    requires 0.0 < small <= large && PositiveLevels(levels) && SortedSide(which, levels) && AtLeast(which, levels, low)
    ensures w >= low
    ensures MeetAt(which, levels, Takes(levels, small), Takes(levels, large), w)
  {
    w := low;
    if levels != [] {
      var few, many, first := Takes(levels, small), Takes(levels, large), Weight(which, levels[0].price);
      var rest := levels[1..];
      assert w <= first;
      hide Takes, Nothing, SortedSide, MeetAt, Weight;
      WalkHead(levels, small);
      WalkHead(levels, large);
      TailOrdered(which, levels);
      if small - few[0] <= DUST {
        w := first;
        TakesFeasible(levels, small);
        TakesFeasible(levels, large);
        MeetHere(which, levels, few, many);
      } else {
        assert PositiveLevels(rest);
        w := WalksMeetAt(which, rest, small - few[0], large - many[0], first);
        MeetLater(which, levels, few, many, w);
      }
    }
  }

  lemma AverageGrows(c1: real, s1: real, c2: real, s2: real, w: real)
    requires 0.0 < s1 <= s2 && c1 <= w * s1 && AtRate(w, c2 - c1, s2 - s1)
    ensures c1 / s1 <= c2 / s2
  {
    var average := c1 / s1;
    assert average * s1 == c1;
    assert average <= w;
    Scale(average, w, s2 - s1);
    assert c2 >= average * s2;
  }

  /** How much worse than the reference an average price is, in basis points. */
  function Worsening(which: Side, average: real, reference: real): real
    requires reference > 0.0
  {
    (average - Weight(which, reference)) / reference * BPS
  }

  lemma PricedSlippage(which: Side, quantity: real, filled: real, unfilled: real, notional: real,
                       reference: real, consumed: nat)
    requires filled > 0.0 && reference > 0.0 && Weight(which, notional) >= Weight(which, reference) * filled
    ensures var v := Priced(quantity, filled, unfilled, notional, reference, consumed);
            var average := Weight(which, notional) / filled;
            && v.slippageBps == Some(Worsening(which, average, reference))
            && v.slippageBps.value >= 0.0
  {
    AverageAtLeast(Weight(which, notional), filled, Weight(which, reference));
    TurnedAverage(which, notional, filled);
    SlippageScales(reference, 0.0, Weight(which, notional) / filled - Weight(which, reference));
  }

  lemma WalkTakesSomething(levels: seq<Level>, quantity: real)
    requires levels != [] && PositiveLevels(levels) && quantity > 0.0
    ensures Sum(Takes(levels, quantity)) > 0.0
  {
    WalkHead(levels, quantity);
    TakesFeasible(levels, quantity);
    SumNotNegative(levels[1..], Takes(levels, quantity)[1..]);
  }

  lemma SlippageOfTakes(which: Side, levels: seq<Level>, quantity: real, reference: real, unfilled: real, consumed: nat)
    requires levels != [] && PositiveLevels(levels) && quantity > 0.0 && reference > 0.0
    requires AtLeast(which, levels, Weight(which, reference))
    ensures var takes := Takes(levels, quantity);
            && Sum(takes) > 0.0
            && var v := Priced(quantity, Sum(takes), unfilled, Notional(levels, takes), reference, consumed);
            && v.slippageBps == Some(Worsening(which, Weighed(which, levels, takes) / Sum(takes), reference))
            && v.slippageBps.value >= 0.0
  {
    var takes := Takes(levels, quantity);
    hide Takes, Weighed, Sum, Worsening, Priced, Notional, Weight;
    WalkTakesSomething(levels, quantity);
    TakesFeasible(levels, quantity);
    WeighedAtLeast(which, levels, takes, Weight(which, reference));
    WeighedIsNotional(which, levels, takes);
    PricedSlippage(which, quantity, Sum(takes), unfilled, Notional(levels, takes), reference, consumed);
  }

  /** The slippage of a walk in terms of the average weight it pays. */
  lemma SlippageOfWalk(book: OrderbookDepthSnapshot, which: Side, quantity: real, maxLevels: nat, maxDistanceBps: real)
    requires book.isFresh && Walkable(book) && SideLevels(book, which) != [] && quantity > 0.0
    ensures var levels := SideLevels(book, which);
            var eligible := Eligible(levels, maxLevels, maxDistanceBps);
            var takes := Takes(eligible, quantity);
            var v := Walked(book, which, quantity, maxLevels, maxDistanceBps);
            && levels[0].price > 0.0
            && if eligible == [] then v.slippageBps == None
               else
                 && Sum(takes) > 0.0
                 && v.slippageBps
                    == Some(Worsening(which, Weighed(which, eligible, takes) / Sum(takes), levels[0].price))
                 && v.slippageBps.value >= 0.0
  {
    var levels := SideLevels(book, which);
    EligibleIsSorted(which, levels, maxLevels, maxDistanceBps);
    var eligible := Eligible(levels, maxLevels, maxDistanceBps);
    var takes := Takes(eligible, quantity);
    assert levels[0] in levels;
    if eligible != [] {
      hide Takes, Weighed, Sum, Eligible, Worsening, Priced, Consumed, Notional;
      SlippageOfTakes(which, eligible, quantity, levels[0].price, Settled(quantity - Sum(takes)), Consumed(takes));
    }
  }

  lemma AverageAtLeast(cost: real, sum: real, low: real)
    requires sum > 0.0 && cost >= low * sum
    ensures cost / sum >= low
  {
  }

  lemma TurnedAverage(which: Side, notional: real, sum: real)
    requires sum > 0.0
    ensures Weight(which, notional / sum) == Weight(which, notional) / sum
  {
  }

  lemma SlippageScales(reference: real, small: real, large: real)
    requires reference > 0.0 && small <= large
    ensures small / reference * BPS <= large / reference * BPS
  {
  }

  lemma AverageOfWalks(which: Side, levels: seq<Level>, few: seq<real>, many: seq<real>, w: real)
    requires |few| == |many| == |levels| && 0.0 < Sum(few) && MeetAt(which, levels, few, many, w)
    ensures Weighed(which, levels, few) / Sum(few) <= Weighed(which, levels, many) / Sum(many)
  {
    hide Weighed, Sum;
    AverageGrows(Weighed(which, levels, few), Sum(few), Weighed(which, levels, many), Sum(many), w);
  }

  lemma WorseningGrows(which: Side, small: real, large: real, reference: real)
    requires small <= large && reference > 0.0
    ensures Worsening(which, small, reference) <= Worsening(which, large, reference)
  {
  }

  /** A larger request on the same side of a walkable book never has the smaller slippage. */
  lemma SlippageGrowsWithSize(book: OrderbookDepthSnapshot, which: Side, small: real, large: real,
                              maxLevels: nat, maxDistanceBps: real)
    requires book.isFresh && Walkable(book) && 0.0 < small <= large
    ensures var v := Walked(book, which, small, maxLevels, maxDistanceBps);
            var u := Walked(book, which, large, maxLevels, maxDistanceBps);
            && (v.slippageBps.Some? <==> u.slippageBps.Some?)
            && (v.slippageBps.Some? ==> 0.0 <= v.slippageBps.value <= u.slippageBps.value)
  {
    var levels := SideLevels(book, which);
    if levels != [] {
      hide Walked, Takes, Weighed, Sum, Eligible, MeetAt, Worsening;
      var eligible := Eligible(levels, maxLevels, maxDistanceBps);
      SlippageOfWalk(book, which, small, maxLevels, maxDistanceBps);
      SlippageOfWalk(book, which, large, maxLevels, maxDistanceBps);
      if eligible != [] {
        EligibleIsSorted(which, levels, maxLevels, maxDistanceBps);
        var few, many := Takes(eligible, small), Takes(eligible, large);
        var w := WalksMeetAt(which, eligible, small, large, Weight(which, levels[0].price));
        AverageOfWalks(which, eligible, few, many, w);
        WorseningGrows(which, Weighed(which, eligible, few) / Sum(few), Weighed(which, eligible, many) / Sum(many),
                       levels[0].price);
      }
    }
  }
}
