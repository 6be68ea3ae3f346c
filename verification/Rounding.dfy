/** Rounding to the tick and quantity grid (app/risk/rounding.py), in exact arithmetic. */
module Rounding {
  import opened Arithmetic
  import opened Options

  datatype Mode = Down | Up | Nearest

  function Pow10(n: nat): (p: int)
    ensures p > 0
  {
    if n == 0 then 1 else 10 * Pow10(n - 1)
  }

  function Quantum(decimals: int): (q: real)
    ensures q > 0.0
  {
    1.0 / Pow10(if decimals < 0 then 0 else decimals) as real
  }

  /** One, and a tenth of it for every further decimal; negative decimals count as none. */
  lemma QuantumMeans(decimals: int)
    ensures decimals <= 0 ==> Quantum(decimals) == 1.0
    ensures decimals > 0 ==> Quantum(decimals) * 10.0 == Quantum(decimals - 1)
  {
    if decimals > 0 {
      TenthOf(Pow10(decimals - 1));
    }
  }

  lemma TenthOf(n: int)
    requires n > 0
    ensures 1.0 / (10 * n) as real * 10.0 == 1.0 / n as real
  {
    var x, y := 1.0 / (10 * n) as real, 1.0 / n as real;
    assert x * (10 * n) as real == 1.0 && y * n as real == 1.0;
    assert (x * 10.0 - y) * n as real == 0.0;
  }

  function TickSizeFor(priceDecimals: int, tickSize: Option<real>): (tick: real)
    ensures tick > 0.0
  {
    if tickSize.Some? && tickSize.value > 0.0 then tickSize.value else Quantum(priceDecimals)
  }

  /** Half to even. */
  function RoundHalfEven(x: real): int {
    var down := x.Floor;
    var rest := x - down as real;
    if rest < 0.5 || (rest == 0.5 && down % 2 == 0) then down else down + 1
  }

  function Ticks(x: real, mode: Mode): int {
    match mode
    case Down => x.Floor
    case Up => Ceil(x)
    case Nearest => RoundHalfEven(x)
  }

  function OnGrid(k: int, step: real): real {
    k as real * step
  }

  function RoundTo(value: real, step: real, mode: Mode): real
    requires step > 0.0
  {
    OnGrid(Ticks(value / step, mode), step)
  }

  function RoundQuantityDown(value: real, quantityDecimals: int): real {
    RoundTo(value, Quantum(quantityDecimals), Down)
  }

  lemma Times(value: real, step: real)
    requires step > 0.0
    ensures value / step * step == value
  {
  }

  lemma FloorIsLargest(x: real, k: int)
    ensures k as real <= x <==> k <= x.Floor
    ensures x <= k as real <==> Ticks(x, Up) <= k
  {
  }

  lemma GridOrdered(a: int, b: int, step: real)
    requires step > 0.0 && a <= b
    ensures OnGrid(a, step) <= OnGrid(b, step)
  {
  }

  lemma GridAgainst(k: int, value: real, step: real)
    requires step > 0.0
    ensures OnGrid(k, step) <= value <==> k as real <= value / step
    ensures value <= OnGrid(k, step) <==> value / step <= k as real
  {
  }

  /** Rounding down or up gives the nearest grid point on that side, and no grid point lies between. */
  lemma RoundingIsTight(value: real, step: real, k: int)
    requires step > 0.0
    ensures RoundTo(value, step, Down) <= value <= RoundTo(value, step, Up)
    ensures OnGrid(k, step) <= value ==> OnGrid(k, step) <= RoundTo(value, step, Down)
    ensures value <= OnGrid(k, step) ==> RoundTo(value, step, Up) <= OnGrid(k, step)
  {
    var x := value / step;
    var down, up := Ticks(x, Down), Ticks(x, Up);
    FloorIsLargest(x, down);
    FloorIsLargest(x, up);
    FloorIsLargest(x, k);
    GridAgainst(down, value, step);
    GridAgainst(up, value, step);
    GridAgainst(k, value, step);
    hide OnGrid;
    if k <= down {
      GridOrdered(k, down, step);
    }
    if up <= k {
      GridOrdered(up, k, step);
    }
  }

  /** Grid points, such as two rounded prices, are ordered as the values they came from. */
  lemma RoundingKeepsOrder(x: real, y: real, step: real)
    requires step > 0.0 && x <= y
    ensures RoundTo(x, step, Down) <= RoundTo(y, step, Down)
    ensures RoundTo(x, step, Up) <= RoundTo(y, step, Up)
  {
    RoundingIsTight(x, step, Ticks(x / step, Down));
    RoundingIsTight(y, step, Ticks(x / step, Down));
    RoundingIsTight(x, step, Ticks(y / step, Up));
    RoundingIsTight(y, step, Ticks(y / step, Up));
  }

  function Distance(x: real, k: int): real {
    if x < k as real then k as real - x else x - k as real
  }

  /** Nearest is nearest: no multiple is closer, and of two equally close ones the even one is taken. */
  lemma NearestIsNearest(x: real, k: int)
    ensures Distance(x, RoundHalfEven(x)) <= Distance(x, k)
    ensures Distance(x, RoundHalfEven(x)) <= 0.5
    ensures k != RoundHalfEven(x) && Distance(x, k) == Distance(x, RoundHalfEven(x)) ==> RoundHalfEven(x) % 2 == 0
  {
  }
}
