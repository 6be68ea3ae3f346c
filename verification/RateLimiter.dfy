/** The weighted token bucket of app/adapters/rate_limiter.py. */
module RateLimiter {
  import opened Options

  datatype Grant = Grant(at: real, weight: int)

  datatype Outcome = Granted | WeightNotPositive | WeightOverBudget

  /** A monotonic clock, and a sleep that lasts at least as long as asked. */
  class Clock {
    var now: real

    constructor (now: real)
      ensures this.now == now
    {
      this.now := now;
    }

    method Read() returns (t: real)
      modifies this
      ensures t == now >= old(now)
    {
      var passed: real := *;
      now := if passed > 0.0 then now + passed else now;
      t := now;
    }

    /** Time passes at least until then. */
    method PassUntil(wake: real)
      modifies this
      ensures now >= old(now) && now >= wake
    {
      var late: real := *;
      now := if now < wake then wake else now;
      now := if late > 0.0 then now + late else now;
    }
  }

  function Total(grants: seq<Grant>): int {
    if grants == [] then 0 else Total(grants[..|grants| - 1]) + grants[|grants| - 1].weight
  }

  /** What a bucket of this capacity and rate may grant from its first to its last grant of a stretch. */
  ghost predicate Within(capacity: real, rate: real, amount: real, elapsed: real) {
    amount <= capacity + rate * elapsed
  }

  ghost predicate Chronological(grants: seq<Grant>, until: real) {
    && (forall i, j | 0 <= i <= j < |grants| :: grants[i].at <= grants[j].at)
    && (forall i | 0 <= i < |grants| :: grants[i].at <= until && grants[i].weight > 0)
  }

  /** Every stretch of consecutive grants fits the bucket. */
  ghost predicate Budgeted(capacity: real, rate: real, grants: seq<Grant>) {
    forall i, j | 0 <= i < j <= |grants| ::
      Within(capacity, rate, Total(grants[i..j]) as real, grants[j - 1].at - grants[i].at)
  }

  /** The tokens left, on top of what was granted since any grant, still fit. */
  ghost predicate TokensBacked(capacity: real, rate: real, grants: seq<Grant>, tokens: real, now: real) {
    forall i | 0 <= i < |grants| ::
      Within(capacity, rate, Total(grants[i..]) as real + tokens, now - grants[i].at)
  }

  class WeightedRateLimiter {
    const capacity: real
    const refillPerSecond: real
    const clock: Clock
    var tokens: real
    var lastRefill: real
    ghost var grants: seq<Grant>

    ghost predicate Valid()
      reads this, clock
    {
      && capacity > 0.0 && refillPerSecond > 0.0
      && 0.0 <= tokens <= capacity && lastRefill <= clock.now
      && Chronological(grants, lastRefill)
      && Budgeted(capacity, refillPerSecond, grants)
      && TokensBacked(capacity, refillPerSecond, grants, tokens, lastRefill)
    }

    constructor (budgetPerMinute: int, clock: Clock)
      requires budgetPerMinute > 0
      ensures Valid() && this.clock == clock && grants == []
      ensures capacity == budgetPerMinute as real && refillPerSecond == capacity / 60.0
      ensures tokens == capacity && lastRefill == clock.now
    {
      this.clock := clock;
      capacity := budgetPerMinute as real;
      refillPerSecond := budgetPerMinute as real / 60.0;
      tokens := budgetPerMinute as real;
      lastRefill := clock.now;
      grants := [];
    }

    static method Create(budgetPerMinute: int, clock: Clock) returns (limiter: Option<WeightedRateLimiter>)
      ensures limiter.None? <==> budgetPerMinute <= 0
      ensures limiter.Some? ==>
                && fresh(limiter.value) && limiter.value.Valid() && limiter.value.clock == clock
                && limiter.value.capacity == budgetPerMinute as real && limiter.value.tokens == limiter.value.capacity
                && limiter.value.refillPerSecond == budgetPerMinute as real / 60.0 && limiter.value.grants == []
    {
      if budgetPerMinute <= 0 {
        return None;
      }
      var made := new WeightedRateLimiter(budgetPerMinute, clock);
      limiter := Some(made);
    }

    method Refill()
      requires Valid()
      modifies this, clock
      ensures Valid() && grants == old(grants)
      ensures clock.now >= old(clock.now) && lastRefill == clock.now
      ensures tokens == Refilled(capacity, refillPerSecond, old(tokens), lastRefill - old(lastRefill))
    {
      hide Budgeted, TokensBacked, Chronological;
      var now := clock.Read();
      var elapsed := if now - lastRefill > 0.0 then now - lastRefill else 0.0;
      RefillKeeps(capacity, refillPerSecond, grants, tokens, lastRefill, elapsed);
      lastRefill := now;
      var filled := tokens + elapsed * refillPerSecond;
      tokens := if filled < capacity then filled else capacity;
    }

    method AvailableTokens() returns (available: real)
      requires Valid()
      modifies this, clock
      ensures Valid() && grants == old(grants) && available == tokens
      ensures lastRefill == clock.now >= old(clock.now)
      ensures tokens == Refilled(capacity, refillPerSecond, old(tokens), lastRefill - old(lastRefill))
    {
      Refill();
      available := tokens;
    }

    /**
     * The sleep of a blocked caller. Readers of available_tokens refill the bucket meanwhile, any number of them
     * at any times; what the caller is waiting for is there all the same when it wakes.
     */
    method Sleep(seconds: real, weight: real)
      requires Valid() && seconds >= 0.0
      requires SufficesAfter(capacity, refillPerSecond, tokens, clock.now + seconds - lastRefill, weight)
      modifies this, clock
      ensures Valid() && grants == old(grants) && clock.now >= old(clock.now) + seconds
      ensures lastRefill >= old(lastRefill)
      ensures SufficesAfter(capacity, refillPerSecond, tokens, clock.now - lastRefill, weight)
    {
      hide Budgeted, TokensBacked, Chronological, Refilled, SufficesAfter;
      var wake := clock.now + seconds;
      var drawn: int := *;
      var readers := if drawn < 0 then 0 else drawn;
      for i := 0 to readers
        invariant Valid() && grants == old(grants) && clock.now >= old(clock.now) && lastRefill >= old(lastRefill)
        invariant SufficesAfter(capacity, refillPerSecond, tokens, wake - lastRefill, weight)
      {
        ghost var before, at := tokens, lastRefill;
        Refill();
        RefillsCompose(capacity, refillPerSecond, before, lastRefill - at, wake - at, weight);
      }
      clock.PassUntil(wake);
      WaitingLonger(capacity, refillPerSecond, tokens, wake - lastRefill, clock.now - lastRefill, weight);
    }

    /**
     * Blocks until the weight is granted; two rounds always suffice, whoever reads in between, and firstAt is the
     * time of the first one.
     */
    method Acquire(weight: int) returns (outcome: Outcome, rounds: nat, ghost firstAt: real)
      requires Valid()
      modifies this, clock
      ensures Valid() && clock.now >= old(clock.now)
      ensures outcome == if weight <= 0 then WeightNotPositive
                         else if weight as real > capacity then WeightOverBudget else Granted
      ensures outcome != Granted ==> rounds == 0 && grants == old(grants) && tokens == old(tokens)
      ensures outcome == Granted ==> 1 <= rounds <= 2 && grants == old(grants) + [Grant(lastRefill, weight)]
      // it only sleeps when it has to, and takes no more than the weight
      ensures outcome == Granted && rounds == 1 ==>
                tokens
                == Refilled(capacity, refillPerSecond, old(tokens), lastRefill - old(lastRefill)) - weight as real
      ensures outcome == Granted && rounds == 2 ==>
                && old(lastRefill) <= firstAt <= lastRefill
                && ShortAt(capacity, refillPerSecond, old(tokens), firstAt - old(lastRefill), weight)
    {
      rounds, firstAt := 0, lastRefill;
      if weight <= 0 {
        return WeightNotPositive, rounds, lastRefill;
      }
      if weight as real > capacity {
        return WeightOverBudget, rounds, firstAt;
      }
      hide Budgeted, TokensBacked, Chronological, Refilled, ShortAt, SufficesAfter;
      while true
        invariant Valid() && grants == old(grants) && clock.now >= old(clock.now)
        invariant rounds <= 1
        invariant rounds == 0 ==> tokens == old(tokens) && lastRefill == old(lastRefill)
        invariant rounds == 1 ==>
                    && old(lastRefill) <= firstAt <= lastRefill
                    && ShortAt(capacity, refillPerSecond, old(tokens), firstAt - old(lastRefill), weight)
        invariant rounds == 1 ==>
                    SufficesAfter(capacity, refillPerSecond, tokens, clock.now - lastRefill, weight as real)
        decreases 2 - rounds
      {
        ghost var before, at, awake := tokens, lastRefill, clock.now;
        Refill();
        rounds := rounds + 1;
        EnoughOrShort(capacity, refillPerSecond, before, awake - at, lastRefill - at, weight);
        if tokens >= weight as real {
          GrantKeeps(capacity, refillPerSecond, grants, tokens, lastRefill, weight);
          tokens := tokens - weight as real;
          grants := grants + [Grant(lastRefill, weight)];
          return Granted, rounds, firstAt;
        }
        firstAt := if rounds == 1 then lastRefill else firstAt;
        var deficit := weight as real - tokens;
        DeficitRefills(capacity, refillPerSecond, tokens, weight as real);
        Sleep(deficit / refillPerSecond, weight as real);
      }
    }
  }

  function Refilled(capacity: real, rate: real, tokens: real, elapsed: real): real {
    if tokens + elapsed * rate < capacity then tokens + elapsed * rate else capacity
  }

  /** Refilled for so long, the bucket holds less than the weight. */
  predicate ShortAt(capacity: real, rate: real, tokens: real, elapsed: real, weight: int) {
    Refilled(capacity, rate, tokens, elapsed) < weight as real
  }

  lemma EnoughOrShort(capacity: real, rate: real, tokens: real, wait: real, elapsed: real, weight: int)
    ensures ShortAt(capacity, rate, tokens, elapsed, weight)
       <==> Refilled(capacity, rate, tokens, elapsed) < weight as real
    ensures SufficesAfter(capacity, rate, tokens, wait, weight as real) && elapsed >= 0.0 && elapsed >= wait ==>
              !ShortAt(capacity, rate, tokens, elapsed, weight)
  {
  }

  /** Refilling adds what the time is worth, up to the capacity. */
  lemma RefilledMeans(capacity: real, rate: real, tokens: real, elapsed: real)
    requires tokens <= capacity && rate >= 0.0 && elapsed >= 0.0
    ensures var refilled := Refilled(capacity, rate, tokens, elapsed);
            && tokens <= refilled <= capacity
            && (refilled < capacity ==> refilled - tokens == elapsed * rate)
            && refilled - tokens <= elapsed * rate
  {
  }

  /** Once this long has passed since the last refill, the next one brings enough. */
  ghost predicate SufficesAfter(capacity: real, rate: real, tokens: real, wait: real, weight: real) {
    forall elapsed: real :: elapsed >= 0.0 && elapsed >= wait ==> Refilled(capacity, rate, tokens, elapsed) >= weight
  }

  lemma WaitingLonger(capacity: real, rate: real, tokens: real, wait: real, longer: real, weight: real)
    requires SufficesAfter(capacity, rate, tokens, wait, weight) && wait <= longer
    ensures SufficesAfter(capacity, rate, tokens, longer, weight)
  {
  }

  /** A refill in between does not delay a later one. */
  lemma RefillsCompose(capacity: real, rate: real, tokens: real, first: real, wait: real, weight: real)
    requires rate > 0.0 && first >= 0.0 && tokens <= capacity && SufficesAfter(capacity, rate, tokens, wait, weight)
    ensures SufficesAfter(capacity, rate, Refilled(capacity, rate, tokens, first), wait - first, weight)
  {
    forall elapsed: real | elapsed >= 0.0 && elapsed >= wait - first
      ensures Refilled(capacity, rate, Refilled(capacity, rate, tokens, first), elapsed) >= weight
    {
      assert Refilled(capacity, rate, tokens, first + elapsed) >= weight;
      Split(capacity, rate, tokens, first, elapsed);
    }
  }

  lemma Split(capacity: real, rate: real, tokens: real, first: real, elapsed: real)
    requires rate > 0.0 && first >= 0.0 && tokens <= capacity && elapsed >= 0.0
    ensures Refilled(capacity, rate, Refilled(capacity, rate, tokens, first), elapsed)
         >= Refilled(capacity, rate, tokens, first + elapsed)
  {
    assert (first + elapsed) * rate == first * rate + elapsed * rate;
    assert elapsed * rate >= 0.0;
  }

  lemma DeficitRefills(capacity: real, rate: real, tokens: real, weight: real)
    requires rate > 0.0 && tokens < weight <= capacity
    ensures (weight - tokens) / rate >= 0.0
    ensures SufficesAfter(capacity, rate, tokens, (weight - tokens) / rate, weight)
  {
  }

  lemma RefillKeeps(capacity: real, rate: real, grants: seq<Grant>, tokens: real, lastRefill: real, elapsed: real)
    requires rate > 0.0 && elapsed >= 0.0 && 0.0 <= tokens <= capacity
    requires Chronological(grants, lastRefill) && TokensBacked(capacity, rate, grants, tokens, lastRefill)
    ensures Chronological(grants, lastRefill + elapsed)
    ensures TokensBacked(capacity, rate, grants, Refilled(capacity, rate, tokens, elapsed), lastRefill + elapsed)
    ensures 0.0 <= Refilled(capacity, rate, tokens, elapsed) <= capacity
  {
  }

  lemma TotalOfOneMore(grants: seq<Grant>, g: Grant, i: nat)
    requires i <= |grants|
    ensures Total((grants + [g])[i..]) == Total(grants[i..]) + g.weight
  {
    var rest := (grants + [g])[i..];
    assert rest == grants[i..] + [g] && rest[..|rest| - 1] == grants[i..];
  }

  lemma GrantKeepsTokens(capacity: real, rate: real, grants: seq<Grant>, tokens: real, now: real, weight: int)
    requires tokens <= capacity && TokensBacked(capacity, rate, grants, tokens, now)
    ensures TokensBacked(capacity, rate, grants + [Grant(now, weight)], tokens - weight as real, now)
  {
    var g := Grant(now, weight);
    var more := grants + [g];
    JustGranted(capacity, rate, tokens);
    hide Within, Total;
    forall i | 0 <= i < |more|
      ensures Within(capacity, rate, Total(more[i..]) as real + (tokens - weight as real), now - more[i].at)
    {
      TotalOfOneMore(grants, g, i);
      assert Total(more[i..]) as real + (tokens - weight as real) == Total(grants[i..]) as real + tokens;
      if i == |grants| {
        assert grants[i..] == [];
        TotalOfNone();
      }
    }
  }

  lemma TotalOfNone()
    ensures Total([]) == 0
  {
  }

  lemma JustGranted(capacity: real, rate: real, tokens: real)
    requires tokens <= capacity
    ensures Within(capacity, rate, tokens, 0.0)
  {
  }

  lemma WithinLess(capacity: real, rate: real, amount: real, elapsed: real, less: real)
    requires Within(capacity, rate, amount, elapsed) && less <= amount
    ensures Within(capacity, rate, less, elapsed)
  {
  }

  lemma GrantKeepsBudget(capacity: real, rate: real, grants: seq<Grant>, tokens: real, now: real, weight: int)
    requires weight as real <= tokens
    requires Budgeted(capacity, rate, grants)
    requires TokensBacked(capacity, rate, grants + [Grant(now, weight)], tokens - weight as real, now)
    ensures Budgeted(capacity, rate, grants + [Grant(now, weight)])
  {
    var more := grants + [Grant(now, weight)];
    hide Within, Total;
    forall i, j | 0 <= i < j <= |more|
      ensures Within(capacity, rate, Total(more[i..j]) as real, more[j - 1].at - more[i].at)
    {
      if j <= |grants| {
        assert more[i..j] == grants[i..j];
      } else {
        assert more[i..j] == more[i..];
        WithinLess(capacity, rate, Total(more[i..]) as real + (tokens - weight as real), now - more[i].at,
                   Total(more[i..]) as real);
      }
    }
  }

  lemma GrantKeeps(capacity: real, rate: real, grants: seq<Grant>, tokens: real, now: real, weight: int)
    requires 0 < weight && weight as real <= tokens <= capacity
    requires Chronological(grants, now) && Budgeted(capacity, rate, grants)
    requires TokensBacked(capacity, rate, grants, tokens, now)
    ensures var more := grants + [Grant(now, weight)];
            && Chronological(more, now) && Budgeted(capacity, rate, more)
            && TokensBacked(capacity, rate, more, tokens - weight as real, now)
  {
    hide Budgeted, TokensBacked;
    GrantKeepsTokens(capacity, rate, grants, tokens, now, weight);
    GrantKeepsBudget(capacity, rate, grants, tokens, now, weight);
  }

  // ---------------------------------------------------------------- any window

  /** The weight granted at times from..until, both included. */
  function GrantedWithin(grants: seq<Grant>, from: real, until: real): int {
    if grants == [] then 0
    else
      var last := grants[|grants| - 1];
      GrantedWithin(grants[..|grants| - 1], from, until) + if from <= last.at <= until then last.weight else 0
  }

  lemma TotalExtends(grants: seq<Grant>, i: nat, j: nat)
    requires i <= j < |grants|
    ensures Total(grants[i..j + 1]) == Total(grants[i..j]) + grants[j].weight
  {
    assert grants[i..j + 1][..j - i] == grants[i..j];
  }

  /** In time order, a window holds a stretch of consecutive grants. */
  lemma {:induction false} WindowIsStretch(grants: seq<Grant>, from: real, until: real, end: real) returns (i: nat,
                                           j: nat)
    requires Chronological(grants, end)
    ensures i <= j <= |grants| && GrantedWithin(grants, from, until) == Total(grants[i..j])
    ensures i < j ==> from <= grants[i].at && grants[j - 1].at <= until
    ensures j < |grants| ==> grants[|grants| - 1].at > until || i == j
  {
    hide Total;
    TotalOfNone();
    if grants == [] {
      i, j := 0, 0;
      assert grants[i..j] == [];
    } else {
      var front, last := grants[..|grants| - 1], grants[|grants| - 1];
      i, j := WindowIsStretch(front, from, until, end);
      assert front[i..j] == grants[i..j];
      if from <= last.at <= until {
        if i == j {
          assert front[i..j] == [] && grants[|front|..|front|] == [];
          i, j := |front|, |front|;
        }
        TotalExtends(grants, i, j);
        j := |grants|;
      }
    }
  }

  /**
   * The bound the bucket is for: whatever was asked and however long callers slept, the weight granted in any
   * window of length d is at most capacity + rate * d.
   */
  lemma WindowIsBounded(capacity: real, rate: real, grants: seq<Grant>, end: real, from: real, d: real)
    requires capacity > 0.0 && rate > 0.0 && d >= 0.0
    requires Chronological(grants, end) && Budgeted(capacity, rate, grants)
    ensures GrantedWithin(grants, from, from + d) as real <= capacity + rate * d
  {
    var i, j := WindowIsStretch(grants, from, from + d, end);
    hide Total, Within;
    if i < j {
      LongerAllowsMore(capacity, rate, Total(grants[i..j]) as real, grants[j - 1].at - grants[i].at, d);
    } else {
      TotalOfNone();
      assert grants[i..j] == [];
      assert rate * d >= 0.0;
    }
  }

  lemma LongerAllowsMore(capacity: real, rate: real, amount: real, elapsed: real, d: real)
    requires rate > 0.0 && elapsed <= d && Within(capacity, rate, amount, elapsed)
    ensures amount <= capacity + rate * d
  {
  }
}
