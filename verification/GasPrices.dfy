/** crates/bulkmail/src/gas_price.rs: congestion detection and priority-fee scaling. */
module GasPrices {
  import opened Prelude
  import opened Messages

  const GWEI: nat := 1_000_000_000
  const MAX_PRIORITY_FEE: nat := 100 * GWEI
  const INITIAL_PRIORITY_FEE: nat := 1 * GWEI
  const INITIAL_BASE_FEE: nat := 2 * GWEI
  const CONFIRMATION_TIME_WINDOW: nat := 10
  /** Durations are whole nanoseconds. */
  const LOW_THRESHOLD: nat := 15_000_000_000
  const MEDIUM_THRESHOLD: nat := 60_000_000_000

  datatype CongestionLevel = Low | Medium | High

  function Multiplier(level: CongestionLevel): nat {
    match level
    case Low => 1
    case Medium => 2
    case High => 3
  }

  datatype GasState = GasState(estimate: nat, window: seq<nat>)

  const INITIAL_GAS: GasState := GasState(INITIAL_PRIORITY_FEE, [])

  function Sum(times: seq<nat>): nat {
    if times == [] then 0 else Sum(times[..|times| - 1]) + times[|times| - 1]
  }

  function Analyze(window: seq<nat>): CongestionLevel {
    if window == [] then Medium
    else
      var average := Sum(window) / |window|;
      if average < LOW_THRESHOLD then Low
      else if average < MEDIUM_THRESHOLD then Medium
      else High
  }

  /** `percent(x, 100)` for x at most 100. The double-precision quotient and product lose one
      unit at 29, 57 and 58 and are exact elsewhere. */
  function Percent(x: nat): nat
    requires x <= 100
  {
    if x == 29 || x == 57 || x == 58 then x - 1 else x
  }

  function ScaledFee(estimate: nat, multiplier: nat, percentage: nat): nat {
    estimate * multiplier * percentage / 100
  }

  /** `calculate_priority_fee`, given the estimate and the congestion level it read. */
  function PriorityFee(estimate: nat, level: CongestionLevel, priority: nat): nat {
    Min(ScaledFee(estimate, Multiplier(level), 100 + Percent(Min(priority, MAX_PRIORITY))), MAX_PRIORITY_FEE)
  }

  function PushSample(window: seq<nat>, elapsed: nat): seq<nat> {
    var longer := window + [elapsed];
    if |longer| > CONFIRMATION_TIME_WINDOW then longer[1..] else longer
  }

  function Blend(estimate: nat, used: nat): nat {
    (estimate + used) / 2
  }

  class GasPriceManager {
    var confirmationTimes: seq<nat>
    var priorityFee: nat

    function State(): GasState
      reads this
    {
      GasState(priorityFee, confirmationTimes)
    }

    constructor ()
      ensures State() == INITIAL_GAS
    {
      confirmationTimes := [];
      priorityFee := INITIAL_PRIORITY_FEE;
    }

    /** The first guarded section of `update_on_confirmation`. */
    method RecordSample(elapsed: nat)
      modifies this`confirmationTimes
      ensures confirmationTimes == PushSample(old(confirmationTimes), elapsed)
    {
      confirmationTimes := confirmationTimes + [elapsed];
      if |confirmationTimes| > CONFIRMATION_TIME_WINDOW {
        confirmationTimes := confirmationTimes[1..];
      }
    }

    /** The second one. */
    method BlendFee(usedPriorityFee: nat)
      modifies this`priorityFee
      ensures priorityFee == Blend(old(priorityFee), usedPriorityFee)
    {
      priorityFee := (priorityFee + usedPriorityFee) / 2;
    }

    method UpdateOnConfirmation(elapsed: nat, usedPriorityFee: nat)
      modifies this
      ensures priorityFee == Blend(old(priorityFee), usedPriorityFee)
      ensures confirmationTimes == PushSample(old(confirmationTimes), elapsed)
    {
      RecordSample(elapsed);
      BlendFee(usedPriorityFee);
    }

    method AnalyzeNetworkCongestion() returns (level: CongestionLevel)
      ensures level == Analyze(confirmationTimes)
    {
      if confirmationTimes == [] {
        return Medium;
      }
      var total := 0;
      for i := 0 to |confirmationTimes|
        invariant total == Sum(confirmationTimes[..i])
      {
        assert confirmationTimes[..i + 1][..i] == confirmationTimes[..i];
        total := total + confirmationTimes[i];
      }
      assert confirmationTimes[..|confirmationTimes|] == confirmationTimes;
      var average := total / |confirmationTimes|;
      if average < LOW_THRESHOLD {
        level := Low;
      } else if average < MEDIUM_THRESHOLD {
        level := Medium;
      } else {
        level := High;
      }
    }

    method GetGasPrice(priority: nat) returns (baseFee: nat, fee: nat)
      ensures baseFee == INITIAL_BASE_FEE
      ensures fee == PriorityFee(priorityFee, Analyze(confirmationTimes), priority)
    {
      baseFee := INITIAL_BASE_FEE;
      var level := AnalyzeNetworkCongestion();
      var multiplier := 100 + Percent(Min(priority, MAX_PRIORITY));
      fee := priorityFee * Multiplier(level) * multiplier / 100;
      fee := Min(fee, MAX_PRIORITY_FEE);
    }
  }

  // ----- The window -----

  /** The window after a history of confirmation times, oldest first. */
  function WindowAfter(history: seq<nat>): seq<nat> {
    if history == [] then []
    else PushSample(WindowAfter(history[..|history| - 1]), history[|history| - 1])
  }

  function LastTen(history: seq<nat>): seq<nat> {
    if |history| <= CONFIRMATION_TIME_WINDOW then history
    else history[|history| - CONFIRMATION_TIME_WINDOW..]
  }

  /** After any number of confirmations the window is exactly the last min(k, 10) samples. */
  lemma {:induction false} WindowIsLastTen(history: seq<nat>)
    ensures WindowAfter(history) == LastTen(history)
  {
    if history == [] {
    } else {
      WindowIsLastTen(history[..|history| - 1]);
    }
  }

  // ----- Monotonicity -----

  ghost predicate Pointwise(a: seq<nat>, b: seq<nat>) {
    |a| == |b| && forall i :: 0 <= i < |a| ==> a[i] <= b[i]
  }

  lemma {:induction false} SumGrows(a: seq<nat>, b: seq<nat>)
    requires Pointwise(a, b)
    ensures Sum(a) <= Sum(b)
  {
    if a == [] {
    } else {
      SumGrows(a[..|a| - 1], b[..|b| - 1]);
    }
  }

  lemma SlowerIsMoreCongested(a: seq<nat>, b: seq<nat>)
    requires Pointwise(a, b)
    ensures Multiplier(Analyze(a)) <= Multiplier(Analyze(b))
  {
    SumGrows(a, b);
    if a != [] {
      QuotientGrows(Sum(a), Sum(b), |a|);
    }
  }

  /** The level without the average: the window's total against 15 and 60 seconds per sample. */
  lemma CongestionByTotal(window: seq<nat>)
    requires window != []
    ensures Analyze(window) == Low <==> Sum(window) < LOW_THRESHOLD * |window|
    ensures Analyze(window) == High <==> Sum(window) >= MEDIUM_THRESHOLD * |window|
  {
    QuotientBelow(Sum(window), |window|, LOW_THRESHOLD);
    QuotientBelow(Sum(window), |window|, MEDIUM_THRESHOLD);
  }

  lemma QuotientBelow(a: nat, d: nat, bound: nat)
    requires 0 < d
    ensures a / d < bound <==> a < bound * d
  {
    var q := a / d;
    assert a == d * q + a % d;
    assert q + 1 <= bound ==> d * (q + 1) <= d * bound;
    assert bound <= q ==> d * bound <= d * q;
  }

  lemma PercentGrows(x: nat, y: nat)
    requires x <= y <= 100
    ensures Percent(x) <= Percent(y) <= 100
  {
  }

  lemma ProductGrows(a: nat, b: nat, c: nat, d: nat)
    requires a <= b && c <= d
    ensures a * c <= b * d
  {
  }

  /** The fee grows with the estimate, the congestion level and the message priority. */
  lemma PriorityFeeGrows(e1: nat, e2: nat, l1: CongestionLevel, l2: CongestionLevel, p1: nat, p2: nat)
    requires e1 <= e2 && Multiplier(l1) <= Multiplier(l2) && p1 <= p2
    ensures PriorityFee(e1, l1, p1) <= PriorityFee(e2, l2, p2)
  {
    var x1 := 100 + Percent(Min(p1, MAX_PRIORITY));
    var x2 := 100 + Percent(Min(p2, MAX_PRIORITY));
    PercentGrows(Min(p1, MAX_PRIORITY), Min(p2, MAX_PRIORITY));
    ScaledFeeGrows(e1, e2, Multiplier(l1), Multiplier(l2), x1, x2);
  }

  lemma ScaledFeeGrows(e1: nat, e2: nat, m1: nat, m2: nat, x1: nat, x2: nat)
    requires e1 <= e2 && m1 <= m2 && x1 <= x2
    ensures ScaledFee(e1, m1, x1) <= ScaledFee(e2, m2, x2)
  {
    var a, b := e1 * m1, e2 * m2;
    ProductGrows(e1, e2, m1, m2);
    ProductGrows(a, b, x1, x2);
    QuotientGrows(a * x1, b * x2, 100);
  }

  /** Raising any confirmation times in a history never lowers the fee quoted afterwards
      for the same estimate and priority. */
  lemma SlowerHistoryNeverCheaper(h1: seq<nat>, h2: seq<nat>, estimate: nat, priority: nat)
    requires Pointwise(h1, h2)
    ensures PriorityFee(estimate, Analyze(WindowAfter(h1)), priority)
         <= PriorityFee(estimate, Analyze(WindowAfter(h2)), priority)
  {
    WindowIsLastTen(h1);
    WindowIsLastTen(h2);
    SlowerIsMoreCongested(LastTen(h1), LastTen(h2));
    PriorityFeeGrows(estimate, estimate, Analyze(LastTen(h1)), Analyze(LastTen(h2)), priority, priority);
  }

  /** Only the last ten samples matter: histories that agree on them quote the same fee. */
  lemma OldSamplesForgotten(h1: seq<nat>, h2: seq<nat>, estimate: nat, priority: nat)
    requires LastTen(h1) == LastTen(h2)
    ensures PriorityFee(estimate, Analyze(WindowAfter(h1)), priority)
         == PriorityFee(estimate, Analyze(WindowAfter(h2)), priority)
  {
    WindowIsLastTen(h1);
    WindowIsLastTen(h2);
  }

  // ----- The quote -----

  /** How many times the estimate the window asks for, by its total time: twice without samples; otherwise once below
      15 seconds per sample, twice below 60 and three times from there on. */
  function Times(window: seq<nat>): nat {
    if window == [] then 2
    else if Sum(window) < 15_000_000_000 * |window| then 1
    else if Sum(window) < 60_000_000_000 * |window| then 2
    else 3
  }

  /** The percentage on top for a message priority: the priority itself up to 100, one less at 29, 57 and 58. */
  function PercentOnTop(priority: nat): nat {
    if priority >= 100 then 100
    else if priority in {29, 57, 58} then priority - 1
    else priority
  }

  /** `fee` is `product` hundredths, rounded down and capped at 100 Gwei. */
  predicate HundredthsCapped(fee: nat, product: nat) {
    && fee <= 100_000_000_000
    && 100 * fee <= product
    && (fee < 100_000_000_000 ==> product < 100 * (fee + 1))
  }

  lemma CappedHundredths(product: nat)
    ensures HundredthsCapped(Min(product / 100, MAX_PRIORITY_FEE), product)
  {
  }

  /** The quoted tip: the estimate, times what the window asks for, with the priority's percentage on top. */
  lemma QuoteMeaning(estimate: nat, window: seq<nat>, priority: nat)
    ensures HundredthsCapped(PriorityFee(estimate, Analyze(window), priority),
                             estimate * Times(window) * (100 + PercentOnTop(priority)))
  {
    if window != [] {
      CongestionByTotal(window);
    }
    assert Multiplier(Analyze(window)) == Times(window);
    assert Percent(Min(priority, MAX_PRIORITY)) == PercentOnTop(priority);
    CappedHundredths(estimate * Times(window) * (100 + PercentOnTop(priority)));
  }

  /** The blended estimate is the midpoint of the two, rounded down. */
  lemma BlendIsMidpoint(estimate: nat, used: nat)
    ensures 2 * Blend(estimate, used) <= estimate + used <= 2 * Blend(estimate, used) + 1
  {
  }

  // ----- Range -----

  /** A quoted fee is at least the estimate it was read from (up to the cap), at most the cap,
      and the u128 product behind it never overflows for estimates up to 144 Gwei. */
  lemma PriorityFeeInRange(estimate: nat, level: CongestionLevel, priority: nat)
    requires GWEI <= estimate <= 144 * GWEI
    ensures GWEI <= PriorityFee(estimate, level, priority) <= MAX_PRIORITY_FEE
    ensures Min(estimate, MAX_PRIORITY_FEE) <= PriorityFee(estimate, level, priority)
    ensures estimate * Multiplier(level) * (100 + Percent(Min(priority, MAX_PRIORITY))) < U128_MODULUS
  {
    var m := Multiplier(level);
    var x := 100 + Percent(Min(priority, MAX_PRIORITY));
    PercentGrows(Min(priority, MAX_PRIORITY), 100);
    ProductGrows(1, m, estimate, estimate);
    ProductGrows(m, 3, estimate, estimate);
    ProductGrows(estimate, estimate * m, 100, x);
    ProductGrows(estimate * m, 3 * 144 * GWEI, x, 200);
    QuotientGrows(100 * estimate, estimate * m * x, 100);
  }
}
