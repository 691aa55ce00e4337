/** crates/bulkmail/src/message.rs: a transaction intent, its deadline, retry budget and queue priority. */
module Messages {
  import opened Prelude

  const MAX_PRIORITY: U32 := 100
  const BLOCK_TIME_MS: nat := 2_000
  const MAX_RETRIES: nat := 3
  const NEAR_BLOCKS: nat := 2
  const FAR_BLOCKS: nat := 10

  /** `payload` stands for the recipient, value and call data, which nothing here inspects. */
  datatype Message = Message(
    payload: nat,
    gas: U64,
    priority: U32,
    deadlineMs: Option<U32>,
    createdAtMs: U64,
    retryCount: U32)

  /** `Message::new`: priority is clamped and no retry has happened. */
  function New(payload: nat, gas: U64, priority: U32, deadlineMs: Option<U32>, now: U64): (m: Message)
    ensures m.priority <= MAX_PRIORITY && CanRetry(m) && Origin(m) == m
  {
    Message(payload, gas, Min(priority, MAX_PRIORITY), deadlineMs, now, 0)
  }

  /** The intent without its retry history. */
  function Origin(m: Message): Message {
    m.(retryCount := 0)
  }

  predicate CanRetry(m: Message) {
    m.retryCount < MAX_RETRIES
  }

  /** `increment_retry`: the updated message, and whether another attempt is allowed. */
  function IncrementRetry(m: Message): (r: (Message, bool)) {
    var bumped := m.(retryCount := Min(m.retryCount + 1, U32_MODULUS - 1));
    (bumped, CanRetry(bumped))
  }

  /** The absolute deadline, in wrapping u64 arithmetic. */
  function AbsoluteDeadline(m: Message): U64
    requires m.deadlineMs.Some?
  {
    (m.createdAtMs + m.deadlineMs.value) % U64_MODULUS
  }

  predicate IsExpired(m: Message, now: U64) {
    m.deadlineMs.Some? && now >= AbsoluteDeadline(m)
  }

  /** The boost with `blocks` whole blocks left: full below 2, falling linearly until 10, none from there on. */
  function BoostForBlocks(blocks: nat): Option<U32> {
    if blocks < NEAR_BLOCKS then Some(MAX_PRIORITY)
    else if blocks < FAR_BLOCKS then
      var lowest := MAX_PRIORITY / 3;
      Some(MAX_PRIORITY - (MAX_PRIORITY - lowest) * (blocks - NEAR_BLOCKS) / (FAR_BLOCKS - NEAR_BLOCKS))
    else None
  }

  function DeadlineFactor(m: Message, now: U64): Option<U32> {
    if m.deadlineMs.None? then None
    else
      var deadline := AbsoluteDeadline(m);
      if now >= deadline then Some(0)
      else BoostForBlocks((deadline - now) / BLOCK_TIME_MS)
  }

  function OrZero(factor: Option<U32>): nat {
    if factor.Some? then factor.value else 0
  }

  /** `effective_priority`, with the cast to u32 truncating and the u32 sum wrapping. */
  function EffectivePriority(m: Message, now: U64): U32 {
    var factor := DeadlineFactor(m, now);
    if factor == Some(0) then 0
    else
      var age := SaturatingSub(now, m.createdAtMs);
      var ageFactor := (age / BLOCK_TIME_MS) % U32_MODULUS;
      (m.priority + m.retryCount + ageFactor + OrZero(factor)) % U32_MODULUS
  }

  // ----- Reference reading: the documented sum over unbounded integers -----

  function IdealPriority(m: Message, now: U64): nat {
    if IsExpired(m, now) then 0
    else m.priority + m.retryCount + SaturatingSub(now, m.createdAtMs) / BLOCK_TIME_MS + OrZero(DeadlineFactor(m, now))
  }

  /** The deadline does not wrap around the u64 clock. */
  predicate DeadlineFits(m: Message) {
    m.deadlineMs.Some? ==> m.createdAtMs + m.deadlineMs.value < U64_MODULUS
  }

  // ----- Properties -----

  lemma BoostRange(blocks: nat)
    ensures BoostForBlocks(blocks).Some? ==> 42 <= BoostForBlocks(blocks).value <= 100
  {
  }

  /** The boost by whole blocks left: full from two blocks down, 42 at the far edge, not a third of the maximum, and none
      from ten blocks on. */
  lemma BoostTable(blocks: nat)
    ensures blocks < 10 ==> BoostForBlocks(blocks) == Some([100, 100, 100, 92, 84, 75, 67, 59, 50, 42][blocks])
    ensures blocks >= 10 ==> BoostForBlocks(blocks) == None
  {
  }

  /** A message with a deadline expires that many milliseconds after its creation, and at no other time; if that moment
      is beyond the u64 clock, 2^64 earlier. A message without one never expires. */
  lemma ExpiresAtDeadline(m: Message, now: U64)
    ensures m.deadlineMs.None? ==> !IsExpired(m, now)
    ensures m.deadlineMs.Some? && DeadlineFits(m) ==> (IsExpired(m, now) <==> now >= m.createdAtMs + m.deadlineMs.value)
    ensures m.deadlineMs.Some? && !DeadlineFits(m) ==>
              (IsExpired(m, now) <==> now >= m.createdAtMs + m.deadlineMs.value - U64_MODULUS)
  {
  }

  /** The age of a message; none by a clock that went back before its creation. */
  function Age(m: Message, now: U64): nat {
    if now < m.createdAtMs then 0 else now - m.createdAtMs
  }

  /** The priority of a live message with a deadline ahead: its own priority, one for each retry, one for each two seconds
      of age, and the boost for the whole blocks left, as long as the sum fits u32. */
  lemma PriorityOfDated(m: Message, now: U64)
    requires m.deadlineMs.Some? && DeadlineFits(m) && now < m.createdAtMs + m.deadlineMs.value
    ensures var left := m.createdAtMs + m.deadlineMs.value - now;
            var boost := if left / 2_000 >= 10 then 0 else [100, 100, 100, 92, 84, 75, 67, 59, 50, 42][left / 2_000];
            var sum := m.priority + m.retryCount + Age(m, now) / 2_000 + boost;
            sum < U32_MODULUS ==> EffectivePriority(m, now) == sum
  {
    var left := m.createdAtMs + m.deadlineMs.value - now;
    ExpiresAtDeadline(m, now);
    assert AbsoluteDeadline(m) - now == left;
    BoostTable(left / 2_000);
    PriorityExactIff(m, now);
  }

  /** The same without a deadline. */
  lemma PriorityOfUndated(m: Message, now: U64)
    requires m.deadlineMs.None?
    ensures var sum := m.priority + m.retryCount + Age(m, now) / 2_000;
            sum < U32_MODULUS ==> EffectivePriority(m, now) == sum
  {
    PriorityExactIff(m, now);
  }

  /** A new message expires exactly `deadlineMs` after its creation, starts at its clamped priority plus the boost for that
      deadline, and carries what it was given. */
  lemma NewMessageMeaning(payload: nat, gas: U64, priority: U32, deadlineMs: Option<U32>, now: U64, later: U64)
    requires deadlineMs.Some? ==> now + deadlineMs.value < U64_MODULUS
    ensures var m := New(payload, gas, priority, deadlineMs, now);
            && m.payload == payload && m.gas == gas
            && (IsExpired(m, later) <==> deadlineMs.Some? && later >= now + deadlineMs.value)
            && (deadlineMs.None? ==> EffectivePriority(m, now) == if priority > 100 then 100 else priority)
            && (deadlineMs.Some? && deadlineMs.value >= 20_000 ==> EffectivePriority(m, now) == if priority > 100 then 100 else priority)
            && (deadlineMs.Some? && 0 < deadlineMs.value < 6_000 ==>
                  EffectivePriority(m, now) == 100 + if priority > 100 then 100 else priority)
  {
    var m := New(payload, gas, priority, deadlineMs, now);
    ExpiresAtDeadline(m, later);
    if deadlineMs.None? {
      PriorityOfUndated(m, now);
    } else if deadlineMs.value > 0 {
      PriorityOfDated(m, now);
    }
  }

  /** `increment_retry` counts one more, up to the top of u32, and allows another attempt while fewer than three are
      counted. */
  lemma RetryMeaning(m: Message)
    ensures Origin(IncrementRetry(m).0) == Origin(m)
    ensures m.retryCount < 2 ==> IncrementRetry(m).0.retryCount == m.retryCount + 1 && IncrementRetry(m).1
    ensures m.retryCount >= 2 ==> IncrementRetry(m).0.retryCount > 2 && !IncrementRetry(m).1
  {
  }

  /** The zero boost is reserved for expired messages: a live boost is at least 42. */
  lemma FactorZeroIffExpired(m: Message, now: U64)
    ensures DeadlineFactor(m, now) == Some(0) <==> IsExpired(m, now)
    ensures !IsExpired(m, now) && DeadlineFactor(m, now).Some? ==> 42 <= DeadlineFactor(m, now).value <= MAX_PRIORITY
  {
    if m.deadlineMs.Some? && !IsExpired(m, now) {
      BoostRange((AbsoluteDeadline(m) - now) / BLOCK_TIME_MS);
    }
  }

  /** The machine result is the documented sum exactly when that sum fits u32. */
  lemma PriorityExactIff(m: Message, now: U64)
    ensures EffectivePriority(m, now) == IdealPriority(m, now) % U32_MODULUS
    ensures EffectivePriority(m, now) == IdealPriority(m, now) <==> IdealPriority(m, now) < U32_MODULUS
  {
    FactorZeroIffExpired(m, now);
    if !IsExpired(m, now) {
      var age := SaturatingSub(now, m.createdAtMs) / BLOCK_TIME_MS;
      var rest := m.priority + m.retryCount + OrZero(DeadlineFactor(m, now));
      TruncationIsAbsorbed(rest, age);
      assert EffectivePriority(m, now) == (rest + age % U32_MODULUS) % U32_MODULUS;
      assert IdealPriority(m, now) == rest + age;
    }
  }

  lemma TruncationIsAbsorbed(a: nat, b: nat)
    ensures (a + b % U32_MODULUS) % U32_MODULUS == (a + b) % U32_MODULUS
  {
  }

  lemma FewerBlocksMoreBoost(fewer: nat, more: nat)
    requires fewer <= more
    ensures OrZero(BoostForBlocks(more)) <= OrZero(BoostForBlocks(fewer))
  {
    BoostRange(fewer);
    BoostRange(more);
    if NEAR_BLOCKS <= fewer && more < FAR_BLOCKS {
      assert 67 * (fewer - 2) / 8 <= 67 * (more - 2) / 8;
    }
  }

  /** Waiting never lowers the boost before the deadline. */
  lemma BoostGrows(m: Message, earlier: U64, later: U64)
    requires earlier <= later && !IsExpired(m, later)
    ensures OrZero(DeadlineFactor(m, earlier)) <= OrZero(DeadlineFactor(m, later))
  {
    if m.deadlineMs.Some? {
      var deadline := AbsoluteDeadline(m);
      FewerBlocksMoreBoost((deadline - later) / BLOCK_TIME_MS, (deadline - earlier) / BLOCK_TIME_MS);
    }
  }

  /** The documented sum never falls before the deadline. */
  lemma IdealGrows(m: Message, earlier: U64, later: U64)
    requires earlier <= later && !IsExpired(m, later)
    ensures IdealPriority(m, earlier) <= IdealPriority(m, later)
  {
    BoostGrows(m, earlier, later);
    QuotientGrows(SaturatingSub(earlier, m.createdAtMs), SaturatingSub(later, m.createdAtMs), BLOCK_TIME_MS);
  }

  /** In one millisecond it rises by less than 2^32. */
  lemma IdealCreeps(m: Message, now: U64)
    requires now + 1 < U64_MODULUS && !IsExpired(m, now + 1)
    ensures IdealPriority(m, now + 1) <= IdealPriority(m, now) + 101
  {
    FactorZeroIffExpired(m, now + 1);
    var a, b := SaturatingSub(now, m.createdAtMs), SaturatingSub(now + 1, m.createdAtMs);
    assert b / BLOCK_TIME_MS <= a / BLOCK_TIME_MS + 1;
  }

  /** How often the sum has wrapped around u32. */
  function Wraps(m: Message, now: U64): nat {
    IdealPriority(m, now) / U32_MODULUS
  }

  lemma WrapsGrow(m: Message, earlier: U64, later: U64)
    requires earlier <= later && !IsExpired(m, later)
    ensures Wraps(m, earlier) <= Wraps(m, later) && !IsExpired(m, earlier)
  {
    IdealGrows(m, earlier, later);
    QuotientGrows(IdealPriority(m, earlier), IdealPriority(m, later), U32_MODULUS);
  }

  /** A function that differs at two points differs at two neighbours between them. */
  lemma {:induction false} ChangeBetween(f: nat -> nat, lo: nat, hi: nat) returns (t: nat)
    requires lo <= hi && f(lo) != f(hi)
    ensures lo <= t < hi && f(t) != f(t + 1)
    decreases hi - lo
  {
    if f(hi - 1) != f(hi) {
      t := hi - 1;
    } else {
      t := ChangeBetween(f, lo, hi - 1);
    }
  }

  /** If the sum wraps somewhere, it wraps from one millisecond to the next. */
  lemma WrapInstant(m: Message, earlier: U64, later: U64) returns (t: U64)
    requires earlier <= later && !IsExpired(m, later) && Wraps(m, earlier) != Wraps(m, later)
    ensures earlier <= t < later && Wraps(m, t) < Wraps(m, t + 1)
  {
    var f := (n: nat) => if n < U64_MODULUS then Wraps(m, n) else 0;
    t := ChangeBetween(f, earlier, later);
    assert f(t) == Wraps(m, t) && f(t + 1) == Wraps(m, t + 1);
    WrapsGrow(m, t + 1, later);
    WrapsGrow(m, t, t + 1);
  }

  /** When the sum wraps, the priority falls. */
  lemma WrapMeansFall(m: Message, t: U64)
    requires t + 1 < U64_MODULUS && !IsExpired(m, t + 1) && Wraps(m, t) < Wraps(m, t + 1)
    ensures EffectivePriority(m, t) > EffectivePriority(m, t + 1)
  {
    IdealCreeps(m, t);
    PriorityExactIff(m, t);
    PriorityExactIff(m, t + 1);
    var x, y := IdealPriority(m, t), IdealPriority(m, t + 1);
    assert x == Wraps(m, t) * U32_MODULUS + x % U32_MODULUS;
    assert y == Wraps(m, t + 1) * U32_MODULUS + y % U32_MODULUS;
  }

  lemma NoWrapMeansGrowth(m: Message, earlier: U64, later: U64)
    requires earlier <= later && !IsExpired(m, later) && Wraps(m, earlier) == Wraps(m, later)
    ensures EffectivePriority(m, earlier) <= EffectivePriority(m, later)
  {
    IdealGrows(m, earlier, later);
    PriorityExactIff(m, earlier);
    PriorityExactIff(m, later);
    var x, y := IdealPriority(m, earlier), IdealPriority(m, later);
    assert x == Wraps(m, earlier) * U32_MODULUS + x % U32_MODULUS;
    assert y == Wraps(m, later) * U32_MODULUS + y % U32_MODULUS;
  }

  /** Waiting never lowers the priority before `later`. */
  ghost predicate GrowsUntil(m: Message, later: U64) {
    forall t1: U64, t2: U64 :: t1 <= t2 <= later ==> EffectivePriority(m, t1) <= EffectivePriority(m, t2)
  }

  /** For every message, dated or not: up to a moment before the deadline, waiting never lowers the priority if and
      only if the documented sum has not wrapped by then; for a sum that starts below 2^32, if and only if it
      is still below 2^32. */
  lemma PriorityGrowsIff(m: Message, later: U64)
    requires !IsExpired(m, later)
    ensures GrowsUntil(m, later) <==> Wraps(m, 0) == Wraps(m, later)
    ensures IdealPriority(m, 0) < U32_MODULUS ==> (GrowsUntil(m, later) <==> IdealPriority(m, later) < U32_MODULUS)
  {
    if Wraps(m, 0) == Wraps(m, later) {
      forall t1: U64, t2: U64 | t1 <= t2 <= later
        ensures EffectivePriority(m, t1) <= EffectivePriority(m, t2)
      {
        WrapsBetween(m, t1, later);
        WrapsBetween(m, t2, later);
        NoWrapMeansGrowth(m, t1, t2);
      }
    } else {
      var t := WrapInstant(m, 0, later);
      WrapMeansFall(m, t);
      assert t <= t + 1 <= later;
    }
  }

  lemma WrapsBetween(m: Message, t: U64, later: U64)
    requires t <= later && !IsExpired(m, later) && Wraps(m, 0) == Wraps(m, later)
    ensures Wraps(m, t) == Wraps(m, later)
  {
    WrapsGrow(m, t, later);
    WrapsGrow(m, 0, t);
  }

  /** For a message with a deadline and the limits that `Message::new` and the retry budget set,
      the priority is exact and at most 2,147,686 at every clock reading; 0 from the deadline on. */
  lemma PriorityBound(m: Message, now: U64)
    requires m.deadlineMs.Some? && DeadlineFits(m)
    requires m.priority <= MAX_PRIORITY && m.retryCount <= MAX_RETRIES
    ensures EffectivePriority(m, now) == IdealPriority(m, now) <= 2_147_686
    ensures now >= m.createdAtMs + m.deadlineMs.value ==> EffectivePriority(m, now) == 0
  {
    FactorZeroIffExpired(m, now);
    if !IsExpired(m, now) {
      assert SaturatingSub(now, m.createdAtMs) <= 4_294_967_294;
    }
    PriorityExactIff(m, now);
  }

  /** So a dated message within those limits only ever rises until its deadline, and is 0 from there on. */
  lemma DatedPriorityGrows(m: Message, later: U64)
    requires m.deadlineMs.Some? && DeadlineFits(m)
    requires m.priority <= MAX_PRIORITY && m.retryCount <= MAX_RETRIES
    ensures !IsExpired(m, later) ==> GrowsUntil(m, later)
    ensures IsExpired(m, later) ==> EffectivePriority(m, later) == 0
  {
    PriorityBound(m, later);
    if !IsExpired(m, later) {
      PriorityBound(m, 0);
      PriorityGrowsIff(m, later);
    }
  }

  /** The bound is reached, one millisecond before the longest deadline. */
  lemma PriorityBoundIsTight()
    ensures var m := Message(0, 0, 100, Some(4_294_967_295), 0, 3);
            EffectivePriority(m, 4_294_967_294) == 2_147_686
  {
  }

  /** Without a deadline the age term eventually wraps: evaluated 2^32 blocks after creation, the priority is back at 0. */
  lemma UndatedPriorityCanFall()
    ensures var m := Message(0, 0, 0, None, 0, 0);
            EffectivePriority(m, 8_589_934_590_000) == 4_294_967_295 && EffectivePriority(m, 8_589_934_592_000) == 0
  {
  }
}
