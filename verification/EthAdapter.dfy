/** crates/bulkmail/src/adapter/ethereum.rs: fee bumping and the replace-at-the-same-nonce retry strategy. */
module EthAdapter {
  import opened Prelude
  import opened Messages
  import opened GasPrices

  const MAX_REPLACEMENTS: nat := 3
  const GAS_PRICE_INCREASE_PERCENT: nat := 20

  datatype EthFee = EthFee(baseFee: nat, priorityFee: nat)

  datatype RetryDecision =
    | Resubmit(fee: EthFee, nonce: nat)
    | Requeue
    | Abandon

  function BumpByPercent(n: nat, percent: nat): nat {
    n + n * percent / 100
  }

  function BumpFee(fee: EthFee): EthFee {
    fee.(priorityFee := BumpByPercent(fee.priorityFee, GAS_PRICE_INCREASE_PERCENT))
  }

  /** `max_fee_per_gas` of the transaction built from `fee`. */
  function MaxFeePerGas(fee: EthFee): nat {
    fee.baseFee + fee.priorityFee
  }

  /** `EthRetryStrategy::handle_dropped`: `msg` is the pending copy, taken before the retry was counted. */
  function EthDecision(msg: Message, fee: EthFee, nonce: nat, replacements: nat): RetryDecision {
    if !CanRetry(msg) then Abandon
    else if replacements >= MAX_REPLACEMENTS then Requeue
    else Resubmit(BumpFee(fee), nonce)
  }

  /** The three answers: out of retries, abandon; replaced three times, requeue; otherwise the same nonce again, with the tip
      raised by a fifth. */
  lemma DecisionMeaning(msg: Message, fee: EthFee, nonce: nat, replacements: nat)
    ensures var d := EthDecision(msg, fee, nonce, replacements);
            && (d.Abandon? <==> msg.retryCount >= 3)
            && (d.Requeue? <==> msg.retryCount < 3 <= replacements)
            && (d.Resubmit? ==> d.nonce == nonce && d.fee == EthFee(fee.baseFee, fee.priorityFee + fee.priorityFee / 5))
  {
  }

  /** The release calls `handle_dropped` itself makes before returning; the sender then makes one more
      for `Abandon` and `Requeue`. */
  function ReleasesInDecision(decision: RetryDecision): nat {
    if decision.Resubmit? then 0 else 1
  }

  /** `next` is at least 110% of `prev`. */
  predicate TenPercentAbove(next: nat, prev: nat) {
    10 * next >= 11 * prev
  }

  /** A bump clears the 10% replacement threshold on the tip except for dust tips of 1 to 4 wei. */
  lemma TipBumpClearsIff(fee: EthFee)
    ensures BumpFee(fee).priorityFee == fee.priorityFee + fee.priorityFee / 5
    ensures TenPercentAbove(BumpFee(fee).priorityFee, fee.priorityFee) <==> fee.priorityFee == 0 || fee.priorityFee >= 5
  {
  }

  /** With the fixed 2 Gwei base fee, a bump clears the threshold on `max_fee_per_gas`
      exactly for tips of 2 Gwei or at least 2 Gwei + 5 wei. */
  lemma MaxFeeBumpClearsIff(fee: EthFee)
    requires fee.baseFee == INITIAL_BASE_FEE
    ensures TenPercentAbove(MaxFeePerGas(BumpFee(fee)), MaxFeePerGas(fee))
       <==> fee.priorityFee == 2 * GWEI || fee.priorityFee >= 2 * GWEI + 5
  {
  }

  /** The most a tip can reach after `replacements` bumps of a capped quote. */
  function TipCeiling(replacements: nat): nat {
    if replacements == 0 then MAX_PRIORITY_FEE
    else if replacements == 1 then 120 * GWEI
    else 144 * GWEI
  }

  /** One bump moves a tip from one ceiling to the next, without overflowing the u128 product. */
  lemma BumpStaysUnderCeiling(fee: EthFee, replacements: nat)
    requires replacements < 2
    requires GWEI <= fee.priorityFee <= TipCeiling(replacements)
    ensures GWEI <= BumpFee(fee).priorityFee <= TipCeiling(replacements + 1)
    ensures fee.priorityFee * GAS_PRICE_INCREASE_PERCENT < U128_MODULUS
    ensures TenPercentAbove(BumpFee(fee).priorityFee, fee.priorityFee)
  {
  }
}
