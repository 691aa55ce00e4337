/** Whole runs of the tracker: any interleaving of pending transactions and blocks from an empty pool. */
module MempoolRuns {
  import opened Prelude
  import opened MempoolState
  import opened MempoolInsert
  import opened MempoolBlock

  datatype Event = Pending(tx: PendingTx) | NewBlock(block: Block)

  ghost function Apply(p: Pool, e: Event): Pool {
    match e
    case Pending(tx) => Insert(p, tx)
    case NewBlock(b) => ApplyBlock(p, b)
  }

  predicate ProtocolEvent(e: Event) {
    match e
    case Pending(tx) => ProtocolNonce(tx)
    case NewBlock(b) => ProtocolBlock(b)
  }

  /** `states[i]` is the pool after the first `i` events. */
  ghost predicate IsRun(config: Config, states: seq<Pool>, events: seq<Event>) {
    && |states| == |events| + 1
    && states[0] == Empty(config)
    && (forall i :: 0 <= i < |events| ==> ProtocolEvent(events[i]))
    && (forall i :: 0 <= i < |events| ==> states[i + 1] == Apply(states[i], events[i]))
  }

  /** One more event of a run. */
  lemma Extend(config: Config, states: seq<Pool>, events: seq<Event>, e: Event)
    returns (states': seq<Pool>, events': seq<Event>)
    requires IsRun(config, states, events) && ProtocolEvent(e)
    ensures IsRun(config, states', events') && |events'| == |events| + 1
    ensures states'[|events'|] == Apply(states[|events|], e)
    ensures events' == events + [e] && states' == states + [states'[|events'|]]
  {
    states', events' := states + [Apply(states[|events|], e)], events + [e];
    assert forall i :: 0 <= i < |states| ==> states'[i] == states[i];
    assert forall i :: 0 <= i < |events| ==> events'[i] == events[i];
  }

  lemma ApplyKeepsWellFormed(p: Pool, e: Event)
    requires WellFormed(p) && ProtocolEvent(e)
    ensures WellFormed(Apply(p, e)) && Apply(p, e).config == p.config
  {
    match e
    case Pending(tx) => InsertMeaning(p, tx);
    case NewBlock(b) => BlockKeepsWellFormed(p, b);
  }

  /** In every reachable state, whatever the traffic: slot i of account a holds only sender a with nonce
      confirmed + i below 2^64 - 1, slot vectors respect the per-account capacity, every live transaction
      has its base-fee key, and every queue key points into its slot vector. */
  lemma {:induction false} ReachableWellFormed(config: Config, states: seq<Pool>, events: seq<Event>, k: nat)
    requires IsRun(config, states, events) && k <= |events|
    ensures WellFormed(states[k]) && states[k].config == config
  {
    if k == 0 {
    } else {
      ReachableWellFormed(config, states, events, k - 1);
      ApplyKeepsWellFormed(states[k - 1], events[k - 1]);
    }
  }

  /** Right after any block of any run, the queue is exactly the marketable set. */
  lemma ReachableQueueAfterBlock(config: Config, states: seq<Pool>, events: seq<Event>, k: nat)
    requires IsRun(config, states, events) && k < |events| && events[k].NewBlock?
    ensures AccountsOk(states[k + 1].accounts, states[k + 1].config.perAccountCapacity)
    ensures QueueIsMarketableSet(states[k + 1])
  {
    ReachableWellFormed(config, states, events, k);
    assert ProtocolEvent(events[k]);
    assert states[k + 1] == Apply(states[k], events[k]);
    QueueAfterBlock(states[k], events[k].block);
  }

  /** Right after any block of any run, a key is queued if and only if it has been earned under that block's base fee. */
  lemma ReachableQueueIsEarned(config: Config, states: seq<Pool>, events: seq<Event>, k: nat, key: Key)
    requires IsRun(config, states, events) && k < |events| && events[k].NewBlock?
    ensures key in states[k + 1].queue <==> Earned(states[k + 1].accounts, events[k].block.newBaseFee, key)
  {
    assert states[k + 1] == Apply(states[k], events[k]);
    QueueIsEarned(states[k], events[k].block, key);
  }

  /** The last block among the events, if any. */
  function LastBlock(events: seq<Event>): Option<Block> {
    if events == [] then None
    else if events[|events| - 1].NewBlock? then Some(events[|events| - 1].block)
    else LastBlock(events[..|events| - 1])
  }

  /** The base fee and gas limit in force are those of the last block; before any block, the configured base fee
      and 30 million. */
  lemma {:induction false} ReachableHeader(config: Config, states: seq<Pool>, events: seq<Event>, k: nat)
    requires IsRun(config, states, events) && k <= |events|
    ensures var b := LastBlock(events[..k]);
            && states[k].baseFee == (if b.Some? then b.value.newBaseFee else config.initialBaseFee)
            && states[k].lastGasLimit == (if b.Some? then b.value.gasLimit else 30_000_000)
  {
    if k > 0 {
      ReachableHeader(config, states, events, k - 1);
      assert states[k] == Apply(states[k - 1], events[k - 1]);
      assert events[..k][..k - 1] == events[..k - 1];
    }
  }

  // ----- Eviction -----

  lemma {:induction false} ReachableOwnKeyQueued(config: Config, states: seq<Pool>, events: seq<Event>, k: nat)
    requires IsRun(config, states, events) && k <= |events|
    ensures OwnKeyQueued(states[k])
  {
    if k == 0 {
    } else {
      ReachableOwnKeyQueued(config, states, events, k - 1);
      ReachableWellFormed(config, states, events, k - 1);
      match events[k - 1]
      case Pending(tx) => InsertKeepsOwnKeyQueued(states[k - 1], tx);
      case NewBlock(b) => BlockKeepsWellFormed(states[k - 1], b);
    }
  }

  /** In every state of every run with a queue to evict from: the transaction an eviction would drop is the dearest of
      the live ones the queue names if and only if every key that claims more than its tip is stale. */
  lemma EvictionTakesDearestIff(config: Config, states: seq<Pool>, events: seq<Event>, k: nat)
    requires IsRun(config, states, events) && k <= |events| && states[k].queue != {}
    ensures VictimIsDearest(states[k]) <==> OnlyStaleAbove(states[k])
    ensures QueueSound(states[k]) ==> VictimIsDearest(states[k])
  {
    ReachableWellFormed(config, states, events, k);
    ReachableOwnKeyQueued(config, states, events, k);
    VictimIsDearestIff(states[k]);
  }

  // ----- Index agreement -----

  ghost predicate CleanForQueue(p: Pool, e: Event) {
    e.Pending? ==> StrandsNoQueueKey(p, e.tx)
  }

  ghost predicate CleanForEligibility(p: Pool, e: Event) {
    match e
    case Pending(tx) => StrandsNoEligibilityKey(p, tx)
    case NewBlock(b) => Consecutive(p, b)
  }

  lemma ApplyKeepsQueueSoundIff(p: Pool, e: Event)
    requires WellFormed(p) && ProtocolEvent(e) && QueueSound(p)
    ensures QueueSound(Apply(p, e)) <==> CleanForQueue(p, e)
  {
    match e
    case Pending(tx) => InsertKeepsQueueSoundIff(p, tx);
    case NewBlock(b) => BlockKeepsWellFormed(p, b);
  }

  lemma ApplyKeepsEligibilitySoundIff(p: Pool, e: Event)
    requires WellFormed(p) && ProtocolEvent(e) && EligibilitySound(p)
    ensures EligibilitySound(Apply(p, e)) <==> CleanForEligibility(p, e)
  {
    match e
    case Pending(tx) => InsertKeepsEligibilitySoundIff(p, tx);
    case NewBlock(b) => BlockKeepsEligibilitySoundIff(p, b);
  }

  lemma {:induction false} CleanRunQueueSound(config: Config, states: seq<Pool>, events: seq<Event>, k: nat)
    requires IsRun(config, states, events) && k <= |events|
    requires forall i :: 0 <= i < k ==> CleanForQueue(states[i], events[i])
    ensures QueueSound(states[k]) && |states[k].eligibility| <= config.globalCapacity
  {
    if k == 0 {
    } else {
      CleanRunQueueSound(config, states, events, k - 1);
      ReachableWellFormed(config, states, events, k - 1);
      ApplyKeepsQueueSoundIff(states[k - 1], events[k - 1]);
      match events[k - 1]
      case Pending(tx) => InsertKeepsCapacity(states[k - 1], tx);
      case NewBlock(b) =>
        BlockKeepsWellFormed(states[k - 1], b);
        SubsetSize(states[k].eligibility, states[k - 1].eligibility);
    }
  }

  lemma {:induction false} CleanRunEligibilitySound(config: Config, states: seq<Pool>, events: seq<Event>, k: nat)
    requires IsRun(config, states, events) && k <= |events|
    requires forall i :: 0 <= i < k ==> CleanForEligibility(states[i], events[i])
    ensures EligibilitySound(states[k])
  {
    if k == 0 {
    } else {
      CleanRunEligibilitySound(config, states, events, k - 1);
      ReachableWellFormed(config, states, events, k - 1);
      ApplyKeepsEligibilitySoundIff(states[k - 1], events[k - 1]);
    }
  }

  /** Over a whole run, every queue key names a live transaction with its current tip in every state
      if and only if no event of the run strands a queue key. */
  lemma QueueSoundThroughoutIff(config: Config, states: seq<Pool>, events: seq<Event>)
    requires IsRun(config, states, events)
    ensures (forall k :: 0 <= k <= |events| ==> QueueSound(states[k]))
       <==> (forall k :: 0 <= k < |events| ==> CleanForQueue(states[k], events[k]))
  {
    if forall k :: 0 <= k <= |events| ==> QueueSound(states[k]) {
      forall k | 0 <= k < |events|
        ensures CleanForQueue(states[k], events[k])
      {
        ReachableWellFormed(config, states, events, k);
        assert QueueSound(states[k + 1]);
        ApplyKeepsQueueSoundIff(states[k], events[k]);
      }
    }
    if forall k :: 0 <= k < |events| ==> CleanForQueue(states[k], events[k]) {
      forall k | 0 <= k <= |events|
        ensures QueueSound(states[k])
      {
        CleanRunQueueSound(config, states, events, k);
      }
    }
  }

  /** Over a whole run, the base-fee index is exactly the keys of the live transactions in every state
      if and only if no insertion overwrites a different max fee and every block is consecutive. */
  lemma EligibilityExactThroughoutIff(config: Config, states: seq<Pool>, events: seq<Event>)
    requires IsRun(config, states, events)
    ensures (forall k :: 0 <= k <= |events| ==>
               forall key :: key in states[k].eligibility <==>
                 (At(states[k].accounts, key.sender, key.nonce).Some? &&
                  key == EligibilityKey(At(states[k].accounts, key.sender, key.nonce).value)))
       <==> (forall k :: 0 <= k < |events| ==> CleanForEligibility(states[k], events[k]))
  {
    forall k | 0 <= k <= |events|
      ensures EligibilitySound(states[k]) <==>
                forall key :: key in states[k].eligibility <==>
                  (At(states[k].accounts, key.sender, key.nonce).Some? &&
                   key == EligibilityKey(At(states[k].accounts, key.sender, key.nonce).value))
    {
      ReachableWellFormed(config, states, events, k);
    }
    if forall k :: 0 <= k <= |events| ==> EligibilitySound(states[k]) {
      forall k | 0 <= k < |events|
        ensures CleanForEligibility(states[k], events[k])
      {
        ReachableWellFormed(config, states, events, k);
        assert EligibilitySound(states[k + 1]);
        ApplyKeepsEligibilitySoundIff(states[k], events[k]);
      }
    }
    if forall k :: 0 <= k < |events| ==> CleanForEligibility(states[k], events[k]) {
      forall k | 0 <= k <= |events|
        ensures EligibilitySound(states[k])
      {
        CleanRunEligibilitySound(config, states, events, k);
      }
    }
  }

  /** Traffic that only ever refills a slot with the same two fees satisfies both insertion conditions. */
  lemma SameFeesAreClean(p: Pool, tx: PendingTx)
    requires Overwritten(p, tx).Some? ==>
               Overwritten(p, tx).value.maxFee == tx.maxFee && Overwritten(p, tx).value.maxPriorityFee == tx.maxPriorityFee
    ensures StrandsNoQueueKey(p, tx) && StrandsNoEligibilityKey(p, tx)
  {
  }

  // ----- Capacity -----

  /** A full pool pops a stale key, frees nothing, and accepts a newcomer under a new base-fee key. */
  ghost predicate Overfills(p: Pool, e: Event) {
    && e.Pending? && Full(p) && Accepted(p, e.tx)
    && At(p.accounts, First(p.queue).sender, First(p.queue).nonce).None?
    && EligibilityKey(e.tx) !in p.eligibility
  }

  lemma ApplyKeepsCapacityIff(p: Pool, e: Event)
    requires WellFormed(p) && ProtocolEvent(e) && |p.eligibility| <= p.config.globalCapacity
    ensures |Apply(p, e).eligibility| <= p.config.globalCapacity <==> !Overfills(p, e)
  {
    match e
    case Pending(tx) => InsertKeepsCapacityIff(p, tx);
    case NewBlock(b) =>
      BlockKeepsWellFormed(p, b);
      SubsetSize(ApplyBlock(p, b).eligibility, p.eligibility);
  }

  lemma {:induction false} CapacityUpTo(config: Config, states: seq<Pool>, events: seq<Event>, k: nat)
    requires IsRun(config, states, events) && k <= |events|
    requires forall i :: 0 <= i < k ==> !Overfills(states[i], events[i])
    ensures |states[k].eligibility| <= config.globalCapacity
  {
    if k == 0 {
    } else {
      CapacityUpTo(config, states, events, k - 1);
      ReachableWellFormed(config, states, events, k - 1);
      ApplyKeepsCapacityIff(states[k - 1], events[k - 1]);
    }
  }

  /** Over a whole run, the base-fee index stays within its capacity in every state if and only if no event of the
      run overfills it. */
  lemma CapacityThroughoutIff(config: Config, states: seq<Pool>, events: seq<Event>)
    requires IsRun(config, states, events)
    ensures (forall k :: 0 <= k <= |events| ==> |states[k].eligibility| <= config.globalCapacity)
       <==> (forall k :: 0 <= k < |events| ==> !Overfills(states[k], events[k]))
  {
    if forall k :: 0 <= k <= |events| ==> |states[k].eligibility| <= config.globalCapacity {
      forall k | 0 <= k < |events|
        ensures !Overfills(states[k], events[k])
      {
        ReachableWellFormed(config, states, events, k);
        assert |states[k + 1].eligibility| <= config.globalCapacity;
        ApplyKeepsCapacityIff(states[k], events[k]);
      }
    }
    if forall k :: 0 <= k < |events| ==> !Overfills(states[k], events[k]) {
      forall k | 0 <= k <= |events|
        ensures |states[k].eligibility| <= config.globalCapacity
      {
        CapacityUpTo(config, states, events, k);
      }
    }
  }

  // ----- Stranded keys -----

  /** The key belongs to a live transaction. */
  predicate Backed(p: Pool, key: Key) {
    var tx := At(p.accounts, key.sender, key.nonce);
    tx.Some? && tx.value.maxFee == key.fee
  }

  lemma UnbackedKeySurvives(p: Pool, e: Event, key: Key)
    requires WellFormed(p) && ProtocolEvent(e) && key in p.eligibility && !Backed(p, key)
    ensures key in Apply(p, e).eligibility
  {
    match e
    case Pending(tx) =>
      if Full(p) && Admitted(p, tx) {
        EvictMeaning(p);
        var k := First(p.queue);
        if At(p.accounts, k.sender, k.nonce).Some? {
          FiledUnderOwnKey(p.accounts, p.config.perAccountCapacity, k.sender, k.nonce);
        }
      }
    case NewBlock(b) =>
  }

  /** A base-fee key left behind stays, through any events, as long as no transaction with its sender, nonce and max fee
      is tracked again: it takes up capacity meanwhile. */
  lemma {:induction false} StrandedKeyStays(config: Config, states: seq<Pool>, events: seq<Event>, key: Key, i: nat, j: nat)
    requires IsRun(config, states, events) && i <= j <= |events| && key in states[i].eligibility
    requires forall k :: i <= k < j ==> !Backed(states[k], key)
    ensures key in states[j].eligibility
    decreases j - i
  {
    if i == j {
    } else {
      StrandedKeyStays(config, states, events, key, i, j - 1);
      ReachableWellFormed(config, states, events, j - 1);
      UnbackedKeySurvives(states[j - 1], events[j - 1], key);
    }
  }

  // ----- Private order flow over runs -----

  /** `x as u64` for a float: truncating and saturating. */
  function TruncateU64(x: real): U64 {
    var whole := x.Floor;
    if whole < 0 then 0 else if whole > U64_MAX then U64_MAX else whole
  }

  function PublicPart(gasLimit: U64, privateFlow: real): real {
    gasLimit as real * (1.0 - privateFlow)
  }

  /** `(limit as f64 * (1.0 - ratio)) as u64`. */
  function UsableCapacity(gasLimit: U64, privateFlow: real): U64 {
    TruncateU64(PublicPart(gasLimit, privateFlow))
  }

  /** `u` is `x` rounded down into the range of u64. */
  predicate RoundsDown(u: U64, x: real) {
    && (0.0 <= x < U64_MODULUS as real ==> u as real <= x < u as real + 1.0)
    && (x < 0.0 ==> u == 0)
    && (x >= U64_MODULUS as real ==> u == U64_MAX)
  }

  lemma TruncateRoundsDown(x: real)
    ensures RoundsDown(TruncateU64(x), x)
  {
    var whole := x.Floor;
    assert whole as real <= x < whole as real + 1.0;
  }

  /** With a prior that is a proportion and blocks that respect their gas limits, the estimate is a
      proportion in every reachable state, and the usable capacity never exceeds the last gas limit. */
  lemma {:induction false} ReachableFlowIsProportion(config: Config, states: seq<Pool>, events: seq<Event>, k: nat)
    requires IsRun(config, states, events) && k <= |events|
    requires 0.0 <= config.privateFlowPrior <= 1.0
    requires forall i :: 0 <= i < |events| && events[i].NewBlock? ==> SaneBlock(events[i].block)
    ensures 0.0 <= states[k].privateFlow <= 1.0
    ensures UsableCapacity(states[k].lastGasLimit, states[k].privateFlow) <= states[k].lastGasLimit
  {
    if k == 0 {
    } else {
      ReachableFlowIsProportion(config, states, events, k - 1);
      if events[k - 1].NewBlock? {
        FlowStaysProportion(states[k - 1], events[k - 1].block);
      }
    }
    UsableWithinLimit(states[k].lastGasLimit, states[k].privateFlow);
  }

  /** Usable capacity is the part of the gas limit that private flow leaves, rounded down: nothing for a flow of 1 or more,
      and saturating at the top of u64. */
  lemma UsableMeaning(gasLimit: U64, privateFlow: real)
    ensures RoundsDown(UsableCapacity(gasLimit, privateFlow), gasLimit as real - gasLimit as real * privateFlow)
  {
    PublicPartMeaning(gasLimit, privateFlow);
    TruncateRoundsDown(PublicPart(gasLimit, privateFlow));
  }

  lemma PublicPartMeaning(gasLimit: U64, privateFlow: real)
    ensures PublicPart(gasLimit, privateFlow) == gasLimit as real - gasLimit as real * privateFlow
  {
  }

  lemma UsableWithinLimit(gasLimit: U64, privateFlow: real)
    requires 0.0 <= privateFlow <= 1.0
    ensures UsableCapacity(gasLimit, privateFlow) <= gasLimit
  {
    PublicPartMeaning(gasLimit, privateFlow);
    NonnegativeProduct(gasLimit as real, privateFlow);
    TruncateRoundsDown(PublicPart(gasLimit, privateFlow));
  }

  lemma NonnegativeProduct(x: real, y: real)
    requires 0.0 <= x && 0.0 <= y
    ensures 0.0 <= x * y
  {
  }

  function NineTenthsTo(k: nat): real {
    if k == 0 then 1.0 else 0.9 * NineTenthsTo(k - 1)
  }

  /** What is left of `x` after `n` blocks: 0.9^n of it. */
  function Scaled(n: nat, x: real): real {
    NineTenthsTo(n) * x
  }

  function BlocksIn(events: seq<Event>): nat {
    if events == [] then 0 else BlocksIn(events[..|events| - 1]) + if events[|events| - 1].NewBlock? then 1 else 0
  }

  /** Over any run whose blocks all observe the same flow, with pending transactions anywhere between them, the
      estimation error after k blocks is exactly 0.9^k of the error of the prior. */
  lemma {:induction false} FlowConverges(config: Config, states: seq<Pool>, events: seq<Event>, observed: real, k: nat)
    requires IsRun(config, states, events) && k <= |events|
    requires forall i :: 0 <= i < |events| && events[i].NewBlock? ==>
               events[i].block.gasLimit > 0 && ObservedFlow(states[i].accounts, events[i].block) == observed
    ensures states[k].privateFlow - observed == Scaled(BlocksIn(events[..k]), config.privateFlowPrior - observed)
  {
    var error := config.privateFlowPrior - observed;
    if k == 0 {
      ScaleNone(error);
    } else {
      FlowConverges(config, states, events, observed, k - 1);
      assert events[..k][..k - 1] == events[..k - 1];
      ErrorAfterEvent(states[k - 1], events[k - 1], observed);
      ScaleOnce(BlocksIn(events[..k - 1]), error);
    }
  }

  lemma ErrorAfterEvent(p: Pool, e: Event, observed: real)
    requires e.NewBlock? ==> e.block.gasLimit > 0 && ObservedFlow(p.accounts, e.block) == observed
    ensures Apply(p, e).privateFlow - observed == (if e.NewBlock? then 0.9 * (p.privateFlow - observed) else p.privateFlow - observed)
  {
    if e.NewBlock? {
      FlowContracts(p, e.block);
    }
  }

  lemma ScaleNone(x: real)
    ensures Scaled(0, x) == x
  {
  }

  lemma ScaleOnce(n: nat, x: real)
    ensures 0.9 * Scaled(n, x) == Scaled(n + 1, x)
  {
    var a := NineTenthsTo(n);
    assert 0.9 * (a * x) == (0.9 * a) * x;
  }
}
