/** Gas ahead of a transaction and its confirmation estimate. */
module MempoolQueries {
  import opened Prelude
  import opened MempoolState
  import opened MempoolBlock
  import opened MempoolRuns

  function GasAt(accounts: map<Address, Account>, k: Key): nat {
    var tx := At(accounts, k.sender, k.nonce);
    if tx.Some? then tx.value.gasLimit else 0
  }

  /** Total gas of the live transactions that `keys` point at. */
  ghost function TotalGas(accounts: map<Address, Account>, keys: set<Key>): nat {
    if keys == {} then 0
    else
      var k :| k in keys;
      GasAt(accounts, k) + TotalGas(accounts, keys - {k})
  }

  lemma {:induction false} TotalGasWithout(accounts: map<Address, Account>, keys: set<Key>, k: Key)
    requires k in keys
    ensures TotalGas(accounts, keys) == GasAt(accounts, k) + TotalGas(accounts, keys - {k})
    decreases keys
  {
    var c :| c in keys && TotalGas(accounts, keys) == GasAt(accounts, c) + TotalGas(accounts, keys - {c});
    if c != k {
      TotalGasWithout(accounts, keys - {c}, k);
      TotalGasWithout(accounts, keys - {k}, c);
      assert keys - {c} - {k} == keys - {k} - {c};
    }
  }

  lemma {:induction false} TotalGasOfMore(accounts: map<Address, Account>, fewer: set<Key>, more: set<Key>)
    requires fewer <= more
    ensures TotalGas(accounts, fewer) <= TotalGas(accounts, more)
    decreases more
  {
    if more == {} {
    } else {
      var k :| k in more;
      TotalGasWithout(accounts, more, k);
      if k in fewer {
        TotalGasWithout(accounts, fewer, k);
      }
      TotalGasOfMore(accounts, fewer - {k}, more - {k});
      assert k !in fewer ==> fewer - {k} == fewer;
    }
  }

  /** The queue keys strictly before `k`: `priority_queue.range(..k)`. */
  function Ahead(queue: set<Key>, k: Key): set<Key> {
    set other | other in queue && Precedes(other, k)
  }

  /** `gas_ahead` for a tracked transaction: the u64 sum wraps. */
  ghost function GasAhead(p: Pool, tx: PendingTx): Option<nat>
    requires tx.sender in p.accounts ==> p.accounts[tx.sender].confirmed <= tx.nonce
  {
    if Classify(p.accounts, p.baseFee, tx) != Marketable then None
    else Some(TotalGas(p.accounts, Ahead(p.queue, QueueKey(p.baseFee, tx))) % U64_MODULUS)
  }

  /** Blocks to confirm from the gas ahead, or the sentinel u64::MAX when private flow takes everything. */
  function BlocksFor(p: Pool, gasAhead: nat, gasLimit: nat): nat {
    var usable := UsableCapacity(p.lastGasLimit, p.privateFlow);
    if usable == 0 then U64_MAX else Min(gasAhead + gasLimit, U64_MAX) / usable
  }

  ghost predicate UniqueIds(accounts: map<Address, Account>) {
    forall a, n, a', n' ::
      At(accounts, a, n).Some? && At(accounts, a', n').Some? && At(accounts, a, n).value.id == At(accounts, a', n').value.id
      ==> a == a' && n == n'
  }

  /** `tx` is live. */
  ghost predicate Tracked(p: Pool, tx: PendingTx) {
    At(p.accounts, tx.sender, tx.nonce) == Some(tx)
  }

  /** No live transaction has this id. */
  ghost predicate Unknown(p: Pool, id: TxId) {
    forall a, n :: At(p.accounts, a, n).Some? ==> At(p.accounts, a, n).value.id != id
  }

  /** The confirmation estimate of a tracked transaction. */
  ghost function Estimate(p: Pool, tx: PendingTx): Option<nat>
    requires tx.sender in p.accounts ==> p.accounts[tx.sender].confirmed <= tx.nonce
  {
    var gasAhead := GasAhead(p, tx);
    if gasAhead.None? then None else Some(BlocksFor(p, gasAhead.value, tx.gasLimit))
  }

  /** `r` is the gas ahead of a live transaction with this id, or there is none. */
  ghost predicate AnswersGasAhead(p: Pool, id: TxId, r: Option<nat>) {
    (exists tx :: Tracked(p, tx) && tx.id == id && r == GasAhead(p, tx)) || (r.None? && Unknown(p, id))
  }

  ghost predicate AnswersEstimate(p: Pool, id: TxId, r: Option<nat>) {
    (exists tx :: Tracked(p, tx) && tx.id == id && r == Estimate(p, tx)) || (r.None? && Unknown(p, id))
  }

  /** With unique ids both queries are determined by the id. */
  lemma UniqueAnswers(p: Pool, tx: PendingTx, r: Option<nat>)
    requires UniqueIds(p.accounts) && Tracked(p, tx)
    ensures AnswersGasAhead(p, tx.id, r) <==> r == GasAhead(p, tx)
    ensures AnswersEstimate(p, tx.id, r) <==> r == Estimate(p, tx)
  {
    forall other | Tracked(p, other) && other.id == tx.id
      ensures other == tx
    {
      assert At(p.accounts, tx.sender, tx.nonce).value.id == At(p.accounts, other.sender, other.nonce).value.id;
    }
    assert At(p.accounts, tx.sender, tx.nonce).value.id == tx.id;
  }

  /** The keys ahead of `tx` are exactly the marketable ones before it, and if it is marketable itself its gas
      ahead is their total gas, as long as that fits u64. */
  ghost predicate GasAheadIsExact(p: Pool, tx: PendingTx)
    requires AccountsOk(p.accounts, p.config.perAccountCapacity) && Tracked(p, tx)
  {
    var own := QueueKey(p.baseFee, tx);
    && (forall key :: key in Ahead(p.queue, own) <==> NamesMarketable(p, key) && Precedes(key, own))
    && (Classify(p.accounts, p.baseFee, tx) == Marketable && TotalGas(p.accounts, Ahead(p.queue, own)) < U64_MODULUS ==>
          GasAhead(p, tx) == Some(TotalGas(p.accounts, Ahead(p.queue, own))))
  }

  /** When the queue is the marketable set, `gas_ahead` is exact. */
  lemma GasAheadIsMarketableGas(p: Pool, tx: PendingTx)
    requires AccountsOk(p.accounts, p.config.perAccountCapacity) && QueueIsMarketableSet(p) && Tracked(p, tx)
    ensures GasAheadIsExact(p, tx)
  {
    var own := QueueKey(p.baseFee, tx);
    forall key
      ensures key in Ahead(p.queue, own) <==> NamesMarketable(p, key) && Precedes(key, own)
    {
      assert key in p.queue <==> NamesMarketable(p, key);
    }
  }

  /** `txs` lists the marketable transactions before `tx` in queue order, each once. */
  ghost predicate ListsAhead(p: Pool, tx: PendingTx, txs: seq<PendingTx>) {
    && (forall i, j :: 0 <= i < j < |txs| ==> txs[i] != txs[j])
    && forall t :: t in txs <==> MarketableBefore(p, t, tx)
  }

  ghost predicate MarketableBefore(p: Pool, t: PendingTx, tx: PendingTx) {
    Tracked(p, t) && Classify(p.accounts, p.baseFee, t) == Marketable && Precedes(QueueKey(p.baseFee, t), QueueKey(p.baseFee, tx))
  }

  /** Such a list can always be made. */
  lemma AheadCanBeListed(p: Pool, tx: PendingTx) returns (txs: seq<PendingTx>)
    requires AccountsOk(p.accounts, p.config.perAccountCapacity) && QueueIsMarketableSet(p)
    ensures ListsAhead(p, tx, txs)
  {
    var own := QueueKey(p.baseFee, tx);
    var keys := Ahead(p.queue, own);
    forall k | k in keys
      ensures At(p.accounts, k.sender, k.nonce).Some? && QueueKey(p.baseFee, At(p.accounts, k.sender, k.nonce).value) == k
    {
      assert NamesMarketable(p, k);
    }
    txs := ListOf(p, keys);
    forall t
      ensures t in txs <==> MarketableBefore(p, t, tx)
    {
      var k := QueueKey(p.baseFee, t);
      assert k in p.queue <==> NamesMarketable(p, k);
    }
  }

  lemma {:induction false} ListOf(p: Pool, keys: set<Key>) returns (txs: seq<PendingTx>)
    requires forall k :: k in keys ==>
               At(p.accounts, k.sender, k.nonce).Some? && QueueKey(p.baseFee, At(p.accounts, k.sender, k.nonce).value) == k
    ensures forall i, j :: 0 <= i < j < |txs| ==> txs[i] != txs[j]
    ensures forall t :: t in txs <==> Tracked(p, t) && QueueKey(p.baseFee, t) in keys
    decreases keys
  {
    if keys == {} {
      txs := [];
    } else {
      var k :| k in keys;
      txs := ListOf(p, keys - {k});
      txs := txs + [At(p.accounts, k.sender, k.nonce).value];
    }
  }

  lemma {:induction false} TotalGasIsSum(p: Pool, keys: set<Key>, txs: seq<PendingTx>)
    requires forall i, j :: 0 <= i < j < |txs| ==> txs[i] != txs[j]
    requires forall i :: 0 <= i < |txs| ==> Tracked(p, txs[i]) && QueueKey(p.baseFee, txs[i]) in keys
    requires forall k :: k in keys ==> exists i :: 0 <= i < |txs| && k == QueueKey(p.baseFee, txs[i])
    ensures TotalGas(p.accounts, keys) == GasSum(txs)
  {
    if txs == [] {
      assert keys == {};
    } else {
      var front, last := txs[..|txs| - 1], txs[|txs| - 1];
      var k := QueueKey(p.baseFee, last);
      forall i | 0 <= i < |front|
        ensures QueueKey(p.baseFee, front[i]) in keys - {k}
      {
        assert Tracked(p, txs[i]) && txs[i] != last;
      }
      forall other | other in keys - {k}
        ensures exists i :: 0 <= i < |front| && other == QueueKey(p.baseFee, front[i])
      {
        var i :| 0 <= i < |txs| && other == QueueKey(p.baseFee, txs[i]);
        assert front[i] == txs[i];
      }
      TotalGasIsSum(p, keys - {k}, front);
      TotalGasWithout(p.accounts, keys, k);
    }
  }

  /** When the queue is the marketable set, the gas ahead is the sum of the gas limits of the marketable transactions
      before `tx`, in whatever order they are listed. */
  lemma GasAheadIsSum(p: Pool, tx: PendingTx, txs: seq<PendingTx>)
    requires AccountsOk(p.accounts, p.config.perAccountCapacity) && QueueIsMarketableSet(p) && Tracked(p, tx)
    requires ListsAhead(p, tx, txs)
    ensures TotalGas(p.accounts, Ahead(p.queue, QueueKey(p.baseFee, tx))) == GasSum(txs)
  {
    var own := QueueKey(p.baseFee, tx);
    GasAheadIsMarketableGas(p, tx);
    forall k | k in Ahead(p.queue, own)
      ensures exists i :: 0 <= i < |txs| && k == QueueKey(p.baseFee, txs[i])
    {
      assert NamesMarketable(p, k);
      var t := At(p.accounts, k.sender, k.nonce).value;
      assert MarketableBefore(p, t, tx);
    }
    forall i | 0 <= i < |txs|
      ensures Tracked(p, txs[i]) && QueueKey(p.baseFee, txs[i]) in Ahead(p.queue, own)
    {
      assert MarketableBefore(p, txs[i], tx);
      assert NamesMarketable(p, QueueKey(p.baseFee, txs[i]));
    }
    TotalGasIsSum(p, Ahead(p.queue, own), txs);
  }

  /** Along the queue order, each transaction's gas ahead covers its predecessors whole. */
  lemma GasAheadAccumulates(p: Pool, first: PendingTx, second: PendingTx)
    requires AccountsOk(p.accounts, p.config.perAccountCapacity) && QueueIsMarketableSet(p)
    requires Tracked(p, first) && Tracked(p, second)
    requires Classify(p.accounts, p.baseFee, first) == Marketable == Classify(p.accounts, p.baseFee, second)
    requires Precedes(QueueKey(p.baseFee, first), QueueKey(p.baseFee, second))
    requires TotalGas(p.accounts, Ahead(p.queue, QueueKey(p.baseFee, second))) < U64_MODULUS
    ensures GasAhead(p, first).Some? && GasAhead(p, second).Some?
    ensures GasAhead(p, first).value + first.gasLimit <= GasAhead(p, second).value
  {
    var k1, k2 := QueueKey(p.baseFee, first), QueueKey(p.baseFee, second);
    assert NamesMarketable(p, k1);
    AheadNests(p.accounts, p.queue, k1, k2);
  }

  lemma AheadNests(accounts: map<Address, Account>, queue: set<Key>, k1: Key, k2: Key)
    requires k1 in queue && Precedes(k1, k2)
    ensures TotalGas(accounts, Ahead(queue, k1)) + GasAt(accounts, k1) <= TotalGas(accounts, Ahead(queue, k2))
  {
    var ahead1, ahead2 := Ahead(queue, k1), Ahead(queue, k2);
    forall k | k in ahead1
      ensures k in ahead2 - {k1}
    {
      PrecedesIsTransitive(k, k1, k2);
    }
    TotalGasOfMore(accounts, ahead1, ahead2 - {k1});
    TotalGasWithout(accounts, ahead2, k1);
  }

  /** The estimate never decreases along the queue order. */
  lemma EstimateFollowsQueueOrder(p: Pool, first: PendingTx, second: PendingTx)
    requires AccountsOk(p.accounts, p.config.perAccountCapacity) && QueueIsMarketableSet(p)
    requires Tracked(p, first) && Tracked(p, second)
    requires Classify(p.accounts, p.baseFee, first) == Marketable == Classify(p.accounts, p.baseFee, second)
    requires Precedes(QueueKey(p.baseFee, first), QueueKey(p.baseFee, second))
    requires TotalGas(p.accounts, Ahead(p.queue, QueueKey(p.baseFee, second))) < U64_MODULUS
    ensures Estimate(p, first).Some? && Estimate(p, second).Some?
    ensures Estimate(p, first).value <= Estimate(p, second).value
  {
    GasAheadAccumulates(p, first, second);
    var usable := UsableCapacity(p.lastGasLimit, p.privateFlow);
    if usable != 0 {
      QuotientGrows(Min(GasAhead(p, first).value + first.gasLimit, U64_MAX),
                    Min(GasAhead(p, second).value + second.gasLimit, U64_MAX), usable);
    }
  }

  // ----- Every run -----

  /** Right after any block of any run, `gas_ahead` is exact for every live transaction. */
  lemma ReachableGasAhead(config: Config, states: seq<Pool>, events: seq<Event>, k: nat, tx: PendingTx)
    requires IsRun(config, states, events) && k < |events| && events[k].NewBlock? && Tracked(states[k + 1], tx)
    ensures AccountsOk(states[k + 1].accounts, states[k + 1].config.perAccountCapacity)
    ensures GasAheadIsExact(states[k + 1], tx)
  {
    ReachableQueueAfterBlock(config, states, events, k);
    GasAheadIsMarketableGas(states[k + 1], tx);
  }

  /** Asking by id for the gas ahead of `tx` has one answer: none unless `tx` is marketable, and otherwise the total gas of
      the marketable transactions before it, if that fits u64. */
  ghost predicate OneAnswer(p: Pool, tx: PendingTx, r: Option<nat>)
    requires AccountsOk(p.accounts, p.config.perAccountCapacity) && Tracked(p, tx)
  {
    && GasAheadIsExact(p, tx)
    && (Classify(p.accounts, p.baseFee, tx) != Marketable ==> (AnswersGasAhead(p, tx.id, r) <==> r == None))
    && (Classify(p.accounts, p.baseFee, tx) == Marketable
        && TotalGas(p.accounts, Ahead(p.queue, QueueKey(p.baseFee, tx))) < U64_MODULUS ==>
          (AnswersGasAhead(p, tx.id, r) <==> r == Some(TotalGas(p.accounts, Ahead(p.queue, QueueKey(p.baseFee, tx))))))
  }

  /** Right after any block of any run, with unique ids, the query by id is exact. */
  lemma ReachableGasAheadById(config: Config, states: seq<Pool>, events: seq<Event>, k: nat, tx: PendingTx, r: Option<nat>)
    requires IsRun(config, states, events) && k < |events| && events[k].NewBlock? && Tracked(states[k + 1], tx)
    ensures AccountsOk(states[k + 1].accounts, states[k + 1].config.perAccountCapacity)
    ensures UniqueIds(states[k + 1].accounts) ==> OneAnswer(states[k + 1], tx, r)
  {
    ReachableGasAhead(config, states, events, k, tx);
    if UniqueIds(states[k + 1].accounts) {
      UniqueAnswers(states[k + 1], tx, r);
    }
  }

  /** `gas` fills `blocks` whole blocks of capacity `u` and no more; without capacity the answer is u64::MAX. */
  predicate FillsBlocks(blocks: nat, u: nat, gas: nat) {
    if u == 0 then blocks == U64_MAX else GasIn(blocks, u) <= gas < GasIn(blocks + 1, u)
  }

  function GasIn(blocks: nat, u: nat): nat {
    blocks * u
  }

  lemma DivisionFillsBlocks(gas: nat, u: nat)
    ensures FillsBlocks(if u == 0 then U64_MAX else gas / u, u, gas)
  {
    if u > 0 {
      assert gas == (gas / u) * u + gas % u;
    }
  }

  /** The two answers for `tx`, spelled out for a total `gas` ahead of it: none unless it is marketable; otherwise that gas,
      if it fits u64, and the whole blocks that it and the gas of `tx` fill. */
  ghost predicate AnswersSpelledOut(p: Pool, tx: PendingTx, gasLimit: U64, gas: nat)
    requires Tracked(p, tx)
  {
    && (Classify(p.accounts, p.baseFee, tx) != Marketable ==> GasAhead(p, tx) == Estimate(p, tx) == None)
    && (Classify(p.accounts, p.baseFee, tx) == Marketable && gas < U64_MODULUS ==>
          && GasAhead(p, tx) == Some(gas)
          && Estimate(p, tx).Some?
          && FillsBlocks(Estimate(p, tx).value, UsableCapacity(gasLimit, p.privateFlow), Min(gas + tx.gasLimit, U64_MAX)))
  }

  lemma AnswersMeaning(p: Pool, tx: PendingTx, gas: nat)
    requires Tracked(p, tx) && TotalGas(p.accounts, Ahead(p.queue, QueueKey(p.baseFee, tx))) == gas
    ensures AnswersSpelledOut(p, tx, p.lastGasLimit, gas)
  {
    if Classify(p.accounts, p.baseFee, tx) == Marketable && gas < U64_MODULUS {
      EstimateMeaning(p, tx, gas);
    }
  }

  lemma EstimateMeaning(p: Pool, tx: PendingTx, gas: nat)
    requires tx.sender in p.accounts ==> p.accounts[tx.sender].confirmed <= tx.nonce
    requires GasAhead(p, tx) == Some(gas)
    ensures Estimate(p, tx).Some?
    ensures FillsBlocks(Estimate(p, tx).value, UsableCapacity(p.lastGasLimit, p.privateFlow), Min(gas + tx.gasLimit, U64_MAX))
  {
    BlocksForMeaning(p, gas, tx.gasLimit);
  }

  lemma BlocksForMeaning(p: Pool, gasAhead: nat, gasLimit: nat)
    ensures FillsBlocks(BlocksFor(p, gasAhead, gasLimit), UsableCapacity(p.lastGasLimit, p.privateFlow), Min(gasAhead + gasLimit, U64_MAX))
  {
    DivisionFillsBlocks(Min(gasAhead + gasLimit, U64_MAX), UsableCapacity(p.lastGasLimit, p.privateFlow));
  }

  /** Right after any block of any run, for every live transaction, with that block's gas limit: the answers are those. */
  lemma ReachableAnswers(config: Config, states: seq<Pool>, events: seq<Event>, k: nat, tx: PendingTx, ahead: seq<PendingTx>)
    requires IsRun(config, states, events) && k < |events| && events[k].NewBlock? && Tracked(states[k + 1], tx)
    requires ListsAhead(states[k + 1], tx, ahead)
    ensures AnswersSpelledOut(states[k + 1], tx, events[k].block.gasLimit, GasSum(ahead))
  {
    ReachableQueueAfterBlock(config, states, events, k);
    assert states[k + 1].lastGasLimit == events[k].block.gasLimit by {
      assert states[k + 1] == Apply(states[k], events[k]);
    }
    GasAheadIsSum(states[k + 1], tx, ahead);
    AnswersMeaning(states[k + 1], tx, GasSum(ahead));
  }

  /** Right after any block of any run: the confirmation estimate never decreases along the queue order. */
  lemma ReachableEstimateOrder(config: Config, states: seq<Pool>, events: seq<Event>, k: nat, first: PendingTx, second: PendingTx)
    requires IsRun(config, states, events) && k < |events| && events[k].NewBlock?
    requires Tracked(states[k + 1], first) && Tracked(states[k + 1], second)
    requires Classify(states[k + 1].accounts, states[k + 1].baseFee, first) == Marketable
    requires Classify(states[k + 1].accounts, states[k + 1].baseFee, second) == Marketable
    requires Precedes(QueueKey(states[k + 1].baseFee, first), QueueKey(states[k + 1].baseFee, second))
    requires TotalGas(states[k + 1].accounts, Ahead(states[k + 1].queue, QueueKey(states[k + 1].baseFee, second))) < U64_MODULUS
    ensures Estimate(states[k + 1], first).Some? && Estimate(states[k + 1], second).Some?
    ensures Estimate(states[k + 1], first).value <= Estimate(states[k + 1], second).value
  {
    ReachableQueueAfterBlock(config, states, events, k);
    EstimateFollowsQueueOrder(states[k + 1], first, second);
  }
}
