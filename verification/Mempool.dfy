/** crates/mempooloracle/src/lib.rs: the tracker state as it is updated in place. */
module Mempool {
  import opened Prelude
  import opened MempoolState
  import MI = MempoolInsert
  import MB = MempoolBlock
  import MQ = MempoolQueries
  import MR = MempoolRuns

  lemma FirstIsUnique(a: Key, b: Key, keys: set<Key>)
    requires IsFirst(a, keys) && IsFirst(b, keys)
    ensures a == b
  {
  }

  lemma FirstOfMore(k: Key, other: Key, keys: set<Key>)
    requires IsFirst(k, keys)
    ensures IsFirst(if Precedes(other, k) then other else k, keys + {other})
  {
  }

  /** The first key of a non-empty ordered map. */
  method FirstKey(keys: set<Key>) returns (k: Key)
    requires keys != {}
    ensures IsFirst(k, keys) && k == First(keys)
  {
    k :| k in keys;
    var rest := keys - {k};
    while rest != {}
      invariant rest <= keys && IsFirst(k, keys - rest)
      decreases |rest|
    {
      var other :| other in rest;
      FirstOfMore(k, other, keys - rest);
      assert keys - (rest - {other}) == (keys - rest) + {other};
      if Precedes(other, k) {
        k := other;
      }
      rest := rest - {other};
    }
    assert keys - {} == keys;
    FirstIsUnique(k, First(keys), keys);
  }

  // ----- Specification of the block loops -----

  /** An account after `take()` has emptied the slots of the included transactions. */
  function TakenAccount(a: Address, account: Account, txs: seq<PendingTx>): Account {
    account.(slots := seq(|account.slots|, (j: nat) requires j < |account.slots| =>
      if MB.Includes(txs, a, account.confirmed + j) then None else account.slots[j]))
  }

  function Taken(accounts: map<Address, Account>, txs: seq<PendingTx>): map<Address, Account> {
    map a | a in accounts :: TakenAccount(a, accounts[a], txs)
  }

  lemma TakenNone(accounts: map<Address, Account>)
    ensures Taken(accounts, []) == accounts
  {
    forall a | a in accounts
      ensures TakenAccount(a, accounts[a], []) == accounts[a]
    {
      forall j: nat | j < |accounts[a].slots|
        ensures TakenAccount(a, accounts[a], []).slots[j] == accounts[a].slots[j]
      {
        assert !MB.Includes([], a, accounts[a].confirmed + j);
      }
      assert TakenAccount(a, accounts[a], []).slots == accounts[a].slots;
    }
  }

  /** Emptying included slots is undone by the drain: they all lie below the new confirmed nonce. */
  lemma TakenAccountIsDrained(a: Address, account: Account, txs: seq<PendingTx>)
    ensures MB.AdvanceAccount(a, TakenAccount(a, account, txs), txs) == MB.AdvanceAccount(a, account, txs)
  {
    MB.NextConfirmedIsLargest(account.confirmed, a, txs);
    var taken := TakenAccount(a, account, txs);
    var drain := MB.NextConfirmed(account.confirmed, a, txs) - account.confirmed;
    forall j: nat | drain <= j < |taken.slots|
      ensures taken.slots[j] == account.slots[j]
    {
      assert !MB.Includes(txs, a, account.confirmed + j);
    }
    assert drain < |taken.slots| ==> taken.slots[drain..] == account.slots[drain..];
  }

  lemma TakenSlotsAreDrained(accounts: map<Address, Account>, txs: seq<PendingTx>)
    ensures MB.Advance(Taken(accounts, txs), txs) == MB.Advance(accounts, txs)
  {
    forall a | a in accounts
      ensures MB.AdvanceAccount(a, TakenAccount(a, accounts[a], txs), txs) == MB.AdvanceAccount(a, accounts[a], txs)
    {
      TakenAccountIsDrained(a, accounts[a], txs);
    }
  }

  lemma TakeOne(accounts: map<Address, Account>, txs: seq<PendingTx>, i: nat)
    requires i < |txs|
    ensures var now := Taken(accounts, txs[..i]);
            var tx := txs[i];
            Taken(accounts, txs[..i + 1]) ==
              if At(now, tx.sender, tx.nonce).Some? then MI.Cleared(now, tx.sender, tx.nonce) else now
  {
    var now, next := Taken(accounts, txs[..i]), Taken(accounts, txs[..i + 1]);
    var tx := txs[i];
    assert txs[..i + 1] == txs[..i] + [tx];
    forall a | a in accounts
      ensures next[a] == if a == tx.sender && At(now, a, tx.nonce).Some?
                         then MI.Cleared(now, a, tx.nonce)[a] else now[a]
    {
      forall j: nat | j < |accounts[a].slots|
        ensures next[a].slots[j] == if a == tx.sender && accounts[a].confirmed + j == tx.nonce then None else now[a].slots[j]
      {
        MB.IncludesSnoc(txs[..i], tx, a, accounts[a].confirmed + j);
      }
    }
  }

  lemma UnmineOne(p: Pool, txs: seq<PendingTx>, i: nat)
    requires i < |txs| && AccountsOk(p.accounts, p.config.perAccountCapacity)
    ensures var tx := At(Taken(p.accounts, txs[..i]), txs[i].sender, txs[i].nonce);
            MB.Unmined(p, txs[..i + 1]) ==
              if tx.Some? then MB.Unmined(p, txs[..i]) - {EligibilityKey(tx.value)} else MB.Unmined(p, txs[..i])
  {
  }

  lemma DropTwice(slots: seq<Option<PendingTx>>, x: nat, y: nat)
    ensures MB.Drop(MB.Drop(slots, x), y) == MB.Drop(slots, x + y)
  {
  }

  /** One iteration of the confirmed-nonce loop on one account. */
  function Raise(account: Account, next: nat): Account {
    var c := Max(account.confirmed, next);
    Account(c, MB.Drop(account.slots, c - account.confirmed))
  }

  function RaiseTx(accounts: map<Address, Account>, tx: PendingTx): map<Address, Account> {
    if tx.sender in accounts then accounts[tx.sender := Raise(accounts[tx.sender], tx.nonce + 1)] else accounts
  }

  lemma AdvanceAccountOther(a: Address, account: Account, txs: seq<PendingTx>, i: nat)
    requires i < |txs| && txs[i].sender != a
    ensures MB.AdvanceAccount(a, account, txs[..i + 1]) == MB.AdvanceAccount(a, account, txs[..i])
  {
    assert txs[..i + 1][..i] == txs[..i];
  }

  lemma AdvanceAccountOwn(a: Address, account: Account, txs: seq<PendingTx>, i: nat)
    requires i < |txs| && txs[i].sender == a
    ensures MB.AdvanceAccount(a, account, txs[..i + 1]) == Raise(MB.AdvanceAccount(a, account, txs[..i]), txs[i].nonce + 1)
  {
    assert txs[..i + 1][..i] == txs[..i];
    var c := MB.NextConfirmed(account.confirmed, a, txs[..i]);
    var c' := MB.NextConfirmed(account.confirmed, a, txs[..i + 1]);
    assert c' == Max(c, txs[i].nonce + 1);
    DropTwice(account.slots, c - account.confirmed, c' - c);
  }

  lemma AdvanceNone(accounts: map<Address, Account>)
    ensures MB.Advance(accounts, []) == accounts
  {
  }

  lemma AdvanceOne(accounts: map<Address, Account>, txs: seq<PendingTx>, i: nat)
    requires i < |txs|
    ensures MB.Advance(accounts, txs[..i + 1]) == RaiseTx(MB.Advance(accounts, txs[..i]), txs[i])
  {
    forall a | a in accounts
      ensures MB.Advance(accounts, txs[..i + 1])[a] ==
                var now := MB.Advance(accounts, txs[..i])[a];
                if txs[i].sender == a then Raise(now, txs[i].nonce + 1) else now
    {
      if txs[i].sender == a {
        AdvanceAccountOwn(a, accounts[a], txs, i);
      } else {
        AdvanceAccountOther(a, accounts[a], txs, i);
      }
    }
  }

  /** The queue keys of the first `i` slots. */
  function KeysUpTo(baseFee: nat, a: Address, account: Account, i: nat): set<Key>
    requires i <= |account.slots|
  {
    MB.PrefixKeys(baseFee, a, account.(slots := account.slots[..i]))
  }

  lemma KeysUpToMeaning(baseFee: nat, a: Address, account: Account, i: nat, k: Key)
    requires i <= |account.slots|
    ensures k in KeysUpTo(baseFee, a, account, i) <==>
              && k.sender == a && account.confirmed <= k.nonce < account.confirmed + i
              && account.slots[k.nonce - account.confirmed].Some?
              && Unblocked(baseFee, account.slots, k.nonce - account.confirmed + 1)
              && k.fee == EffectiveTip(baseFee, account.slots[k.nonce - account.confirmed].value)
  {
  }

  lemma KeysUpToStep(baseFee: nat, a: Address, account: Account, i: nat)
    requires i < |account.slots|
    ensures Unblocked(baseFee, account.slots, i + 1) <==>
              Unblocked(baseFee, account.slots, i) && Pays(baseFee, account.slots[i])
    ensures KeysUpTo(baseFee, a, account, i + 1) ==
              if Unblocked(baseFee, account.slots, i + 1)
              then KeysUpTo(baseFee, a, account, i) + {Key(EffectiveTip(baseFee, account.slots[i].value), a, account.confirmed + i)}
              else KeysUpTo(baseFee, a, account, i)
  {
    assert Unblocked(baseFee, account.slots, i + 1) <==> Unblocked(baseFee, account.slots, i) && Pays(baseFee, account.slots[i]);
    forall k
      ensures k in KeysUpTo(baseFee, a, account, i + 1) <==>
                || k in KeysUpTo(baseFee, a, account, i)
                || (Unblocked(baseFee, account.slots, i + 1)
                    && k == Key(EffectiveTip(baseFee, account.slots[i].value), a, account.confirmed + i))
    {
      KeysUpToMeaning(baseFee, a, account, i, k);
      KeysUpToMeaning(baseFee, a, account, i + 1, k);
    }
  }

  lemma KeysUpToEnds(baseFee: nat, a: Address, account: Account)
    ensures KeysUpTo(baseFee, a, account, 0) == {}
    ensures KeysUpTo(baseFee, a, account, |account.slots|) == MB.PrefixKeys(baseFee, a, account)
  {
    assert account.slots[..|account.slots|] == account.slots;
  }

  ghost function InsertAll(p: Pool, txs: seq<PendingTx>): Pool {
    if txs == [] then p else MI.Insert(InsertAll(p, txs[..|txs| - 1]), txs[|txs| - 1])
  }

  /** A tracker created with initial transactions is where a run over them, in order, leads. */
  lemma {:induction false} InitialIsRun(config: Config, initial: seq<PendingTx>) returns (states: seq<Pool>, events: seq<MR.Event>)
    requires forall i :: 0 <= i < |initial| ==> ProtocolNonce(initial[i])
    ensures MR.IsRun(config, states, events) && |events| == |initial|
    ensures forall i :: 0 <= i < |initial| ==> events[i] == MR.Pending(initial[i])
    ensures states[|events|] == InsertAll(Empty(config), initial)
  {
    if initial == [] {
      states, events := [Empty(config)], [];
    } else {
      var front, last := initial[..|initial| - 1], initial[|initial| - 1];
      states, events := InitialIsRun(config, front);
      states, events := MR.Extend(config, states, events, MR.Pending(last));
    }
  }

  class MempoolInner {
    var accountQueues: map<Address, Account>
    var baseFeeEligibility: set<Key>
    var priorityQueue: set<Key>
    var currentBaseFee: nat
    var privateFlowRatio: real
    var lastBlockGasLimit: U64
    const config: Config

    function State(): Pool
      reads this
    {
      Pool(accountQueues, baseFeeEligibility, priorityQueue, currentBaseFee, privateFlowRatio, lastBlockGasLimit, config)
    }

    constructor (config: Config, initial: seq<PendingTx>)
      requires forall i :: 0 <= i < |initial| ==> ProtocolNonce(initial[i])
      ensures State() == InsertAll(Empty(config), initial) && WellFormed(State())
    {
      this.config := config;
      accountQueues, baseFeeEligibility, priorityQueue := map[], {}, {};
      currentBaseFee, privateFlowRatio, lastBlockGasLimit := config.initialBaseFee, config.privateFlowPrior, 30_000_000;
      new;
      for i := 0 to |initial|
        invariant WellFormed(State()) && State() == InsertAll(Empty(config), initial[..i])
      {
        assert initial[..i + 1][..i] == initial[..i];
        Insert(initial[i]);
      }
      assert initial[..|initial|] == initial;
    }

    /** Pops the first queue key and drops the transaction it points at, if any. */
    method EvictFirst(k: Key)
      requires WellFormed(State()) && priorityQueue != {} && k == First(priorityQueue)
      modifies this
      ensures State() == MI.Evict(old(State()))
    {
      priorityQueue := priorityQueue - {k};
      if k.sender in accountQueues {
        var queue := accountQueues[k.sender];
        var offset: U64 := k.nonce - queue.confirmed;
        if offset < |queue.slots| && queue.slots[offset].Some? {
          var evicted := queue.slots[offset].value;
          baseFeeEligibility := baseFeeEligibility - {Key(evicted.maxFee, k.sender, k.nonce)};
          accountQueues := accountQueues[k.sender := queue.(slots := queue.slots[offset := None])];
        }
      }
    }

    /** Account admission, slot placement and indexing. */
    method PlaceTx(tx: PendingTx)
      requires WellFormed(State()) && ProtocolNonce(tx)
      modifies this
      ensures State() == MI.Place(old(State()), tx)
    {
      if tx.sender !in accountQueues {
        accountQueues := accountQueues[tx.sender := Account(tx.nonce, [])];
      }
      var queue := accountQueues[tx.sender];
      assert AccountOk(tx.sender, queue, config.perAccountCapacity);
      if tx.nonce < queue.confirmed {
        var prepend: U64 := queue.confirmed - tx.nonce;
        var total: U64 := prepend + |queue.slots|;
        if total > config.perAccountCapacity {
          return;
        }
        queue := Account(tx.nonce, MI.Gaps(prepend) + queue.slots);
      }
      var slotIndex: U64 := tx.nonce - queue.confirmed;
      if slotIndex >= config.perAccountCapacity {
        return;
      }
      if slotIndex >= |queue.slots| {
        queue := queue.(slots := queue.slots + MI.Gaps(slotIndex + 1 - |queue.slots|));
      }
      queue := queue.(slots := queue.slots[slotIndex := Some(tx)]);
      accountQueues := accountQueues[tx.sender := queue];
      baseFeeEligibility := baseFeeEligibility + {EligibilityKey(tx)};
      priorityQueue := priorityQueue + {QueueKey(currentBaseFee, tx)};
    }

    method Insert(tx: PendingTx)
      requires WellFormed(State()) && ProtocolNonce(tx)
      modifies this
      ensures State() == MI.Insert(old(State()), tx)
      ensures WellFormed(State())
    {
      MI.InsertMeaning(State(), tx);
      if |baseFeeEligibility| >= config.globalCapacity {
        if priorityQueue == {} {
          return;
        }
        var k := FirstKey(priorityQueue);
        if EffectiveTip(currentBaseFee, tx) <= k.fee {
          return;
        }
        MI.EvictMeaning(State());
        EvictFirst(k);
      }
      PlaceTx(tx);
    }

    /** Gas of the included transactions that are tracked, in wrapping u64 arithmetic. */
    method KnownGasUsed(txs: seq<PendingTx>) returns (known: U64)
      ensures known == MB.KnownGas(accountQueues, txs) % U64_MODULUS
    {
      known := 0;
      for i := 0 to |txs|
        invariant known == MB.KnownGas(accountQueues, txs[..i]) % U64_MODULUS
      {
        assert txs[..i + 1][..i] == txs[..i];
        var tx := txs[i];
        if tx.sender in accountQueues {
          var queue := accountQueues[tx.sender];
          if tx.nonce >= queue.confirmed && tx.nonce - queue.confirmed < |queue.slots|
             && queue.slots[tx.nonce - queue.confirmed].Some? {
            WrappingAdd(MB.KnownGas(accountQueues, txs[..i]), tx.gasLimit, 0);
            known := (known + tx.gasLimit) % U64_MODULUS;
          }
        }
      }
      assert txs[..|txs|] == txs;
    }

    /** Takes every included transaction out of its slot and out of the base-fee index. */
    method RemoveIncluded(txs: seq<PendingTx>)
      requires AccountsOk(accountQueues, config.perAccountCapacity)
      modifies this`accountQueues, this`baseFeeEligibility, this`priorityQueue
      ensures accountQueues == Taken(old(accountQueues), txs)
      ensures baseFeeEligibility == MB.Unmined(old(State()), txs)
    {
      ghost var p := State();
      TakenNone(p.accounts);
      for i := 0 to |txs|
        invariant accountQueues == Taken(p.accounts, txs[..i])
        invariant baseFeeEligibility == MB.Unmined(p, txs[..i])
      {
        TakeOne(p.accounts, txs, i);
        UnmineOne(p, txs, i);
        var tx := txs[i];
        if tx.sender in accountQueues {
          var queue := accountQueues[tx.sender];
          if tx.nonce >= queue.confirmed && tx.nonce - queue.confirmed < |queue.slots| {
            var offset := tx.nonce - queue.confirmed;
            if queue.slots[offset].Some? {
              var mempoolTx := queue.slots[offset].value;
              accountQueues := accountQueues[tx.sender := queue.(slots := queue.slots[offset := None])];
              baseFeeEligibility := baseFeeEligibility - {EligibilityKey(mempoolTx)};
              priorityQueue := priorityQueue - {QueueKey(currentBaseFee, mempoolTx)};
            }
          }
        }
      }
      assert txs[..|txs|] == txs;
    }

    /** Raises one sender's confirmed nonce past `tx` and drains the slots it passes. */
    method RaiseSender(tx: PendingTx)
      requires ProtocolNonce(tx)
      modifies this`accountQueues
      ensures accountQueues == RaiseTx(old(accountQueues), tx)
    {
      if tx.sender in accountQueues {
        var queue := accountQueues[tx.sender];
        var next: U64 := tx.nonce + 1;
        var confirmed := Max(queue.confirmed, next);
        var drain := confirmed - queue.confirmed;
        var slots := queue.slots;
        if drain > 0 {
          if drain < |slots| {
            slots := slots[drain..];
          } else {
            slots := [];
          }
        }
        accountQueues := accountQueues[tx.sender := Account(confirmed, slots)];
      }
    }

    method AdvanceNonces(txs: seq<PendingTx>)
      requires forall i :: 0 <= i < |txs| ==> ProtocolNonce(txs[i])
      modifies this`accountQueues
      ensures accountQueues == MB.Advance(old(accountQueues), txs)
    {
      ghost var before := accountQueues;
      AdvanceNone(before);
      for i := 0 to |txs|
        invariant accountQueues == MB.Advance(before, txs[..i])
      {
        AdvanceOne(before, txs, i);
        RaiseSender(txs[i]);
      }
      assert txs[..|txs|] == txs;
    }

    /** Queues one slot, unless an earlier one was missing or did not pay or this one is or does not. */
    method QueueSlot(slot: Option<PendingTx>, nonceBound: bool) returns (bound: bool)
      modifies this`priorityQueue
      ensures bound <==> nonceBound || !Pays(currentBaseFee, slot)
      ensures priorityQueue == if bound then old(priorityQueue) else old(priorityQueue) + {QueueKey(currentBaseFee, slot.value)}
    {
      if slot.None? {
        return true;
      }
      if nonceBound || slot.value.maxFee < currentBaseFee {
        return true;
      }
      if EffectiveTip(currentBaseFee, slot.value) > 0 {
        priorityQueue := priorityQueue + {QueueKey(currentBaseFee, slot.value)};
        return false;
      }
      return true;
    }

    /** Queues one account's transactions until the first that is missing or does not pay. */
    method QueueAccount(a: Address)
      requires a in accountQueues && AccountOk(a, accountQueues[a], config.perAccountCapacity)
      modifies this`priorityQueue
      ensures priorityQueue == old(priorityQueue) + MB.PrefixKeys(currentBaseFee, a, accountQueues[a])
    {
      var account := accountQueues[a];
      var nonceBound := false;
      KeysUpToEnds(currentBaseFee, a, account);
      for i := 0 to |account.slots|
        invariant nonceBound <==> !Unblocked(currentBaseFee, account.slots, i)
        invariant priorityQueue == old(priorityQueue) + KeysUpTo(currentBaseFee, a, account, i)
      {
        KeysUpToStep(currentBaseFee, a, account, i);
        nonceBound := QueueSlot(account.slots[i], nonceBound);
      }
    }

    /** Rebuilds the queue, visiting the accounts in any order. */
    method RebuildQueue()
      requires AccountsOk(accountQueues, config.perAccountCapacity)
      modifies this`priorityQueue
      ensures priorityQueue == MB.MarketableKeys(currentBaseFee, accountQueues)
    {
      priorityQueue := {};
      var todo := accountQueues.Keys;
      while todo != {}
        invariant todo <= accountQueues.Keys
        invariant forall k :: k in priorityQueue <==>
                    k.sender in accountQueues.Keys - todo && k in MB.PrefixKeys(currentBaseFee, k.sender, accountQueues[k.sender])
        decreases |todo|
      {
        var a :| a in todo;
        forall k
          ensures k in MB.PrefixKeys(currentBaseFee, a, accountQueues[a]) ==> k.sender == a
        {
          MB.PrefixKeysMeaning(currentBaseFee, a, accountQueues[a], k);
        }
        QueueAccount(a);
        todo := todo - {a};
      }
      forall k
        ensures k in priorityQueue <==> k in MB.MarketableKeys(currentBaseFee, accountQueues)
      {
        MB.MarketableKeysMeaning(currentBaseFee, accountQueues, k);
      }
    }

    method ApplyBlock(block: Block)
      requires WellFormed(State()) && ProtocolBlock(block)
      modifies this
      ensures State() == MB.ApplyBlock(old(State()), block)
      ensures WellFormed(State())
    {
      ghost var p := State();
      MB.BlockKeepsWellFormed(p, block);
      var known := KnownGasUsed(block.included);
      if block.gasLimit > 0 {
        var privateGas := SaturatingSub(block.gasUsed, known);
        var observed := privateGas as real / block.gasLimit as real;
        privateFlowRatio := 0.1 * observed + (1.0 - 0.1) * privateFlowRatio;
      }
      lastBlockGasLimit := block.gasLimit;
      RemoveIncluded(block.included);
      AdvanceNonces(block.included);
      TakenSlotsAreDrained(p.accounts, block.included);
      currentBaseFee := block.newBaseFee;
      RebuildQueue();
    }

    method ClassifyTransaction(tx: PendingTx) returns (c: Classification)
      requires tx.sender in accountQueues ==> accountQueues[tx.sender].confirmed <= tx.nonce
      ensures c == Classify(accountQueues, currentBaseFee, tx)
    {
      if tx.sender !in accountQueues {
        return NonceBound;
      }
      var queue := accountQueues[tx.sender];
      for i := 0 to tx.nonce - queue.confirmed
        invariant Unblocked(currentBaseFee, queue.slots, i)
      {
        if i < |queue.slots| && queue.slots[i].Some? {
          var earlier := queue.slots[i].value;
          if earlier.maxFee < currentBaseFee {
            return NonceBound;
          }
          if EffectiveTip(currentBaseFee, earlier) == 0 {
            return NonceBound;
          }
        } else {
          return NonceBound;
        }
      }
      if tx.maxFee < currentBaseFee {
        return BaseFeeInvalid;
      }
      if EffectiveTip(currentBaseFee, tx) == 0 {
        return Unmarketable;
      }
      return Marketable;
    }

    method FindTxByAddrAndNonce(a: Address, nonce: nat) returns (r: Option<PendingTx>)
      ensures r == At(accountQueues, a, nonce)
    {
      r := None;
      if a in accountQueues {
        var queue := accountQueues[a];
        if nonce >= queue.confirmed && nonce - queue.confirmed < |queue.slots| {
          r := queue.slots[nonce - queue.confirmed];
        }
      }
    }

    /** A live transaction with this id, whichever account is visited first; none only if there is none. */
    method FindTxById(id: TxId) returns (r: Option<PendingTx>)
      requires AccountsOk(accountQueues, config.perAccountCapacity)
      ensures r.Some? ==> r.value.id == id && MQ.Tracked(State(), r.value)
      ensures r.None? ==> MQ.Unknown(State(), id)
    {
      var todo := accountQueues.Keys;
      while todo != {}
        invariant todo <= accountQueues.Keys
        invariant forall a, n :: a !in todo && At(accountQueues, a, n).Some? ==> At(accountQueues, a, n).value.id != id
        decreases |todo|
      {
        var a :| a in todo;
        var queue := accountQueues[a];
        assert AccountOk(a, queue, config.perAccountCapacity);
        for i := 0 to |queue.slots|
          invariant forall j :: 0 <= j < i && queue.slots[j].Some? ==> queue.slots[j].value.id != id
        {
          if queue.slots[i].Some? && queue.slots[i].value.id == id {
            return queue.slots[i];
          }
        }
        todo := todo - {a};
      }
      r := None;
    }

    /** `gas_ahead` once its transaction is found. */
    method GasAheadOf(tx: PendingTx) returns (r: Option<nat>)
      requires WellFormed(State()) && MQ.Tracked(State(), tx)
      ensures r == MQ.GasAhead(State(), tx)
    {
      var c := ClassifyTransaction(tx);
      if c != Marketable {
        return None;
      }
      var range := MQ.Ahead(priorityQueue, QueueKey(currentBaseFee, tx));
      var total := SumGas(range);
      r := Some(total);
    }

    /** Adds up the gas behind a range of queue keys, in wrapping u64 arithmetic. */
    method SumGas(range: set<Key>) returns (total: U64)
      ensures total == MQ.TotalGas(accountQueues, range) % U64_MODULUS
    {
      total := 0;
      var rest := range;
      ghost var left := MQ.TotalGas(accountQueues, range);
      while rest != {}
        invariant left == MQ.TotalGas(accountQueues, rest)
        invariant (total + left) % U64_MODULUS == MQ.TotalGas(accountQueues, range) % U64_MODULUS
        decreases |rest|
      {
        var k := FirstKey(rest);
        var txAhead := FindTxByAddrAndNonce(k.sender, k.nonce);
        var gas := if txAhead.Some? then txAhead.value.gasLimit else 0;
        MQ.TotalGasWithout(accountQueues, rest, k);
        rest := rest - {k};
        left := left - gas;
        WrappingAdd(total, gas, left);
        total := (total + gas) % U64_MODULUS;
      }
    }

    /** `gas_ahead`: the answer for the live transaction found under this id. */
    method GasAhead(id: TxId) returns (r: Option<nat>)
      requires WellFormed(State())
      ensures MQ.AnswersGasAhead(State(), id, r)
    {
      var tx := FindTxById(id);
      r := None;
      if tx.Some? {
        r := GasAheadOf(tx.value);
      }
    }

    /** `estimated_blocks_to_confirm`. The two look-ups of the source visit an unchanged map in the same
        order, so they find the same transaction; it is looked up once here. */
    method EstimatedBlocksToConfirm(id: TxId) returns (r: Option<nat>)
      requires WellFormed(State())
      ensures MQ.AnswersEstimate(State(), id, r)
    {
      var tx := FindTxById(id);
      if tx.None? {
        return None;
      }
      var gasAhead := GasAheadOf(tx.value);
      if gasAhead.None? {
        return None;
      }
      var usable := MR.UsableCapacity(lastBlockGasLimit, privateFlowRatio);
      if usable == 0 {
        return Some(U64_MAX);
      }
      r := Some(Min(gasAhead.value + tx.value.gasLimit, U64_MAX) / usable);
    }
  }
}
