/** `MempoolInner::apply_block` in closed form: what a block does to the state, with no reference to the
    order of its transactions or of the accounts. */
module MempoolBlock {
  import opened Prelude
  import opened MempoolState

  predicate Includes(txs: seq<PendingTx>, a: Address, n: nat) {
    exists i :: 0 <= i < |txs| && txs[i].sender == a && txs[i].nonce == n
  }

  // ----- Private order flow -----

  /** Total gas of the included transactions that were being tracked. */
  function KnownGas(accounts: map<Address, Account>, txs: seq<PendingTx>): nat {
    if txs == [] then 0
    else
      KnownGas(accounts, txs[..|txs| - 1]) + TrackedGas(accounts, txs[|txs| - 1])
  }

  function TrackedGas(accounts: map<Address, Account>, tx: PendingTx): nat {
    if At(accounts, tx.sender, tx.nonce).Some? then tx.gasLimit else 0
  }

  /** The share of the gas limit used by transactions never seen in the mempool; the u64 sum of known gas wraps. */
  function ObservedFlow(accounts: map<Address, Account>, b: Block): real
    requires b.gasLimit > 0
  {
    Ratio(PrivateGas(accounts, b), b.gasLimit)
  }

  function PrivateGas(accounts: map<Address, Account>, b: Block): nat {
    SaturatingSub(b.gasUsed, KnownGas(accounts, b.included) % U64_MODULUS)
  }

  function Ratio(x: nat, y: nat): real
    requires y > 0
  {
    x as real / y as real
  }

  /** The moving average with weight 0.1; a block without a gas limit leaves it alone. */
  function FlowAfter(p: Pool, b: Block): real {
    if b.gasLimit > 0 then 0.1 * ObservedFlow(p.accounts, b) + 0.9 * p.privateFlow else p.privateFlow
  }

  // ----- Confirmed nonces -----

  /** The larger of `confirmed` and every included nonce of `a` plus one. */
  function NextConfirmed(confirmed: nat, a: Address, txs: seq<PendingTx>): (c: nat)
    ensures c >= confirmed
  {
    if txs == [] then confirmed
    else
      var last := txs[|txs| - 1];
      var before := NextConfirmed(confirmed, a, txs[..|txs| - 1]);
      if last.sender == a then Max(before, last.nonce + 1) else before
  }

  function Drop(slots: seq<Option<PendingTx>>, count: nat): seq<Option<PendingTx>> {
    if count < |slots| then slots[count..] else []
  }

  lemma {:induction false} NextConfirmedIsLargest(confirmed: nat, a: Address, txs: seq<PendingTx>)
    ensures var c := NextConfirmed(confirmed, a, txs);
            && confirmed <= c
            && (forall n: nat :: Includes(txs, a, n) ==> n < c)
            && (c == confirmed || (c > 0 && Includes(txs, a, c - 1)))
  {
    if txs == [] {
    } else {
      var front := txs[..|txs| - 1];
      var last := txs[|txs| - 1];
      NextConfirmedIsLargest(confirmed, a, front);
      forall n: nat
        ensures Includes(txs, a, n) <==> Includes(front, a, n) || (last.sender == a && last.nonce == n)
      {
        IncludesSnoc(front, last, a, n);
        assert txs == front + [last];
      }
    }
  }

  lemma IncludesSnoc(front: seq<PendingTx>, last: PendingTx, a: Address, n: nat)
    ensures Includes(front + [last], a, n) <==> Includes(front, a, n) || (last.sender == a && last.nonce == n)
  {
    var txs := front + [last];
    if Includes(front, a, n) {
      var i :| 0 <= i < |front| && front[i].sender == a && front[i].nonce == n;
      assert txs[i] == front[i];
    }
    if last.sender == a && last.nonce == n {
      assert txs[|front|] == last;
    }
  }

  function AdvanceAccount(a: Address, account: Account, txs: seq<PendingTx>): Account {
    var c := NextConfirmed(account.confirmed, a, txs);
    Account(c, Drop(account.slots, c - account.confirmed))
  }

  function Advance(accounts: map<Address, Account>, txs: seq<PendingTx>): map<Address, Account> {
    map a | a in accounts :: AdvanceAccount(a, accounts[a], txs)
  }

  // ----- Indexes -----

  /** `k` is the base-fee key of a live transaction that the block includes. */
  predicate Mined(accounts: map<Address, Account>, txs: seq<PendingTx>, k: Key) {
    var tx := At(accounts, k.sender, k.nonce);
    Includes(txs, k.sender, k.nonce) && tx.Some? && tx.value.maxFee == k.fee
  }

  function Unmined(p: Pool, txs: seq<PendingTx>): set<Key> {
    set k | k in p.eligibility && !Mined(p.accounts, txs, k)
  }

  /** One account's queue keys: its longest prefix of slots that all pay. */
  function PrefixKeys(baseFee: nat, a: Address, account: Account): set<Key> {
    set i | 0 <= i < |account.slots| && Unblocked(baseFee, account.slots, i + 1)
      :: Key(EffectiveTip(baseFee, account.slots[i].value), a, account.confirmed + i)
  }

  function MarketableKeys(baseFee: nat, accounts: map<Address, Account>): set<Key> {
    set a, k | a in accounts && k in PrefixKeys(baseFee, a, accounts[a]) :: k
  }

  function ApplyBlock(p: Pool, b: Block): Pool {
    var accounts := Advance(p.accounts, b.included);
    Pool(
      accounts,
      Unmined(p, b.included),
      MarketableKeys(b.newBaseFee, accounts),
      b.newBaseFee,
      FlowAfter(p, b),
      b.gasLimit,
      p.config)
  }

  // ----- The live map after a block -----

  /** The block raises each known sender's confirmed nonce to the largest included nonce plus one,
      and the live map is the old one cut off below it. */
  lemma BlockMeaning(p: Pool, b: Block)
    ensures var q := ApplyBlock(p, b);
            && q.accounts.Keys == p.accounts.Keys
            && (forall a :: a in p.accounts ==>
                 q.accounts[a].confirmed == NextConfirmed(p.accounts[a].confirmed, a, b.included) >= p.accounts[a].confirmed)
            && (forall a, n: nat :: At(q.accounts, a, n) ==
                 if a in p.accounts && n >= NextConfirmed(p.accounts[a].confirmed, a, b.included)
                 then At(p.accounts, a, n) else None)
  {
  }

  // ----- The queue after a block -----

  lemma PrefixKeysMeaning(baseFee: nat, a: Address, account: Account, k: Key)
    ensures k in PrefixKeys(baseFee, a, account) <==>
              && k.sender == a
              && SlotAt(account, k.nonce).Some?
              && Unblocked(baseFee, account.slots, k.nonce - account.confirmed + 1)
              && k.fee == EffectiveTip(baseFee, SlotAt(account, k.nonce).value)
  {
  }

  lemma MarketableKeysMeaning(baseFee: nat, accounts: map<Address, Account>, k: Key)
    ensures k in MarketableKeys(baseFee, accounts) <==>
              k.sender in accounts && k in PrefixKeys(baseFee, k.sender, accounts[k.sender])
  {
  }

  /** A live transaction is classified Marketable exactly when every slot up to its own pays. */
  lemma ClassifyMarketable(accounts: map<Address, Account>, capacity: nat, baseFee: nat, a: Address, n: nat)
    requires AccountsOk(accounts, capacity) && At(accounts, a, n).Some?
    ensures At(accounts, a, n).value.sender == a && At(accounts, a, n).value.nonce == n
    ensures Classify(accounts, baseFee, At(accounts, a, n).value) == Marketable <==>
              Unblocked(baseFee, accounts[a].slots, n - accounts[a].confirmed + 1)
  {
  }

  /** `k` is the queue key of a live transaction that `classify_transaction` calls Marketable. */
  ghost predicate NamesMarketable(p: Pool, k: Key)
    requires AccountsOk(p.accounts, p.config.perAccountCapacity)
  {
    var tx := At(p.accounts, k.sender, k.nonce);
    && tx.Some?
    && k == QueueKey(p.baseFee, tx.value)
    && (FiledUnderOwnKey(p.accounts, p.config.perAccountCapacity, k.sender, k.nonce);
        Classify(p.accounts, p.baseFee, tx.value) == Marketable)
  }

  /** The queue is exactly the set of marketable transactions. */
  ghost predicate QueueIsMarketableSet(p: Pool)
    requires AccountsOk(p.accounts, p.config.perAccountCapacity)
  {
    forall k :: k in p.queue <==> NamesMarketable(p, k)
  }

  lemma BlockKeepsAccounts(p: Pool, b: Block)
    requires WellFormed(p) && ProtocolBlock(b)
    ensures AccountsOk(ApplyBlock(p, b).accounts, p.config.perAccountCapacity)
  {
    var q := ApplyBlock(p, b);
    forall a | a in q.accounts
      ensures AccountOk(a, q.accounts[a], p.config.perAccountCapacity)
    {
      assert AccountOk(a, p.accounts[a], p.config.perAccountCapacity);
      NextConfirmedIsLargest(p.accounts[a].confirmed, a, b.included);
    }
  }

  /** After any block, the rebuilt queue and `classify_transaction` describe the same set. */
  lemma QueueAfterBlock(p: Pool, b: Block)
    requires WellFormed(p) && ProtocolBlock(b)
    ensures AccountsOk(ApplyBlock(p, b).accounts, p.config.perAccountCapacity)
    ensures QueueIsMarketableSet(ApplyBlock(p, b))
  {
    BlockKeepsAccounts(p, b);
    var q := ApplyBlock(p, b);
    forall k
      ensures k in q.queue <==> NamesMarketable(q, k)
    {
      MarketableKeysMeaning(q.baseFee, q.accounts, k);
      if k.sender in q.accounts {
        PrefixKeysMeaning(q.baseFee, k.sender, q.accounts[k.sender], k);
      }
      if At(q.accounts, k.sender, k.nonce).Some? {
        ClassifyMarketable(q.accounts, q.config.perAccountCapacity, q.baseFee, k.sender, k.nonce);
      }
    }
  }

  /** `k` has been earned: every nonce of its account from the confirmed one up to its own holds a transaction with more
      than the base fee and some tip to offer, and its fee is the most its own transaction can tip. */
  ghost predicate Earned(accounts: map<Address, Account>, baseFee: nat, k: Key) {
    && k.sender in accounts && accounts[k.sender].confirmed <= k.nonce
    && ChainPays(accounts, baseFee, k.sender, k.nonce + 1)
    && (assert CanPay(baseFee, At(accounts, k.sender, k.nonce));
        IsLargestTip(baseFee, At(accounts, k.sender, k.nonce).value, k.fee))
  }

  /** After any block the queue is exactly the earned keys under the block's own base fee. */
  lemma QueueIsEarned(p: Pool, b: Block, k: Key)
    ensures k in ApplyBlock(p, b).queue <==> Earned(ApplyBlock(p, b).accounts, b.newBaseFee, k)
  {
    var accounts := ApplyBlock(p, b).accounts;
    MarketableKeysMeaning(b.newBaseFee, accounts, k);
    if k.sender in accounts {
      PrefixKeysMeaning(b.newBaseFee, k.sender, accounts[k.sender], k);
      if accounts[k.sender].confirmed <= k.nonce {
        UnblockedIffChainPays(accounts, b.newBaseFee, k.sender, k.nonce + 1);
        var slot := At(accounts, k.sender, k.nonce);
        if slot.Some? {
          TipMeaning(b.newBaseFee, slot.value, k.fee);
        }
      }
    }
  }

  /** Each account's marketable transactions are a contiguous run from its confirmed nonce. */
  lemma MarketableIsPrefix(p: Pool, k: Key, n: nat)
    requires AccountsOk(p.accounts, p.config.perAccountCapacity) && QueueIsMarketableSet(p) && k in p.queue
    requires p.accounts[k.sender].confirmed <= n <= k.nonce
    ensures exists other :: other in p.queue && other.sender == k.sender && other.nonce == n
  {
    assert NamesMarketable(p, k);
    var account := p.accounts[k.sender];
    ClassifyMarketable(p.accounts, p.config.perAccountCapacity, p.baseFee, k.sender, k.nonce);
    assert Pays(p.baseFee, account.slots[n - account.confirmed]);
    assert At(p.accounts, k.sender, n) == account.slots[n - account.confirmed];
    ClassifyMarketable(p.accounts, p.config.perAccountCapacity, p.baseFee, k.sender, n);
    var other := QueueKey(p.baseFee, At(p.accounts, k.sender, n).value);
    assert NamesMarketable(p, other);
  }

  // ----- Invariants -----

  lemma BlockKeepsWellFormed(p: Pool, b: Block)
    requires WellFormed(p) && ProtocolBlock(b)
    ensures WellFormed(ApplyBlock(p, b))
    ensures QueueSound(ApplyBlock(p, b))
    ensures ApplyBlock(p, b).eligibility <= p.eligibility
  {
    var q := ApplyBlock(p, b);
    QueueAfterBlock(p, b);
    BlockMeaning(p, b);
    forall a, n | At(q.accounts, a, n).Some?
      ensures EligibilityKey(At(q.accounts, a, n).value) in q.eligibility
    {
      FiledUnderOwnKey(p.accounts, p.config.perAccountCapacity, a, n);
      NextConfirmedIsLargest(p.accounts[a].confirmed, a, b.included);
      assert EligibilityKey(At(p.accounts, a, n).value) in p.eligibility;
    }
    forall k | k in q.queue
      ensures At(q.accounts, k.sender, k.nonce).Some? && k == QueueKey(q.baseFee, At(q.accounts, k.sender, k.nonce).value)
    {
      assert NamesMarketable(q, k);
    }
  }

  /** If the block includes (s, n), it includes every live (s, m) with m < n. */
  ghost predicate Consecutive(p: Pool, b: Block) {
    forall a, m, n :: At(p.accounts, a, m).Some? && m < n && Includes(b.included, a, n) ==> Includes(b.included, a, m)
  }

  /** A block leaves base-fee keys behind exactly when it skips a live nonce below an included one. */
  lemma BlockKeepsEligibilitySoundIff(p: Pool, b: Block)
    requires WellFormed(p) && ProtocolBlock(b) && EligibilitySound(p)
    ensures EligibilitySound(ApplyBlock(p, b)) <==> Consecutive(p, b)
  {
    BlockMeaning(p, b);
    if Consecutive(p, b) {
      ConsecutiveKeepsEligibilitySound(p, b);
    } else {
      SkippedNonceStrandsKey(p, b);
    }
  }

  lemma ConsecutiveKeepsEligibilitySound(p: Pool, b: Block)
    requires WellFormed(p) && EligibilitySound(p) && Consecutive(p, b)
    ensures EligibilitySound(ApplyBlock(p, b))
  {
    BlockMeaning(p, b);
    var q := ApplyBlock(p, b);
    forall k | k in q.eligibility
      ensures At(q.accounts, k.sender, k.nonce) == At(p.accounts, k.sender, k.nonce)
    {
      assert At(p.accounts, k.sender, k.nonce).Some?;
      NextConfirmedIsLargest(p.accounts[k.sender].confirmed, k.sender, b.included);
      assert !Mined(p.accounts, b.included, k);
      assert !Includes(b.included, k.sender, k.nonce);
    }
  }

  lemma SkippedNonceStrandsKey(p: Pool, b: Block)
    requires WellFormed(p) && !Consecutive(p, b)
    ensures !EligibilitySound(ApplyBlock(p, b))
  {
    BlockMeaning(p, b);
    var q := ApplyBlock(p, b);
    var a, m, n :| At(p.accounts, a, m).Some? && m < n && Includes(b.included, a, n) && !Includes(b.included, a, m);
    FiledUnderOwnKey(p.accounts, p.config.perAccountCapacity, a, m);
    NextConfirmedIsLargest(p.accounts[a].confirmed, a, b.included);
    var k := EligibilityKey(At(p.accounts, a, m).value);
    assert k in p.eligibility;
    assert k in q.eligibility;
    assert At(q.accounts, a, m).None?;
  }

  // ----- Order independence -----

  lemma {:induction false} IncludesByMultiset(txs: seq<PendingTx>, other: seq<PendingTx>, a: Address, n: nat)
    requires multiset(txs) == multiset(other)
    ensures Includes(txs, a, n) ==> Includes(other, a, n)
  {
    if Includes(txs, a, n) {
      var i :| 0 <= i < |txs| && txs[i].sender == a && txs[i].nonce == n;
      assert txs[i] in multiset(other);
      assert txs[i] in other;
      var j :| 0 <= j < |other| && other[j] == txs[i];
    }
  }

  lemma {:induction false} KnownGasWithout(accounts: map<Address, Account>, txs: seq<PendingTx>, i: nat)
    requires i < |txs|
    ensures KnownGas(accounts, txs) == KnownGas(accounts, txs[..i] + txs[i + 1..]) + TrackedGas(accounts, txs[i])
  {
    var front, last := txs[..|txs| - 1], txs[|txs| - 1];
    if i == |txs| - 1 {
      assert txs[..i] + txs[i + 1..] == front;
    } else {
      KnownGasWithout(accounts, front, i);
      var rest := front[..i] + front[i + 1..];
      assert txs[..i] + txs[i + 1..] == rest + [last];
      KnownGasAppend(accounts, rest, last);
    }
  }

  lemma KnownGasAppend(accounts: map<Address, Account>, txs: seq<PendingTx>, tx: PendingTx)
    ensures KnownGas(accounts, txs + [tx]) == KnownGas(accounts, txs) + TrackedGas(accounts, tx)
  {
    assert (txs + [tx])[..|txs|] == txs;
  }

  lemma {:induction false} KnownGasPermutes(accounts: map<Address, Account>, txs: seq<PendingTx>, other: seq<PendingTx>)
    requires multiset(txs) == multiset(other)
    ensures KnownGas(accounts, txs) == KnownGas(accounts, other)
    decreases |txs|
  {
    if txs == [] {
      assert |multiset(other)| == 0;
    } else {
      var j := MatchingIndex(txs, other);
      KnownGasPermutes(accounts, txs[..|txs| - 1], other[..j] + other[j + 1..]);
      KnownGasWithout(accounts, other, j);
    }
  }

  /** Where `other` holds the last element of its rearrangement `txs`. */
  lemma MatchingIndex(txs: seq<PendingTx>, other: seq<PendingTx>) returns (j: nat)
    requires multiset(txs) == multiset(other) && txs != []
    ensures j < |other| && other[j] == txs[|txs| - 1]
    ensures multiset(txs[..|txs| - 1]) == multiset(other[..j] + other[j + 1..])
  {
    var last := txs[|txs| - 1];
    assert last in multiset(other);
    j :| 0 <= j < |other| && other[j] == last;
    assert txs == txs[..|txs| - 1] + [last];
    assert other == other[..j] + [last] + other[j + 1..];
    assert multiset(txs[..|txs| - 1]) == multiset(txs) - multiset{last};
  }

  lemma {:induction false} KnownGasOfTracked(accounts: map<Address, Account>, txs: seq<PendingTx>)
    requires forall i :: 0 <= i < |txs| ==> At(accounts, txs[i].sender, txs[i].nonce).Some?
    ensures KnownGas(accounts, txs) == GasSum(txs)
  {
    if txs != [] {
      KnownGasOfTracked(accounts, txs[..|txs| - 1]);
    }
  }

  lemma {:induction false} KnownGasBesides(accounts: map<Address, Account>, txs: seq<PendingTx>, more: seq<PendingTx>)
    requires forall i :: 0 <= i < |more| ==> At(accounts, more[i].sender, more[i].nonce).None?
    ensures KnownGas(accounts, txs + more) == KnownGas(accounts, txs)
  {
    if more == [] {
      assert txs + more == txs;
    } else {
      var front, last := more[..|more| - 1], more[|more| - 1];
      KnownGasBesides(accounts, txs, front);
      assert txs + more == (txs + front) + [last];
      KnownGasAppend(accounts, txs + front, last);
    }
  }

  /** The block's transactions are divided into those that were tracked and those that were not. */
  ghost predicate Divides(accounts: map<Address, Account>, txs: seq<PendingTx>, tracked: seq<PendingTx>, others: seq<PendingTx>) {
    && multiset(txs) == multiset(tracked + others)
    && (forall i :: 0 <= i < |tracked| ==> At(accounts, tracked[i].sender, tracked[i].nonce).Some?)
    && (forall i :: 0 <= i < |others| ==> At(accounts, others[i].sender, others[i].nonce).None?)
  }

  /** However a block is divided, the known gas is the gas of the tracked transactions. */
  lemma KnownGasIsTrackedSum(accounts: map<Address, Account>, txs: seq<PendingTx>, tracked: seq<PendingTx>, others: seq<PendingTx>)
    requires Divides(accounts, txs, tracked, others)
    ensures KnownGas(accounts, txs) == GasSum(tracked)
  {
    KnownGasPermutes(accounts, txs, tracked + others);
    KnownGasBesides(accounts, tracked, others);
    KnownGasOfTracked(accounts, tracked);
  }

  /** The state after a block does not depend on the order of its transactions. */
  lemma BlockOrderIrrelevant(p: Pool, b: Block, other: Block)
    requires multiset(b.included) == multiset(other.included)
    requires b.(included := []) == other.(included := [])
    ensures ApplyBlock(p, b) == ApplyBlock(p, other)
  {
    KnownGasPermutes(p.accounts, b.included, other.included);
    forall a, n: nat
      ensures Includes(b.included, a, n) <==> Includes(other.included, a, n)
    {
      IncludesByMultiset(b.included, other.included, a, n);
      IncludesByMultiset(other.included, b.included, a, n);
    }
    forall a | a in p.accounts
      ensures AdvanceAccount(a, p.accounts[a], b.included) == AdvanceAccount(a, p.accounts[a], other.included)
    {
      NextConfirmedIsLargest(p.accounts[a].confirmed, a, b.included);
      NextConfirmedIsLargest(p.accounts[a].confirmed, a, other.included);
    }
    assert Advance(p.accounts, b.included) == Advance(p.accounts, other.included);
    assert Unmined(p, b.included) == Unmined(p, other.included);
  }

  // ----- Base-fee monotonicity -----

  /** Raising the base fee only ever removes transactions from the marketable set, across all nonce chains. */
  lemma HigherBaseFeeShrinksQueue(p: Pool, low: Block, high: Block, k: Key)
    requires low.newBaseFee <= high.newBaseFee && low == high.(newBaseFee := low.newBaseFee)
    requires k in ApplyBlock(p, high).queue
    ensures exists other :: other in ApplyBlock(p, low).queue
              && other.sender == k.sender && other.nonce == k.nonce && other.fee >= k.fee
  {
    var accounts := Advance(p.accounts, high.included);
    MarketableKeysMeaning(high.newBaseFee, accounts, k);
    var account := accounts[k.sender];
    PrefixKeysMeaning(high.newBaseFee, k.sender, account, k);
    var other := Key(EffectiveTip(low.newBaseFee, SlotAt(account, k.nonce).value), k.sender, k.nonce);
    forall j | 0 <= j < k.nonce - account.confirmed + 1
      ensures Pays(low.newBaseFee, account.slots[j])
    {
      assert Pays(high.newBaseFee, account.slots[j]);
    }
    PrefixKeysMeaning(low.newBaseFee, k.sender, account, other);
    MarketableKeysMeaning(low.newBaseFee, accounts, other);
  }

  // ----- Private order flow -----

  predicate SaneBlock(b: Block) {
    b.gasUsed <= b.gasLimit
  }

  /** The observed flow is the gas used beyond that of the tracked transactions, none if there is no such gas, as a share
      of the block's gas limit. */
  lemma ObservedFlowMeaning(accounts: map<Address, Account>, b: Block, tracked: seq<PendingTx>, others: seq<PendingTx>)
    requires b.gasLimit > 0 && Divides(accounts, b.included, tracked, others) && GasSum(tracked) < U64_MODULUS
    ensures ObservedFlow(accounts, b) == Ratio(SaturatingSub(b.gasUsed, GasSum(tracked)), b.gasLimit)
  {
    PrivateGasMeaning(accounts, b, tracked, others);
  }

  lemma PrivateGasMeaning(accounts: map<Address, Account>, b: Block, tracked: seq<PendingTx>, others: seq<PendingTx>)
    requires Divides(accounts, b.included, tracked, others) && GasSum(tracked) < U64_MODULUS
    ensures PrivateGas(accounts, b) == SaturatingSub(b.gasUsed, GasSum(tracked))
  {
    KnownGasIsTrackedSum(accounts, b.included, tracked, others);
    assert GasSum(tracked) % U64_MODULUS == GasSum(tracked);
  }

  lemma RatioMeaning(x: nat, y: nat)
    requires y > 0
    ensures Ratio(x, y) * y as real == x as real
  {
  }

  /** The observed flow of a block that respects its gas limit is a proportion. */
  lemma ObservedFlowIsProportion(accounts: map<Address, Account>, b: Block)
    requires SaneBlock(b) && b.gasLimit > 0
    ensures 0.0 <= ObservedFlow(accounts, b) <= 1.0
  {
    QuotientIsProportion(PrivateGas(accounts, b) as real, b.gasLimit as real);
  }

  lemma QuotientIsProportion(x: real, y: real)
    requires 0.0 <= x <= y && 0.0 < y
    ensures 0.0 <= x / y <= 1.0
  {
  }

  /** The distance to the observation shrinks by exactly 0.9; without a gas limit nothing is observed. */
  lemma FlowContracts(p: Pool, b: Block)
    ensures b.gasLimit > 0 ==>
              FlowAfter(p, b) - ObservedFlow(p.accounts, b) == 0.9 * (p.privateFlow - ObservedFlow(p.accounts, b))
    ensures b.gasLimit == 0 ==> FlowAfter(p, b) == p.privateFlow
  {
  }

  /** A proportion stays a proportion. */
  lemma FlowStaysProportion(p: Pool, b: Block)
    requires SaneBlock(b) && 0.0 <= p.privateFlow <= 1.0
    ensures 0.0 <= FlowAfter(p, b) <= 1.0
  {
    if b.gasLimit > 0 {
      ObservedFlowIsProportion(p.accounts, b);
    }
  }
}
