/** crates/mempooloracle/src/lib.rs: the tracked state and the single-account notions built on it. */
module MempoolState {
  import opened Prelude

  /** 20-byte addresses and 32-byte ids, read as big-endian numbers so that `<` is their order. */
  type Address = nat
  type TxId = nat

  datatype PendingTx = PendingTx(
    id: TxId,
    sender: Address,
    nonce: nat,
    maxFee: nat,
    maxPriorityFee: nat,
    gasLimit: U64)

  /** EIP-2681: an account nonce is below 2^64 - 1. */
  predicate ProtocolNonce(tx: PendingTx) {
    tx.nonce < U64_MAX
  }

  datatype Block = Block(included: seq<PendingTx>, newBaseFee: nat, gasUsed: U64, gasLimit: U64)

  predicate ProtocolBlock(b: Block) {
    forall i :: 0 <= i < |b.included| ==> ProtocolNonce(b.included[i])
  }

  datatype Account = Account(confirmed: nat, slots: seq<Option<PendingTx>>)

  /** Entry of either index: (fee, sender, nonce). */
  datatype Key = Key(fee: nat, sender: Address, nonce: nat)

  datatype Config = Config(initialBaseFee: nat, globalCapacity: nat, perAccountCapacity: nat, privateFlowPrior: real)

  datatype Pool = Pool(
    accounts: map<Address, Account>,
    eligibility: set<Key>,
    queue: set<Key>,
    baseFee: nat,
    privateFlow: real,
    lastGasLimit: U64,
    config: Config)

  function Empty(config: Config): Pool {
    Pool(map[], {}, {}, config.initialBaseFee, config.privateFlowPrior, 30_000_000, config)
  }

  /** The tip of the Specification section of EIP-1559: min(max priority fee, max fee - base fee). */
  function EffectiveTip(baseFee: nat, tx: PendingTx): nat {
    Min(tx.maxPriorityFee, SaturatingSub(tx.maxFee, baseFee))
  }

  /** `tx` can pay the base fee and a tip of `t` on top. */
  predicate CanTip(baseFee: nat, tx: PendingTx, t: nat) {
    t <= tx.maxPriorityFee && baseFee + t <= tx.maxFee
  }

  /** `t` is the most `tx` can tip. */
  ghost predicate IsLargestTip(baseFee: nat, tx: PendingTx, t: nat) {
    CanTip(baseFee, tx, t) && forall u: nat :: CanTip(baseFee, tx, u) ==> u <= t
  }

  /** The effective tip is the most the transaction can tip, and 0 if it cannot even pay the base fee. */
  lemma TipMeaning(baseFee: nat, tx: PendingTx, t: nat)
    ensures tx.maxFee >= baseFee ==> (t <= EffectiveTip(baseFee, tx) <==> CanTip(baseFee, tx, t))
    ensures tx.maxFee >= baseFee ==> (t == EffectiveTip(baseFee, tx) <==> IsLargestTip(baseFee, tx, t))
    ensures tx.maxFee < baseFee ==> EffectiveTip(baseFee, tx) == 0
  {
    if tx.maxFee >= baseFee && IsLargestTip(baseFee, tx, t) {
      assert CanTip(baseFee, tx, EffectiveTip(baseFee, tx));
    }
  }

  /** Queue order: (Reverse(fee), sender, nonce). */
  predicate Precedes(a: Key, b: Key) {
    || a.fee > b.fee
    || (a.fee == b.fee && (a.sender < b.sender || (a.sender == b.sender && a.nonce < b.nonce)))
  }

  /** The order of tuples: by the first component in which they differ. */
  predicate TupleLess(a: seq<int>, b: seq<int>)
    requires |a| == |b|
  {
    |a| > 0 && (a[0] < b[0] || (a[0] == b[0] && TupleLess(a[1..], b[1..])))
  }

  /** The key as the source builds it, `Reverse` as a change of sign. */
  function Tuple(k: Key): seq<int> {
    var reversed: int := 0 - k.fee;
    [reversed, k.sender, k.nonce]
  }

  /** Queue order is the order of the tuples: dearer first, then lower address, then lower nonce. */
  lemma PrecedesIsTupleOrder(a: Key, b: Key)
    ensures Precedes(a, b) <==> TupleLess(Tuple(a), Tuple(b))
  {
    var x, y := Tuple(a), Tuple(b);
    assert x[1..] == [a.sender, a.nonce] && y[1..] == [b.sender, b.nonce];
    assert x[1..][1..] == [a.nonce] && y[1..][1..] == [b.nonce];
    assert TupleLess([a.nonce], [b.nonce]) <==> a.nonce < b.nonce;
  }

  lemma PrecedesIsTransitive(a: Key, b: Key, c: Key)
    requires Precedes(a, b) && Precedes(b, c)
    ensures Precedes(a, c)
  {
  }

  ghost predicate IsFirst(k: Key, keys: set<Key>) {
    k in keys && forall other :: other in keys && other != k ==> Precedes(k, other)
  }

  lemma {:induction false} FirstExists(keys: set<Key>)
    requires keys != {}
    ensures exists k :: IsFirst(k, keys)
  {
    var x :| x in keys;
    var rest := keys - {x};
    assert keys == rest + {x};
    if rest == {} {
      assert IsFirst(x, keys);
    } else {
      FirstExists(rest);
      var k :| IsFirst(k, rest);
      assert IsFirst(if Precedes(x, k) then x else k, keys);
    }
  }

  /** What `pop_first` takes from the queue. */
  ghost function First(keys: set<Key>): (k: Key)
    requires keys != {}
    ensures IsFirst(k, keys)
  {
    FirstExists(keys);
    var k :| IsFirst(k, keys);
    k
  }

  /** The first key has the largest fee, among those the least sender, and among those the least nonce. */
  lemma FirstMeaning(keys: set<Key>, k: Key)
    requires k in keys
    ensures k.fee <= First(keys).fee
    ensures k.fee == First(keys).fee ==> First(keys).sender <= k.sender
    ensures k.fee == First(keys).fee && k.sender == First(keys).sender ==> First(keys).nonce <= k.nonce
  {
    assert IsFirst(First(keys), keys);
  }

  function SlotAt(account: Account, n: nat): Option<PendingTx> {
    if account.confirmed <= n < account.confirmed + |account.slots|
    then account.slots[n - account.confirmed]
    else None
  }

  /** The abstract map (address, nonce) -> transaction. */
  function At(accounts: map<Address, Account>, a: Address, n: nat): Option<PendingTx> {
    if a in accounts then SlotAt(accounts[a], n) else None
  }

  function EligibilityKey(tx: PendingTx): Key {
    Key(tx.maxFee, tx.sender, tx.nonce)
  }

  function QueueKey(baseFee: nat, tx: PendingTx): Key {
    Key(EffectiveTip(baseFee, tx), tx.sender, tx.nonce)
  }

  // ----- Classification -----

  datatype Classification = Marketable | BaseFeeInvalid | Unmarketable | NonceBound

  /** The slot holds a transaction that can pay the base fee and a tip. */
  predicate Pays(baseFee: nat, slot: Option<PendingTx>) {
    slot.Some? && slot.value.maxFee >= baseFee && EffectiveTip(baseFee, slot.value) > 0
  }

  /** Every slot below index `i` is there and pays. */
  predicate Unblocked(baseFee: nat, slots: seq<Option<PendingTx>>, i: nat) {
    i <= |slots| && forall j :: 0 <= j < i ==> Pays(baseFee, slots[j])
  }

  /** `classify_transaction`, for a transaction at or above its account's confirmed nonce. */
  function Classify(accounts: map<Address, Account>, baseFee: nat, tx: PendingTx): Classification
    requires tx.sender in accounts ==> accounts[tx.sender].confirmed <= tx.nonce
  {
    if tx.sender !in accounts then NonceBound
    else if !Unblocked(baseFee, accounts[tx.sender].slots, tx.nonce - accounts[tx.sender].confirmed) then NonceBound
    else if tx.maxFee < baseFee then BaseFeeInvalid
    else if EffectiveTip(baseFee, tx) == 0 then Unmarketable
    else Marketable
  }

  /** The slot holds a transaction with something to spare above the base fee and a tip to offer. */
  predicate CanPay(baseFee: nat, slot: Option<PendingTx>) {
    slot.Some? && slot.value.maxFee > baseFee && slot.value.maxPriorityFee > 0
  }

  /** Every nonce of `a` from the confirmed one up to `n`, not included, can pay. */
  ghost predicate ChainPays(accounts: map<Address, Account>, baseFee: nat, a: Address, n: nat)
    requires a in accounts
  {
    forall m: nat :: accounts[a].confirmed <= m < n ==> CanPay(baseFee, At(accounts, a, m))
  }

  lemma UnblockedIffChainPays(accounts: map<Address, Account>, baseFee: nat, a: Address, n: nat)
    requires a in accounts && accounts[a].confirmed <= n
    ensures Unblocked(baseFee, accounts[a].slots, n - accounts[a].confirmed) <==> ChainPays(accounts, baseFee, a, n)
  {
    var account := accounts[a];
    if ChainPays(accounts, baseFee, a, n) {
      assert !CanPay(baseFee, At(accounts, a, account.confirmed + |account.slots|));
      forall j | 0 <= j < n - account.confirmed
        ensures Pays(baseFee, account.slots[j])
      {
        assert CanPay(baseFee, At(accounts, a, account.confirmed + j));
      }
    }
    if Unblocked(baseFee, account.slots, n - account.confirmed) {
      forall m: nat | account.confirmed <= m < n
        ensures CanPay(baseFee, At(accounts, a, m))
      {
        assert Pays(baseFee, account.slots[m - account.confirmed]);
      }
    }
  }

  /** The four verdicts, read off the fees: blocked by an earlier nonce that is missing or cannot pay; short of the base
      fee; able to pay just that, or offering no tip; and everything else. */
  lemma ClassifyMeaning(accounts: map<Address, Account>, baseFee: nat, tx: PendingTx)
    requires tx.sender in accounts && accounts[tx.sender].confirmed <= tx.nonce
    ensures var c := Classify(accounts, baseFee, tx);
            var free := ChainPays(accounts, baseFee, tx.sender, tx.nonce);
            && (c == NonceBound <==> !free)
            && (c == BaseFeeInvalid <==> free && tx.maxFee < baseFee)
            && (c == Unmarketable <==> free && tx.maxFee >= baseFee && (tx.maxFee == baseFee || tx.maxPriorityFee == 0))
            && (c == Marketable <==> free && tx.maxFee > baseFee && tx.maxPriorityFee > 0)
  {
    UnblockedIffChainPays(accounts, baseFee, tx.sender, tx.nonce);
  }

  // ----- Gas -----

  function GasSum(txs: seq<PendingTx>): nat {
    if txs == [] then 0 else GasSum(txs[..|txs| - 1]) + txs[|txs| - 1].gasLimit
  }

  // ----- Invariants -----

  ghost predicate AccountOk(a: Address, account: Account, capacity: nat) {
    && |account.slots| <= capacity
    && account.confirmed + |account.slots| <= U64_MAX
    && forall i :: 0 <= i < |account.slots| && account.slots[i].Some? ==>
         account.slots[i].value.sender == a && account.slots[i].value.nonce == account.confirmed + i
  }

  ghost predicate AccountsOk(accounts: map<Address, Account>, capacity: nat) {
    forall a :: a in accounts ==> AccountOk(a, accounts[a], capacity)
  }

  /** Every live transaction has its base-fee key. */
  ghost predicate Covered(accounts: map<Address, Account>, eligibility: set<Key>) {
    forall a, n :: At(accounts, a, n).Some? ==> EligibilityKey(At(accounts, a, n).value) in eligibility
  }

  /** Every queue key points into its account's slot vector. */
  ghost predicate InBounds(accounts: map<Address, Account>, queue: set<Key>) {
    forall k :: k in queue ==>
      && k.sender in accounts
      && accounts[k.sender].confirmed <= k.nonce < accounts[k.sender].confirmed + |accounts[k.sender].slots|
  }

  /** What holds of every reachable state, with no hypothesis on the traffic. */
  ghost predicate WellFormed(p: Pool) {
    && AccountsOk(p.accounts, p.config.perAccountCapacity)
    && Covered(p.accounts, p.eligibility)
    && InBounds(p.accounts, p.queue)
  }

  /** Every queue key names a live transaction with its current tip. */
  ghost predicate QueueSound(p: Pool) {
    forall k :: k in p.queue ==>
      && At(p.accounts, k.sender, k.nonce).Some?
      && k == QueueKey(p.baseFee, At(p.accounts, k.sender, k.nonce).value)
  }

  /** Every base-fee key is the key of a live transaction. */
  ghost predicate EligibilitySound(p: Pool) {
    forall k :: k in p.eligibility ==>
      && At(p.accounts, k.sender, k.nonce).Some?
      && k == EligibilityKey(At(p.accounts, k.sender, k.nonce).value)
  }

  /** The live transaction at (a, n) is filed under its own sender and nonce. */
  lemma FiledUnderOwnKey(accounts: map<Address, Account>, capacity: nat, a: Address, n: nat)
    requires AccountsOk(accounts, capacity) && At(accounts, a, n).Some?
    ensures At(accounts, a, n).value.sender == a && At(accounts, a, n).value.nonce == n
  {
  }
}
