/** `MempoolInner::insert`: eviction, account admission and indexing of one pending transaction. */
module MempoolInsert {
  import opened Prelude
  import opened MempoolState

  predicate Full(p: Pool) {
    |p.eligibility| >= p.config.globalCapacity
  }

  // ----- Eviction -----

  function Cleared(accounts: map<Address, Account>, a: Address, n: nat): map<Address, Account>
    requires a in accounts && accounts[a].confirmed <= n < accounts[a].confirmed + |accounts[a].slots|
  {
    accounts[a := accounts[a].(slots := accounts[a].slots[n - accounts[a].confirmed := None])]
  }

  /** Pops the first queue key and, if it points at an occupied slot, drops that transaction and its base-fee key. */
  ghost function Evict(p: Pool): Pool
    requires p.queue != {}
  {
    var k := First(p.queue);
    var victim := At(p.accounts, k.sender, k.nonce);
    if victim.None? then p.(queue := p.queue - {k})
    else p.(
      queue := p.queue - {k},
      eligibility := p.eligibility - {Key(victim.value.maxFee, k.sender, k.nonce)},
      accounts := Cleared(p.accounts, k.sender, k.nonce))
  }

  // ----- Account admission -----

  function OpenAccount(p: Pool, tx: PendingTx): Account {
    if tx.sender in p.accounts then p.accounts[tx.sender] else Account(tx.nonce, [])
  }

  predicate Fits(account: Account, nonce: nat, capacity: nat) {
    if nonce < account.confirmed
    then account.confirmed - nonce + |account.slots| <= capacity
    else nonce - account.confirmed < capacity
  }

  function Gaps(count: nat): seq<Option<PendingTx>> {
    seq(count, _ => None)
  }

  /** Prepends or appends empty slots as needed, then fills the slot of `tx`. */
  function WithTx(account: Account, tx: PendingTx): Account {
    var shifted :=
      if tx.nonce < account.confirmed
      then Account(tx.nonce, Gaps(account.confirmed - tx.nonce) + account.slots)
      else account;
    var i := tx.nonce - shifted.confirmed;
    var grown := if i >= |shifted.slots| then shifted.slots + Gaps(i + 1 - |shifted.slots|) else shifted.slots;
    shifted.(slots := grown[i := Some(tx)])
  }

  function Place(p: Pool, tx: PendingTx): Pool {
    var account := OpenAccount(p, tx);
    if Fits(account, tx.nonce, p.config.perAccountCapacity) then
      p.(accounts := p.accounts[tx.sender := WithTx(account, tx)],
         eligibility := p.eligibility + {EligibilityKey(tx)},
         queue := p.queue + {QueueKey(p.baseFee, tx)})
    else
      p.(accounts := p.accounts[tx.sender := account])
  }

  // ----- The whole operation -----

  /** The newcomer passes the global check: there is room, or it tips more than the first queue key. */
  ghost predicate Admitted(p: Pool, tx: PendingTx) {
    Full(p) ==> p.queue != {} && EffectiveTip(p.baseFee, tx) > First(p.queue).fee
  }

  /** The state the account checks run on. */
  ghost function Vacated(p: Pool, tx: PendingTx): Pool
    requires Admitted(p, tx)
  {
    if Full(p) then Evict(p) else p
  }

  ghost function Insert(p: Pool, tx: PendingTx): Pool {
    if Admitted(p, tx) then Place(Vacated(p, tx), tx) else p
  }

  ghost predicate Accepted(p: Pool, tx: PendingTx) {
    Admitted(p, tx) && Fits(OpenAccount(Vacated(p, tx), tx), tx.nonce, p.config.perAccountCapacity)
  }

  /** The transaction whose slot the newcomer takes over, if any. */
  ghost function Overwritten(p: Pool, tx: PendingTx): Option<PendingTx> {
    if Accepted(p, tx) then At(Vacated(p, tx).accounts, tx.sender, tx.nonce) else None
  }

  // ----- When the newcomer is accepted -----

  /** How many slots the account needs to hold its old slots and the nonce of `tx`. */
  function Span(p: Pool, tx: PendingTx): nat {
    if tx.sender !in p.accounts then 1
    else
      var account := p.accounts[tx.sender];
      Max(account.confirmed + |account.slots|, tx.nonce + 1) - Min(account.confirmed, tx.nonce)
  }

  lemma FitsIffSpan(account: Account, nonce: nat, capacity: nat)
    requires |account.slots| <= capacity
    ensures Fits(account, nonce, capacity) <==>
              Max(account.confirmed + |account.slots|, nonce + 1) - Min(account.confirmed, nonce) <= capacity
  {
  }

  /** The newcomer makes the pool drop a transaction: the base-fee index is full and it tips more than every key claims. */
  ghost predicate Displaces(p: Pool, tx: PendingTx) {
    && |p.eligibility| >= p.config.globalCapacity && p.queue != {}
    && forall k :: k in p.queue ==> k.fee < EffectiveTip(p.baseFee, tx)
  }

  /** There is room, or room is made, and the account can hold the newcomer's nonce. */
  ghost predicate Welcome(p: Pool, tx: PendingTx) {
    (|p.eligibility| < p.config.globalCapacity || Displaces(p, tx)) && Span(p, tx) <= p.config.perAccountCapacity
  }

  lemma DisplacesIff(p: Pool, tx: PendingTx)
    ensures Full(p) && Admitted(p, tx) <==> Displaces(p, tx)
    ensures Admitted(p, tx) <==> |p.eligibility| < p.config.globalCapacity || Displaces(p, tx)
  {
    if p.queue != {} {
      assert IsFirst(First(p.queue), p.queue);
    }
  }

  lemma AcceptedIffWelcome(p: Pool, tx: PendingTx)
    requires WellFormed(p)
    ensures Accepted(p, tx) <==> Welcome(p, tx)
  {
    DisplacesIff(p, tx);
    if Admitted(p, tx) {
      SpanAfterVacating(p, tx);
    }
  }

  /** Eviction does not change how much room an account has. */
  lemma SpanAfterVacating(p: Pool, tx: PendingTx)
    requires WellFormed(p) && Admitted(p, tx)
    ensures Fits(OpenAccount(Vacated(p, tx), tx), tx.nonce, p.config.perAccountCapacity) <==>
              Span(p, tx) <= p.config.perAccountCapacity
  {
    var open := OpenAccount(Vacated(p, tx), tx);
    if Full(p) {
      EvictMeaning(p);
    }
    assert tx.sender in Vacated(p, tx).accounts <==> tx.sender in p.accounts;
    if tx.sender in p.accounts {
      assert open.confirmed == p.accounts[tx.sender].confirmed && |open.slots| == |p.accounts[tx.sender].slots|;
      assert AccountOk(tx.sender, p.accounts[tx.sender], p.config.perAccountCapacity);
      FitsIffSpan(open, tx.nonce, p.config.perAccountCapacity);
    }
  }

  // ----- One account -----

  lemma WithTxMeaning(a: Address, account: Account, tx: PendingTx, capacity: nat)
    requires AccountOk(a, account, capacity) && Fits(account, tx.nonce, capacity)
    requires tx.sender == a && ProtocolNonce(tx)
    ensures AccountOk(a, WithTx(account, tx), capacity)
    ensures WithTx(account, tx).confirmed == Min(account.confirmed, tx.nonce)
    ensures WithTx(account, tx).confirmed + |WithTx(account, tx).slots|
         == Max(account.confirmed + |account.slots|, tx.nonce + 1)
    ensures forall n: nat :: SlotAt(WithTx(account, tx), n) == if n == tx.nonce then Some(tx) else SlotAt(account, n)
  {
  }

  /** No machine addition in the account checks wraps: the slot vector never reaches past nonce 2^64 - 2. */
  lemma PrependDoesNotWrap(a: Address, account: Account, nonce: nat, capacity: nat)
    requires AccountOk(a, account, capacity) && nonce < account.confirmed
    ensures account.confirmed - nonce + |account.slots| <= U64_MAX
  {
  }

  // ----- Eviction keeps -----

  lemma EvictMeaning(p: Pool)
    requires WellFormed(p) && p.queue != {}
    ensures var k := First(p.queue);
            var q := Evict(p);
            && WellFormed(q)
            && (forall a, n :: At(q.accounts, a, n) == if a == k.sender && n == k.nonce then None else At(p.accounts, a, n))
            && q.queue == p.queue - {k}
            && q.eligibility == (if At(p.accounts, k.sender, k.nonce).None? then p.eligibility
                                 else p.eligibility - {EligibilityKey(At(p.accounts, k.sender, k.nonce).value)})
  {
    var k := First(p.queue);
    var q := Evict(p);
    assert AccountOk(k.sender, p.accounts[k.sender], p.config.perAccountCapacity);
    forall a, n
      ensures At(q.accounts, a, n) == if a == k.sender && n == k.nonce then None else At(p.accounts, a, n)
    {
    }
    forall a, n | At(q.accounts, a, n).Some?
      ensures EligibilityKey(At(q.accounts, a, n).value) in q.eligibility
    {
      FiledUnderOwnKey(p.accounts, p.config.perAccountCapacity, a, n);
    }
  }

  lemma EvictKeepsQueueSound(p: Pool)
    requires WellFormed(p) && p.queue != {} && QueueSound(p)
    ensures QueueSound(Evict(p))
    ensures |Evict(p).eligibility| == |p.eligibility| - 1
  {
    EvictMeaning(p);
  }

  lemma EvictKeepsEligibilitySound(p: Pool)
    requires WellFormed(p) && p.queue != {} && EligibilitySound(p)
    ensures EligibilitySound(Evict(p))
  {
    EvictMeaning(p);
  }

  // ----- Placement keeps -----

  lemma PlaceSlots(p: Pool, tx: PendingTx)
    requires WellFormed(p) && ProtocolNonce(tx)
    ensures AccountsOk(Place(p, tx).accounts, p.config.perAccountCapacity)
    ensures InBounds(Place(p, tx).accounts, Place(p, tx).queue)
    ensures forall a, n :: At(Place(p, tx).accounts, a, n) ==
              if a == tx.sender && n == tx.nonce && Fits(OpenAccount(p, tx), n, p.config.perAccountCapacity)
              then Some(tx) else At(p.accounts, a, n)
  {
    var account := OpenAccount(p, tx);
    var capacity := p.config.perAccountCapacity;
    assert AccountOk(tx.sender, account, capacity);
    if Fits(account, tx.nonce, capacity) {
      WithTxMeaning(tx.sender, account, tx, capacity);
    }
  }

  lemma PlaceMeaning(p: Pool, tx: PendingTx)
    requires WellFormed(p) && ProtocolNonce(tx)
    ensures WellFormed(Place(p, tx))
    ensures forall a, n :: At(Place(p, tx).accounts, a, n) ==
              if a == tx.sender && n == tx.nonce && Fits(OpenAccount(p, tx), n, p.config.perAccountCapacity)
              then Some(tx) else At(p.accounts, a, n)
  {
    PlaceSlots(p, tx);
    var q := Place(p, tx);
    forall a, n | At(q.accounts, a, n).Some?
      ensures EligibilityKey(At(q.accounts, a, n).value) in q.eligibility
    {
      if At(q.accounts, a, n) == At(p.accounts, a, n) {
        assert EligibilityKey(At(p.accounts, a, n).value) in p.eligibility;
      }
    }
  }

  /** Placement keeps the queue sound unless it strands the old key of the slot it overwrites. */
  lemma PlaceKeepsQueueSoundIff(p: Pool, tx: PendingTx)
    requires WellFormed(p) && ProtocolNonce(tx) && QueueSound(p)
    requires Fits(OpenAccount(p, tx), tx.nonce, p.config.perAccountCapacity)
    ensures var prior := At(p.accounts, tx.sender, tx.nonce);
            QueueSound(Place(p, tx)) <==>
              (prior.Some? && QueueKey(p.baseFee, prior.value) in p.queue ==>
                EffectiveTip(p.baseFee, prior.value) == EffectiveTip(p.baseFee, tx))
  {
    PlaceMeaning(p, tx);
    var prior := At(p.accounts, tx.sender, tx.nonce);
    if prior.Some? {
      FiledUnderOwnKey(p.accounts, p.config.perAccountCapacity, tx.sender, tx.nonce);
      assert QueueKey(p.baseFee, prior.value) in p.queue ==> QueueKey(p.baseFee, prior.value) in Place(p, tx).queue;
    }
  }

  lemma PlaceKeepsEligibilitySoundIff(p: Pool, tx: PendingTx)
    requires WellFormed(p) && ProtocolNonce(tx) && EligibilitySound(p)
    requires Fits(OpenAccount(p, tx), tx.nonce, p.config.perAccountCapacity)
    ensures var prior := At(p.accounts, tx.sender, tx.nonce);
            EligibilitySound(Place(p, tx)) <==> (prior.Some? ==> prior.value.maxFee == tx.maxFee)
  {
    PlaceMeaning(p, tx);
    var prior := At(p.accounts, tx.sender, tx.nonce);
    if prior.Some? {
      FiledUnderOwnKey(p.accounts, p.config.perAccountCapacity, tx.sender, tx.nonce);
      assert EligibilityKey(prior.value) in Place(p, tx).eligibility;
    }
  }

  lemma PlaceRejectedKeepsSoundness(p: Pool, tx: PendingTx)
    requires WellFormed(p) && ProtocolNonce(tx)
    requires !Fits(OpenAccount(p, tx), tx.nonce, p.config.perAccountCapacity)
    ensures QueueSound(p) <==> QueueSound(Place(p, tx))
    ensures EligibilitySound(p) <==> EligibilitySound(Place(p, tx))
  {
  }

  // ----- Main results -----

  lemma VacatedKeeps(p: Pool, tx: PendingTx)
    requires WellFormed(p) && Admitted(p, tx)
    ensures WellFormed(Vacated(p, tx))
    ensures QueueSound(p) ==> QueueSound(Vacated(p, tx))
    ensures EligibilitySound(p) ==> EligibilitySound(Vacated(p, tx))
  {
    if Full(p) {
      EvictMeaning(p);
      if QueueSound(p) {
        EvictKeepsQueueSound(p);
      }
      if EligibilitySound(p) {
        EvictKeepsEligibilitySound(p);
      }
    }
  }

  /** Insertion as an update of the abstract map: at most one entry is dropped, the one the first queue key points at,
      and the newcomer is added exactly when there is room or it outbids every key, and the slots from the lower of
      the confirmed nonce and its own to the end of both fit the account's capacity. */
  lemma InsertMeaning(p: Pool, tx: PendingTx)
    requires WellFormed(p) && ProtocolNonce(tx)
    ensures WellFormed(Insert(p, tx))
    ensures forall a, n :: At(Insert(p, tx).accounts, a, n) ==
              if Welcome(p, tx) && a == tx.sender && n == tx.nonce then Some(tx)
              else if Displaces(p, tx) && a == First(p.queue).sender && n == First(p.queue).nonce then None
              else At(p.accounts, a, n)
  {
    DisplacesIff(p, tx);
    AcceptedIffWelcome(p, tx);
    if Admitted(p, tx) {
      if Full(p) {
        EvictMeaning(p);
      }
      PlaceMeaning(Vacated(p, tx), tx);
    }
  }

  /** What insertion does to the indexes: the first queue key goes if a transaction is displaced, with the base-fee key of
      the transaction it points at, and the newcomer's own two keys come if it is accepted. */
  lemma InsertIndexes(p: Pool, tx: PendingTx, k: Key)
    requires WellFormed(p)
    ensures k in Insert(p, tx).queue <==>
              || (k in p.queue && !(Displaces(p, tx) && k == First(p.queue)))
              || (Welcome(p, tx) && k == Key(EffectiveTip(p.baseFee, tx), tx.sender, tx.nonce))
    ensures k in Insert(p, tx).eligibility <==>
              || (k in p.eligibility && !(Displaces(p, tx) && Victim(p).Some? && k == EligibilityKey(Victim(p).value)))
              || (Welcome(p, tx) && k == Key(tx.maxFee, tx.sender, tx.nonce))
  {
    DisplacesIff(p, tx);
    AcceptedIffWelcome(p, tx);
    if Displaces(p, tx) {
      EvictMeaning(p);
    }
  }

  /** A transaction that is not tracked yet is tracked afterwards if and only if it is welcome. */
  lemma NewcomerTrackedIff(p: Pool, tx: PendingTx)
    requires WellFormed(p) && ProtocolNonce(tx) && At(p.accounts, tx.sender, tx.nonce) != Some(tx)
    ensures At(Insert(p, tx).accounts, tx.sender, tx.nonce) == Some(tx) <==> Welcome(p, tx)
  {
    InsertMeaning(p, tx);
  }

  // ----- Which transaction an eviction takes -----

  /** Whenever a queue key names an occupied slot, the key of the transaction there is queued too. */
  ghost predicate OwnKeyQueued(p: Pool) {
    forall k :: k in p.queue && At(p.accounts, k.sender, k.nonce).Some? ==>
      QueueKey(p.baseFee, At(p.accounts, k.sender, k.nonce).value) in p.queue
  }

  lemma EvictKeepsOwnKeyQueued(p: Pool)
    requires WellFormed(p) && OwnKeyQueued(p) && p.queue != {}
    ensures OwnKeyQueued(Evict(p))
  {
    EvictMeaning(p);
    var q := Evict(p);
    forall k | k in q.queue && At(q.accounts, k.sender, k.nonce).Some?
      ensures QueueKey(q.baseFee, At(q.accounts, k.sender, k.nonce).value) in q.queue
    {
      FiledUnderOwnKey(p.accounts, p.config.perAccountCapacity, k.sender, k.nonce);
    }
  }

  lemma PlaceKeepsOwnKeyQueued(p: Pool, tx: PendingTx)
    requires WellFormed(p) && ProtocolNonce(tx) && OwnKeyQueued(p)
    ensures OwnKeyQueued(Place(p, tx))
  {
    PlaceMeaning(p, tx);
  }

  lemma InsertKeepsOwnKeyQueued(p: Pool, tx: PendingTx)
    requires WellFormed(p) && ProtocolNonce(tx) && OwnKeyQueued(p)
    ensures OwnKeyQueued(Insert(p, tx))
  {
    if Admitted(p, tx) {
      if Full(p) {
        EvictKeepsOwnKeyQueued(p);
      }
      VacatedKeeps(p, tx);
      PlaceKeepsOwnKeyQueued(Vacated(p, tx), tx);
    }
  }

  /** The transaction an eviction would drop. */
  ghost function Victim(p: Pool): Option<PendingTx>
    requires p.queue != {}
  {
    At(p.accounts, First(p.queue).sender, First(p.queue).nonce)
  }

  /** An eviction would drop a transaction, and no live transaction named by a queue key tips more. */
  ghost predicate VictimIsDearest(p: Pool)
    requires p.queue != {}
  {
    && Victim(p).Some?
    && forall k :: k in p.queue && At(p.accounts, k.sender, k.nonce).Some? ==>
         EffectiveTip(p.baseFee, At(p.accounts, k.sender, k.nonce).value) <= EffectiveTip(p.baseFee, Victim(p).value)
  }

  /** The key is not that of a live transaction. */
  predicate Stale(p: Pool, k: Key) {
    var tx := At(p.accounts, k.sender, k.nonce);
    tx.None? || k != QueueKey(p.baseFee, tx.value)
  }

  /** An eviction would drop a transaction, and every key that claims more than its tip is stale. */
  ghost predicate OnlyStaleAbove(p: Pool)
    requires p.queue != {}
  {
    && Victim(p).Some?
    && forall k :: k in p.queue && k.fee > EffectiveTip(p.baseFee, Victim(p).value) ==> Stale(p, k)
  }

  lemma KeyIsStaleOrCheap(p: Pool, k: Key)
    requires WellFormed(p) && OwnKeyQueued(p) && p.queue != {} && OnlyStaleAbove(p)
    requires k in p.queue && At(p.accounts, k.sender, k.nonce).Some?
    ensures EffectiveTip(p.baseFee, At(p.accounts, k.sender, k.nonce).value) <= EffectiveTip(p.baseFee, Victim(p).value)
  {
    var tx := At(p.accounts, k.sender, k.nonce).value;
    FiledUnderOwnKey(p.accounts, p.config.perAccountCapacity, k.sender, k.nonce);
    assert !Stale(p, QueueKey(p.baseFee, tx));
  }

  /** An eviction takes the dearest of the live transactions the queue names exactly when the first key names a live
      transaction and every key that claims more than its tip is stale: a stale key in front does no harm by itself,
      a key of a live transaction above the victim's tip does. In a sound queue nothing is stale, and the victim
      is always the dearest. */
  lemma VictimIsDearestIff(p: Pool)
    requires WellFormed(p) && OwnKeyQueued(p) && p.queue != {}
    ensures VictimIsDearest(p) <==> OnlyStaleAbove(p)
    ensures QueueSound(p) ==> VictimIsDearest(p)
  {
    if OnlyStaleAbove(p) {
      forall k | k in p.queue && At(p.accounts, k.sender, k.nonce).Some?
        ensures EffectiveTip(p.baseFee, At(p.accounts, k.sender, k.nonce).value) <= EffectiveTip(p.baseFee, Victim(p).value)
      {
        KeyIsStaleOrCheap(p, k);
      }
    }
    assert IsFirst(First(p.queue), p.queue);
  }

  /** Whatever it takes out, an eviction is for a newcomer that tips more than any key in the queue claims. */
  lemma NewcomerOutbidsQueue(p: Pool, tx: PendingTx)
    requires Full(p) && Admitted(p, tx)
    ensures forall k :: k in p.queue ==> k.fee < EffectiveTip(p.baseFee, tx)
  {
    assert IsFirst(First(p.queue), p.queue);
  }

  // ----- Index agreement -----

  /** The newcomer strands no queue key. */
  ghost predicate StrandsNoQueueKey(p: Pool, tx: PendingTx) {
    var prior := Overwritten(p, tx);
    prior.Some? && QueueKey(p.baseFee, prior.value) in Vacated(p, tx).queue ==>
      EffectiveTip(p.baseFee, prior.value) == EffectiveTip(p.baseFee, tx)
  }

  /** The newcomer strands no base-fee key. */
  ghost predicate StrandsNoEligibilityKey(p: Pool, tx: PendingTx) {
    Overwritten(p, tx).Some? ==> Overwritten(p, tx).value.maxFee == tx.maxFee
  }

  lemma InsertKeepsQueueSoundIff(p: Pool, tx: PendingTx)
    requires WellFormed(p) && ProtocolNonce(tx) && QueueSound(p)
    ensures QueueSound(Insert(p, tx)) <==> StrandsNoQueueKey(p, tx)
  {
    if Admitted(p, tx) {
      VacatedKeeps(p, tx);
      var q := Vacated(p, tx);
      if Accepted(p, tx) {
        PlaceKeepsQueueSoundIff(q, tx);
      } else {
        PlaceRejectedKeepsSoundness(q, tx);
      }
    }
  }

  lemma InsertKeepsEligibilitySoundIff(p: Pool, tx: PendingTx)
    requires WellFormed(p) && ProtocolNonce(tx) && EligibilitySound(p)
    ensures EligibilitySound(Insert(p, tx)) <==> StrandsNoEligibilityKey(p, tx)
  {
    if Admitted(p, tx) {
      VacatedKeeps(p, tx);
      var q := Vacated(p, tx);
      if Accepted(p, tx) {
        PlaceKeepsEligibilitySoundIff(q, tx);
      } else {
        PlaceRejectedKeepsSoundness(q, tx);
      }
    }
  }

  /** The capacity is exceeded in exactly one way: the pool is full, the popped key is stale so that
      nothing is freed, and the newcomer is accepted under a base-fee key not yet present. */
  lemma InsertKeepsCapacityIff(p: Pool, tx: PendingTx)
    requires WellFormed(p) && ProtocolNonce(tx) && |p.eligibility| <= p.config.globalCapacity
    ensures |Insert(p, tx).eligibility| > p.config.globalCapacity <==>
              && Full(p) && Accepted(p, tx)
              && At(p.accounts, First(p.queue).sender, First(p.queue).nonce).None?
              && EligibilityKey(tx) !in p.eligibility
  {
  }

  /** A sound queue has no stale key, so the capacity holds. */
  lemma InsertKeepsCapacity(p: Pool, tx: PendingTx)
    requires WellFormed(p) && ProtocolNonce(tx) && QueueSound(p) && |p.eligibility| <= p.config.globalCapacity
    ensures |Insert(p, tx).eligibility| <= p.config.globalCapacity
  {
  }
}
