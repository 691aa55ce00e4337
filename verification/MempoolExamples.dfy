/** Concrete runs of the tracker in which an index goes wrong. */
module MempoolExamples {
  import opened Prelude
  import opened MempoolState
  import opened MempoolInsert
  import opened MempoolBlock
  import opened MempoolRuns

  /** Room for two transactions, one per account, base fee 0. */
  const SMALL: Config := Config(0, 2, 1, 0.0)

  function Tipping(sender: Address, nonce: nat, tip: nat): PendingTx {
    PendingTx(0, sender, nonce, 10, tip, 0)
  }

  function Holding(accounts: map<Address, Account>, eligibility: set<Key>, queue: set<Key>): Pool {
    Empty(SMALL).(accounts := accounts, eligibility := eligibility, queue := queue)
  }

  function One(slot: Option<PendingTx>): Account {
    Account(0, [slot])
  }

  // ----- A replacement with a lower tip strands the old queue key -----

  function Lone(tip: nat, queue: set<Key>): Pool {
    Holding(map[1 := One(Some(Tipping(1, 0, tip)))], {Key(10, 1, 0)}, queue)
  }

  /** Account 1 tips `low` but also has a stale key of 6; account 2 tips `other`. */
  function Stranded(low: nat, other: nat): Pool {
    Holding(map[1 := One(Some(Tipping(1, 0, low))), 2 := One(Some(Tipping(2, 0, other)))],
            {Key(10, 1, 0), Key(10, 2, 0)}, {Key(6, 1, 0), Key(low, 1, 0), Key(other, 2, 0)})
  }

  lemma FirstArrives()
    ensures Insert(Empty(SMALL), Tipping(1, 0, 6)) == Lone(6, {Key(6, 1, 0)})
  {
    assert WithTx(Account(0, []), Tipping(1, 0, 6)) == One(Some(Tipping(1, 0, 6)));
  }

  lemma ReplacementStrands(low: nat)
    requires low < 6
    ensures Insert(Lone(6, {Key(6, 1, 0)}), Tipping(1, 0, low)) == Lone(low, {Key(6, 1, 0), Key(low, 1, 0)})
  {
    assert WithTx(One(Some(Tipping(1, 0, 6))), Tipping(1, 0, low)) == One(Some(Tipping(1, 0, low)));
  }

  lemma SecondArrives(low: nat, other: nat)
    requires low < 6 && other < 6
    ensures Insert(Lone(low, {Key(6, 1, 0), Key(low, 1, 0)}), Tipping(2, 0, other)) == Stranded(low, other)
  {
    assert WithTx(Account(0, []), Tipping(2, 0, other)) == One(Some(Tipping(2, 0, other)));
  }

  /** Three insertions lead there. */
  lemma StrandingRun(low: nat, other: nat) returns (states: seq<Pool>, events: seq<Event>)
    requires low < 6 && other < 6
    ensures IsRun(SMALL, states, events) && |events| == 3 && states[3] == Stranded(low, other)
  {
    FirstArrives();
    ReplacementStrands(low);
    SecondArrives(low, other);
    states, events := Extend(SMALL, [Empty(SMALL)], [], Pending(Tipping(1, 0, 6)));
    states, events := Extend(SMALL, states, events, Pending(Tipping(1, 0, low)));
    states, events := Extend(SMALL, states, events, Pending(Tipping(2, 0, other)));
  }

  lemma StaleKeyIsFirst(low: nat, other: nat)
    requires low < 6 && other < 6
    ensures First(Stranded(low, other).queue) == Key(6, 1, 0) && Full(Stranded(low, other))
  {
    assert IsFirst(Key(6, 1, 0), Stranded(low, other).queue);
    assert |Stranded(low, other).eligibility| == 2;
  }

  // ----- An eviction can take the cheapest -----

  /** The pool holds tips 1 and 5; a newcomer tipping 7 evicts the one tipping 1. */
  lemma EvictionCanTakeCheapest() returns (states: seq<Pool>, events: seq<Event>)
    ensures IsRun(SMALL, states, events) && |events| == 4 && Full(states[3])
    ensures At(states[3].accounts, 1, 0) == Some(Tipping(1, 0, 1)) && At(states[3].accounts, 2, 0) == Some(Tipping(2, 0, 5))
    ensures At(states[4].accounts, 1, 0) == None && At(states[4].accounts, 2, 0) == Some(Tipping(2, 0, 5))
    ensures At(states[4].accounts, 3, 0) == Some(Tipping(3, 0, 7))
    ensures states[3].queue != {} && !VictimIsDearest(states[3])
  {
    states, events := StrandingRun(1, 5);
    var p := states[3];
    StaleKeyIsFirst(1, 5);
    ReachableWellFormed(SMALL, states, events, 3);
    InsertMeaning(p, Tipping(3, 0, 7));
    EvictMeaning(p);
    assert Key(5, 2, 0) in p.queue;
    states, events := Extend(SMALL, states, events, Pending(Tipping(3, 0, 7)));
  }

  /** With the tips the other way round, the same stale key in front does no harm: the victim is the dearest. */
  lemma StaleFrontCanTakeDearest() returns (states: seq<Pool>, events: seq<Event>)
    ensures IsRun(SMALL, states, events) && |events| == 3 && states[3].queue != {}
    ensures Stale(states[3], First(states[3].queue)) && VictimIsDearest(states[3])
  {
    states, events := StrandingRun(5, 1);
    StaleKeyIsFirst(5, 1);
  }

  // ----- The capacity can be exceeded -----

  /** What is left once a rejected newcomer has evicted the slot behind the stale key. */
  function Emptied(): Pool {
    Holding(map[1 := One(None), 2 := One(Some(Tipping(2, 0, 1)))], {Key(10, 2, 0)}, {Key(5, 1, 0), Key(1, 2, 0)})
  }

  lemma EvictThenReject()
    ensures Insert(Stranded(5, 1), Tipping(2, 5, 7)) == Emptied()
  {
    var p := Stranded(5, 1);
    StaleKeyIsFirst(5, 1);
    var q := Evict(p);
    assert One(Some(Tipping(1, 0, 5))).slots[0 := None] == One(None).slots;
    assert q.accounts == Emptied().accounts;
    assert q.queue == Emptied().queue;
    assert q.eligibility == Emptied().eligibility;
    assert Place(q, Tipping(2, 5, 7)) == q;
  }

  /** The pool is full again, with a stale key in front. */
  lemma RefillBehindStaleKey(p: Pool)
    requires p == Insert(Emptied(), Tipping(3, 0, 2))
    ensures p.queue == {Key(5, 1, 0), Key(1, 2, 0), Key(2, 3, 0)} && p.eligibility == {Key(10, 2, 0), Key(10, 3, 0)}
    ensures At(p.accounts, 1, 0).None? && p.config == SMALL && p.baseFee == 0 && 4 !in p.accounts
  {
  }

  lemma StalePop(p: Pool)
    requires p.queue == {Key(5, 1, 0), Key(1, 2, 0), Key(2, 3, 0)} && p.eligibility == {Key(10, 2, 0), Key(10, 3, 0)}
    requires At(p.accounts, 1, 0).None? && p.config == SMALL && p.baseFee == 0 && 4 !in p.accounts
    ensures Insert(p, Tipping(4, 0, 6)).eligibility == {Key(10, 2, 0), Key(10, 3, 0), Key(10, 4, 0)}
  {
    assert IsFirst(Key(5, 1, 0), p.queue);
    assert First(p.queue) == Key(5, 1, 0);
    assert |p.eligibility| == 2;
  }

  lemma EmptyingRun() returns (states: seq<Pool>, events: seq<Event>)
    ensures IsRun(SMALL, states, events) && |events| == 4 && states[4] == Emptied()
  {
    states, events := StrandingRun(5, 1);
    EvictThenReject();
    states, events := Extend(SMALL, states, events, Pending(Tipping(2, 5, 7)));
  }

  /** Six insertions that push a pool of capacity 2 to three base-fee keys: a replacement strands a queue
      key, a rejected newcomer evicts the live slot behind it, and the stale key is then popped for nothing. */
  lemma CapacityCanBeExceeded() returns (states: seq<Pool>, events: seq<Event>)
    ensures IsRun(SMALL, states, events) && |events| == 6
    ensures |states[6].eligibility| == 3 > SMALL.globalCapacity
  {
    states, events := EmptyingRun();
    states, events := Extend(SMALL, states, events, Pending(Tipping(3, 0, 2)));
    RefillBehindStaleKey(states[5]);
    StalePop(states[5]);
    states, events := Extend(SMALL, states, events, Pending(Tipping(4, 0, 6)));
  }

  // ----- A block can skip a live nonce -----

  function Mining(tx: PendingTx): Event {
    NewBlock(Block([tx], 0, 0, 30_000_000))
  }

  lemma LateArrival(p: Pool)
    requires p == ApplyBlock(Empty(SMALL), Mining(Tipping(1, 0, 5)).block)
    ensures var q := Insert(p, Tipping(1, 0, 5));
            q.accounts == map[1 := One(Some(Tipping(1, 0, 5)))] && q.eligibility == {Key(10, 1, 0)}
  {
    assert WithTx(Account(0, []), Tipping(1, 0, 5)) == One(Some(Tipping(1, 0, 5)));
    assert p.accounts == map[] && p.eligibility == {};
  }

  lemma MinedPast(p: Pool)
    requires p.accounts == map[1 := One(Some(Tipping(1, 0, 5)))] && p.eligibility == {Key(10, 1, 0)}
    ensures var q := ApplyBlock(p, Mining(Tipping(1, 1, 5)).block);
            q.eligibility == {Key(10, 1, 0)} && At(q.accounts, 1, 0).None?
  {
    var b := Mining(Tipping(1, 1, 5)).block;
    BlockMeaning(p, b);
    NextConfirmedIsLargest(0, 1, b.included);
    assert b.included[0] == Tipping(1, 1, 5);
    assert Includes(b.included, 1, 1);
    assert !Includes(b.included, 1, 0);
  }

  /** Blocks with nonces 0 and 1 of one account in their proper order, and nonce 0 heard of late, in between: its
      base-fee key is left behind. */
  lemma LateArrivalStrandsKey() returns (states: seq<Pool>, events: seq<Event>)
    ensures IsRun(SMALL, states, events)
    ensures events == [Mining(Tipping(1, 0, 5)), Pending(Tipping(1, 0, 5)), Mining(Tipping(1, 1, 5))]
    ensures states[3].eligibility == {Key(10, 1, 0)} && At(states[3].accounts, 1, 0).None?
  {
    states, events := Extend(SMALL, [Empty(SMALL)], [], Mining(Tipping(1, 0, 5)));
    LateArrival(states[1]);
    states, events := Extend(SMALL, states, events, Pending(Tipping(1, 0, 5)));
    MinedPast(states[2]);
    states, events := Extend(SMALL, states, events, Mining(Tipping(1, 1, 5)));
  }
}
