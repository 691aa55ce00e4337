/** crates/bulkmail/src/nonce_manager.rs: the confirmed baseline and the nonces in flight. */
module Nonces {
  import opened Prelude

  datatype NonceState = NonceState(current: nat, inFlight: set<nat>)

  /** `n` is the least nonce from `from` on that is not taken. */
  ghost predicate IsFirstFree(n: nat, from: nat, taken: set<nat>) {
    from <= n && n !in taken && forall x :: from <= x < n ==> x in taken
  }

  /** The least free nonce; the search passes at most every taken nonce once. */
  function FirstFree(from: nat, taken: set<nat>): (n: nat)
    ensures IsFirstFree(n, from, taken)
    ensures n <= from + |taken|
    decreases |taken|
  {
    if from !in taken then from
    else
      var n := FirstFree(from + 1, taken - {from});
      assert taken == (taken - {from}) + {from};
      n
  }

  lemma FirstFreeIsUnique(a: nat, b: nat, from: nat, taken: set<nat>)
    requires IsFirstFree(a, from, taken) && IsFirstFree(b, from, taken)
    ensures a == b
  {
  }

  function NextNonce(s: NonceState): nat {
    FirstFree(s.current, s.inFlight)
  }

  function Take(s: NonceState): NonceState {
    s.(inFlight := s.inFlight + {NextNonce(s)})
  }

  function Release(s: NonceState, nonce: nat): NonceState {
    s.(inFlight := s.inFlight - {nonce})
  }

  /** `update_current_nonce`: the baseline only moves up, and entries below it are pruned. */
  function Advance(s: NonceState, nonce: nat): NonceState {
    if nonce > s.current
    then NonceState(nonce, set n | n in s.inFlight && n >= nonce)
    else s
  }

  class NonceManager {
    var current: nat
    var inFlight: set<nat>

    function State(): NonceState
      reads this
    {
      NonceState(current, inFlight)
    }

    constructor (onChain: nat)
      ensures State() == NonceState(onChain, {})
    {
      current := onChain;
      inFlight := {};
    }

    /** Reserves the least nonce from the baseline on that is not in flight. */
    method GetNextAvailableNonce() returns (nonce: nat)
      modifies this`inFlight
      ensures IsFirstFree(nonce, old(current), old(inFlight))
      ensures nonce <= old(current) + |old(inFlight)|
      ensures State() == Take(old(State()))
    {
      nonce := current;
      ghost var passed := {};
      while nonce in inFlight
        invariant current <= nonce
        invariant forall x :: current <= x < nonce ==> x in inFlight
        invariant passed <= inFlight && |passed| == nonce - current
        invariant forall x :: x in passed <==> current <= x < nonce
        decreases inFlight - passed
      {
        passed := passed + {nonce};
        nonce := nonce + 1;
      }
      SubsetSize(passed, inFlight);
      FirstFreeIsUnique(nonce, FirstFree(current, inFlight), current, inFlight);
      inFlight := inFlight + {nonce};
    }

    method MarkNonceAvailable(nonce: nat)
      modifies this`inFlight
      ensures State() == Release(old(State()), nonce)
    {
      inFlight := inFlight - {nonce};
    }

    method UpdateCurrentNonce(newNonce: nat)
      modifies this
      ensures State() == Advance(old(State()), newNonce)
      ensures current == Max(old(current), newNonce)
    {
      if newNonce > current {
        current := newNonce;
        inFlight := set n | n in inFlight && n >= newNonce;
      }
    }

    /** `onChain` is what the node answered; a failed query changes nothing. */
    method SyncNonce(onChain: Option<nat>) returns (ok: bool)
      modifies this
      ensures ok <==> onChain.Some?
      ensures State() == if ok then Advance(old(State()), onChain.value) else old(State())
    {
      ok := onChain.Some?;
      if ok {
        UpdateCurrentNonce(onChain.value);
      }
    }
  }
}
