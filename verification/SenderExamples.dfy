/** Runs of the Ethereum sender: one in which a replacement misses the 10% threshold on its max fee, and one in which
    the nonce of a reverted transaction is handed out again. */
module SenderExamples {
  import opened Prelude
  import opened Messages
  import opened Nonces
  import opened GasPrices
  import opened EthAdapter
  import opened SenderModel

  /** One more step of a run. */
  lemma Extend(onChain: nat, states: seq<State>, labels: seq<Label>, l: Label)
    returns (states': seq<State>, labels': seq<Label>)
    requires IsRun(EthRetry, onChain, states, labels) && Enabled(EthRetry, states[|labels|], l)
    ensures IsRun(EthRetry, onChain, states', labels') && |labels'| == |labels| + 1
    ensures states'[|labels'|] == Step(EthRetry, states[|labels|], l)
  {
    ExtendRun(EthRetry, onChain, states, labels, l);
    states', labels' := states + [Step(EthRetry, states[|labels|], l)], labels + [l];
  }

  /** No deadline, no priority, created at the epoch: its priority at the epoch is 0. */
  const PLAIN: Message := Message(0, 21_000, 0, None, 0, 0)

  /** The sender is idle with room for another task. */
  predicate Idle(s: State) {
    s.loop.Acquiring? && s.permits >= 2 && s.queue == []
  }

  /** Adds a message to an idle sender and starts its task. */
  lemma Spawn(onChain: nat, states: seq<State>, labels: seq<Label>)
    returns (states': seq<State>, labels': seq<Label>)
    requires IsRun(EthRetry, onChain, states, labels) && Idle(states[|labels|])
    ensures IsRun(EthRetry, onChain, states', labels')
    ensures var s, s' := states[|labels|], states'[|labels'|];
            && s'.loop.Acquiring? && s'.permits == s.permits - 1 && s'.queue == []
            && s'.tasks == s.tasks + [Task(|s.added|, PLAIN, 0, 0, 0, Starting)]
            && s'.gas == s.gas && s'.log == s.log && |s'.added| == |s.added| + 1
            && s'.nonces == s.nonces && s'.reverted == s.reverted
  {
    states', labels' := Extend(onChain, states, labels, AddPush(PLAIN, 0));
    states', labels' := Extend(onChain, states', labels', Acquire);
    assert IsHighest(states'[|labels'|].queue, 0);
    states', labels' := Extend(onChain, states', labels', PopNext(0));
  }

  /** Everything but task `i` and the managers stays. */
  predicate SameSurroundings(s: State, s': State) {
    && s'.loop == s.loop && s'.queue == s.queue && s'.added == s.added && |s'.tasks| == |s.tasks|
  }

  /** A fresh task takes its nonce. */
  lemma Start(onChain: nat, states: seq<State>, labels: seq<Label>, i: nat)
    returns (states': seq<State>, labels': seq<Label>)
    requires IsRun(EthRetry, onChain, states, labels) && i < |states[|labels|].tasks|
    requires states[|labels|].tasks[i].phase.Starting? && states[|labels|].tasks[i].msg == PLAIN
    ensures IsRun(EthRetry, onChain, states', labels')
    ensures var s := states[|labels|];
            states'[|labels'|] == s.(
              nonces := Take(s.nonces),
              tasks := s.tasks[i := s.tasks[i].(issued := s.tasks[i].issued + 1, phase := AwaitingEstimate(NextNonce(s.nonces), 0))])
  {
    assert EffectivePriority(PLAIN, 0) == 0;
    states', labels' := Extend(onChain, states, labels, OfTask(i, CheckStart(0)));
    states', labels' := Extend(onChain, states', labels', OfTask(i, TakeNonce));
  }

  /** Takes a fresh task to its quote. */
  lemma Quote(onChain: nat, states: seq<State>, labels: seq<Label>, i: nat)
    returns (states': seq<State>, labels': seq<Label>, nonce: nat)
    requires IsRun(EthRetry, onChain, states, labels) && i < |states[|labels|].tasks|
    requires states[|labels|].tasks[i].phase.Starting? && states[|labels|].tasks[i].msg == PLAIN
    ensures IsRun(EthRetry, onChain, states', labels')
    ensures var s, s' := states[|labels|], states'[|labels'|];
            var fee := EthFee(INITIAL_BASE_FEE, PriorityFee(s.gas.estimate, Analyze(s.gas.window), 0));
            && SameSurroundings(s, s') && s'.permits == s.permits && s'.gas == s.gas && s'.log == s.log
            && s'.tasks[i] == s.tasks[i].(issued := s.tasks[i].issued + 1, phase := Ready(nonce, fee, 0))
            && nonce == NextNonce(s.nonces) && s'.nonces == Take(s.nonces) && s'.reverted == s.reverted
  {
    nonce := NextNonce(states[|labels|].nonces);
    states', labels' := Start(onChain, states, labels, i);
    states', labels' := Extend(onChain, states', labels', OfTask(i, ReadEstimate));
    states', labels' := Extend(onChain, states', labels', OfTask(i, ReadWindow));
  }

  lemma Send(onChain: nat, states: seq<State>, labels: seq<Label>, i: nat)
    returns (states': seq<State>, labels': seq<Label>)
    requires IsRun(EthRetry, onChain, states, labels) && i < |states[|labels|].tasks|
    requires states[|labels|].tasks[i].phase.Ready? && Origin(states[|labels|].tasks[i].msg) == PLAIN
    ensures IsRun(EthRetry, onChain, states', labels')
    ensures var s, s' := states[|labels|], states'[|labels'|];
            var t := s.tasks[i];
            && SameSurroundings(s, s') && s'.permits == s.permits && s'.gas == s.gas
            && s'.nonces == s.nonces && s'.reverted == s.reverted
            && s'.log == s.log + [Sent(t.id, t.sends + 1, t.phase.nonce, t.phase.fee, 0)]
            && s'.tasks[i] == t.(sends := t.sends + 1, phase := Sending(t.phase.nonce, t.phase.fee, t.phase.replacements))
  {
    states', labels' := Extend(onChain, states, labels, OfTask(i, CheckSend(0)));
  }

  /** The transaction confirms after `elapsed` nanoseconds and both managers learn of it. */
  lemma Confirm(onChain: nat, states: seq<State>, labels: seq<Label>, i: nat, elapsed: nat)
    returns (states': seq<State>, labels': seq<Label>)
    requires IsRun(EthRetry, onChain, states, labels)
    requires i < |states[|labels|].tasks| && states[|labels|].tasks[i].phase.Sending?
    ensures IsRun(EthRetry, onChain, states', labels')
    ensures var s, s' := states[|labels|], states'[|labels'|];
            && SameSurroundings(s, s') && s'.permits == s.permits + 1 && s'.log == s.log
            && s'.gas == GasState(Blend(s.gas.estimate, s.tasks[i].phase.fee.priorityFee), PushSample(s.gas.window, elapsed))
  {
    states', labels' := Extend(onChain, states, labels, OfTask(i, SendConfirmed));
    states', labels' := Extend(onChain, states', labels', OfTask(i, RecordSample(elapsed)));
    states', labels' := Extend(onChain, states', labels', OfTask(i, BlendEstimate));
    states', labels' := Return(onChain, states', labels', i);
  }

  lemma Return(onChain: nat, states: seq<State>, labels: seq<Label>, i: nat)
    returns (states': seq<State>, labels': seq<Label>)
    requires IsRun(EthRetry, onChain, states, labels) && i < |states[|labels|].tasks|
    requires var p := states[|labels|].tasks[i].phase; p.Confirming? && p.blended && !p.nonceDone
    ensures IsRun(EthRetry, onChain, states', labels')
    ensures var s, s' := states[|labels|], states'[|labels'|];
            SameSurroundings(s, s') && s'.permits == s.permits + 1 && s'.log == s.log && s'.gas == s.gas
  {
    states', labels' := Extend(onChain, states, labels, OfTask(i, ConfirmNonce));
    states', labels' := Extend(onChain, states', labels', OfTask(i, ConfirmReturns));
  }

  /** The transaction is dropped and sent again. */
  lemma DropAndResend(onChain: nat, states: seq<State>, labels: seq<Label>, i: nat)
    returns (states': seq<State>, labels': seq<Label>)
    requires IsRun(EthRetry, onChain, states, labels) && i < |states[|labels|].tasks|
    requires states[|labels|].tasks[i].phase.Sending? && states[|labels|].tasks[i].phase.replacements == 0
    requires states[|labels|].tasks[i].msg == PLAIN
    ensures IsRun(EthRetry, onChain, states', labels')
    ensures var s, s' := states[|labels|], states'[|labels'|];
            var t := s.tasks[i];
            s'.log == s.log + [Sent(t.id, t.sends + 1, t.phase.nonce, BumpFee(t.phase.fee), 0)]
  {
    var t := states[|labels|].tasks[i];
    states', labels' := Extend(onChain, states, labels, OfTask(i, SendDropped(Resubmit(BumpFee(t.phase.fee), t.phase.nonce))));
    states', labels' := Send(onChain, states', labels', i);
  }

  lemma QuoteBeforeAnySample()
    ensures PriorityFee(INITIAL_PRIORITY_FEE, Analyze([]), 0) == 2 * GWEI
  {
  }

  lemma QuoteAfterOneFastSample()
    ensures PushSample([], 1) == [1] && Analyze([1]) == Low
    ensures Blend(INITIAL_PRIORITY_FEE, 2 * GWEI) == 1_500_000_000
    ensures PriorityFee(1_500_000_000, Low, 0) == 1_500_000_000
  {
    assert Sum([1]) == 1;
  }

  /** The first message confirms at 2 Gwei in no time; the second is quoted 1.5 Gwei on a quiet network, is dropped
      and is sent again at 1.8 Gwei: a max fee of 3.5, then 3.8 Gwei, less than 10% more. */
  lemma ReplacementCanBeUnderpriced(onChain: nat) returns (states: seq<State>, labels: seq<Label>)
    ensures IsRun(EthRetry, onChain, states, labels)
    ensures var log := states[|labels|].log;
            && |log| == 3
            && log[1].id == log[2].id && log[2].attempt == log[1].attempt + 1 && log[1].nonce == log[2].nonce
            && MaxFeePerGas(log[1].fee) == 3_500_000_000 && MaxFeePerGas(log[2].fee) == 3_800_000_000
            && !TenPercentAbove(MaxFeePerGas(log[2].fee), MaxFeePerGas(log[1].fee))
  {
    QuoteBeforeAnySample();
    QuoteAfterOneFastSample();
    states, labels := [Initial(onChain)], [];
    states, labels := Spawn(onChain, states, labels);
    var nonce;
    states, labels, nonce := Quote(onChain, states, labels, 0);
    states, labels := Send(onChain, states, labels, 0);
    states, labels := Confirm(onChain, states, labels, 0, 1);
    states, labels := Spawn(onChain, states, labels);
    states, labels, nonce := Quote(onChain, states, labels, 1);
    states, labels := Send(onChain, states, labels, 1);
    states, labels := DropAndResend(onChain, states, labels, 1);
  }

  // ----- A reverted nonce -----

  /** Task `i` is sending its plain message with `nonce` after `r` replacements, all of them reverted. */
  predicate SendingPlain(s: State, i: nat, nonce: nat, r: nat) {
    && i < |s.tasks| && s.tasks[i].phase.Sending? && s.tasks[i].phase.nonce == nonce
    && s.tasks[i].phase.replacements == r == s.tasks[i].msg.retryCount && Origin(s.tasks[i].msg) == PLAIN
  }

  /** The transaction reverts and is sent again. */
  lemma RevertAndResend(onChain: nat, states: seq<State>, labels: seq<Label>, i: nat, nonce: nat, r: nat)
    returns (states': seq<State>, labels': seq<Label>)
    requires IsRun(EthRetry, onChain, states, labels) && SendingPlain(states[|labels|], i, nonce, r) && r < 2
    ensures IsRun(EthRetry, onChain, states', labels') && SendingPlain(states'[|labels'|], i, nonce, r + 1)
    ensures var s, s' := states[|labels|], states'[|labels'|];
            && SameSurroundings(s, s') && s'.permits == s.permits
            && s'.nonces == s.nonces && s'.reverted == s.reverted + {nonce}
            && |s'.log| == |s.log| + 1 && s'.log[..|s.log|] == s.log
  {
    var t := states[|labels|].tasks[i];
    states', labels' := Extend(onChain, states, labels, OfTask(i, SendReverted(Resubmit(BumpFee(t.phase.fee), nonce))));
    states', labels' := Send(onChain, states', labels', i);
  }

  /** The last transaction reverts too; the message is given up and its nonce released. */
  lemma RevertAndRelease(onChain: nat, states: seq<State>, labels: seq<Label>, i: nat, nonce: nat)
    returns (states': seq<State>, labels': seq<Label>)
    requires IsRun(EthRetry, onChain, states, labels) && SendingPlain(states[|labels|], i, nonce, 2)
    ensures IsRun(EthRetry, onChain, states', labels')
    ensures var s, s' := states[|labels|], states'[|labels'|];
            && SameSurroundings(s, s') && s'.permits == s.permits + 1
            && s'.nonces == Release(s.nonces, nonce) && s'.reverted == s.reverted + {nonce} && s'.log == s.log
  {
    var t := states[|labels|].tasks[i];
    states', labels' := Extend(onChain, states, labels, OfTask(i, SendReverted(Resubmit(BumpFee(t.phase.fee), nonce))));
    states', labels' := Extend(onChain, states', labels', OfTask(i, ReleaseNonce));
  }

  /** A plain message is added, quoted and sent. */
  lemma SpawnAndSend(onChain: nat, states: seq<State>, labels: seq<Label>, i: nat)
    returns (states': seq<State>, labels': seq<Label>)
    requires IsRun(EthRetry, onChain, states, labels) && Idle(states[|labels|]) && i == |states[|labels|].tasks|
    ensures IsRun(EthRetry, onChain, states', labels')
    ensures var s, s' := states[|labels|], states'[|labels'|];
            && SendingPlain(s', i, NextNonce(s.nonces), 0) && s'.nonces == Take(s.nonces) && s'.reverted == s.reverted
            && s'.loop.Acquiring? && s'.permits == s.permits - 1 && s'.queue == []
            && |s'.tasks| == i + 1 && |s'.added| == |s.added| + 1
            && |s'.log| == |s.log| + 1 && s'.log[..|s.log|] == s.log
            && s'.log[|s.log|].id == |s.added| && s'.log[|s.log|].nonce == NextNonce(s.nonces)
  {
    states', labels' := Spawn(onChain, states, labels);
    var nonce;
    states', labels', nonce := Quote(onChain, states', labels', i);
    states', labels' := Send(onChain, states', labels', i);
  }

  lemma FirstNonceIsFreeAgain(onChain: nat)
    ensures var start := NonceState(onChain, {});
            NextNonce(start) == onChain && NextNonce(Release(Take(start), onChain)) == onChain
  {
  }

  /** Three transactions of the first message, all with the first nonce, are mined and revert. The nonce is used up on
      chain, yet it is released with the message and, no block having been seen since, given to the second message. */
  lemma RevertedNonceReissued(onChain: nat) returns (states: seq<State>, labels: seq<Label>)
    ensures IsRun(EthRetry, onChain, states, labels)
    ensures var s := states[|labels|];
            && onChain in s.reverted
            && |s.log| == 4 && s.log[0].id != s.log[3].id && s.log[0].nonce == s.log[3].nonce == onChain
  {
    FirstNonceIsFreeAgain(onChain);
    states, labels := [Initial(onChain)], [];
    states, labels := SpawnAndSend(onChain, states, labels, 0);
    states, labels := RevertAndResend(onChain, states, labels, 0, onChain, 0);
    states, labels := RevertAndResend(onChain, states, labels, 0, onChain, 1);
    states, labels := RevertAndRelease(onChain, states, labels, 0, onChain);
    states, labels := SpawnAndSend(onChain, states, labels, 1);
  }
}
