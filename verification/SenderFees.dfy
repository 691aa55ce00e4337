/** The closed fee loop of the Ethereum sender: quotes, bumps and the running estimate over every interleaving. */
module SenderFees {
  import opened Prelude
  import opened Messages
  import opened GasPrices
  import opened EthAdapter
  import opened SenderModel
  import opened SenderConservation
  import opened SenderNonces

  predicate TipInRange(tip: nat) {
    GWEI <= tip <= 144 * GWEI
  }

  predicate QuotedFee(fee: EthFee, replacements: nat) {
    && fee.baseFee == INITIAL_BASE_FEE
    && replacements <= 2
    && GWEI <= fee.priorityFee <= TipCeiling(replacements)
  }

  predicate FeeOk(t: Task) {
    match t.phase
    case AwaitingWindow(_, _, estimate) => TipInRange(estimate)
    case Ready(_, fee, r) => QuotedFee(fee, r)
    case Sending(_, fee, r) => QuotedFee(fee, r)
    case Confirming(_, fee, _, _, _) => TipInRange(fee.priorityFee)
    case _ => true
  }

  ghost predicate FeesInRange(s: State) {
    && TipInRange(s.gas.estimate)
    && (forall i :: 0 <= i < |s.tasks| ==> FeeOk(s.tasks[i]))
    && (forall j :: 0 <= j < |s.log| ==> s.log[j].fee.baseFee == INITIAL_BASE_FEE && TipInRange(s.log[j].fee.priorityFee))
  }

  lemma BlendStaysInRange(estimate: nat, used: nat)
    requires TipInRange(estimate) && TipInRange(used)
    ensures TipInRange(Blend(estimate, used)) && estimate + used < U128_MODULUS
  {
  }

  lemma DropKeepsFeeOk(t: Task)
    requires EthTask(t) && FeeOk(t) && t.phase.Sending?
    ensures FeeOk(AfterDrop(EthRetry, t, EthDecision(t.msg, t.phase.fee, t.phase.nonce, t.phase.replacements)))
  {
    DropResubmitsOrQuits(t);
    if IncrementRetry(t.msg).1 {
      BumpStaysUnderCeiling(t.phase.fee, t.phase.replacements);
    }
  }

  /** One task step: the task's own fee, the estimate and whatever is sent stay in range. */
  lemma TaskStepKeepsFeeOk(s: State, i: nat, l: TaskLabel)
    requires i < |s.tasks| && EthTask(s.tasks[i]) && FeeOk(s.tasks[i]) && TipInRange(s.gas.estimate)
    requires TaskEnabled(EthRetry, s.tasks[i], l)
    ensures var s' := TaskStep(EthRetry, s, i, l);
            && FeeOk(s'.tasks[i]) && TipInRange(s'.gas.estimate)
            && (Sends(s.tasks[i], l) ==>
                  && QuotedFee(s.tasks[i].phase.fee, s.tasks[i].phase.replacements)
                  && s'.log == s.log + [Sent(s.tasks[i].id, s.tasks[i].sends + 1, s.tasks[i].phase.nonce, s.tasks[i].phase.fee, l.now)])
  {
    var t := s.tasks[i];
    match l
    case ReadWindow => PriorityFeeInRange(t.phase.estimate, Analyze(s.gas.window), t.phase.priority);
    case SendDropped(_) => DropKeepsFeeOk(t);
    case SendReverted(_) => DropKeepsFeeOk(t);
    case BlendEstimate => BlendStaysInRange(s.gas.estimate, t.phase.fee.priorityFee);
    case _ =>
  }

  lemma StepKeepsFees(s: State, l: Label)
    requires FeesInRange(s) && EthTasks(s) && Enabled(EthRetry, s, l)
    ensures FeesInRange(Step(EthRetry, s, l))
  {
    var s' := Step(EthRetry, s, l);
    if l.OfTask? {
      TaskStepShape(EthRetry, s, l.i, l.step);
      TaskStepKeepsFeeOk(s, l.i, l.step);
    } else {
      assert s'.gas == s.gas && s'.log == s.log;
      assert forall i :: 0 <= i < |s'.tasks| ==> s'.tasks[i].phase.Starting? || (i < |s.tasks| && s'.tasks[i] == s.tasks[i]);
    }
  }

  lemma {:induction false} ReachableFees(onChain: nat, states: seq<State>, labels: seq<Label>, k: nat)
    requires IsRun(EthRetry, onChain, states, labels) && k <= |labels|
    ensures FeesInRange(states[k])
  {
    if k == 0 {
    } else {
      ReachableFees(onChain, states, labels, k - 1);
      ReachableEthSafe(onChain, states, labels, k - 1);
      StepKeepsFees(states[k - 1], labels[k - 1]);
    }
  }

  /** Over every run, the running estimate and every tip sent stay between 1 and 144 Gwei. */
  lemma FeeLoopIsBounded(onChain: nat, states: seq<State>, labels: seq<Label>, k: nat)
    requires IsRun(EthRetry, onChain, states, labels) && k <= |labels|
    ensures GWEI <= states[k].gas.estimate <= 144 * GWEI
    ensures forall j :: 0 <= j < |states[k].log| ==>
              states[k].log[j].fee.baseFee == 2 * GWEI && GWEI <= states[k].log[j].fee.priorityFee <= 144 * GWEI
  {
    ReachableFees(onChain, states, labels, k);
  }

  predicate BumpFits(fee: EthFee) {
    fee.priorityFee * GAS_PRICE_INCREASE_PERCENT < U128_MODULUS && BumpFee(fee).priorityFee < U128_MODULUS
  }

  /** The u128 sums and products behind one task step. */
  predicate ArithmeticFits(s: State, t: Task, l: TaskLabel) {
    match l
    case ReadWindow =>
      && t.phase.AwaitingWindow?
      && t.phase.estimate * Multiplier(Analyze(s.gas.window)) * (100 + Percent(Min(t.phase.priority, MAX_PRIORITY))) < U128_MODULUS
    case CheckSend(_) => t.phase.Ready? && MaxFeePerGas(t.phase.fee) < U128_MODULUS
    case SendDropped(_) => t.phase.Sending? && BumpFits(t.phase.fee)
    case SendReverted(_) => t.phase.Sending? && BumpFits(t.phase.fee)
    case BlendEstimate => t.phase.Confirming? && s.gas.estimate + t.phase.fee.priorityFee < U128_MODULUS
    case _ => true
  }

  /** Over every run, no fee computation overflows u128: not the quote, the bump, the max fee nor the blend. */
  lemma FeeArithmeticNeverOverflows(onChain: nat, states: seq<State>, labels: seq<Label>, k: nat, i: nat, l: TaskLabel)
    requires IsRun(EthRetry, onChain, states, labels) && k < |labels| && labels[k] == OfTask(i, l)
    ensures i < |states[k].tasks| && ArithmeticFits(states[k], states[k].tasks[i], l)
  {
    ReachableFees(onChain, states, labels, k);
    assert Enabled(EthRetry, states[k], labels[k]);
    var t := states[k].tasks[i];
    assert FeeOk(t);
    if l.ReadWindow? {
      PriorityFeeInRange(t.phase.estimate, Analyze(states[k].gas.window), t.phase.priority);
    }
  }

  // ----- Replacements -----

  /** What the log says about a message whose current task or entry has sent it `sends` times. */
  ghost predicate LastSend(log: seq<Sent>, t: Task) {
    forall j :: 0 <= j < |log| && log[j].id == t.id ==>
      && log[j].attempt <= t.sends
      && (log[j].attempt == t.sends ==>
            match t.phase
            case Ready(n, fee, _) => log[j].nonce == n && fee == BumpFee(log[j].fee)
            case Sending(n, fee, _) => log[j].nonce == n && fee == log[j].fee
            case _ => true)
  }

  /** Two consecutive attempts at one message. */
  predicate Replaces(later: Sent, earlier: Sent) {
    later.id == earlier.id && later.attempt == earlier.attempt + 1
  }

  predicate BumpOf(later: Sent, earlier: Sent) {
    later.nonce == earlier.nonce && later.fee == BumpFee(earlier.fee)
  }

  ghost predicate LogOrdered(log: seq<Sent>) {
    && (forall j :: 0 <= j < |log| ==> log[j].attempt >= 1)
    && (forall i, j :: 0 <= i < |log| && 0 <= j < |log| && Replaces(log[j], log[i]) ==> BumpOf(log[j], log[i]))
  }

  ghost predicate Traced(s: State) {
    && LogOrdered(s.log)
    && (forall j :: 0 <= j < |s.log| ==> s.log[j].id < |s.added|)
    && (forall k, j :: 0 <= k < |s.queue| && 0 <= j < |s.log| ==> s.log[j].id != s.queue[k].id)
    && (forall i :: 0 <= i < |s.tasks| && Owns(s.tasks[i]) ==> LastSend(s.log, s.tasks[i]))
    && Numbered(s.log)
  }

  lemma LogOrderedAppend(log: seq<Sent>, t: Task, e: Sent)
    requires LogOrdered(log) && LastSend(log, t) && t.phase.Ready?
    requires e == Sent(t.id, t.sends + 1, t.phase.nonce, t.phase.fee, e.at)
    ensures LogOrdered(log + [e])
  {
  }

  ghost predicate Numbered(log: seq<Sent>) {
    forall j :: 0 <= j < |log| ==> log[j].attempt == SendCount(log[..j], log[j].id) + 1
  }

  lemma NumberedAppend(log: seq<Sent>, e: Sent)
    requires Numbered(log) && e.attempt == SendCount(log, e.id) + 1
    ensures Numbered(log + [e])
  {
    var log' := log + [e];
    forall j | 0 <= j < |log'|
      ensures log'[j].attempt == SendCount(log'[..j], log'[j].id) + 1
    {
      assert log'[..j] == log[..j];
      assert log[..|log|] == log;
    }
  }

  lemma LastSendAppend(log: seq<Sent>, t: Task, e: Sent)
    requires LastSend(log, t)
    requires e.id != t.id || (t.sends == e.attempt && t.phase.Sending? && e.nonce == t.phase.nonce && e.fee == t.phase.fee)
    ensures LastSend(log + [e], t)
  {
  }

  /** A send is logged once and only for its owner. */
  lemma SendKeepsTraced(s: State, s': State, i: nat, e: Sent)
    requires Traced(s) && MessagesBalance(s) && OnlyTask(s, s', i)
    requires TaskOk(s, s.tasks[i]) && s.tasks[i].phase.Ready? && s'.queue == s.queue && s'.log == s.log + [e]
    requires e == Sent(s.tasks[i].id, s.tasks[i].sends + 1, s.tasks[i].phase.nonce, s.tasks[i].phase.fee, e.at)
    requires s'.tasks[i].sends == e.attempt && s'.tasks[i].phase == Sending(e.nonce, e.fee, s.tasks[i].phase.replacements)
    ensures Traced(s')
  {
    LogOrderedAppend(s.log, s.tasks[i], e);
    NumberedAppend(s.log, e);
    forall j | 0 <= j < |s'.tasks| && Owns(s'.tasks[j])
      ensures LastSend(s'.log, s'.tasks[j])
    {
      SendKeepsLastSend(s, s', i, e, j);
    }
    forall k, j | 0 <= k < |s'.queue| && 0 <= j < |s'.log|
      ensures s'.log[j].id != s'.queue[k].id
    {
      QueuedIsNotOwned(s, k, i);
    }
  }

  lemma SendKeepsLastSend(s: State, s': State, i: nat, e: Sent, j: nat)
    requires Traced(s) && MessagesBalance(s) && OnlyTask(s, s', i)
    requires s.tasks[i].phase.Ready? && e.id == s.tasks[i].id && e.attempt == s.tasks[i].sends + 1
    requires s'.tasks[i].sends == e.attempt && s'.tasks[i].phase == Sending(e.nonce, e.fee, s.tasks[i].phase.replacements)
    requires j < |s'.tasks| && Owns(s'.tasks[j])
    ensures LastSend(s.log + [e], s'.tasks[j])
  {
    assert LastSend(s.log, s.tasks[j]);
    if j != i {
      OwnersDiffer(s, i, j);
    }
    LastSendAppend(s.log, s'.tasks[j], e);
  }

  /** A task that does not send keeps its trace in order. */
  lemma QuietLastSend(s: State, i: nat, l: TaskLabel)
    requires i < |s.tasks| && EthTask(s.tasks[i]) && TaskEnabled(EthRetry, s.tasks[i], l) && !Sends(s.tasks[i], l)
    requires Owns(s.tasks[i]) && LogOrdered(s.log) && LastSend(s.log, s.tasks[i])
    ensures LastSend(s.log, TaskStep(EthRetry, s, i, l).tasks[i])
  {
  }

  lemma QuietStepKeepsTraced(s: State, s': State, i: nat)
    requires Traced(s) && OnlyTask(s, s', i) && s'.log == s.log && s'.queue == s.queue
    requires Owns(s'.tasks[i]) ==> LastSend(s.log, s'.tasks[i])
    ensures Traced(s')
  {
  }

  lemma SendStepShape(s: State, i: nat, now: U64)
    requires i < |s.tasks| && s.tasks[i].phase.Ready? && !IsExpired(s.tasks[i].msg, now)
    ensures var s' := TaskStep(EthRetry, s, i, CheckSend(now));
            var t := s.tasks[i];
            && OnlyTask(s, s', i) && s'.queue == s.queue
            && s'.log == s.log + [Sent(t.id, t.sends + 1, t.phase.nonce, t.phase.fee, now)]
            && s'.tasks[i] == t.(sends := t.sends + 1, phase := Sending(t.phase.nonce, t.phase.fee, t.phase.replacements))
  {
  }

  lemma SendStepKeepsTraced(s: State, i: nat, l: TaskLabel)
    requires Traced(s) && MessagesBalance(s)
    requires i < |s.tasks| && TaskEnabled(EthRetry, s.tasks[i], l) && TaskOk(s, s.tasks[i]) && Sends(s.tasks[i], l)
    ensures Traced(TaskStep(EthRetry, s, i, l))
  {
    SendStepShape(s, i, l.now);
    var s' := TaskStep(EthRetry, s, i, l);
    SendKeepsTraced(s, s', i, s'.log[|s.log|]);
  }

  lemma QuietTaskStepKeepsTraced(s: State, i: nat, l: TaskLabel)
    requires Traced(s) && i < |s.tasks| && TaskEnabled(EthRetry, s.tasks[i], l)
    requires EthTask(s.tasks[i]) && TaskOk(s, s.tasks[i]) && !Sends(s.tasks[i], l)
    ensures Traced(TaskStep(EthRetry, s, i, l))
  {
    TaskStepShape(EthRetry, s, i, l);
    QuietLastSend(s, i, l);
    QuietStepKeepsTraced(s, TaskStep(EthRetry, s, i, l), i);
  }

  lemma TaskStepKeepsTraced(s: State, i: nat, l: TaskLabel)
    requires Traced(s) && Conserved(s) && EthTasks(s)
    requires i < |s.tasks| && TaskEnabled(EthRetry, s.tasks[i], l)
    ensures Traced(TaskStep(EthRetry, s, i, l))
  {
    assert EthTask(s.tasks[i]) && TaskOk(s, s.tasks[i]);
    if Sends(s.tasks[i], l) {
      SendStepKeepsTraced(s, i, l);
    } else {
      QuietTaskStepKeepsTraced(s, i, l);
    }
  }

  /** A popped message has never been sent. */
  lemma PopKeepsTraced(s: State, k: nat)
    requires Traced(s) && Enabled(EthRetry, s, PopNext(k))
    ensures Traced(Step(EthRetry, s, PopNext(k)))
  {
  }

  lemma LoopStepKeepsTraced(s: State, l: Label)
    requires Traced(s) && Enabled(EthRetry, s, l) && !l.OfTask? && !l.PopNext?
    ensures Traced(Step(EthRetry, s, l))
  {
  }

  lemma StepKeepsTraced(s: State, l: Label)
    requires Traced(s) && EthSafe(s) && Enabled(EthRetry, s, l)
    ensures Traced(Step(EthRetry, s, l))
  {
    if l.OfTask? {
      TaskStepKeepsTraced(s, l.i, l.step);
    } else if l.PopNext? {
      PopKeepsTraced(s, l.k);
    } else {
      LoopStepKeepsTraced(s, l);
    }
  }

  lemma {:induction false} ReachableTraced(onChain: nat, states: seq<State>, labels: seq<Label>, k: nat)
    requires IsRun(EthRetry, onChain, states, labels) && k <= |labels|
    ensures Traced(states[k])
  {
    if k == 0 {
    } else {
      ReachableTraced(onChain, states, labels, k - 1);
      ReachableEthSafe(onChain, states, labels, k - 1);
      StepKeepsTraced(states[k - 1], labels[k - 1]);
    }
  }

  /** The replacement law, on what actually reaches the chain client. The attempt numbers count the sends of
      each message; of two consecutive attempts at a message, the later keeps the nonce and tips at least 10%
      more, while its max fee is at least 10% more exactly for earlier tips of 2 Gwei or from 2 Gwei + 5 wei up. */
  lemma ReplacementLaw(onChain: nat, states: seq<State>, labels: seq<Label>, k: nat, i: nat, j: nat)
    requires IsRun(EthRetry, onChain, states, labels) && k <= |labels|
    requires i < |states[k].log| && j < |states[k].log| && Replaces(states[k].log[j], states[k].log[i])
    ensures var earlier, later := states[k].log[i], states[k].log[j];
            && earlier.attempt == SendCount(states[k].log[..i], earlier.id) + 1
            && later.nonce == earlier.nonce
            && TenPercentAbove(later.fee.priorityFee, earlier.fee.priorityFee)
            && (TenPercentAbove(MaxFeePerGas(later.fee), MaxFeePerGas(earlier.fee)) <==>
                  earlier.fee.priorityFee == 2 * GWEI || earlier.fee.priorityFee >= 2 * GWEI + 5)
  {
    ReachableTraced(onChain, states, labels, k);
    ReachableFees(onChain, states, labels, k);
    var earlier, later := states[k].log[i], states[k].log[j];
    assert BumpOf(later, earlier);
    TipBumpClearsIff(earlier.fee);
    MaxFeeBumpClearsIff(earlier.fee);
  }
}
