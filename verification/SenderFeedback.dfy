/** What the sender learns from its transactions, and what it makes of it: samples, estimate, quotes and the nonce
    baseline as functions of the run so far. */
module SenderFeedback {
  import opened Prelude
  import opened Messages
  import opened Nonces
  import opened GasPrices
  import opened EthAdapter
  import opened Tally
  import opened SenderModel
  import opened SenderConservation

  // ----- Every confirmation is learned from once -----

  function Confirmations(l: Label): nat {
    if l.OfTask? && l.step.SendConfirmed? then 1 else 0
  }

  function SamplesTaken(l: Label): nat {
    if l.OfTask? && l.step.RecordSample? then 1 else 0
  }

  function BlendsMade(l: Label): nat {
    if l.OfTask? && l.step.BlendEstimate? then 1 else 0
  }

  function NoncesConfirmed(l: Label): nat {
    if l.OfTask? && l.step.ConfirmNonce? then 1 else 0
  }

  function OwesSample(t: Task): nat {
    if t.phase.Confirming? && !t.phase.sampled then 1 else 0
  }

  function OwesBlend(t: Task): nat {
    if t.phase.Confirming? && !t.phase.blended then 1 else 0
  }

  function OwesNonce(t: Task): nat {
    if t.phase.Confirming? && !t.phase.nonceDone then 1 else 0
  }

  /** A blend follows the sample, so a task that owes no blend owes no sample. */
  predicate SampleFirst(t: Task) {
    t.phase.Confirming? && t.phase.blended ==> t.phase.sampled
  }

  lemma TaskStepOwes(strategy: Strategy, s: State, t: Task, l: TaskLabel)
    requires TaskEnabled(strategy, t, l) && SampleFirst(t)
    ensures var t' := NextTask(strategy, s, t, l);
            var confirmed := if l.SendConfirmed? then 1 else 0;
            && SampleFirst(t')
            && OwesSample(t') + (if l.RecordSample? then 1 else 0) == OwesSample(t) + confirmed
            && OwesBlend(t') + (if l.BlendEstimate? then 1 else 0) == OwesBlend(t) + confirmed
            && OwesNonce(t') + (if l.ConfirmNonce? then 1 else 0) == OwesNonce(t) + confirmed
  {
  }

  /** The confirmations so far are those learned from and those still to be. */
  ghost predicate Balanced(s: State, labels: seq<Label>) {
    && (forall i :: 0 <= i < |s.tasks| ==> SampleFirst(s.tasks[i]))
    && Weight(labels, Confirmations) == Weight(labels, SamplesTaken) + Weight(s.tasks, OwesSample)
    && Weight(labels, Confirmations) == Weight(labels, BlendsMade) + Weight(s.tasks, OwesBlend)
    && Weight(labels, Confirmations) == Weight(labels, NoncesConfirmed) + Weight(s.tasks, OwesNonce)
  }

  lemma WeightsAppend(labels: seq<Label>, l: Label)
    ensures Weight(labels + [l], Confirmations) == Weight(labels, Confirmations) + Confirmations(l)
    ensures Weight(labels + [l], SamplesTaken) == Weight(labels, SamplesTaken) + SamplesTaken(l)
    ensures Weight(labels + [l], BlendsMade) == Weight(labels, BlendsMade) + BlendsMade(l)
    ensures Weight(labels + [l], NoncesConfirmed) == Weight(labels, NoncesConfirmed) + NoncesConfirmed(l)
  {
    WeightAppend(labels, l, Confirmations);
    WeightAppend(labels, l, SamplesTaken);
    WeightAppend(labels, l, BlendsMade);
    WeightAppend(labels, l, NoncesConfirmed);
  }

  lemma TaskStepKeepsBalanced(strategy: Strategy, s: State, s': State, i: nat, l: TaskLabel, labels: seq<Label>)
    requires Balanced(s, labels) && i < |s.tasks| && TaskEnabled(strategy, s.tasks[i], l)
    requires s'.tasks == s.tasks[i := NextTask(strategy, s, s.tasks[i], l)]
    ensures Balanced(s', labels + [OfTask(i, l)])
  {
    var t' := NextTask(strategy, s, s.tasks[i], l);
    TaskStepOwes(strategy, s, s.tasks[i], l);
    WeightsAppend(labels, OfTask(i, l));
    WeightUpdate(s.tasks, i, t', OwesSample);
    WeightUpdate(s.tasks, i, t', OwesBlend);
    WeightUpdate(s.tasks, i, t', OwesNonce);
  }

  lemma LoopStepKeepsBalanced(s: State, s': State, l: Label, labels: seq<Label>)
    requires Balanced(s, labels) && !l.OfTask?
    requires s'.tasks == s.tasks || (|s'.tasks| == |s.tasks| + 1 && s'.tasks[..|s.tasks|] == s.tasks && s'.tasks[|s.tasks|].phase.Starting?)
    ensures Balanced(s', labels + [l])
  {
    WeightsAppend(labels, l);
    if s'.tasks != s.tasks {
      var t := s'.tasks[|s.tasks|];
      assert s'.tasks == s.tasks + [t];
      WeightAppend(s.tasks, t, OwesSample);
      WeightAppend(s.tasks, t, OwesBlend);
      WeightAppend(s.tasks, t, OwesNonce);
    }
  }

  lemma {:induction false} ReachableBalanced(strategy: Strategy, onChain: nat, states: seq<State>, labels: seq<Label>, k: nat)
    requires IsRun(strategy, onChain, states, labels) && k <= |labels|
    ensures Balanced(states[k], labels[..k])
  {
    if k > 0 {
      ReachableBalanced(strategy, onChain, states, labels, k - 1);
      RunStep(strategy, onChain, states, labels, k - 1);
      var s, l := states[k - 1], labels[k - 1];
      assert labels[..k] == labels[..k - 1] + [l];
      if l.OfTask? {
        TaskStepKeepsBalanced(strategy, s, states[k], l.i, l.step, labels[..k - 1]);
      } else {
        LoopStepKeepsBalanced(s, states[k], l, labels[..k - 1]);
      }
    }
  }

  lemma {:induction false} FinishedOweNothing(tasks: seq<Task>)
    requires forall i :: 0 <= i < |tasks| ==> !tasks[i].phase.Confirming?
    ensures Weight(tasks, OwesSample) == Weight(tasks, OwesBlend) == Weight(tasks, OwesNonce) == 0
  {
    if tasks != [] {
      FinishedOweNothing(tasks[..|tasks| - 1]);
    }
  }

  /** In every run, under any strategy: whenever no task is in the middle of a confirmation, the samples taken, the blends
      made and the nonces confirmed each number exactly the transactions reported confirmed. */
  lemma ConfirmationsLearnedOnce(strategy: Strategy, onChain: nat, states: seq<State>, labels: seq<Label>, k: nat)
    requires IsRun(strategy, onChain, states, labels) && k <= |labels|
    requires forall i :: 0 <= i < |states[k].tasks| ==> !states[k].tasks[i].phase.Confirming?
    ensures Weight(labels[..k], SamplesTaken) == Weight(labels[..k], Confirmations)
    ensures Weight(labels[..k], BlendsMade) == Weight(labels[..k], Confirmations)
    ensures Weight(labels[..k], NoncesConfirmed) == Weight(labels[..k], Confirmations)
  {
    ReachableBalanced(strategy, onChain, states, labels, k);
    FinishedOweNothing(states[k].tasks);
  }

  // ----- The window and the estimate -----

  /** The confirmation times recorded, oldest first. */
  function Samples(labels: seq<Label>): seq<nat> {
    if labels == [] then []
    else
      var l := labels[|labels| - 1];
      Samples(labels[..|labels| - 1]) + if l.OfTask? && l.step.RecordSample? then [l.step.elapsed] else []
  }

  lemma StepMovesGas(s: State, l: Label)
    requires Enabled(EthRetry, s, l)
    ensures var s' := Step(EthRetry, s, l);
            && (l.OfTask? && l.step.RecordSample? ==> s'.gas == s.gas.(window := PushSample(s.gas.window, l.step.elapsed)))
            && (l.OfTask? && l.step.BlendEstimate? ==>
                  s.tasks[l.i].phase.Confirming?
                  && s'.gas == s.gas.(estimate := Blend(s.gas.estimate, s.tasks[l.i].phase.fee.priorityFee)))
            && (!(l.OfTask? && (l.step.RecordSample? || l.step.BlendEstimate?)) ==> s'.gas == s.gas)
  {
  }

  lemma StepMovesWindow(s: State, l: Label, labels: seq<Label>)
    requires Enabled(EthRetry, s, l) && s.gas.window == WindowAfter(Samples(labels))
    ensures Step(EthRetry, s, l).gas.window == WindowAfter(Samples(labels + [l]))
  {
    StepMovesGas(s, l);
    assert (labels + [l])[..|labels|] == labels;
    if l.OfTask? && l.step.RecordSample? {
      var longer := Samples(labels + [l]);
      assert longer == Samples(labels) + [l.step.elapsed];
      assert longer[..|longer| - 1] == Samples(labels);
    } else {
      assert Samples(labels + [l]) == Samples(labels);
    }
  }

  lemma {:induction false} WindowFollowsSamples(onChain: nat, states: seq<State>, labels: seq<Label>, k: nat)
    requires IsRun(EthRetry, onChain, states, labels) && k <= |labels|
    ensures states[k].gas.window == WindowAfter(Samples(labels[..k]))
  {
    if k > 0 {
      WindowFollowsSamples(onChain, states, labels, k - 1);
      RunStep(EthRetry, onChain, states, labels, k - 1);
      StepMovesWindow(states[k - 1], labels[k - 1], labels[..k - 1]);
      assert labels[..k] == labels[..k - 1] + [labels[k - 1]];
    }
  }

  /** In every run, the window is the last ten of all confirmation times recorded, whichever tasks recorded them. */
  lemma ReachableWindow(onChain: nat, states: seq<State>, labels: seq<Label>, k: nat)
    requires IsRun(EthRetry, onChain, states, labels) && k <= |labels|
    ensures states[k].gas.window == LastTen(Samples(labels[..k]))
  {
    WindowFollowsSamples(onChain, states, labels, k);
    WindowIsLastTen(Samples(labels[..k]));
  }

  /** The tip of a confirmed transaction moves the estimate halfway towards itself, and nothing else moves it. */
  lemma EstimateMovesHalfway(onChain: nat, states: seq<State>, labels: seq<Label>, k: nat)
    requires IsRun(EthRetry, onChain, states, labels) && k < |labels|
    ensures var before, after, l := states[k].gas.estimate, states[k + 1].gas.estimate, labels[k];
            if l.OfTask? && l.step.BlendEstimate? then
              && l.i < |states[k].tasks| && states[k].tasks[l.i].phase.Confirming?
              && 2 * after <= before + states[k].tasks[l.i].phase.fee.priorityFee <= 2 * after + 1
            else after == before
  {
    RunStep(EthRetry, onChain, states, labels, k);
    StepMovesGas(states[k], labels[k]);
  }

  // ----- Where a quote comes from -----

  /** Task `i` was started, in one of the first `k` steps, with this priority: that of its message at that moment. */
  ghost predicate StartedWith(states: seq<State>, labels: seq<Label>, k: nat, i: nat, priority: nat)
    requires k <= |labels| <= |states|
  {
    exists a :: 0 <= a < k && StartsWith(states[a], labels[a], i, priority)
  }

  predicate StartsWith(s: State, l: Label, i: nat, priority: nat) {
    && l.OfTask? && l.i == i && l.step.CheckStart? && i < |s.tasks|
    && priority == EffectivePriority(s.tasks[i].msg, l.step.now)
  }

  /** Task `i` read this estimate in one of the first `k` steps. */
  ghost predicate HasRead(states: seq<State>, labels: seq<Label>, k: nat, i: nat, estimate: nat)
    requires k <= |labels| <= |states|
  {
    exists b :: 0 <= b < k && labels[b] == OfTask(i, ReadEstimate) && estimate == states[b].gas.estimate
  }

  ghost predicate QuoteTraced(states: seq<State>, labels: seq<Label>, k: nat, i: nat, p: Phase)
    requires k <= |labels| <= |states|
  {
    match p
    case AwaitingNonce(priority) => StartedWith(states, labels, k, i, priority)
    case AwaitingEstimate(_, priority) => StartedWith(states, labels, k, i, priority)
    case AwaitingWindow(_, priority, estimate) =>
      StartedWith(states, labels, k, i, priority) && HasRead(states, labels, k, i, estimate)
    case _ => true
  }

  lemma TracedLater(states: seq<State>, labels: seq<Label>, k: nat, i: nat, p: Phase)
    requires k < |labels| <= |states| && QuoteTraced(states, labels, k, i, p)
    ensures QuoteTraced(states, labels, k + 1, i, p)
  {
  }

  /** The phase of task `i` after one of its own steps, as far as the quote is concerned. */
  lemma OwnStepTraces(strategy: Strategy, states: seq<State>, labels: seq<Label>, k: nat, i: nat)
    requires k < |labels| <= |states| && labels[k].OfTask? && labels[k].i == i && Enabled(strategy, states[k], labels[k])
    requires QuoteTraced(states, labels, k, i, states[k].tasks[i].phase)
    ensures QuoteTraced(states, labels, k + 1, i, NextTask(strategy, states[k], states[k].tasks[i], labels[k].step).phase)
  {
    TracedLater(states, labels, k, i, states[k].tasks[i].phase);
    var s, l := states[k], labels[k];
    if l.step.CheckStart? {
      assert StartsWith(s, l, i, EffectivePriority(s.tasks[i].msg, l.step.now));
    }
  }

  lemma {:induction false} ReachableQuoteTraced(strategy: Strategy, onChain: nat, states: seq<State>, labels: seq<Label>, k: nat, i: nat)
    requires IsRun(strategy, onChain, states, labels) && k <= |labels| && i < |states[k].tasks|
    ensures QuoteTraced(states, labels, k, i, states[k].tasks[i].phase)
  {
    if k > 0 {
      RunStep(strategy, onChain, states, labels, k - 1);
      TaskAfterStep(strategy, states[k - 1], labels[k - 1], i);
      if i < |states[k - 1].tasks| {
        ReachableQuoteTraced(strategy, onChain, states, labels, k - 1, i);
        if labels[k - 1].OfTask? && labels[k - 1].i == i {
          OwnStepTraces(strategy, states, labels, k - 1, i);
        } else {
          TracedLater(states, labels, k - 1, i, states[k - 1].tasks[i].phase);
        }
      }
    }
  }

  /** In every run: the quote of a task comes from three moments. The priority is that of its message when the task was
      started, the estimate the one it read later, the congestion that of the window in the step that makes the quote; the tip
      is that estimate times one, two or three with the priority's percentage on top, and the base fee 2 Gwei. */
  lemma QuoteOfThreeMoments(strategy: Strategy, onChain: nat, states: seq<State>, labels: seq<Label>, k: nat, i: nat)
    returns (priority: nat, estimate: nat)
    requires IsRun(strategy, onChain, states, labels) && k < |labels| && labels[k] == OfTask(i, ReadWindow)
    ensures StartedWith(states, labels, k, i, priority) && HasRead(states, labels, k, i, estimate)
    ensures i < |states[k + 1].tasks| && states[k + 1].tasks[i].phase.Ready?
    ensures states[k + 1].tasks[i].phase.fee.baseFee == 2_000_000_000 && states[k + 1].tasks[i].phase.replacements == 0
    ensures HundredthsCapped(states[k + 1].tasks[i].phase.fee.priorityFee,
                             estimate * Times(states[k].gas.window) * (100 + PercentOnTop(priority)))
  {
    RunStep(strategy, onChain, states, labels, k);
    ReachableQuoteTraced(strategy, onChain, states, labels, k, i);
    TaskAfterStep(strategy, states[k], labels[k], i);
    var p := states[k].tasks[i].phase;
    priority, estimate := p.priority, p.estimate;
    QuoteMeaning(estimate, states[k].gas.window, priority);
  }

  // ----- The nonce baseline -----

  /** The step reports `n` to the nonce manager: the node's own count, or a nonce whose transaction was confirmed. */
  predicate Reports(s: State, l: Label, n: nat) {
    match l
    case SyncSucceeds(count) => n == count
    case OfTask(i, ConfirmNonce) => i < |s.tasks| && s.tasks[i].phase.Confirming? && n == s.tasks[i].phase.nonce
    case _ => false
  }

  lemma StepMovesBaseline(s: State, l: Label)
    requires Enabled(EthRetry, s, l)
    ensures var after := Step(EthRetry, s, l).nonces.current;
            && s.nonces.current <= after
            && (forall n: nat :: Reports(s, l, n) ==> n <= after)
            && (after == s.nonces.current || Reports(s, l, after))
  {
  }

  /** In every run, the baseline is the largest of the count it started with, the counts the node gave and the nonces
      confirmed: a confirmed nonce itself, not the one after it. */
  lemma {:induction false} BaselineIsLargestReported(onChain: nat, states: seq<State>, labels: seq<Label>, k: nat)
    requires IsRun(EthRetry, onChain, states, labels) && k <= |labels|
    ensures onChain <= states[k].nonces.current
    ensures forall j, n: nat :: 0 <= j < k && Reports(states[j], labels[j], n) ==> n <= states[k].nonces.current
    ensures || states[k].nonces.current == onChain
            || exists j :: 0 <= j < k && Reports(states[j], labels[j], states[k].nonces.current)
  {
    if k > 0 {
      BaselineIsLargestReported(onChain, states, labels, k - 1);
      RunStep(EthRetry, onChain, states, labels, k - 1);
      StepMovesBaseline(states[k - 1], labels[k - 1]);
    }
  }
}
