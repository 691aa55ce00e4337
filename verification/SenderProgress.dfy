/** Every spawned task ends and the sender comes to rest: whatever the retry strategy decides, the steps a task and
    the whole system take by themselves are bounded. */
module SenderProgress {
  import opened Prelude
  import opened Messages
  import opened EthAdapter
  import opened Tally
  import opened SenderModel
  import opened SenderConservation

  /** Steps left in a phase, before the retry budget is counted. */
  function PhaseRank(p: Phase): nat {
    match p
    case Starting => 10
    case AwaitingNonce(_) => 9
    case AwaitingEstimate(_, _) => 8
    case AwaitingWindow(_, _, _) => 7
    case Ready(_, _, _) => 6
    case Sending(_, _, _) => 5
    case Confirming(_, _, sampled, blended, nonceDone) =>
      1 + (if sampled then 0 else 1) + (if blended then 0 else 1) + (if nonceDone then 0 else 1)
    case Releasing(_, times, _) => times + 2
    case Pushing => 2
    case Notifying => 1
    case Finished(_) => 0
  }

  predicate MayRetry(p: Phase) {
    p.Starting? || p.AwaitingNonce? || p.AwaitingEstimate? || p.AwaitingWindow? || p.Ready? || p.Sending?
  }

  /** The steps of the phase, and two more (send again, drop again) for each retry the message still has. */
  function Rank(t: Task): nat {
    PhaseRank(t.phase) +
    if MayRetry(t.phase) && t.msg.retryCount < MAX_RETRIES then 2 * (MAX_RETRIES - 1 - t.msg.retryCount) else 0
  }

  /** A release call is owed once or twice. */
  predicate FewReleases(t: Task) {
    t.phase.Releasing? ==> 1 <= t.phase.times <= 2
  }

  lemma TaskStepLowersRank(strategy: Strategy, s: State, i: nat, l: TaskLabel)
    requires i < |s.tasks| && TaskEnabled(strategy, s.tasks[i], l)
    requires FewReleases(s.tasks[i])
    ensures Rank(TaskStep(strategy, s, i, l).tasks[i]) < Rank(s.tasks[i])
    ensures FewReleases(TaskStep(strategy, s, i, l).tasks[i])
  {
    assert TaskStep(strategy, s, i, l).tasks[i] == NextTask(strategy, s, s.tasks[i], l);
  }

  function StepsTaken(labels: seq<Label>, i: nat): nat {
    if labels == [] then 0
    else
      var last := labels[|labels| - 1];
      StepsTaken(labels[..|labels| - 1], i) + if last.OfTask? && last.i == i then 1 else 0
  }

  ghost predicate WithinBudget(s: State, labels: seq<Label>) {
    && (forall i :: i >= |s.tasks| ==> StepsTaken(labels, i) == 0)
    && (forall i :: 0 <= i < |s.tasks| ==> FewReleases(s.tasks[i]))
    && (forall i :: 0 <= i < |s.tasks| ==> StepsTaken(labels, i) + Rank(s.tasks[i]) <= 14)
  }

  lemma StepsTakenAppend(labels: seq<Label>, l: Label, i: nat)
    ensures StepsTaken(labels + [l], i) == StepsTaken(labels, i) + if l.OfTask? && l.i == i then 1 else 0
  {
  }

  lemma TaskStepKeepsWithinBudget(strategy: Strategy, s: State, labels: seq<Label>, i: nat, l: TaskLabel)
    requires WithinBudget(s, labels) && i < |s.tasks| && TaskEnabled(strategy, s.tasks[i], l)
    ensures WithinBudget(TaskStep(strategy, s, i, l), labels + [OfTask(i, l)])
  {
    var s' := TaskStep(strategy, s, i, l);
    TaskStepShape(strategy, s, i, l);
    TaskStepLowersRank(strategy, s, i, l);
    forall j
      ensures StepsTaken(labels + [OfTask(i, l)], j) == StepsTaken(labels, j) + if j == i then 1 else 0
    {
      StepsTakenAppend(labels, OfTask(i, l), j);
    }
  }

  lemma LoopStepKeepsWithinBudget(strategy: Strategy, s: State, labels: seq<Label>, l: Label)
    requires WithinBudget(s, labels) && Enabled(strategy, s, l) && !l.OfTask?
    ensures WithinBudget(Step(strategy, s, l), labels + [l])
  {
    var s' := Step(strategy, s, l);
    assert forall i :: 0 <= i < |s.tasks| ==> s'.tasks[i] == s.tasks[i];
    assert forall i :: |s.tasks| <= i < |s'.tasks| ==> s'.tasks[i].phase == Starting;
    forall j
      ensures StepsTaken(labels + [l], j) == StepsTaken(labels, j)
    {
      StepsTakenAppend(labels, l, j);
    }
  }

  lemma {:induction false} ReachableWithinBudget(strategy: Strategy, onChain: nat, states: seq<State>, labels: seq<Label>, k: nat)
    requires IsRun(strategy, onChain, states, labels) && k <= |labels|
    ensures WithinBudget(states[k], labels[..k])
  {
    if k == 0 {
    } else {
      ReachableWithinBudget(strategy, onChain, states, labels, k - 1);
      assert labels[..k] == labels[..k - 1] + [labels[k - 1]];
      var l := labels[k - 1];
      if l.OfTask? {
        TaskStepKeepsWithinBudget(strategy, states[k - 1], labels[..k - 1], l.i, l.step);
      } else {
        LoopStepKeepsWithinBudget(strategy, states[k - 1], labels[..k - 1], l);
      }
    }
  }

  lemma ReachableFewReleases(strategy: Strategy, onChain: nat, states: seq<State>, labels: seq<Label>, k: nat, i: nat)
    requires IsRun(strategy, onChain, states, labels) && k <= |labels| && i < |states[k].tasks|
    ensures FewReleases(states[k].tasks[i])
  {
    ReachableWithinBudget(strategy, onChain, states, labels, k);
  }

  /** In every run, under any strategy, no task ever takes more than 14 steps. */
  lemma TasksAreBounded(strategy: Strategy, onChain: nat, states: seq<State>, labels: seq<Label>, i: nat)
    requires IsRun(strategy, onChain, states, labels)
    ensures StepsTaken(labels, i) <= 14
  {
    ReachableWithinBudget(strategy, onChain, states, labels, |labels|);
    assert labels[..|labels|] == labels;
  }

  /** Steps the system takes by itself, as opposed to callers, new blocks and a failing node. */
  predicate Internal(l: Label) {
    !l.AddPush? && !l.BlockArrives? && !l.StreamCloses? && !l.SyncFails? && !l.Meddle?
  }

  // ----- Coming to rest -----

  /** What a send can still lead to: the message may go round once more for each retry it has left. */
  function SendWeight(msg: Message): nat {
    if CanRetry(msg) then 5 + 15 * (MAX_RETRIES - 1 - msg.retryCount) else 5
  }

  function EntryWeight(e: Entry): nat {
    SendWeight(e.msg) + 7
  }

  function TaskWeight(t: Task): nat {
    match t.phase
    case Starting => SendWeight(t.msg) + 5
    case AwaitingNonce(_) => SendWeight(t.msg) + 4
    case AwaitingEstimate(_, _) => SendWeight(t.msg) + 3
    case AwaitingWindow(_, _, _) => SendWeight(t.msg) + 2
    case Ready(_, _, _) => SendWeight(t.msg) + 1
    case Sending(_, _, _) => SendWeight(t.msg)
    case Confirming(_, _, _, _, _) => PhaseRank(t.phase)
    case Releasing(_, times, ThenQuit) => times
    case Releasing(_, times, ThenRequeue) => times + SendWeight(t.msg) + 12
    case Pushing => SendWeight(t.msg) + 12
    case Notifying => 4
    case Finished(_) => 0
  }

  function LoopWeight(p: LoopPhase): nat {
    match p
    case Syncing => 3
    case Acquiring => 2
    case HasPermit => 1
    case Sleeping => 0
    case Stopped => 0
  }

  /** An upper bound on the steps the system can still take by itself. */
  function Measure(s: State): nat {
    Weight(s.queue, EntryWeight) + Weight(s.tasks, TaskWeight) + LoopWeight(s.loop)
    + 4 * s.unnotified + if s.notified then 3 else 0
  }

  /** What a step from outside adds to it. */
  function Charge(l: Label): nat {
    if l.AddPush? then 46 else if l.BlockArrives? then 3 else 0
  }

  function One(l: Label): nat {
    if Internal(l) then 1 else 0
  }

  /** What a task step moves besides the task itself. */
  lemma TaskStepLowersWeight(strategy: Strategy, s: State, t: Task, l: TaskLabel)
    requires TaskEnabled(strategy, t, l) && FewReleases(t)
    ensures var t' := NextTask(strategy, s, t, l);
            TaskWeight(t') + (if l.PushAgain? then SendWeight(t.msg) + 7 else if l.NotifyAgain? then 3 else 0) < TaskWeight(t)
  {
    match l
    case SendDropped(decision) => DropLowersWeight(strategy, t, decision);
    case SendReverted(decision) => DropLowersWeight(strategy, t, decision);
    case _ =>
  }

  lemma DropLowersWeight(strategy: Strategy, t: Task, decision: RetryDecision)
    requires t.phase.Sending?
    ensures TaskWeight(AfterDrop(strategy, t, decision)) < TaskWeight(t)
  {
  }

  lemma TaskStepLowersMeasure(strategy: Strategy, s: State, i: nat, l: TaskLabel)
    requires i < |s.tasks| && TaskEnabled(strategy, s.tasks[i], l) && FewReleases(s.tasks[i])
    ensures Measure(TaskStep(strategy, s, i, l)) < Measure(s)
  {
    var t, s' := s.tasks[i], TaskStep(strategy, s, i, l);
    TaskStepShape(strategy, s, i, l);
    assert s'.tasks[i] == NextTask(strategy, s, t, l);
    TaskStepLowersWeight(strategy, s, t, l);
    WeightUpdate(s.tasks, i, s'.tasks[i], TaskWeight);
    if l.PushAgain? {
      WeightAppend(s.queue, s'.queue[|s.queue|], EntryWeight);
    }
  }

  lemma PopLowersMeasure(strategy: Strategy, s: State, k: nat)
    requires Enabled(strategy, s, PopNext(k))
    ensures Measure(Step(strategy, s, PopNext(k))) < Measure(s)
  {
    var s' := Step(strategy, s, PopNext(k));
    WeightRemove(s.queue, k, EntryWeight);
    WeightAppend(s.tasks, s'.tasks[|s.tasks|], TaskWeight);
  }

  /** Every step the system takes by itself lowers the measure; an added message raises it by at most 46, a new
      block by at most 3, and nothing else raises it. */
  lemma StepChargesMeasure(strategy: Strategy, s: State, l: Label)
    requires Enabled(strategy, s, l) && (l.OfTask? ==> FewReleases(s.tasks[l.i]))
    ensures Measure(Step(strategy, s, l)) + One(l) <= Measure(s) + Charge(l)
  {
    if l.OfTask? {
      TaskStepLowersMeasure(strategy, s, l.i, l.step);
    } else if l.PopNext? {
      PopLowersMeasure(strategy, s, l.k);
    } else if l.AddPush? {
      AddRaisesMeasure(strategy, s, l.msg, l.now);
    }
  }

  lemma AddRaisesMeasure(strategy: Strategy, s: State, msg: Message, now: U64)
    ensures Measure(Step(strategy, s, AddPush(msg, now))) <= Measure(s) + 46
  {
    WeightAppend(s.queue, Step(strategy, s, AddPush(msg, now)).queue[|s.queue|], EntryWeight);
  }

  predicate Paid(measure: State -> nat, s: State, l: Label, s': State) {
    measure(s') + One(l) <= measure(s) + Charge(l)
  }

  lemma RunStepCharges(strategy: Strategy, onChain: nat, states: seq<State>, labels: seq<Label>, k: nat)
    requires IsRun(strategy, onChain, states, labels) && k < |labels|
    ensures Paid(Measure, states[k], labels[k], states[k + 1])
  {
    RunStep(strategy, onChain, states, labels, k);
    if labels[k].OfTask? {
      ReachableFewReleases(strategy, onChain, states, labels, k, labels[k].i);
    }
    StepChargesMeasure(strategy, states[k], labels[k]);
  }

  /** Between any two states of a run: the internal steps taken are paid for by the fall of the measure and by what
      came from outside. */
  lemma InternalStepsPaidFor(strategy: Strategy, onChain: nat, states: seq<State>, labels: seq<Label>, k: nat, m: nat)
    requires IsRun(strategy, onChain, states, labels) && k <= m <= |labels|
    ensures Measure(states[m]) + Weight(labels[k..m], One) <= Measure(states[k]) + Weight(labels[k..m], Charge)
  {
    forall j | k <= j < m
      ensures Paid(Measure, states[j], labels[j], states[j + 1])
    {
      RunStepCharges(strategy, onChain, states, labels, j);
    }
    StepsPaidFor(Measure, states, labels, k, m);
  }

  lemma {:induction false} StepsPaidFor(measure: State -> nat, states: seq<State>, labels: seq<Label>, k: nat, m: nat)
    requires |states| == |labels| + 1 && k <= m <= |labels|
    requires forall j :: k <= j < m ==> Paid(measure, states[j], labels[j], states[j + 1])
    ensures measure(states[m]) + Weight(labels[k..m], One) <= measure(states[k]) + Weight(labels[k..m], Charge)
    decreases m - k
  {
    if k < m {
      StepsPaidFor(measure, states, labels, k, m - 1);
      assert labels[k..m] == labels[k..m - 1] + [labels[m - 1]];
      WeightAppend(labels[k..m - 1], labels[m - 1], One);
      WeightAppend(labels[k..m - 1], labels[m - 1], Charge);
    }
  }

  lemma {:induction false} InternalOnly(labels: seq<Label>)
    requires forall j :: 0 <= j < |labels| ==> Internal(labels[j])
    ensures Weight(labels, One) == |labels| && Weight(labels, Charge) == 0
  {
    if labels != [] {
      InternalOnly(labels[..|labels| - 1]);
    }
  }

  lemma {:induction false} QueueWeightBound(queue: seq<Entry>)
    ensures Weight(queue, EntryWeight) <= 42 * |queue|
  {
    if queue != [] {
      QueueWeightBound(queue[..|queue| - 1]);
    }
  }

  lemma TaskWeightBound(t: Task)
    requires FewReleases(t)
    ensures TaskWeight(t) <= 49 * |Running(t)|
  {
  }

  lemma {:induction false} TasksWeightBound(tasks: seq<Task>)
    requires forall i :: 0 <= i < |tasks| ==> FewReleases(tasks[i])
    ensures Weight(tasks, TaskWeight) <= 49 * |Total(tasks, Running)|
  {
    if tasks != [] {
      TasksWeightBound(tasks[..|tasks| - 1]);
      TaskWeightBound(tasks[|tasks| - 1]);
    }
  }

  lemma MeasureBound(s: State, labels: seq<Label>)
    requires PermitsBalance(s) && WithinBudget(s, labels)
    ensures Measure(s) <= 790 + 42 * |s.queue| + 4 * s.unnotified
  {
    QueueWeightBound(s.queue);
    TasksWeightBound(s.tasks);
    assert |Total(s.tasks, Running)| <= 16;
  }

  /** Left alone, the sender comes to rest: from any state of any run, under any strategy, it takes at most 42 steps
      for each queued message, 4 for each notification still to be given and 790 besides. */
  lemma ComesToRest(strategy: Strategy, onChain: nat, states: seq<State>, labels: seq<Label>, k: nat)
    requires IsRun(strategy, onChain, states, labels) && k <= |labels|
    requires forall j :: k <= j < |labels| ==> Internal(labels[j])
    ensures |labels| - k <= Measure(states[k]) <= 790 + 42 * |states[k].queue| + 4 * states[k].unnotified
  {
    InternalStepsPaidFor(strategy, onChain, states, labels, k, |labels|);
    InternalOnly(labels[k..|labels|]);
    ReachableConserved(strategy, onChain, states, labels, k);
    ReachableWithinBudget(strategy, onChain, states, labels, k);
    MeasureBound(states[k], labels[..k]);
  }

  /** Over a whole run: at most 2 internal steps, 46 more for each message added and 3 more for each block. */
  lemma RunIsPaidFor(strategy: Strategy, onChain: nat, states: seq<State>, labels: seq<Label>)
    requires IsRun(strategy, onChain, states, labels)
    ensures Weight(labels, One) <= 2 + Weight(labels, Charge)
  {
    InternalStepsPaidFor(strategy, onChain, states, labels, 0, |labels|);
    assert labels[0..|labels|] == labels;
  }

  // ----- No deadlock -----

  lemma {:induction false} HighestExists(queue: seq<Entry>) returns (k: nat)
    requires queue != []
    ensures IsHighest(queue, k)
  {
    var n := |queue| - 1;
    if n == 0 {
      k := 0;
    } else {
      k := HighestExists(queue[..n]);
      assert queue[..n][k] == queue[k];
      assert forall j :: 0 <= j < n ==> queue[..n][j].rank <= queue[k].rank;
      if queue[k].rank < queue[n].rank {
        k := n;
      }
    }
  }

  /** An unfinished task can always move on, once its send returns. */
  lemma UnfinishedTaskCanStep(strategy: Strategy, t: Task, now: U64) returns (l: TaskLabel)
    requires !t.phase.Finished?
    ensures TaskEnabled(strategy, t, l)
  {
    match t.phase
    case Starting => l := CheckStart(now);
    case AwaitingNonce(_) => l := TakeNonce;
    case AwaitingEstimate(_, _) => l := ReadEstimate;
    case AwaitingWindow(_, _, _) => l := ReadWindow;
    case Ready(_, _, _) => l := CheckSend(now);
    case Sending(_, _, _) => l := SendFails;
    case Confirming(_, _, sampled, blended, nonceDone) =>
      l := if !nonceDone then ConfirmNonce else if !sampled then RecordSample(0) else if !blended then BlendEstimate
           else ConfirmReturns;
    case Releasing(_, _, _) => l := ReleaseNonce;
    case Pushing => l := PushAgain(now);
    case Notifying => l := NotifyAgain;
  }

  /** Nothing is queued, running or about to be notified, every permit is free and the loop waits for a message. */
  predicate AtRest(s: State) {
    && s.queue == [] && (forall i :: 0 <= i < |s.tasks| ==> s.tasks[i].phase.Finished?)
    && s.loop.Sleeping? && s.permits == MAX_IN_FLIGHT && !s.notified && s.unnotified == 0
  }

  ghost predicate CannotStep(strategy: Strategy, s: State) {
    forall l :: Internal(l) ==> !Enabled(strategy, s, l)
  }

  lemma {:induction false} NobodyIsRunning(tasks: seq<Task>)
    requires forall i :: 0 <= i < |tasks| ==> tasks[i].phase.Finished?
    ensures Total(tasks, Running) == Total(tasks, InTaskId) == multiset{}
  {
    if tasks != [] {
      NobodyIsRunning(tasks[..|tasks| - 1]);
    }
  }

  /** A sender that is not at rest can take a step by itself. */
  lemma RestlessCanStep(strategy: Strategy, s: State) returns (l: Label)
    requires PermitsBalance(s) && NoLostWakeUp(s) && !s.loop.Stopped? && !AtRest(s)
    ensures Internal(l) && Enabled(strategy, s, l)
  {
    if i :| 0 <= i < |s.tasks| && !s.tasks[i].phase.Finished? {
      var step := UnfinishedTaskCanStep(strategy, s.tasks[i], 0);
      l := OfTask(i, step);
    } else {
      NobodyIsRunning(s.tasks);
      match s.loop
      case Acquiring => l := Acquire;
      case HasPermit =>
        if s.queue == [] {
          l := PopNothing;
        } else {
          var top := HighestExists(s.queue);
          l := PopNext(top);
        }
      case Sleeping => l := if s.notified then Wake else AddNotify;
      case Syncing => l := SyncSucceeds(0);
    }
  }

  lemma RestIsStuck(strategy: Strategy, s: State)
    requires AtRest(s)
    ensures CannotStep(strategy, s)
  {
    forall l | Internal(l)
      ensures !Enabled(strategy, s, l)
    {
      if l.OfTask? && l.i < |s.tasks| {
        assert s.tasks[l.i].phase.Finished?;
      }
    }
  }

  lemma RestIsDone(s: State)
    requires AtRest(s)
    requires Total(s.queue, QueuedId) + Total(s.tasks, InTaskId) + Total(s.tasks, TerminalId) == AllIds(|s.added|)
    ensures Total(s.tasks, TerminalId) == AllIds(|s.added|)
  {
    NobodyIsRunning(s.tasks);
  }

  /** In every run, under any strategy: as long as `run` has not returned and a message is queued,
      the system can take a step by itself. */
  lemma NoDeadlock(strategy: Strategy, onChain: nat, states: seq<State>, labels: seq<Label>, k: nat) returns (l: Label)
    requires IsRun(strategy, onChain, states, labels) && k <= |labels|
    requires states[k].queue != [] && !states[k].loop.Stopped?
    ensures Internal(l) && Enabled(strategy, states[k], l)
  {
    ReachableConserved(strategy, onChain, states, labels, k);
    l := RestlessCanStep(strategy, states[k]);
  }

  /** In every run, under any strategy, as long as `run` has not returned: no internal step is left exactly when the
      queue is empty, every task has finished, every permit is free and the loop sleeps with no notification pending.
      Each message ever added has then been dealt with by exactly one task. */
  lemma RestIffDone(strategy: Strategy, onChain: nat, states: seq<State>, labels: seq<Label>, k: nat)
    requires IsRun(strategy, onChain, states, labels) && k <= |labels| && !states[k].loop.Stopped?
    ensures CannotStep(strategy, states[k]) <==> AtRest(states[k])
    ensures AtRest(states[k]) ==> Total(states[k].tasks, TerminalId) == AllIds(|states[k].added|)
  {
    ReachableConserved(strategy, onChain, states, labels, k);
    if !AtRest(states[k]) {
      var l := RestlessCanStep(strategy, states[k]);
    } else {
      RestIsStuck(strategy, states[k]);
      MessagesConserved(strategy, onChain, states, labels, k);
      RestIsDone(states[k]);
    }
  }

  // ----- Expiry -----

  /** Every logged send was of a message that had not expired when it was checked. */
  ghost predicate SentAlive(s: State) {
    forall j :: 0 <= j < |s.log| ==> s.log[j].id < |s.added| && !IsExpired(s.added[s.log[j].id], s.log[j].at)
  }

  lemma ExpiryIgnoresRetries(m: Message, now: U64)
    ensures IsExpired(m, now) <==> IsExpired(Origin(m), now)
  {
  }

  lemma AppendKeepsSentAlive(s: State, s': State, e: Sent)
    requires SentAlive(s) && s'.added == s.added && s'.log == s.log + [e]
    requires e.id < |s.added| && !IsExpired(s.added[e.id], e.at)
    ensures SentAlive(s')
  {
  }

  lemma TaskStepKeepsSentAlive(strategy: Strategy, s: State, i: nat, l: TaskLabel)
    requires SentAlive(s) && i < |s.tasks| && TaskOk(s, s.tasks[i]) && TaskEnabled(strategy, s.tasks[i], l)
    ensures SentAlive(TaskStep(strategy, s, i, l))
  {
    var s' := TaskStep(strategy, s, i, l);
    if Sends(s.tasks[i], l) {
      ExpiryIgnoresRetries(s.tasks[i].msg, l.now);
      AppendKeepsSentAlive(s, s', s'.log[|s.log|]);
    } else {
      assert s'.log == s.log && s'.added == s.added;
    }
  }

  lemma StepKeepsSentAlive(strategy: Strategy, s: State, l: Label)
    requires SentAlive(s) && BudgetKept(s) && Enabled(strategy, s, l)
    ensures SentAlive(Step(strategy, s, l))
  {
    if l.OfTask? {
      assert TaskOk(s, s.tasks[l.i]);
      TaskStepKeepsSentAlive(strategy, s, l.i, l.step);
    } else {
      var s' := Step(strategy, s, l);
      assert s'.log == s.log && s.added <= s'.added;
    }
  }

  lemma {:induction false} ReachableSentAlive(strategy: Strategy, onChain: nat, states: seq<State>, labels: seq<Label>, k: nat)
    requires IsRun(strategy, onChain, states, labels) && k <= |labels|
    ensures SentAlive(states[k])
  {
    if k == 0 {
    } else {
      ReachableSentAlive(strategy, onChain, states, labels, k - 1);
      ReachableConserved(strategy, onChain, states, labels, k - 1);
      StepKeepsSentAlive(strategy, states[k - 1], labels[k - 1]);
    }
  }

  /** In every run, under any strategy, through retries and requeues: no send, ever, is of a message whose
      deadline had passed at the clock reading before it. */
  lemma ExpiredIsNeverSent(strategy: Strategy, onChain: nat, states: seq<State>, labels: seq<Label>, k: nat, j: nat)
    requires IsRun(strategy, onChain, states, labels) && k <= |labels| && j < |states[k].log|
    ensures states[k].log[j].id < |states[k].added|
    ensures !IsExpired(states[k].added[states[k].log[j].id], states[k].log[j].at)
  {
    ReachableSentAlive(strategy, onChain, states, labels, k);
  }
}
