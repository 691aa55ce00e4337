/** What every step of the sender keeps, whatever the adapter and its retry strategy do. */
module SenderConservation {
  import opened Prelude
  import opened Messages
  import opened EthAdapter
  import opened Tally
  import opened SenderModel

  // ----- Permits -----

  function Running(t: Task): multiset<nat> {
    if t.phase.Finished? then multiset{} else multiset{0}
  }

  /** Free permits, the one in the loop's hand and one per unfinished task. */
  ghost predicate PermitsBalance(s: State) {
    s.permits + (if s.loop.HasPermit? then 1 else 0) + |Total(s.tasks, Running)| == MAX_IN_FLIGHT
  }

  // ----- Messages -----

  function QueuedId(e: Entry): multiset<nat> {
    multiset{e.id}
  }

  predicate Owns(t: Task) {
    !t.phase.Notifying? && t.phase != Finished(true)
  }

  /** The message a task is responsible for: all its life, unless it has put it back in the queue. */
  function OwnedId(t: Task): multiset<nat> {
    if Owns(t) then multiset{t.id} else multiset{}
  }

  function InTaskId(t: Task): multiset<nat> {
    if Owns(t) && !t.phase.Finished? then multiset{t.id} else multiset{}
  }

  function TerminalId(t: Task): multiset<nat> {
    if t.phase == Finished(false) then multiset{t.id} else multiset{}
  }

  /** Each id below `count`, once. */
  function AllIds(count: nat): multiset<nat> {
    if count == 0 then multiset{} else AllIds(count - 1) + multiset{count - 1}
  }

  ghost predicate MessagesBalance(s: State) {
    Total(s.queue, QueuedId) + Total(s.tasks, OwnedId) == AllIds(|s.added|)
  }

  // ----- Wake-ups -----

  predicate WillBeNotified(s: State) {
    s.notified || s.unnotified > 0 || exists i :: 0 <= i < |s.tasks| && s.tasks[i].phase.Notifying?
  }

  predicate NoLostWakeUp(s: State) {
    s.loop.Sleeping? && s.queue != [] ==> WillBeNotified(s)
  }

  // ----- Send budget -----

  function SendCount(log: seq<Sent>, id: nat): nat {
    if log == [] then 0
    else SendCount(log[..|log| - 1], id) + if log[|log| - 1].id == id then 1 else 0
  }

  /** The sends allowed to a message that was added with `first` retries already counted. */
  function Budget(first: nat): nat {
    Max(1, SaturatingSub(MAX_RETRIES, first))
  }

  /** A message that waits for its next send: every send so far was followed by a counted retry. */
  predicate AwaitsSend(msg: Message, first: nat, sends: nat) {
    msg.retryCount == first + sends && (sends > 0 ==> CanRetry(msg))
  }

  /** How the sends of a message relate to its counted retries, phase by phase. */
  predicate SendsMatch(t: Task, first: nat) {
    match t.phase
    case Sending(_, _, _) => t.sends >= 1 && AwaitsSend(t.msg, first, t.sends - 1)
    case Confirming(_, _, _, _, _) => t.sends >= 1 && AwaitsSend(t.msg, first, t.sends - 1)
    case Releasing(_, _, exit) => t.sends <= Budget(first) && (exit.ThenRequeue? ==> AwaitsSend(t.msg, first, t.sends))
    case Notifying => true
    case Finished(_) => true
    case _ => AwaitsSend(t.msg, first, t.sends)
  }

  predicate EntryOk(s: State, e: Entry) {
    && e.id < |s.added| && Origin(e.msg) == Origin(s.added[e.id])
    && AwaitsSend(e.msg, s.added[e.id].retryCount, e.sends)
    && SendCount(s.log, e.id) == e.sends
  }

  predicate TaskOk(s: State, t: Task) {
    Owns(t) ==>
      && t.id < |s.added| && Origin(t.msg) == Origin(s.added[t.id])
      && SendsMatch(t, s.added[t.id].retryCount)
      && SendCount(s.log, t.id) == t.sends
  }

  ghost predicate BudgetKept(s: State) {
    && (forall k :: 0 <= k < |s.queue| ==> EntryOk(s, s.queue[k]))
    && (forall i :: 0 <= i < |s.tasks| ==> TaskOk(s, s.tasks[i]))
    && (forall id: nat :: id < |s.added| ==> SendCount(s.log, id) <= Budget(s.added[id].retryCount))
    && (forall id :: id >= |s.added| ==> SendCount(s.log, id) == 0)
  }

  ghost predicate Conserved(s: State) {
    PermitsBalance(s) && MessagesBalance(s) && NoLostWakeUp(s) && BudgetKept(s)
  }

  // ----- Uniqueness from the balance -----

  lemma {:induction false} AllIdsOnce(count: nat, id: nat)
    ensures AllIds(count)[id] == if id < count then 1 else 0
  {
    if count == 0 {
    } else {
      AllIdsOnce(count - 1, id);
    }
  }

  /** No two tasks own the same message. */
  lemma OwnersDiffer(s: State, i: nat, j: nat)
    requires MessagesBalance(s) && i < |s.tasks| && j < |s.tasks| && i != j && Owns(s.tasks[i]) && Owns(s.tasks[j])
    ensures s.tasks[i].id != s.tasks[j].id
  {
    if s.tasks[i].id == s.tasks[j].id {
      TotalCountsBoth(s.tasks, i, j, OwnedId, s.tasks[i].id);
      AllIdsOnce(|s.added|, s.tasks[i].id);
    }
  }

  /** No task owns a queued message. */
  lemma QueuedIsNotOwned(s: State, k: nat, i: nat)
    requires MessagesBalance(s) && k < |s.queue| && i < |s.tasks| && Owns(s.tasks[i])
    ensures s.queue[k].id != s.tasks[i].id
  {
    if s.queue[k].id == s.tasks[i].id {
      TotalRemove(s.queue, k, QueuedId);
      TotalRemove(s.tasks, i, OwnedId);
      AllIdsOnce(|s.added|, s.tasks[i].id);
    }
  }

  // ----- The shape of a task step -----

  /** Task `i` moves and frees its permit if it is now finished; the loop and the callers do not move. */
  predicate OnlyTask(s: State, s': State, i: nat) {
    && i < |s.tasks| == |s'.tasks|
    && s'.tasks == s.tasks[i := s'.tasks[i]]
    && s'.permits == s.permits + (if s'.tasks[i].phase.Finished? then 1 else 0)
    && s'.loop == s.loop && s'.added == s.added && s'.unnotified == s.unnotified
    && s'.tasks[i].id == s.tasks[i].id && Origin(s'.tasks[i].msg) == Origin(s.tasks[i].msg)
    && !s.tasks[i].phase.Finished?
  }

  lemma NextTaskShape(strategy: Strategy, s: State, t: Task, l: TaskLabel)
    requires TaskEnabled(strategy, t, l)
    ensures var t' := NextTask(strategy, s, t, l);
            && !t.phase.Finished?
            && t'.id == t.id && Origin(t'.msg) == Origin(t.msg)
            && (!l.PushAgain? ==> Owns(t') == Owns(t))
  {
  }

  lemma TaskStepShape(strategy: Strategy, s: State, i: nat, l: TaskLabel)
    requires i < |s.tasks| && TaskEnabled(strategy, s.tasks[i], l)
    ensures var s' := TaskStep(strategy, s, i, l);
            && OnlyTask(s, s', i)
            && (!l.PushAgain? ==> s'.queue == s.queue && Owns(s'.tasks[i]) == Owns(s.tasks[i]))
            && (!Sends(s.tasks[i], l) ==> s'.log == s.log)
            && (!l.NotifyAgain? ==> s'.notified == s.notified)
  {
    NextTaskShape(strategy, s, s.tasks[i], l);
  }

  /** Where task `i` stands after a step: moved by its own, untouched by the others', or new. */
  lemma TaskAfterStep(strategy: Strategy, s: State, l: Label, i: nat)
    requires Enabled(strategy, s, l) && i < |Step(strategy, s, l).tasks|
    ensures l.OfTask? && l.i == i ==> i < |s.tasks| && Step(strategy, s, l).tasks[i] == NextTask(strategy, s, s.tasks[i], l.step)
    ensures !(l.OfTask? && l.i == i) && i < |s.tasks| ==> Step(strategy, s, l).tasks[i] == s.tasks[i]
    ensures i >= |s.tasks| ==>
              var t := Step(strategy, s, l).tasks[i]; t.phase.Starting? && t.issued == 0 == t.settled
  {
  }

  // ----- Balances, step by step -----

  lemma TaskMoveKeepsPermits(s: State, s': State, i: nat)
    requires PermitsBalance(s) && OnlyTask(s, s', i)
    ensures PermitsBalance(s')
  {
    TotalUpdateSize(s.tasks, i, s'.tasks[i], Running);
  }

  lemma TaskMoveKeepsMessages(s: State, s': State, i: nat)
    requires MessagesBalance(s) && OnlyTask(s, s', i)
    requires s'.queue == s.queue && Owns(s'.tasks[i]) == Owns(s.tasks[i])
    ensures MessagesBalance(s')
  {
    TotalUpdateSame(s.tasks, i, s'.tasks[i], OwnedId);
  }

  lemma HandOffKeepsMessages(s: State, s': State, i: nat, e: Entry)
    requires MessagesBalance(s) && OnlyTask(s, s', i)
    requires Owns(s.tasks[i]) && !Owns(s'.tasks[i]) && s'.queue == s.queue + [e] && e.id == s.tasks[i].id
    ensures MessagesBalance(s')
  {
    TotalUpdateDrop(s.tasks, i, s'.tasks[i], OwnedId);
    TotalAppend(s.queue, e, QueuedId);
    Transfer(Total(s.queue, QueuedId), Total(s'.tasks, OwnedId), multiset{e.id});
  }

  lemma TaskStepKeepsBalances(strategy: Strategy, s: State, i: nat, l: TaskLabel)
    requires PermitsBalance(s) && MessagesBalance(s)
    requires i < |s.tasks| && TaskEnabled(strategy, s.tasks[i], l)
    ensures PermitsBalance(TaskStep(strategy, s, i, l)) && MessagesBalance(TaskStep(strategy, s, i, l))
  {
    var s' := TaskStep(strategy, s, i, l);
    TaskStepShape(strategy, s, i, l);
    TaskMoveKeepsPermits(s, s', i);
    if l.PushAgain? {
      HandOffKeepsMessages(s, s', i, s'.queue[|s.queue|]);
    } else {
      TaskMoveKeepsMessages(s, s', i);
    }
  }

  lemma PopKeepsMessages(s: State, k: nat, t: Task)
    requires MessagesBalance(s) && k < |s.queue| && t.id == s.queue[k].id && Owns(t)
    ensures Total(s.queue[..k] + s.queue[k + 1..], QueuedId) + Total(s.tasks + [t], OwnedId) == AllIds(|s.added|)
  {
    TotalRemove(s.queue, k, QueuedId);
    TotalAppend(s.tasks, t, OwnedId);
    Transfer(Total(s.queue[..k] + s.queue[k + 1..], QueuedId), Total(s.tasks, OwnedId), multiset{t.id});
  }

  lemma SpawnAddsOne(tasks: seq<Task>, t: Task)
    requires !t.phase.Finished?
    ensures |Total(tasks + [t], Running)| == |Total(tasks, Running)| + 1
  {
  }

  lemma PopStepKeepsBalances(strategy: Strategy, s: State, k: nat)
    requires PermitsBalance(s) && MessagesBalance(s) && Enabled(strategy, s, PopNext(k))
    ensures PermitsBalance(Step(strategy, s, PopNext(k))) && MessagesBalance(Step(strategy, s, PopNext(k)))
  {
    var t := Task(s.queue[k].id, s.queue[k].msg, s.queue[k].sends, 0, 0, Starting);
    PopKeepsMessages(s, k, t);
    SpawnAddsOne(s.tasks, t);
  }

  lemma AddStepKeepsBalances(strategy: Strategy, s: State, msg: Message, now: U64)
    requires PermitsBalance(s) && MessagesBalance(s) && Enabled(strategy, s, AddPush(msg, now))
    ensures PermitsBalance(Step(strategy, s, AddPush(msg, now))) && MessagesBalance(Step(strategy, s, AddPush(msg, now)))
  {
  }

  /** The remaining loop steps only move a permit between the semaphore and the loop. */
  lemma LoopMoveKeepsBalances(strategy: Strategy, s: State, l: Label)
    requires PermitsBalance(s) && MessagesBalance(s) && Enabled(strategy, s, l)
    requires !l.OfTask? && !l.PopNext? && !l.AddPush?
    ensures PermitsBalance(Step(strategy, s, l)) && MessagesBalance(Step(strategy, s, l))
  {
  }

  lemma LoopStepKeepsBalances(strategy: Strategy, s: State, l: Label)
    requires PermitsBalance(s) && MessagesBalance(s) && Enabled(strategy, s, l) && !l.OfTask?
    ensures PermitsBalance(Step(strategy, s, l)) && MessagesBalance(Step(strategy, s, l))
  {
    if l.PopNext? {
      PopStepKeepsBalances(strategy, s, l.k);
    } else if l.AddPush? {
      AddStepKeepsBalances(strategy, s, l.msg, l.now);
    } else {
      LoopMoveKeepsBalances(strategy, s, l);
    }
  }

  // ----- Wake-ups, step by step -----

  lemma StepKeepsWakeUp(strategy: Strategy, s: State, l: Label)
    requires NoLostWakeUp(s) && Enabled(strategy, s, l)
    ensures NoLostWakeUp(Step(strategy, s, l))
  {
    var s' := Step(strategy, s, l);
    if l.OfTask? && !l.step.NotifyAgain? && s'.loop.Sleeping? && s'.queue != [] {
      if l.step.PushAgain? {
        assert s'.tasks[l.i].phase.Notifying?;
      } else if !s.notified && s.unnotified == 0 {
        var j :| 0 <= j < |s.tasks| && s.tasks[j].phase.Notifying?;
        assert s'.tasks[j].phase.Notifying?;
      }
    }
  }

  // ----- Budget, step by step -----

  lemma SendCountAppend(log: seq<Sent>, e: Sent, id: nat)
    ensures SendCount(log + [e], id) == SendCount(log, id) + if e.id == id then 1 else 0
  {
  }

  /** A step that neither sends nor pushes: only task `i` has anything to show. */
  lemma QuietStepKeepsBudget(s: State, s': State, i: nat)
    requires BudgetKept(s) && i < |s.tasks| == |s'.tasks|
    requires s'.added == s.added && s'.queue == s.queue && s'.log == s.log
    requires forall j :: 0 <= j < |s.tasks| && j != i ==> s'.tasks[j] == s.tasks[j]
    requires TaskOk(s, s'.tasks[i])
    ensures BudgetKept(s')
  {
  }

  /** Task `i`, which was ready, has sent its message. */
  predicate SentBy(s: State, s': State, i: nat, e: Sent) {
    && i < |s.tasks| == |s'.tasks| && s.tasks[i].phase.Ready? && e.id == s.tasks[i].id
    && s'.added == s.added && s'.queue == s.queue && s'.log == s.log + [e]
    && s'.tasks == s.tasks[i := s'.tasks[i]] && s'.tasks[i].phase.Sending?
    && s'.tasks[i].(phase := s.tasks[i].phase) == s.tasks[i].(sends := s.tasks[i].sends + 1)
  }

  /** The owner is unique, so no other task's count moves. */
  lemma SendKeepsTaskOk(s: State, s': State, i: nat, e: Sent, j: nat)
    requires BudgetKept(s) && MessagesBalance(s) && SentBy(s, s', i, e) && j < |s'.tasks|
    ensures TaskOk(s', s'.tasks[j])
  {
    assert TaskOk(s, s.tasks[j]);
    SendCountAppend(s.log, e, s'.tasks[j].id);
    if j != i && Owns(s.tasks[j]) {
      OwnersDiffer(s, i, j);
    }
  }

  lemma SendKeepsEntryOk(s: State, s': State, i: nat, e: Sent, k: nat)
    requires BudgetKept(s) && MessagesBalance(s) && SentBy(s, s', i, e) && k < |s'.queue|
    ensures EntryOk(s', s'.queue[k])
  {
    assert EntryOk(s, s.queue[k]);
    SendCountAppend(s.log, e, s.queue[k].id);
    QueuedIsNotOwned(s, k, i);
  }

  lemma SendKeepsBudget(s: State, s': State, i: nat, e: Sent)
    requires BudgetKept(s) && MessagesBalance(s) && SentBy(s, s', i, e)
    ensures BudgetKept(s')
  {
    assert TaskOk(s, s.tasks[i]);
    forall id
      ensures SendCount(s'.log, id) == SendCount(s.log, id) + if e.id == id then 1 else 0
    {
      SendCountAppend(s.log, e, id);
    }
    forall j | 0 <= j < |s'.tasks|
      ensures TaskOk(s', s'.tasks[j])
    {
      SendKeepsTaskOk(s, s', i, e, j);
    }
    forall k | 0 <= k < |s'.queue|
      ensures EntryOk(s', s'.queue[k])
    {
      SendKeepsEntryOk(s, s', i, e, k);
    }
  }

  lemma PushAgainKeepsBudget(strategy: Strategy, s: State, i: nat, now: U64)
    requires BudgetKept(s) && i < |s.tasks| && s.tasks[i].phase.Pushing?
    ensures BudgetKept(TaskStep(strategy, s, i, PushAgain(now)))
  {
  }

  lemma DropKeepsTaskOk(strategy: Strategy, s: State, t: Task, decision: RetryDecision)
    requires TaskOk(s, t) && t.phase.Sending?
    ensures TaskOk(s, AfterDrop(strategy, t, decision))
  {
  }

  /** A step of task `i` that neither sends nor pushes leaves its own account in order. */
  lemma QuietTaskOk(strategy: Strategy, s: State, i: nat, l: TaskLabel)
    requires i < |s.tasks| && TaskEnabled(strategy, s.tasks[i], l) && TaskOk(s, s.tasks[i])
    requires !l.PushAgain? && !Sends(s.tasks[i], l)
    ensures TaskOk(s, TaskStep(strategy, s, i, l).tasks[i])
  {
    if l.SendDropped? || l.SendReverted? {
      DropKeepsTaskOk(strategy, s, s.tasks[i], l.decision);
    }
  }

  lemma TaskStepKeepsBudget(strategy: Strategy, s: State, i: nat, l: TaskLabel)
    requires BudgetKept(s) && MessagesBalance(s)
    requires i < |s.tasks| && TaskEnabled(strategy, s.tasks[i], l)
    ensures BudgetKept(TaskStep(strategy, s, i, l))
  {
    assert TaskOk(s, s.tasks[i]);
    if l.PushAgain? {
      PushAgainKeepsBudget(strategy, s, i, l.now);
    } else if Sends(s.tasks[i], l) {
      var s' := TaskStep(strategy, s, i, l);
      SendKeepsBudget(s, s', i, s'.log[|s.log|]);
    } else {
      TaskStepShape(strategy, s, i, l);
      QuietTaskOk(strategy, s, i, l);
      QuietStepKeepsBudget(s, TaskStep(strategy, s, i, l), i);
    }
  }

  lemma PopKeepsBudget(s: State, s': State, k: nat)
    requires BudgetKept(s) && k < |s.queue| && s'.added == s.added && s'.log == s.log
    requires s'.queue == s.queue[..k] + s.queue[k + 1..]
    requires s'.tasks == s.tasks + [Task(s.queue[k].id, s.queue[k].msg, s.queue[k].sends, 0, 0, Starting)]
    ensures BudgetKept(s')
  {
    assert EntryOk(s, s.queue[k]);
  }

  lemma AddKeepsBudget(s: State, s': State, msg: Message, rank: nat)
    requires BudgetKept(s) && s'.added == s.added + [msg] && s'.log == s.log && s'.tasks == s.tasks
    requires s'.queue == s.queue + [Entry(|s.added|, msg, 0, rank)]
    ensures BudgetKept(s')
  {
  }

  lemma LoopStepKeepsBudget(strategy: Strategy, s: State, l: Label)
    requires BudgetKept(s) && Enabled(strategy, s, l) && !l.OfTask?
    ensures BudgetKept(Step(strategy, s, l))
  {
    if l.PopNext? {
      PopKeepsBudget(s, Step(strategy, s, l), l.k);
    } else if l.AddPush? {
      AddKeepsBudget(s, Step(strategy, s, l), l.msg, EffectivePriority(l.msg, l.now));
    }
  }

  // ----- Every run -----

  lemma StepKeepsConserved(strategy: Strategy, s: State, l: Label)
    requires Conserved(s) && Enabled(strategy, s, l)
    ensures Conserved(Step(strategy, s, l))
  {
    StepKeepsWakeUp(strategy, s, l);
    if l.OfTask? {
      TaskStepKeepsBalances(strategy, s, l.i, l.step);
      TaskStepKeepsBudget(strategy, s, l.i, l.step);
    } else {
      LoopStepKeepsBalances(strategy, s, l);
      LoopStepKeepsBudget(strategy, s, l);
    }
  }

  lemma {:induction false} ReachableConserved(strategy: Strategy, onChain: nat, states: seq<State>, labels: seq<Label>, k: nat)
    requires IsRun(strategy, onChain, states, labels) && k <= |labels|
    ensures Conserved(states[k])
  {
    if k == 0 {
      assert AllIds(0) == multiset{};
    } else {
      ReachableConserved(strategy, onChain, states, labels, k - 1);
      StepKeepsConserved(strategy, states[k - 1], labels[k - 1]);
    }
  }

  lemma ReachableTaskOk(strategy: Strategy, onChain: nat, states: seq<State>, labels: seq<Label>, k: nat, i: nat)
    requires IsRun(strategy, onChain, states, labels) && k <= |labels| && i < |states[k].tasks|
    ensures TaskOk(states[k], states[k].tasks[i])
  {
    ReachableConserved(strategy, onChain, states, labels, k);
  }

  /** Conservation of messages: in every state of every run, whatever was cancelled on the way, each message
      ever added is in exactly one place: queued, in a task, or done with. */
  lemma MessagesConserved(strategy: Strategy, onChain: nat, states: seq<State>, labels: seq<Label>, k: nat)
    requires IsRun(strategy, onChain, states, labels) && k <= |labels|
    ensures var s := states[k];
            Total(s.queue, QueuedId) + Total(s.tasks, InTaskId) + Total(s.tasks, TerminalId) == AllIds(|s.added|)
  {
    ReachableConserved(strategy, onChain, states, labels, k);
    var s := states[k];
    TotalSplits(s.tasks, OwnedId, InTaskId, TerminalId);
    Transfer(Total(s.queue, QueuedId), Total(s.tasks, TerminalId), Total(s.tasks, InTaskId));
  }

  /** Conservation of permits: free, in the loop's hand and held by tasks always make 16, so at most
      16 tasks are unfinished. */
  lemma PermitsConserved(strategy: Strategy, onChain: nat, states: seq<State>, labels: seq<Label>, k: nat)
    requires IsRun(strategy, onChain, states, labels) && k <= |labels|
    ensures var s := states[k];
            s.permits + (if s.loop.HasPermit? then 1 else 0) + |Total(s.tasks, Running)| == 16
  {
    ReachableConserved(strategy, onChain, states, labels, k);
  }

  /** The loop never sleeps on a non-empty queue without a notification stored or on its way. */
  lemma NeverSleepsOnWork(strategy: Strategy, onChain: nat, states: seq<State>, labels: seq<Label>, k: nat)
    requires IsRun(strategy, onChain, states, labels) && k <= |labels|
    requires states[k].loop.Sleeping? && states[k].queue != []
    ensures WillBeNotified(states[k])
  {
    ReachableConserved(strategy, onChain, states, labels, k);
  }

  /** For any retry strategy, a message reaches `send_transaction` at most three times in its whole life,
      requeues included; at most max(1, 3 - r) times if it was added with r retries already counted. */
  lemma AtMostThreeSends(strategy: Strategy, onChain: nat, states: seq<State>, labels: seq<Label>, k: nat, id: nat)
    requires IsRun(strategy, onChain, states, labels) && k <= |labels|
    ensures SendCount(states[k].log, id) <= 3
    ensures id < |states[k].added| ==> SendCount(states[k].log, id) <= Max(1, SaturatingSub(3, states[k].added[id].retryCount))
  {
    ReachableConserved(strategy, onChain, states, labels, k);
  }
}
