/** Nonce safety of the Ethereum sender over every interleaving. */
module SenderNonces {
  import opened Prelude
  import opened Messages
  import opened Nonces
  import opened EthAdapter
  import opened Tally
  import opened SenderModel
  import opened SenderConservation

  /** The nonce a task holds: taken, and neither released nor confirmed yet. */
  function HeldNonce(t: Task): Option<nat> {
    match t.phase
    case AwaitingEstimate(n, _) => Some(n)
    case AwaitingWindow(n, _, _) => Some(n)
    case Ready(n, _, _) => Some(n)
    case Sending(n, _, _) => Some(n)
    case Confirming(n, _, _, _, nonceDone) => if nonceDone then None else Some(n)
    case Releasing(n, _, _) => Some(n)
    case _ => None
  }

  function HeldSet(tasks: seq<Task>): set<nat> {
    set i | 0 <= i < |tasks| && HeldNonce(tasks[i]).Some? :: HeldNonce(tasks[i]).value
  }

  /** Each of the `r` replacements was allowed by a retry counted on the message. */
  predicate ReplacementsCounted(msg: Message, r: nat) {
    r <= msg.retryCount && (r > 0 ==> CanRetry(msg))
  }

  /** What the Ethereum strategy makes of a task: it never puts a message back, every replacement is a counted
      retry, and the nonce is settled once. */
  predicate EthTask(t: Task) {
    match t.phase
    case Starting => t.issued == 0 == t.settled && t.sends == 0
    case AwaitingNonce(_) => t.issued == 0 == t.settled && t.sends == 0
    case AwaitingEstimate(_, _) => t.issued == 1 && t.settled == 0 && t.sends == 0
    case AwaitingWindow(_, _, _) => t.issued == 1 && t.settled == 0 && t.sends == 0
    case Ready(_, _, r) => t.issued == 1 && t.settled == 0 && t.sends == r && ReplacementsCounted(t.msg, r)
    case Sending(_, _, r) => t.issued == 1 && t.settled == 0 && t.sends == r + 1 && ReplacementsCounted(t.msg, r)
    case Confirming(_, _, _, _, nonceDone) => t.issued == 1 && t.settled == if nonceDone then 1 else 0
    case Releasing(_, times, exit) => t.issued == 1 && t.settled == 0 && times == 1 && exit == ThenQuit
    case Pushing => false
    case Notifying => false
    case Finished(handedOff) => !handedOff && t.issued == t.settled <= 1
  }

  ghost predicate EthTasks(s: State) {
    && (forall k :: 0 <= k < |s.queue| ==> s.queue[k].sends == 0)
    && (forall i :: 0 <= i < |s.tasks| ==> EthTask(s.tasks[i]))
  }

  /** `n` can no longer be handed out. */
  predicate Reserved(nonces: NonceState, n: nat) {
    n in nonces.inFlight || n < nonces.current
  }

  ghost predicate NoncesSafe(s: State) {
    && (forall n :: n in s.nonces.inFlight ==> n >= s.nonces.current)
    && (forall i :: 0 <= i < |s.tasks| && HeldNonce(s.tasks[i]).Some? ==> Reserved(s.nonces, HeldNonce(s.tasks[i]).value))
    && (forall i, j :: 0 <= i < j < |s.tasks| && HeldNonce(s.tasks[i]).Some? && HeldNonce(s.tasks[j]).Some? ==>
          HeldNonce(s.tasks[i]).value != HeldNonce(s.tasks[j]).value)
    && (forall n :: n in s.confirmed ==> Reserved(s.nonces, n))
    && (forall i :: 0 <= i < |s.tasks| && HeldNonce(s.tasks[i]).Some? && HeldNonce(s.tasks[i]).value in s.confirmed ==>
          s.tasks[i].phase.Confirming?)
    && (forall n :: n in s.nonces.inFlight ==> n in HeldSet(s.tasks) || (n == s.nonces.current && n in s.confirmed))
  }

  // ----- One task at a time -----

  /** A replacement is decided at the same nonce whenever another attempt is allowed at all:
      `Requeue` and `Abandon` never come up. */
  lemma DropResubmitsOrQuits(t: Task)
    requires EthTask(t) && t.phase.Sending?
    ensures var decision := EthDecision(t.msg, t.phase.fee, t.phase.nonce, t.phase.replacements);
            && (IncrementRetry(t.msg).1 ==> decision == Resubmit(BumpFee(t.phase.fee), t.phase.nonce))
            && EthTask(AfterDrop(EthRetry, t, decision))
            && HeldNonce(AfterDrop(EthRetry, t, decision)) == Some(t.phase.nonce)
  {
  }

  /** Another attempt at the same nonce with a bumped fee, or a single release on the way out. */
  predicate ResubmitsOrQuits(before: Task, after: Task, d: RetryDecision)
    requires before.phase.Sending?
  {
    || (IncrementRetry(before.msg).1 && d == Resubmit(BumpFee(before.phase.fee), before.phase.nonce)
        && after.phase == Ready(before.phase.nonce, BumpFee(before.phase.fee), before.phase.replacements + 1))
    || (!IncrementRetry(before.msg).1 && after.phase == Releasing(before.phase.nonce, 1, ThenQuit))
  }

  lemma DropOutcome(t: Task, d: RetryDecision)
    requires EthTask(t) && t.phase.Sending? && MayDecide(EthRetry, t, d)
    ensures ResubmitsOrQuits(t, AfterDrop(EthRetry, t, d), d)
  {
    DropResubmitsOrQuits(t);
  }

  lemma DropStepIs(s: State, i: nat, d: RetryDecision, l: TaskLabel)
    requires l == SendDropped(d) || l == SendReverted(d)
    requires i < |s.tasks| && TaskEnabled(EthRetry, s.tasks[i], l)
    ensures var s' := Step(EthRetry, s, OfTask(i, l));
            |s'.tasks| == |s.tasks| && s'.tasks[i] == AfterDrop(EthRetry, s.tasks[i], d)
  {
  }

  lemma DropStep(s: State, i: nat, d: RetryDecision, l: TaskLabel)
    requires l == SendDropped(d) || l == SendReverted(d)
    requires i < |s.tasks| && EthTask(s.tasks[i]) && TaskEnabled(EthRetry, s.tasks[i], l)
    ensures var s' := Step(EthRetry, s, OfTask(i, l));
            |s'.tasks| == |s.tasks| && ResubmitsOrQuits(s.tasks[i], s'.tasks[i], d)
  {
    DropOutcome(s.tasks[i], d);
    DropStepIs(s, i, d, l);
  }

  lemma TaskStepKeepsEthTask(s: State, i: nat, l: TaskLabel)
    requires i < |s.tasks| && EthTask(s.tasks[i]) && TaskEnabled(EthRetry, s.tasks[i], l)
    ensures EthTask(TaskStep(EthRetry, s, i, l).tasks[i])
  {
  }

  lemma StepKeepsEthTasks(s: State, l: Label)
    requires EthTasks(s) && Enabled(EthRetry, s, l)
    ensures EthTasks(Step(EthRetry, s, l))
  {
    if l.OfTask? {
      TaskStepKeepsEthTask(s, l.i, l.step);
      TaskStepShape(EthRetry, s, l.i, l.step);
      assert !l.step.PushAgain?;
    } else {
      LoopStepKeepsEthTasks(s, l);
    }
  }

  lemma LoopStepKeepsEthTasks(s: State, l: Label)
    requires EthTasks(s) && Enabled(EthRetry, s, l) && !l.OfTask?
    ensures EthTasks(Step(EthRetry, s, l))
  {
  }

  // ----- The set of held nonces -----

  lemma HeldSetUpdate(tasks: seq<Task>, i: nat, t: Task, n: nat)
    requires i < |tasks|
    ensures n in HeldSet(tasks[i := t]) <==>
              HeldNonce(t) == Some(n) || exists j :: 0 <= j < |tasks| && j != i && HeldNonce(tasks[j]) == Some(n)
  {
    var tasks' := tasks[i := t];
    if HeldNonce(t) == Some(n) {
      assert HeldNonce(tasks'[i]) == Some(n);
    }
    if j :| 0 <= j < |tasks| && j != i && HeldNonce(tasks[j]) == Some(n) {
      assert HeldNonce(tasks'[j]) == Some(n);
    }
  }

  /** A nonce held by another task stays held. */
  lemma HeldElsewhere(tasks: seq<Task>, i: nat, t: Task, n: nat)
    requires i < |tasks| && n in HeldSet(tasks) && HeldNonce(tasks[i]) != Some(n)
    ensures n in HeldSet(tasks[i := t])
  {
    var j :| 0 <= j < |tasks| && HeldNonce(tasks[j]).Some? && HeldNonce(tasks[j]).value == n;
    assert tasks[i := t][j] == tasks[j];
  }

  lemma HeldSetAppend(tasks: seq<Task>, t: Task, n: nat)
    ensures n in HeldSet(tasks + [t]) <==> n in HeldSet(tasks) || HeldNonce(t) == Some(n)
  {
    var longer := tasks + [t];
    if n in HeldSet(tasks) {
      var j :| 0 <= j < |tasks| && HeldNonce(tasks[j]).Some? && HeldNonce(tasks[j]).value == n;
      assert longer[j] == tasks[j];
    }
    if HeldNonce(t) == Some(n) {
      assert longer[|tasks|] == t;
    }
  }

  lemma {:induction false} HeldSetSize(tasks: seq<Task>)
    ensures |HeldSet(tasks)| <= |Total(tasks, Running)|
  {
    if tasks == [] {
    } else {
      var front := tasks[..|tasks| - 1];
      var last := tasks[|tasks| - 1];
      assert tasks == front + [last];
      HeldSetSize(front);
      HeldSetGrowsByOne(front, last);
      TotalAppend(front, last, Running);
    }
  }

  lemma HeldSetGrowsByOne(tasks: seq<Task>, t: Task)
    ensures |HeldSet(tasks + [t])| <= |HeldSet(tasks)| + if HeldNonce(t).Some? then 1 else 0
  {
    var more := if HeldNonce(t).Some? then {HeldNonce(t).value} else {};
    forall n
      ensures n in HeldSet(tasks + [t]) <==> n in HeldSet(tasks) + more
    {
      HeldSetAppend(tasks, t, n);
    }
    assert HeldSet(tasks + [t]) == HeldSet(tasks) + more;
  }

  /** A running task that holds nothing leaves room for one nonce fewer. */
  lemma HeldSetSizeBesides(tasks: seq<Task>, i: nat)
    requires i < |tasks| && !tasks[i].phase.Finished? && HeldNonce(tasks[i]).None?
    ensures |HeldSet(tasks)| + 1 <= |Total(tasks, Running)|
  {
    var done := tasks[i].(phase := Finished(false));
    var tasks' := tasks[i := done];
    assert HeldSet(tasks') == HeldSet(tasks) by {
      forall n
        ensures n in HeldSet(tasks') <==> n in HeldSet(tasks)
      {
        HeldSetUpdate(tasks, i, done, n);
        HeldSetUpdate(tasks, i, tasks[i], n);
        assert tasks[i := tasks[i]] == tasks;
      }
    }
    HeldSetSize(tasks');
    TotalUpdateSize(tasks, i, done, Running);
  }

  lemma InFlightSize(s: State)
    requires NoncesSafe(s)
    ensures |s.nonces.inFlight| <= |HeldSet(s.tasks)| + 1
  {
    SubsetSize(s.nonces.inFlight, HeldSet(s.tasks) + {s.nonces.current});
  }

  // ----- Nonce steps -----

  /** A step of task `i` that changes neither the nonce state nor what the task holds. */
  lemma QuietStepKeepsNonces(s: State, s': State, i: nat)
    requires NoncesSafe(s) && OnlyTask(s, s', i) && s'.nonces == s.nonces
    requires HeldNonce(s'.tasks[i]) == HeldNonce(s.tasks[i])
    requires s.tasks[i].phase.Confirming? ==> s'.tasks[i].phase.Confirming? || HeldNonce(s.tasks[i]).None?
    requires || s'.confirmed == s.confirmed
             || (HeldNonce(s.tasks[i]).Some? && s'.tasks[i].phase.Confirming?
                 && s'.confirmed == s.confirmed + {HeldNonce(s.tasks[i]).value})
    ensures NoncesSafe(s')
  {
    forall n | n in s.nonces.inFlight
      ensures n in HeldSet(s'.tasks) || (n == s'.nonces.current && n in s'.confirmed)
    {
      if n in HeldSet(s.tasks) && HeldNonce(s.tasks[i]) != Some(n) {
        HeldElsewhere(s.tasks, i, s'.tasks[i], n);
      } else if n in HeldSet(s.tasks) {
        HeldSetUpdate(s.tasks, i, s'.tasks[i], n);
      }
    }
  }

  lemma TakeKeepsNonces(s: State, s': State, i: nat)
    requires NoncesSafe(s) && OnlyTask(s, s', i) && s'.nonces == Take(s.nonces) && s'.confirmed == s.confirmed
    requires HeldNonce(s.tasks[i]).None? && HeldNonce(s'.tasks[i]) == Some(NextNonce(s.nonces))
    ensures NoncesSafe(s')
    ensures NextNonce(s.nonces) !in s.confirmed
  {
    assert !Reserved(s.nonces, NextNonce(s.nonces));
    forall n | n in s'.nonces.inFlight
      ensures n in HeldSet(s'.tasks) || (n == s'.nonces.current && n in s'.confirmed)
    {
      TakenIsHeld(s, s', i, n);
    }
  }

  lemma TakenIsHeld(s: State, s': State, i: nat, n: nat)
    requires OnlyTask(s, s', i) && HeldNonce(s.tasks[i]).None? && HeldNonce(s'.tasks[i]) == Some(NextNonce(s.nonces))
    requires n == NextNonce(s.nonces) || n in HeldSet(s.tasks) || (n == s.nonces.current && n in s.confirmed)
    ensures n in HeldSet(s'.tasks) || (n == s.nonces.current && n in s.confirmed)
  {
    if n == NextNonce(s.nonces) {
      HeldSetUpdate(s.tasks, i, s'.tasks[i], n);
    } else if n in HeldSet(s.tasks) {
      HeldElsewhere(s.tasks, i, s'.tasks[i], n);
    }
  }

  lemma ReleaseKeepsNonces(s: State, s': State, i: nat, n: nat)
    requires NoncesSafe(s) && OnlyTask(s, s', i) && s'.nonces == Release(s.nonces, n) && s'.confirmed == s.confirmed
    requires HeldNonce(s.tasks[i]) == Some(n) && HeldNonce(s'.tasks[i]).None? && s.tasks[i].phase.Releasing?
    ensures NoncesSafe(s')
  {
    forall m | m in s'.nonces.inFlight
      ensures m in HeldSet(s'.tasks) || (m == s'.nonces.current && m in s'.confirmed)
    {
      if m in HeldSet(s.tasks) {
        HeldElsewhere(s.tasks, i, s'.tasks[i], m);
      }
    }
  }

  lemma ConfirmKeepsNonces(s: State, s': State, i: nat, n: nat)
    requires NoncesSafe(s) && OnlyTask(s, s', i) && s'.nonces == Advance(s.nonces, n) && s'.confirmed == s.confirmed
    requires HeldNonce(s.tasks[i]) == Some(n) && HeldNonce(s'.tasks[i]).None? && n in s.confirmed
    ensures NoncesSafe(s')
  {
    forall m | m in s'.nonces.inFlight
      ensures m in HeldSet(s'.tasks) || (m == s'.nonces.current && m in s'.confirmed)
    {
      if m in HeldSet(s.tasks) && m != n {
        HeldElsewhere(s.tasks, i, s'.tasks[i], m);
      }
    }
  }

  lemma SyncKeepsNonces(s: State, s': State, onChain: nat)
    requires NoncesSafe(s) && s'.nonces == Advance(s.nonces, onChain)
    requires s'.tasks == s.tasks && s'.confirmed == s.confirmed
    ensures NoncesSafe(s')
  {
  }

  lemma PopKeepsNonces(s: State, s': State, t: Task)
    requires NoncesSafe(s) && s'.tasks == s.tasks + [t] && HeldNonce(t).None?
    requires s'.nonces == s.nonces && s'.confirmed == s.confirmed
    ensures NoncesSafe(s')
  {
    forall n | n in HeldSet(s.tasks)
      ensures n in HeldSet(s'.tasks)
    {
      HeldSetAppend(s.tasks, t, n);
    }
  }

  /** In the Ethereum adapter, a task in the middle of confirming holds a confirmed nonce. */
  ghost predicate ConfirmingIsConfirmed(s: State) {
    forall i :: 0 <= i < |s.tasks| && s.tasks[i].phase.Confirming? ==> s.tasks[i].phase.nonce in s.confirmed
  }

  predicate MovesNonce(l: TaskLabel) {
    l.TakeNonce? || l.ReleaseNonce? || l.ConfirmNonce?
  }

  /** A step that does not touch the nonce manager leaves the task holding what it held. */
  lemma QuietTaskHolds(s: State, t: Task, l: TaskLabel)
    requires EthTask(t) && TaskEnabled(EthRetry, t, l) && !MovesNonce(l)
    ensures var t' := NextTask(EthRetry, s, t, l);
            && HeldNonce(t') == HeldNonce(t)
            && (t.phase.Confirming? ==> t'.phase.Confirming? || HeldNonce(t).None?)
            && (l.SendConfirmed? ==> t'.phase.Confirming? && HeldNonce(t) == Some(t.phase.nonce))
  {
    if l.SendDropped? || l.SendReverted? {
      DropResubmitsOrQuits(t);
    }
  }

  lemma TaskStepKeepsNonces(s: State, i: nat, l: TaskLabel)
    requires NoncesSafe(s) && ConfirmingIsConfirmed(s)
    requires i < |s.tasks| && EthTask(s.tasks[i]) && TaskEnabled(EthRetry, s.tasks[i], l)
    ensures NoncesSafe(TaskStep(EthRetry, s, i, l))
  {
    var t := s.tasks[i];
    var s' := TaskStep(EthRetry, s, i, l);
    TaskStepShape(EthRetry, s, i, l);
    if l.TakeNonce? {
      TakeKeepsNonces(s, s', i);
    } else if l.ReleaseNonce? {
      ReleaseKeepsNonces(s, s', i, t.phase.nonce);
    } else if l.ConfirmNonce? {
      ConfirmKeepsNonces(s, s', i, t.phase.nonce);
    } else {
      QuietTaskHolds(s, t, l);
      QuietStepKeepsNonces(s, s', i);
    }
  }

  lemma TaskStepConfirms(s: State, i: nat, l: TaskLabel)
    requires i < |s.tasks| && TaskEnabled(EthRetry, s.tasks[i], l)
    requires s.tasks[i].phase.Confirming? ==> s.tasks[i].phase.nonce in s.confirmed
    ensures var s' := TaskStep(EthRetry, s, i, l);
            && s.confirmed <= s'.confirmed
            && (s'.tasks[i].phase.Confirming? ==> s'.tasks[i].phase.nonce in s'.confirmed)
  {
  }

  lemma StepKeepsConfirming(s: State, l: Label)
    requires ConfirmingIsConfirmed(s) && Enabled(EthRetry, s, l)
    ensures ConfirmingIsConfirmed(Step(EthRetry, s, l))
    ensures s.confirmed <= Step(EthRetry, s, l).confirmed
  {
    if l.OfTask? {
      TaskStepShape(EthRetry, s, l.i, l.step);
      TaskStepConfirms(s, l.i, l.step);
    } else {
      var s' := Step(EthRetry, s, l);
      assert s'.confirmed == s.confirmed;
      assert forall i :: 0 <= i < |s'.tasks| && s'.tasks[i].phase.Confirming? ==> i < |s.tasks| && s'.tasks[i] == s.tasks[i];
    }
  }

  lemma StepKeepsNonces(s: State, l: Label)
    requires NoncesSafe(s) && ConfirmingIsConfirmed(s) && EthTasks(s) && Enabled(EthRetry, s, l)
    ensures NoncesSafe(Step(EthRetry, s, l))
  {
    var s' := Step(EthRetry, s, l);
    if l.OfTask? {
      TaskStepKeepsNonces(s, l.i, l.step);
    } else if l.PopNext? {
      PopKeepsNonces(s, s', s'.tasks[|s.tasks|]);
    } else if l.SyncSucceeds? {
      SyncKeepsNonces(s, s', l.onChain);
    } else {
      SyncKeepsNonces(s, s', 0);
    }
  }

  // ----- Every run -----

  ghost predicate EthSafe(s: State) {
    Conserved(s) && EthTasks(s) && ConfirmingIsConfirmed(s) && NoncesSafe(s)
  }

  lemma {:induction false} ReachableEthSafe(onChain: nat, states: seq<State>, labels: seq<Label>, k: nat)
    requires IsRun(EthRetry, onChain, states, labels) && k <= |labels|
    ensures EthSafe(states[k])
  {
    ReachableConserved(EthRetry, onChain, states, labels, k);
    if k == 0 {
    } else {
      ReachableEthSafe(onChain, states, labels, k - 1);
      StepKeepsEthTasks(states[k - 1], labels[k - 1]);
      StepKeepsConfirming(states[k - 1], labels[k - 1]);
      StepKeepsNonces(states[k - 1], labels[k - 1]);
    }
  }

  lemma ReachableEthTask(onChain: nat, states: seq<State>, labels: seq<Label>, k: nat, i: nat)
    requires IsRun(EthRetry, onChain, states, labels) && k <= |labels| && i < |states[k].tasks|
    ensures EthTask(states[k].tasks[i])
  {
    ReachableEthSafe(onChain, states, labels, k);
  }

  /** No two tasks ever hold the same nonce. */
  lemma NoSharedNonce(onChain: nat, states: seq<State>, labels: seq<Label>, k: nat, i: nat, j: nat)
    requires IsRun(EthRetry, onChain, states, labels) && k <= |labels|
    requires i < |states[k].tasks| && j < |states[k].tasks| && i != j
    requires HeldNonce(states[k].tasks[i]).Some? && HeldNonce(states[k].tasks[j]).Some?
    ensures HeldNonce(states[k].tasks[i]) != HeldNonce(states[k].tasks[j])
  {
    ReachableEthSafe(onChain, states, labels, k);
  }

  lemma {:induction false} ConfirmedStays(onChain: nat, states: seq<State>, labels: seq<Label>, k: nat, j: nat)
    requires IsRun(EthRetry, onChain, states, labels) && k <= j <= |labels|
    ensures states[k].confirmed <= states[j].confirmed
    decreases j - k
  {
    if k == j {
    } else {
      ConfirmedStays(onChain, states, labels, k, j - 1);
      ReachableEthSafe(onChain, states, labels, j - 1);
      StepKeepsConfirming(states[j - 1], labels[j - 1]);
    }
  }

  /** Once a transaction with nonce n is reported confirmed, no task is ever given n again. */
  lemma ConfirmedNonceNeverReissued(onChain: nat, states: seq<State>, labels: seq<Label>, k: nat, j: nat, i: nat, n: nat)
    requires IsRun(EthRetry, onChain, states, labels) && k <= j < |labels|
    requires n in states[k].confirmed && labels[j] == OfTask(i, TakeNonce)
    ensures HeldNonce(states[j + 1].tasks[i]).Some? && HeldNonce(states[j + 1].tasks[i]).value != n
  {
    ConfirmedStays(onChain, states, labels, k, j);
    ReachableEthSafe(onChain, states, labels, j);
    assert states[j + 1] == Step(EthRetry, states[j], labels[j]);
    assert Reserved(states[j].nonces, n);
  }

  lemma DropSpends(s: State, i: nat, d: RetryDecision)
    requires i < |s.tasks| && TaskOk(s, s.tasks[i]) && EthTask(s.tasks[i]) && s.tasks[i].phase.Sending?
    requires MayDecide(EthRetry, s.tasks[i], d)
    ensures var t := s.tasks[i];
            && t.id < |s.added|
            && SendCount(s.log, t.id) <= Budget(s.added[t.id].retryCount)
            && (AfterDrop(EthRetry, t, d).phase.Ready? <==> SendCount(s.log, t.id) < Budget(s.added[t.id].retryCount))
  {
    DropOutcome(s.tasks[i], d);
  }

  /** In every run, a dropped or reverted transaction is sent again if and only if its message has been sent fewer than
      max(1, 3 - r) times, for r the retries counted when it was added: the budget is always used up. */
  lemma ResentIffBudgetLeft(onChain: nat, states: seq<State>, labels: seq<Label>, k: nat, i: nat, d: RetryDecision)
    requires IsRun(EthRetry, onChain, states, labels) && k < |labels|
    requires labels[k] == OfTask(i, SendDropped(d)) || labels[k] == OfTask(i, SendReverted(d))
    ensures i < |states[k].tasks| && i < |states[k + 1].tasks| && states[k].tasks[i].id < |states[k].added|
    ensures var id := states[k].tasks[i].id;
            states[k + 1].tasks[i].phase.Ready? <==>
              SendCount(states[k].log, id) < Max(1, SaturatingSub(3, states[k].added[id].retryCount))
  {
    RunStep(EthRetry, onChain, states, labels, k);
    ReachableEthTask(onChain, states, labels, k, i);
    ReachableTaskOk(EthRetry, onChain, states, labels, k, i);
    DropSpends(states[k], i, d);
    DropStepIs(states[k], i, d, labels[k].step);
  }

  // ----- When a nonce is handed out again -----

  /** Held by a task or reported confirmed. A nonce reported reverted and then released is neither. */
  ghost predicate Busy(s: State, n: nat) {
    n in HeldSet(s.tasks) || n in s.confirmed
  }

  lemma BusyIsReserved(s: State, n: nat)
    requires NoncesSafe(s) && Busy(s, n)
    ensures Reserved(s.nonces, n)
  {
    if n in HeldSet(s.tasks) {
      var i :| 0 <= i < |s.tasks| && HeldNonce(s.tasks[i]).Some? && HeldNonce(s.tasks[i]).value == n;
      assert Reserved(s.nonces, HeldNonce(s.tasks[i]).value);
    }
  }

  /** From the baseline on, exactly the busy nonces are in flight. */
  lemma InFlightIffBusy(s: State, n: nat)
    requires NoncesSafe(s) && n >= s.nonces.current
    ensures n in s.nonces.inFlight <==> Busy(s, n)
  {
    if Busy(s, n) {
      BusyIsReserved(s, n);
    }
  }

  /** `n` is the next nonce to be handed out. */
  ghost predicate NextInLine(s: State, n: nat) {
    s.nonces.current <= n && !Busy(s, n) && forall m :: s.nonces.current <= m < n ==> Busy(s, m)
  }

  lemma NextNonceIff(s: State, n: nat)
    requires NoncesSafe(s)
    ensures NextNonce(s.nonces) == n <==> NextInLine(s, n)
  {
    forall m: nat | m >= s.nonces.current
      ensures m in s.nonces.inFlight <==> Busy(s, m)
    {
      InFlightIffBusy(s, m);
    }
    if NextInLine(s, n) {
      FirstFreeIsUnique(NextNonce(s.nonces), n, s.nonces.current, s.nonces.inFlight);
    }
  }

  lemma TakeStepIssues(s: State, i: nat)
    requires Enabled(EthRetry, s, OfTask(i, TakeNonce))
    ensures HeldNonce(Step(EthRetry, s, OfTask(i, TakeNonce)).tasks[i]) == Some(NextNonce(s.nonces))
  {
  }

  lemma ReachableNoncesSafe(onChain: nat, states: seq<State>, labels: seq<Label>, k: nat)
    requires IsRun(EthRetry, onChain, states, labels) && k <= |labels|
    ensures NoncesSafe(states[k])
  {
    ReachableEthSafe(onChain, states, labels, k);
  }

  /** Exactly which nonce a task is given, in every run: `n` if and only if the baseline has not passed it, no task
      holds it and it was not reported confirmed, while every nonce between the baseline and `n` is held or confirmed.
      That a transaction with nonce `n` was mined and reverted plays no part. */
  lemma IssuedIff(onChain: nat, states: seq<State>, labels: seq<Label>, k: nat, i: nat, n: nat)
    requires IsRun(EthRetry, onChain, states, labels) && k < |labels| && labels[k] == OfTask(i, TakeNonce)
    ensures i < |states[k + 1].tasks|
    ensures HeldNonce(states[k + 1].tasks[i]) == Some(n) <==> NextInLine(states[k], n)
  {
    RunStep(EthRetry, onChain, states, labels, k);
    ReachableNoncesSafe(onChain, states, labels, k);
    NextNonceIff(states[k], n);
    TakeStepIssues(states[k], i);
  }

  lemma StepKeepsBaseline(s: State, l: Label)
    requires Enabled(EthRetry, s, l)
    ensures s.nonces.current <= Step(EthRetry, s, l).nonces.current
  {
  }

  lemma {:induction false} BaselineGrows(onChain: nat, states: seq<State>, labels: seq<Label>, k: nat, j: nat)
    requires IsRun(EthRetry, onChain, states, labels) && k <= j <= |labels|
    ensures states[k].nonces.current <= states[j].nonces.current
    decreases j - k
  {
    if k < j {
      BaselineGrows(onChain, states, labels, k, j - 1);
      RunStep(EthRetry, onChain, states, labels, j - 1);
      StepKeepsBaseline(states[j - 1], labels[j - 1]);
    }
  }

  /** Once the baseline has passed a nonce, by a confirmation or by the node's own count, no task is ever given it. */
  lemma PassedNonceNeverIssued(onChain: nat, states: seq<State>, labels: seq<Label>, k: nat, j: nat, i: nat, n: nat)
    requires IsRun(EthRetry, onChain, states, labels) && k <= j < |labels| && labels[j] == OfTask(i, TakeNonce)
    requires n < states[k].nonces.current
    ensures i < |states[j + 1].tasks| && HeldNonce(states[j + 1].tasks[i]) != Some(n)
  {
    BaselineGrows(onChain, states, labels, k, j);
    IssuedIff(onChain, states, labels, j, i, n);
  }

  // ----- How many nonces are in flight -----

  /** At most 17 nonces are in flight, and all of them are held except possibly the confirmed baseline. */
  lemma InFlightBounded(onChain: nat, states: seq<State>, labels: seq<Label>, k: nat)
    requires IsRun(EthRetry, onChain, states, labels) && k <= |labels|
    ensures states[k].nonces.inFlight <= HeldSet(states[k].tasks) + {states[k].nonces.current}
    ensures |states[k].nonces.inFlight| <= 17
  {
    ReachableEthSafe(onChain, states, labels, k);
    InFlightSize(states[k]);
    HeldSetSize(states[k].tasks);
  }

  /** Every nonce handed out is the least free one, within 16 of the baseline; so the search terminates
      after at most 17 look-ups and cannot run past u64 for a baseline below 2^64 - 16. */
  lemma IssuedNonceInWindow(onChain: nat, states: seq<State>, labels: seq<Label>, k: nat, i: nat)
    requires IsRun(EthRetry, onChain, states, labels) && k < |labels| && labels[k] == OfTask(i, TakeNonce)
    ensures var nonces := states[k].nonces;
            var n := states[k + 1].tasks[i].phase.nonce;
            && IsFirstFree(n, nonces.current, nonces.inFlight)
            && nonces.current <= n <= nonces.current + 16
  {
    ReachableEthSafe(onChain, states, labels, k);
    var s := states[k];
    assert Enabled(EthRetry, s, labels[k]);
    assert states[k + 1] == Step(EthRetry, s, labels[k]);
    InFlightSize(s);
    HeldSetSizeBesides(s.tasks, i);
  }

  /** At most one nonce is taken, and it is released or confirmed once. */
  predicate SettlesOnce(t: Task) {
    && t.settled <= t.issued <= 1
    && (t.phase.Finished? ==> t.settled == t.issued)
    && (HeldNonce(t).Some? <==> t.issued == 1 && t.settled == 0)
    && (t.phase.Starting? || t.phase.AwaitingNonce? ==> t.issued == 0)
    && (t.phase.Releasing? ==> t.phase.times == 1)
  }

  lemma TaskStepSettlesOnce(s: State, t: Task, l: TaskLabel)
    requires SettlesOnce(t) && TaskEnabled(AnyStrategy, t, l)
    ensures SettlesOnce(NextTask(AnyStrategy, s, t, l))
  {
  }

  lemma StepSettlesOnce(s: State, l: Label, i: nat)
    requires Enabled(AnyStrategy, s, l) && i < |Step(AnyStrategy, s, l).tasks|
    requires i < |s.tasks| ==> SettlesOnce(s.tasks[i])
    ensures SettlesOnce(Step(AnyStrategy, s, l).tasks[i])
  {
    TaskAfterStep(AnyStrategy, s, l, i);
    if l.OfTask? && l.i == i {
      TaskStepSettlesOnce(s, s.tasks[i], l.step);
    }
  }

  ghost predicate AllSettleOnce(s: State) {
    forall i :: 0 <= i < |s.tasks| ==> SettlesOnce(s.tasks[i])
  }

  lemma StepKeepsSettling(s: State, l: Label)
    requires Enabled(AnyStrategy, s, l) && AllSettleOnce(s)
    ensures AllSettleOnce(Step(AnyStrategy, s, l))
  {
    forall i | 0 <= i < |Step(AnyStrategy, s, l).tasks|
      ensures SettlesOnce(Step(AnyStrategy, s, l).tasks[i])
    {
      StepSettlesOnce(s, l, i);
    }
  }

  lemma {:induction false} ReachableSettling(onChain: nat, states: seq<State>, labels: seq<Label>, k: nat)
    requires IsRun(AnyStrategy, onChain, states, labels) && k <= |labels|
    ensures AllSettleOnce(states[k])
  {
    if k > 0 {
      ReachableSettling(onChain, states, labels, k - 1);
      RunStep(AnyStrategy, onChain, states, labels, k - 1);
      StepKeepsSettling(states[k - 1], labels[k - 1]);
    }
  }

  /** In every run, for the Ethereum strategy and for any other that leaves the releasing to the sender: each task takes at
      most one nonce and settles it exactly once. When a task has ended, its release and confirm calls number exactly the
      nonces it took; fee errors, failed sends, drops and requeues included. */
  lemma NonceSettledOnce(strategy: Strategy, onChain: nat, states: seq<State>, labels: seq<Label>, k: nat, i: nat)
    requires IsRun(strategy, onChain, states, labels) && k <= |labels| && i < |states[k].tasks|
    ensures var t := states[k].tasks[i];
            && t.settled <= t.issued <= 1
            && (t.phase.Finished? ==> t.settled == t.issued)
            && (HeldNonce(t).Some? <==> t.issued == 1 && t.settled == 0)
  {
    match strategy
    case EthRetry => ReachableEthTask(onChain, states, labels, k, i);
    case AnyStrategy => ReachableSettling(onChain, states, labels, k);
  }

  /** The branches that would release a nonce twice are never taken: a dropped or reverted transaction is
      resubmitted at its own nonce with a bumped fee, or its message is out of retries. */
  lemma RequeueAndAbandonUnreachable(onChain: nat, states: seq<State>, labels: seq<Label>, k: nat, i: nat, d: RetryDecision)
    requires IsRun(EthRetry, onChain, states, labels) && k < |labels|
    requires labels[k] == OfTask(i, SendDropped(d)) || labels[k] == OfTask(i, SendReverted(d))
    ensures i < |states[k].tasks| && i < |states[k + 1].tasks| && states[k].tasks[i].phase.Sending?
    ensures ResubmitsOrQuits(states[k].tasks[i], states[k + 1].tasks[i], d)
  {
    RunStep(EthRetry, onChain, states, labels, k);
    ReachableEthTask(onChain, states, labels, k, i);
    DropStep(states[k], i, d, labels[k].step);
  }
}
