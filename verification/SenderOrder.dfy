/** Which message is started, and what the clock decides about it, over every run and under any strategy. */
module SenderOrder {
  import opened Prelude
  import opened Messages
  import opened SenderModel
  import opened SenderConservation
  import opened SenderProgress

  // ----- Priority order -----

  /** The step puts `e` into the queue, under the priority its message has at that moment. */
  predicate Pushes(s: State, l: Label, e: Entry) {
    match l
    case AddPush(msg, now) => e.id == |s.added| && e.msg == msg && e.rank == EffectivePriority(msg, now)
    case OfTask(i, PushAgain(now)) =>
      i < |s.tasks| && e.id == s.tasks[i].id && e.msg == s.tasks[i].msg && e.rank == EffectivePriority(e.msg, now)
    case _ => false
  }

  /** One of the first `k` steps put `e` into the queue. */
  ghost predicate WasPushed(states: seq<State>, labels: seq<Label>, k: nat, e: Entry)
    requires k <= |labels| <= |states|
  {
    exists j :: 0 <= j < k && Pushes(states[j], labels[j], e)
  }

  lemma EntriesArePushed(strategy: Strategy, s: State, l: Label, e: Entry)
    requires Enabled(strategy, s, l) && e in Step(strategy, s, l).queue
    ensures e in s.queue || Pushes(s, l, e)
  {
  }

  lemma {:induction false} ReachableEntries(strategy: Strategy, onChain: nat, states: seq<State>, labels: seq<Label>, k: nat, e: Entry)
    requires IsRun(strategy, onChain, states, labels) && k <= |labels| && e in states[k].queue
    ensures WasPushed(states, labels, k, e)
  {
    if k > 0 {
      RunStep(strategy, onChain, states, labels, k - 1);
      EntriesArePushed(strategy, states[k - 1], labels[k - 1], e);
      if e in states[k - 1].queue {
        ReachableEntries(strategy, onChain, states, labels, k - 1, e);
      }
    }
  }

  /** In every run: the message that is started has the highest priority of all that are queued, each priority being that
      of the message at the moment it was pushed; so nothing is started while a message pushed under a strictly larger
      priority is queued. The one task added is that of the entry taken, and nothing else leaves the queue. */
  lemma StartsHighest(strategy: Strategy, onChain: nat, states: seq<State>, labels: seq<Label>, k: nat, q: nat)
    requires IsRun(strategy, onChain, states, labels) && k < |labels| && labels[k] == PopNext(q)
    ensures q < |states[k].queue|
    ensures forall e :: e in states[k].queue ==> e.rank <= states[k].queue[q].rank && WasPushed(states, labels, k, e)
    ensures var e := states[k].queue[q];
            && states[k + 1].tasks == states[k].tasks + [Task(e.id, e.msg, e.sends, 0, 0, Starting)]
            && multiset(states[k + 1].queue) == multiset(states[k].queue) - multiset{e}
  {
    RunStep(strategy, onChain, states, labels, k);
    var queue := states[k].queue;
    assert queue == queue[..q] + [queue[q]] + queue[q + 1..];
    forall e | e in queue
      ensures WasPushed(states, labels, k, e)
    {
      ReachableEntries(strategy, onChain, states, labels, k, e);
    }
  }

  // ----- Deadlines -----

  /** The deadline, counted from the creation of the message, has passed. */
  predicate PastDeadline(m: Message, now: U64) {
    m.deadlineMs.Some? && now >= m.createdAtMs + m.deadlineMs.value
  }

  lemma ExpiryIsPastDeadline(m: Message, original: Message, now: U64)
    requires Origin(m) == Origin(original) && DeadlineFits(original)
    ensures IsExpired(m, now) <==> PastDeadline(original, now)
  {
    ExpiryIgnoresRetries(m, now);
    ExpiryIgnoresRetries(original, now);
    ExpiresAtDeadline(original, now);
  }

  /** What the check before a send does: past the deadline, nothing is sent and the nonce is to be released; before it,
      the message is sent with the nonce and fee at hand. */
  predicate SendDecided(s: State, s': State, i: nat, now: U64, past: bool)
    requires i < |s.tasks| && s.tasks[i].phase.Ready?
  {
    var t := s.tasks[i];
    var (n, fee, r) := (t.phase.nonce, t.phase.fee, t.phase.replacements);
    && s'.log == (if past then s.log else s.log + [Sent(t.id, t.sends + 1, n, fee, now)])
    && s'.tasks == s.tasks[i := if past then t.(phase := Releasing(n, 1, ThenQuit))
                                else t.(sends := t.sends + 1, phase := Sending(n, fee, r))]
  }

  lemma SendStepDecides(strategy: Strategy, s: State, i: nat, now: U64)
    requires Enabled(strategy, s, OfTask(i, CheckSend(now)))
    ensures SendDecided(s, Step(strategy, s, OfTask(i, CheckSend(now))), i, now, IsExpired(s.tasks[i].msg, now))
  {
  }

  /** In every run, through retries and requeues: the check before a send lets a message through exactly before its
      deadline, counted from the creation of the message that was added. */
  lemma SentIffBeforeDeadline(strategy: Strategy, onChain: nat, states: seq<State>, labels: seq<Label>, k: nat, i: nat, now: U64)
    requires IsRun(strategy, onChain, states, labels) && k < |labels| && labels[k] == OfTask(i, CheckSend(now))
    ensures i < |states[k].tasks| && states[k].tasks[i].phase.Ready? && states[k].tasks[i].id < |states[k].added|
    ensures var original := states[k].added[states[k].tasks[i].id];
            DeadlineFits(original) ==> SendDecided(states[k], states[k + 1], i, now, PastDeadline(original, now))
  {
    RunStep(strategy, onChain, states, labels, k);
    ReachableTaskOk(strategy, onChain, states, labels, k, i);
    SendStepDecides(strategy, states[k], i, now);
    var original := states[k].added[states[k].tasks[i].id];
    if DeadlineFits(original) {
      ExpiryIsPastDeadline(states[k].tasks[i].msg, original, now);
    }
  }

  /** What the check at the start of a task does: past the deadline, the task ends without a nonce; before it, the task
      goes on to take one, with the priority its message has at that moment. */
  predicate StartDecided(s: State, s': State, i: nat, now: U64, past: bool)
    requires i < |s.tasks|
  {
    var t := s.tasks[i];
    && s'.nonces == s.nonces
    && s'.tasks == s.tasks[i := t.(phase := if past then Finished(false) else AwaitingNonce(EffectivePriority(t.msg, now)))]
  }

  lemma StartStepDecides(strategy: Strategy, s: State, i: nat, now: U64)
    requires Enabled(strategy, s, OfTask(i, CheckStart(now)))
    ensures StartDecided(s, Step(strategy, s, OfTask(i, CheckStart(now))), i, now, IsExpired(s.tasks[i].msg, now))
  {
  }

  lemma StartedIffBeforeDeadline(strategy: Strategy, onChain: nat, states: seq<State>, labels: seq<Label>, k: nat, i: nat, now: U64)
    requires IsRun(strategy, onChain, states, labels) && k < |labels| && labels[k] == OfTask(i, CheckStart(now))
    ensures i < |states[k].tasks| && states[k].tasks[i].id < |states[k].added|
    ensures var original := states[k].added[states[k].tasks[i].id];
            DeadlineFits(original) ==> StartDecided(states[k], states[k + 1], i, now, PastDeadline(original, now))
  {
    RunStep(strategy, onChain, states, labels, k);
    ReachableTaskOk(strategy, onChain, states, labels, k, i);
    StartStepDecides(strategy, states[k], i, now);
    var original := states[k].added[states[k].tasks[i].id];
    if DeadlineFits(original) {
      ExpiryIsPastDeadline(states[k].tasks[i].msg, original, now);
    }
  }

  /** In every run, over the whole log: every send of a message with a deadline was before that deadline. */
  lemma NeverSentPastDeadline(strategy: Strategy, onChain: nat, states: seq<State>, labels: seq<Label>, k: nat, j: nat)
    requires IsRun(strategy, onChain, states, labels) && k <= |labels| && j < |states[k].log|
    ensures states[k].log[j].id < |states[k].added|
    ensures var m := states[k].added[states[k].log[j].id];
            DeadlineFits(m) && m.deadlineMs.Some? ==> states[k].log[j].at < m.createdAtMs + m.deadlineMs.value
  {
    ExpiredIsNeverSent(strategy, onChain, states, labels, k, j);
    var m := states[k].added[states[k].log[j].id];
    ExpiresAtDeadline(m, states[k].log[j].at);
  }
}
