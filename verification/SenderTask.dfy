/** `process_message` and `send_and_watch` as they update their variables and the shared managers, while everything
    else goes on around them. Between any two guarded sections of the code, other tasks, callers and the `run` loop
    take whatever steps a schedule says; each guarded section is matched by one step of the transition system. */
module SenderTask {
  import opened Prelude
  import opened Messages
  import opened Nonces
  import opened GasPrices
  import opened EthAdapter
  import opened SenderModel

  datatype Outcome = Confirmed | Dropped | Reverted | Failed

  /** What one pass of the send loop gets from outside: the clock before the send and before a requeue, the outcome,
      the time it took, and where the joined nonce confirmation falls: before, between or after the fee updates. */
  datatype Pass = Pass(now: U64, later: U64, outcome: Outcome, elapsed: nat, turn: nat)

  /** The state after a sequence of steps, if they are all possible. */
  ghost function Exec(s: State, labels: seq<Label>): Option<State> {
    if labels == [] then Some(s)
    else
      var before := Exec(s, labels[..|labels| - 1]);
      var l := labels[|labels| - 1];
      if before.Some? && Enabled(EthRetry, before.value, l) then Some(Step(EthRetry, before.value, l)) else None
  }

  lemma ExecMore(s: State, labels: seq<Label>, now: State, l: Label)
    requires Exec(s, labels) == Some(now) && Enabled(EthRetry, now, l)
    ensures Exec(s, labels + [l]) == Some(Step(EthRetry, now, l))
  {
    assert (labels + [l])[..|labels|] == labels;
  }

  /** Steps taken from a state of a run continue the run, so what holds of every run holds of the code below. */
  lemma {:induction false} ExecExtendsRun(onChain: nat, states: seq<State>, labels: seq<Label>, more: seq<Label>)
    returns (states': seq<State>)
    requires IsRun(EthRetry, onChain, states, labels) && Exec(states[|labels|], more).Some?
    ensures IsRun(EthRetry, onChain, states', labels + more)
    ensures states'[|labels + more|] == Exec(states[|labels|], more).value
  {
    if more == [] {
      assert labels + more == labels;
      states' := states;
    } else {
      var front, l := more[..|more| - 1], more[|more| - 1];
      states' := ExecExtendsRun(onChain, states, labels, front);
      ExtendRun(EthRetry, onChain, states', labels + front, l);
      assert labels + more == (labels + front) + [l];
      states' := states' + [Step(EthRetry, states'[|labels + front|], l)];
    }
  }

  predicate ByOthers(i: nat, l: Label) {
    !(l.OfTask? && l.i == i)
  }

  /** The steps of the others never touch task `i`. */
  lemma OthersKeepTask(s: State, i: nat, l: Label)
    requires i < |s.tasks| && Enabled(EthRetry, s, l) && ByOthers(i, l)
    ensures var s' := Step(EthRetry, s, l); i < |s'.tasks| && s'.tasks[i] == s.tasks[i]
  {
  }

  class Sender {
    const nonces: NonceManager
    const gas: GasPriceManager
    var queue: seq<Entry>
    var notified: bool

    /** The state of the transition system, and how it came about. */
    var world: State
    ghost var start: State
    ghost var trace: seq<Label>

    /** What the others do at each suspension point. */
    const schedule: nat -> seq<Label>
    var tick: nat

    constructor (nonces: NonceManager, gas: GasPriceManager, world: State, schedule: nat -> seq<Label>)
      requires nonces.State() == world.nonces && gas.State() == world.gas
      ensures Valid() && this.world == world == start && trace == []
      ensures this.nonces == nonces && this.gas == gas && this.schedule == schedule
    {
      this.nonces, this.gas, this.schedule, tick := nonces, gas, schedule, 0;
      queue, notified := world.queue, world.notified;
      this.world, start, trace := world, world, [];
    }

    /** The managers and the queue are as in `s`. */
    ghost predicate Mirrors(s: State)
      reads this, nonces, gas
    {
      s.nonces == nonces.State() && s.gas == gas.State() && s.queue == queue && s.notified == notified
    }

    /** The real objects agree with the transition system, which has run from `start` along `trace`. */
    ghost predicate Valid()
      reads this, nonces, gas
    {
      Exec(start, trace) == Some(world) && Mirrors(world)
    }

    /** A suspension point of task `i`. */
    method Yield(i: nat)
      requires Valid() && i < |world.tasks|
      modifies this`world, this`trace, this`tick, this`queue, this`notified, nonces, gas
      ensures old(trace) <= trace
      ensures Valid() && i < |world.tasks| && world.tasks[i] == old(world.tasks[i])
    {
      var others := schedule(tick);
      tick := tick + 1;
      for n := 0 to |others|
        invariant Valid() && i < |world.tasks| && world.tasks[i] == old(world.tasks[i]) && old(trace) <= trace
      {
        if Enabled(EthRetry, world, others[n]) && ByOthers(i, others[n]) {
          OtherStep(i, others[n]);
        }
      }
    }

    method OtherStep(i: nat, l: Label)
      requires Valid() && i < |world.tasks| && Enabled(EthRetry, world, l) && ByOthers(i, l)
      modifies this`world, this`trace, this`queue, this`notified, nonces, gas
      ensures old(trace) <= trace
      ensures Valid() && i < |world.tasks| && world.tasks[i] == old(world.tasks[i])
    {
      OthersKeepTask(world, i, l);
      ExecMore(start, trace, world, l);
      world, trace := Step(EthRetry, world, l), trace + [l];
      nonces.current, nonces.inFlight := world.nonces.current, world.nonces.inFlight;
      gas.priorityFee, gas.confirmationTimes := world.gas.estimate, world.gas.window;
      queue, notified := world.queue, world.notified;
    }

    /** Task `i` has just done what the step `l` says: the transition system follows. */
    method Follow(i: nat, l: TaskLabel)
      requires Exec(start, trace) == Some(world) && i < |world.tasks| && TaskEnabled(EthRetry, world.tasks[i], l)
      requires Mirrors(TaskStep(EthRetry, world, i, l))
      modifies this`world, this`trace
      ensures trace == old(trace) + [OfTask(i, l)]
      ensures Valid() && world == TaskStep(EthRetry, old(world), i, l) && i < |world.tasks|
    {
      ExecMore(start, trace, world, OfTask(i, l));
      world := TaskStep(EthRetry, world, i, l);
      trace := trace + [OfTask(i, l)];
    }

    /** Task `i` of the transition system is finished and the real objects agree with it. */
    ghost predicate Ended(i: nat)
      reads this, nonces, gas
    {
      Valid() && i < |world.tasks| && world.tasks[i].phase.Finished?
    }

    /** The release before every early return. */
    method ReleaseAndQuit(i: nat, nonce: nat)
      requires Valid() && i < |world.tasks| && world.tasks[i].phase == Releasing(nonce, 1, ThenQuit)
      modifies this`world, this`trace, this`tick, this`queue, this`notified, nonces, gas
      ensures old(trace) <= trace
      ensures Ended(i)
    {
      Yield(i);
      nonces.MarkNonceAvailable(nonce);
      Follow(i, ReleaseNonce);
    }

    /** `add_message` by a caller: the message is queued under its priority of this moment and a notification is left. */
    method AddMessage(msg: Message, now: U64)
      requires Valid()
      modifies this`world, this`trace, this`queue, this`notified
      ensures old(trace) <= trace
      ensures Valid() && notified
      ensures queue == old(queue) + [Entry(|old(world.added)|, msg, 0, EffectivePriority(msg, now))]
      ensures world.added == old(world.added) + [msg] && world.tasks == old(world.tasks)
    {
      queue := queue + [Entry(|world.added|, msg, 0, EffectivePriority(msg, now))];
      ExecMore(start, trace, world, AddPush(msg, now));
      world, trace := Step(EthRetry, world, AddPush(msg, now)), trace + [AddPush(msg, now)];
      notified := true;
      ExecMore(start, trace, world, AddNotify);
      world, trace := Step(EthRetry, world, AddNotify), trace + [AddNotify];
    }

    /** `add_message` by a task that puts its message back. */
    method AddMessageAgain(i: nat, msg: Message, clock: U64)
      requires Valid() && i < |world.tasks| && world.tasks[i].phase == Pushing && world.tasks[i].msg == msg
      modifies this`world, this`trace, this`tick, this`queue, this`notified, nonces, gas
      ensures old(trace) <= trace
      ensures Ended(i)
    {
      Yield(i);
      queue := queue + [Entry(world.tasks[i].id, msg, world.tasks[i].sends, EffectivePriority(msg, clock))];
      Follow(i, PushAgain(clock));
      NotifyAndQuit(i);
    }

    method NotifyAndQuit(i: nat)
      requires Valid() && i < |world.tasks| && world.tasks[i].phase == Notifying
      modifies this`world, this`trace, this`tick, this`queue, this`notified, nonces, gas
      ensures old(trace) <= trace
      ensures Ended(i)
    {
      Yield(i);
      notified := true;
      Follow(i, NotifyAgain);
    }

    /** The release and second `add_message` of a requeued message. */
    method ReleaseAndRequeue(i: nat, msg: Message, nonce: nat, clock: U64)
      requires Valid() && i < |world.tasks| && world.tasks[i].phase == Releasing(nonce, 1, ThenRequeue)
      requires world.tasks[i].msg == msg
      modifies this`world, this`trace, this`tick, this`queue, this`notified, nonces, gas
      ensures old(trace) <= trace
      ensures Ended(i)
    {
      Yield(i);
      nonces.MarkNonceAvailable(nonce);
      Follow(i, ReleaseNonce);
      AddMessageAgain(i, msg, clock);
    }

    /** `confirm_nonce`: the baseline moves to the nonce itself. */
    method ConfirmOwnNonce(i: nat, nonce: nat)
      requires Valid() && i < |world.tasks| && world.tasks[i].phase.Confirming?
      requires world.tasks[i].phase.nonce == nonce && !world.tasks[i].phase.nonceDone
      modifies this`world, this`trace, this`tick, this`queue, this`notified, nonces, gas
      ensures old(trace) <= trace
      ensures Valid() && i < |world.tasks|
      ensures world.tasks[i].phase == old(world.tasks[i].phase).(nonceDone := true)
    {
      Yield(i);
      nonces.UpdateCurrentNonce(nonce);
      Follow(i, ConfirmNonce);
    }

    method SampleConfirmation(i: nat, elapsed: nat)
      requires Valid() && i < |world.tasks| && world.tasks[i].phase.Confirming? && !world.tasks[i].phase.sampled
      modifies this`world, this`trace, this`tick, this`queue, this`notified, nonces, gas
      ensures old(trace) <= trace
      ensures Valid() && i < |world.tasks|
      ensures world.tasks[i].phase == old(world.tasks[i].phase).(sampled := true)
    {
      Yield(i);
      gas.RecordSample(elapsed);
      Follow(i, RecordSample(elapsed));
    }

    method BlendConfirmation(i: nat, fee: EthFee)
      requires Valid() && i < |world.tasks| && world.tasks[i].phase.Confirming? && world.tasks[i].phase.fee == fee
      requires world.tasks[i].phase.sampled && !world.tasks[i].phase.blended
      modifies this`world, this`trace, this`tick, this`queue, this`notified, nonces, gas
      ensures old(trace) <= trace
      ensures Valid() && i < |world.tasks|
      ensures world.tasks[i].phase == old(world.tasks[i].phase).(blended := true)
    {
      Yield(i);
      gas.BlendFee(fee.priorityFee);
      Follow(i, BlendEstimate);
    }

    /** The two joined futures of `handle_confirmed`, in any order. */
    method UpdateManagers(i: nat, fee: EthFee, nonce: nat, elapsed: nat, turn: nat)
      requires Valid() && i < |world.tasks| && world.tasks[i].phase == Confirming(nonce, fee, false, false, false)
      modifies this`world, this`trace, this`tick, this`queue, this`notified, nonces, gas
      ensures old(trace) <= trace
      ensures Valid() && i < |world.tasks| && world.tasks[i].phase == Confirming(nonce, fee, true, true, true)
    {
      if turn == 0 {
        ConfirmOwnNonce(i, nonce);
      }
      SampleConfirmation(i, elapsed);
      if turn == 1 {
        ConfirmOwnNonce(i, nonce);
      }
      BlendConfirmation(i, fee);
      if turn > 1 {
        ConfirmOwnNonce(i, nonce);
      }
    }

    /** `handle_confirmed` and the return after it. */
    method ConfirmAndQuit(i: nat, fee: EthFee, nonce: nat, elapsed: nat, turn: nat)
      requires Valid() && i < |world.tasks| && world.tasks[i].phase.Sending?
      requires world.tasks[i].phase.nonce == nonce && world.tasks[i].phase.fee == fee
      modifies this`world, this`trace, this`tick, this`queue, this`notified, nonces, gas
      ensures old(trace) <= trace
      ensures Ended(i)
    {
      Follow(i, SendConfirmed);
      UpdateManagers(i, fee, nonce, elapsed, turn);
      Follow(i, ConfirmReturns);
    }

    /** A release that is not the last. */
    method ReleaseOnce(i: nat, nonce: nat)
      requires Valid() && i < |world.tasks| && world.tasks[i].phase.Releasing?
      requires world.tasks[i].phase.nonce == nonce && world.tasks[i].phase.times == 2
      modifies this`world, this`trace, this`tick, this`queue, this`notified, nonces, gas
      ensures old(trace) <= trace
      ensures Valid() && i < |world.tasks| && world.tasks[i].msg == old(world.tasks[i].msg)
      ensures world.tasks[i].phase == old(world.tasks[i].phase).(times := 1)
    {
      Yield(i);
      nonces.MarkNonceAvailable(nonce);
      Follow(i, ReleaseNonce);
    }

    /** `EthRetryStrategy::handle_dropped`: `msg` is the copy taken before the retry was counted. Before `Requeue` and
        `Abandon` it releases the nonce itself, and leaves the task one more release to make. */
    method HandleDropped(i: nat, msg: Message, fee: EthFee, nonce: nat, replacements: nat) returns (decision: RetryDecision)
      requires Valid() && i < |world.tasks|
      requires EthDecision(msg, fee, nonce, replacements).Requeue? ==> world.tasks[i].phase == Releasing(nonce, 2, ThenRequeue)
      requires EthDecision(msg, fee, nonce, replacements).Abandon? ==> world.tasks[i].phase == Releasing(nonce, 2, ThenQuit)
      modifies this`world, this`trace, this`tick, this`queue, this`notified, nonces, gas
      ensures old(trace) <= trace
      ensures decision == EthDecision(msg, fee, nonce, replacements)
      ensures Valid() && i < |world.tasks| && world.tasks[i].msg == old(world.tasks[i].msg)
      ensures decision.Resubmit? ==> world.tasks[i] == old(world.tasks[i])
      ensures !decision.Resubmit? ==> world.tasks[i].phase == old(world.tasks[i].phase).(times := 1)
    {
      if !CanRetry(msg) {
        ReleaseOnce(i, nonce);
        return Abandon;
      }
      if replacements >= MAX_REPLACEMENTS {
        ReleaseOnce(i, nonce);
        return Requeue;
      }
      return Resubmit(BumpFee(fee), nonce);
    }

    /** `increment_retry` on a dropped or reverted transaction. */
    method CountRetry(i: nat, msg: Message, fee: EthFee, nonce: nat, replacements: nat, reverted: bool)
      returns (msg': Message, again: bool)
      requires Valid() && i < |world.tasks|
      requires world.tasks[i].phase == Sending(nonce, fee, replacements) && world.tasks[i].msg == msg
      modifies this`world, this`trace
      ensures old(trace) <= trace
      ensures Valid() && i < |world.tasks| && world.tasks[i].msg == msg' && (msg', again) == IncrementRetry(msg)
      ensures var decision := EthDecision(msg, fee, nonce, replacements);
              world.tasks[i].phase ==
                if !again then Releasing(nonce, 1, ThenQuit)
                else match decision
                     case Resubmit(fee', nonce') => Ready(nonce', fee', replacements + 1)
                     case Requeue => Releasing(nonce, 2, ThenRequeue)
                     case Abandon => Releasing(nonce, 2, ThenQuit)
    {
      var decision := EthDecision(msg, fee, nonce, replacements);
      Follow(i, if reverted then SendReverted(decision) else SendDropped(decision));
      var (bumped, more) := IncrementRetry(msg);
      return bumped, more;
    }

    /** A dropped or reverted transaction: the retry is counted, then the strategy decides. */
    method CountRetryAndDecide(i: nat, msg: Message, fee: EthFee, nonce: nat, replacements: nat, clock: U64, reverted: bool)
      returns (msg': Message, decision: RetryDecision)
      requires Valid() && i < |world.tasks|
      requires world.tasks[i].phase == Sending(nonce, fee, replacements) && world.tasks[i].msg == msg
      modifies this`world, this`trace, this`tick, this`queue, this`notified, nonces, gas
      ensures old(trace) <= trace
      ensures decision.Resubmit? ==>
                && Valid() && i < |world.tasks|
                && world.tasks[i].phase == Ready(decision.nonce, decision.fee, replacements + 1) && world.tasks[i].msg == msg'
                && msg.retryCount < msg'.retryCount < MAX_RETRIES
      ensures !decision.Resubmit? ==> Ended(i)
    {
      var again;
      msg', again := CountRetry(i, msg, fee, nonce, replacements, reverted);
      if !again {
        ReleaseAndQuit(i, nonce);
        return msg', Abandon;
      }
      decision := HandleDropped(i, msg, fee, nonce, replacements);
      match decision {
        case Resubmit(_, _) =>
        case Requeue => ReleaseAndRequeue(i, msg', nonce, clock);
        case Abandon => assert false;  // a message that may be tried again could be tried before
      }
    }

    /** The expiry check before a send. */
    method CheckExpiry(i: nat, msg: Message, fee: EthFee, nonce: nat, replacements: nat, now: U64) returns (expired: bool)
      requires Valid() && i < |world.tasks|
      requires world.tasks[i].msg == msg && world.tasks[i].phase == Ready(nonce, fee, replacements)
      modifies this`world, this`trace, this`tick, this`queue, this`notified, nonces, gas
      ensures old(trace) <= trace
      ensures expired == IsExpired(msg, now)
      ensures expired ==> Ended(i)
      ensures !expired ==> Valid() && i < |world.tasks| && world.tasks[i].msg == msg && world.tasks[i].phase == Sending(nonce, fee, replacements)
    {
      Follow(i, CheckSend(now));
      expired := IsExpired(msg, now);
      if expired {
        ReleaseAndQuit(i, nonce);
      }
    }

    /** `send_transaction` returned an error. */
    method FailAndQuit(i: nat, nonce: nat)
      requires Valid() && i < |world.tasks| && world.tasks[i].phase.Sending? && world.tasks[i].phase.nonce == nonce
      modifies this`world, this`trace, this`tick, this`queue, this`notified, nonces, gas
      ensures old(trace) <= trace
      ensures Ended(i)
    {
      Follow(i, SendFails);
      ReleaseAndQuit(i, nonce);
    }

    /** The send loop. It ends, and all it does to the shared state, whatever the others do meanwhile, continues the run
        so far and finishes the task. */
    method SendAndWatch(i: nat, startMsg: Message, startFee: EthFee, startNonce: nat, env: nat -> Pass)
      requires Valid() && i < |world.tasks|
      requires world.tasks[i].msg == startMsg && world.tasks[i].phase == Ready(startNonce, startFee, 0)
      modifies this`world, this`trace, this`tick, this`queue, this`notified, nonces, gas
      ensures old(trace) <= trace
      ensures Ended(i)
    {
      var msg, fee, nonce, replacements := startMsg, startFee, startNonce, 0;
      var n := 0;
      while true
        invariant Valid() && i < |world.tasks| && old(trace) <= trace
        invariant world.tasks[i].msg == msg && world.tasks[i].phase == Ready(nonce, fee, replacements)
        decreases MAX_RETRIES - msg.retryCount
      {
        var pass := env(n);
        n := n + 1;
        var expired := CheckExpiry(i, msg, fee, nonce, replacements, pass.now);
        if expired {
          return;
        }
        Yield(i);
        if pass.outcome == Failed {
          FailAndQuit(i, nonce);
          return;
        }
        if pass.outcome == Confirmed {
          ConfirmAndQuit(i, fee, nonce, pass.elapsed, pass.turn);
          return;
        }
        var decision;
        msg, decision := CountRetryAndDecide(i, msg, fee, nonce, replacements, pass.later, pass.outcome == Reverted);
        if !decision.Resubmit? {
          return;
        }
        fee, nonce, replacements := decision.fee, decision.nonce, replacements + 1;
      }
    }

    /** `next`: the least free nonce is reserved for task `i`. */
    method AcquireNonce(i: nat, priority: nat) returns (nonce: nat)
      requires Valid() && i < |world.tasks| && world.tasks[i].phase == AwaitingNonce(priority)
      modifies this`world, this`trace, this`tick, this`queue, this`notified, nonces, gas
      ensures old(trace) <= trace
      ensures Valid() && i < |world.tasks|
      ensures world.tasks[i].phase == AwaitingEstimate(nonce, priority) && world.tasks[i].msg == old(world.tasks[i].msg)
      ensures trace != [] && trace[|trace| - 1] == OfTask(i, TakeNonce)
    {
      Yield(i);
      ghost var before := nonces.State();
      nonce := nonces.GetNextAvailableNonce();
      FirstFreeIsUnique(nonce, NextNonce(before), before.current, before.inFlight);
      Follow(i, TakeNonce);
    }

    /** Nonce and quote, from three guarded sections. */
    method Quote(i: nat, priority: nat) returns (nonce: nat, fee: EthFee)
      requires Valid() && i < |world.tasks| && world.tasks[i].phase == AwaitingNonce(priority)
      modifies this`world, this`trace, this`tick, this`queue, this`notified, nonces, gas
      ensures old(trace) <= trace
      ensures Valid() && i < |world.tasks|
      ensures world.tasks[i].phase == Ready(nonce, fee, 0) && world.tasks[i].msg == old(world.tasks[i].msg)
    {
      nonce := AcquireNonce(i, priority);
      Yield(i);
      var estimate := gas.priorityFee;
      Follow(i, ReadEstimate);
      Yield(i);
      var level := gas.AnalyzeNetworkCongestion();
      fee := EthFee(INITIAL_BASE_FEE, PriorityFee(estimate, level, priority));
      Follow(i, ReadWindow);
    }

    /** A whole task: expiry check, nonce, fee and send loop. */
    method ProcessMessage(i: nat, msg: Message, now: U64, env: nat -> Pass)
      requires Valid() && i < |world.tasks| && world.tasks[i].msg == msg && world.tasks[i].phase == Starting
      modifies this`world, this`trace, this`tick, this`queue, this`notified, nonces, gas
      ensures old(trace) <= trace
      ensures Ended(i)
    {
      Follow(i, CheckStart(now));
      if IsExpired(msg, now) {
        return;
      }
      var nonce, fee := Quote(i, EffectivePriority(msg, now));
      SendAndWatch(i, msg, fee, nonce, env);
    }
  }
}
