/** crates/bulkmail/src/sender.rs: `Sender` as a transition system. One `run` loop, any number of callers of
    `add_message` and the spawned tasks interleave; every lock acquisition, and every other point where a
    future may be suspended or cancelled, is a separate step. */
module SenderModel {
  import opened Prelude
  import opened Messages
  import opened Nonces
  import opened GasPrices
  import opened EthAdapter

  const MAX_IN_FLIGHT: nat := 16

  /** The Ethereum adapter, or an adapter about which nothing is known. */
  datatype Strategy = EthRetry | AnyStrategy

  /** A queued message, with the priority captured when it was pushed. `id` numbers the added messages;
      `sends` is how often this one has reached `send_transaction`. */
  datatype Entry = Entry(id: nat, msg: Message, sends: nat, rank: nat)

  /** Where the `run` loop is suspended. */
  datatype LoopPhase =
    | Acquiring   // process_next_message waits for a permit
    | HasPermit   // it holds a permit and waits for the queue lock
    | Sleeping    // the queue was empty, the permit is dropped, it waits to be notified
    | Syncing     // a block arrived, process_next_message was cancelled, the node is being queried
    | Stopped     // run has returned

  datatype Exit = ThenQuit | ThenRequeue

  /** Where a spawned task is suspended. */
  datatype Phase =
    | Starting
    | AwaitingNonce(priority: nat)
    | AwaitingEstimate(nonce: nat, priority: nat)
    | AwaitingWindow(nonce: nat, priority: nat, estimate: nat)
    | Ready(nonce: nat, fee: EthFee, replacements: nat)
    | Sending(nonce: nat, fee: EthFee, replacements: nat)
    | Confirming(nonce: nat, fee: EthFee, sampled: bool, blended: bool, nonceDone: bool)
    | Releasing(nonce: nat, times: nat, exit: Exit)
    | Pushing
    | Notifying
    | Finished(handedOff: bool)

  /** `issued` and `settled` count the nonces this task took and the release or confirm calls it made. */
  datatype Task = Task(id: nat, msg: Message, sends: nat, issued: nat, settled: nat, phase: Phase)

  /** One call of `send_transaction`: the message, which send of it this is, the nonce and fee, and the clock
      reading of the expiry check just before. */
  datatype Sent = Sent(id: nat, attempt: nat, nonce: nat, fee: EthFee, at: U64)

  datatype State = State(
    added: seq<Message>,      // every message given to add_message, in order
    queue: seq<Entry>,        // the heap, in no particular order
    unnotified: nat,          // add_message calls that have pushed and not yet notified
    notified: bool,           // the permit stored in message_ready
    permits: nat,             // free semaphore permits
    loop: LoopPhase,
    tasks: seq<Task>,         // every task spawned so far
    nonces: NonceState,
    gas: GasState,
    confirmed: set<nat>,      // nonces whose transaction was reported confirmed
    reverted: set<nat>,       // nonces whose transaction was reported mined but reverted
    log: seq<Sent>)

  function Initial(onChain: nat): State {
    State([], [], 0, false, MAX_IN_FLIGHT, Acquiring, [], NonceState(onChain, {}), INITIAL_GAS, {}, {}, [])
  }

  datatype TaskLabel =
    | CheckStart(now: U64)
    | TakeNonce
    | ReadEstimate
    | ReadWindow
    | FeeError
    | CheckSend(now: U64)
    | SendFails
    | SendConfirmed
    | SendDropped(decision: RetryDecision)
    | SendReverted(decision: RetryDecision)
    | RecordSample(elapsed: nat)
    | BlendEstimate
    | ConfirmNonce
    | ConfirmReturns
    | ReleaseNonce
    | PushAgain(now: U64)
    | NotifyAgain

  datatype Label =
    | AddPush(msg: Message, now: U64)
    | AddNotify
    | Acquire
    | PopNext(k: nat)
    | PopNothing
    | Wake
    | BlockArrives
    | StreamCloses
    | SyncSucceeds(onChain: nat)
    | SyncFails
    | OfTask(i: nat, step: TaskLabel)
    | Meddle(nonces: NonceState, gas: GasState)  // an unknown adapter may do anything to its own state

  // ----- Which steps are possible -----

  predicate IsHighest(queue: seq<Entry>, k: nat) {
    k < |queue| && forall j :: 0 <= j < |queue| ==> queue[j].rank <= queue[k].rank
  }

  /** What `handle_dropped` may answer. */
  predicate MayDecide(strategy: Strategy, t: Task, decision: RetryDecision)
    requires t.phase.Sending?
  {
    strategy.EthRetry? ==> decision == EthDecision(t.msg, t.phase.fee, t.phase.nonce, t.phase.replacements)
  }

  predicate TaskEnabled(strategy: Strategy, t: Task, l: TaskLabel) {
    match l
    case CheckStart(_) => t.phase.Starting?
    case TakeNonce => t.phase.AwaitingNonce?
    case ReadEstimate => t.phase.AwaitingEstimate?
    case ReadWindow => t.phase.AwaitingWindow?
    case FeeError => strategy.AnyStrategy? && t.phase.AwaitingEstimate?
    case CheckSend(_) => t.phase.Ready?
    case SendFails => t.phase.Sending?
    case SendConfirmed => t.phase.Sending?
    case SendDropped(decision) => t.phase.Sending? && MayDecide(strategy, t, decision)
    case SendReverted(decision) => t.phase.Sending? && MayDecide(strategy, t, decision)
    case RecordSample(_) => t.phase.Confirming? && !t.phase.sampled
    case BlendEstimate => t.phase.Confirming? && t.phase.sampled && !t.phase.blended
    case ConfirmNonce => t.phase.Confirming? && !t.phase.nonceDone
    case ConfirmReturns => t.phase.Confirming? && t.phase.blended && t.phase.nonceDone
    case ReleaseNonce => t.phase.Releasing?
    case PushAgain(_) => t.phase.Pushing?
    case NotifyAgain => t.phase.Notifying?
  }

  predicate Enabled(strategy: Strategy, s: State, l: Label) {
    match l
    case AddPush(_, _) => true
    case AddNotify => s.unnotified > 0
    case Acquire => s.loop.Acquiring? && s.permits > 0
    case PopNext(k) => s.loop.HasPermit? && IsHighest(s.queue, k)
    case PopNothing => s.loop.HasPermit? && s.queue == []
    case Wake => s.loop.Sleeping? && s.notified
    case BlockArrives => s.loop.Acquiring? || s.loop.HasPermit? || s.loop.Sleeping?
    case StreamCloses => s.loop.Acquiring? || s.loop.HasPermit? || s.loop.Sleeping?
    case SyncSucceeds(_) => s.loop.Syncing?
    case SyncFails => s.loop.Syncing?
    case OfTask(i, step) => i < |s.tasks| && TaskEnabled(strategy, s.tasks[i], step)
    case Meddle(_, _) => strategy.AnyStrategy?
  }

  // ----- What they do -----

  /** The outcome of a dropped or reverted transaction: the retry is counted first, then the strategy decides.
      `EthRetryStrategy` releases the nonce itself before `Requeue` and `Abandon`, and the sender does so again. */
  function AfterDrop(strategy: Strategy, t: Task, decision: RetryDecision): Task
    requires t.phase.Sending?
  {
    var (msg, again) := IncrementRetry(t.msg);
    var releases := 1 + if strategy.EthRetry? then ReleasesInDecision(decision) else 0;
    t.(msg := msg,
       phase :=
         if !again then Releasing(t.phase.nonce, 1, ThenQuit)
         else match decision
              case Resubmit(fee, nonce) => Ready(nonce, fee, t.phase.replacements + 1)
              case Requeue => Releasing(t.phase.nonce, releases, ThenRequeue)
              case Abandon => Releasing(t.phase.nonce, releases, ThenQuit))
  }

  function AfterRelease(t: Task): Task
    requires t.phase.Releasing?
  {
    t.(settled := t.settled + 1,
       phase :=
         if t.phase.times > 1 then t.phase.(times := t.phase.times - 1)
         else match t.phase.exit
              case ThenQuit => Finished(false)
              case ThenRequeue => Pushing)
  }

  /** The task itself. */
  function NextTask(strategy: Strategy, s: State, t: Task, l: TaskLabel): Task
    requires TaskEnabled(strategy, t, l)
  {
    match l
    case CheckStart(now) =>
      t.(phase := if IsExpired(t.msg, now) then Finished(false) else AwaitingNonce(EffectivePriority(t.msg, now)))
    case TakeNonce =>
      t.(issued := t.issued + 1, phase := AwaitingEstimate(NextNonce(s.nonces), t.phase.priority))
    case ReadEstimate =>
      t.(phase := AwaitingWindow(t.phase.nonce, t.phase.priority, s.gas.estimate))
    case ReadWindow =>
      var tip := PriorityFee(t.phase.estimate, Analyze(s.gas.window), t.phase.priority);
      t.(phase := Ready(t.phase.nonce, EthFee(INITIAL_BASE_FEE, tip), 0))
    case FeeError =>
      t.(phase := Releasing(t.phase.nonce, 1, ThenQuit))
    case CheckSend(now) =>
      if IsExpired(t.msg, now)
      then t.(phase := Releasing(t.phase.nonce, 1, ThenQuit))
      else t.(sends := t.sends + 1, phase := Sending(t.phase.nonce, t.phase.fee, t.phase.replacements))
    case SendFails =>
      t.(phase := Releasing(t.phase.nonce, 1, ThenQuit))
    case SendConfirmed =>
      t.(phase := Confirming(t.phase.nonce, t.phase.fee, false, false, false))
    case SendDropped(decision) =>
      AfterDrop(strategy, t, decision)
    case SendReverted(decision) =>
      AfterDrop(strategy, t, decision)
    case RecordSample(_) =>
      t.(phase := t.phase.(sampled := true))
    case BlendEstimate =>
      t.(phase := t.phase.(blended := true))
    case ConfirmNonce =>
      t.(settled := t.settled + 1, phase := t.phase.(nonceDone := true))
    case ConfirmReturns =>
      t.(phase := Finished(false))
    case ReleaseNonce =>
      AfterRelease(t)
    case PushAgain(_) =>
      t.(phase := Notifying)
    case NotifyAgain =>
      t.(phase := Finished(true))
  }

  /** The nonce manager. */
  function NextNonces(strategy: Strategy, nonces: NonceState, t: Task, l: TaskLabel): NonceState
    requires TaskEnabled(strategy, t, l)
  {
    match l
    case TakeNonce => Take(nonces)
    case ConfirmNonce => Advance(nonces, t.phase.nonce)
    case ReleaseNonce => Release(nonces, t.phase.nonce)
    case _ => nonces
  }

  /** The gas price manager. */
  function NextGas(strategy: Strategy, gas: GasState, t: Task, l: TaskLabel): GasState
    requires TaskEnabled(strategy, t, l)
  {
    match l
    case RecordSample(elapsed) => gas.(window := PushSample(gas.window, elapsed))
    case BlendEstimate => gas.(estimate := Blend(gas.estimate, t.phase.fee.priorityFee))
    case _ => gas
  }

  /** The step is a send. */
  predicate Sends(t: Task, l: TaskLabel) {
    l.CheckSend? && !IsExpired(t.msg, l.now)
  }

  /** Task `i` moves; a finished task drops its permit. */
  function TaskStep(strategy: Strategy, s: State, i: nat, l: TaskLabel): State
    requires i < |s.tasks| && TaskEnabled(strategy, s.tasks[i], l)
  {
    var t := s.tasks[i];
    var t' := NextTask(strategy, s, t, l);
    s.(tasks := s.tasks[i := t'],
       permits := s.permits + (if t'.phase.Finished? then 1 else 0),
       nonces := NextNonces(strategy, s.nonces, t, l),
       gas := NextGas(strategy, s.gas, t, l),
       queue := if l.PushAgain? then s.queue + [Entry(t.id, t.msg, t.sends, EffectivePriority(t.msg, l.now))] else s.queue,
       notified := s.notified || l.NotifyAgain?,
       confirmed := if l.SendConfirmed? then s.confirmed + {t.phase.nonce} else s.confirmed,
       reverted := if l.SendReverted? then s.reverted + {t.phase.nonce} else s.reverted,
       log := if Sends(t, l) then s.log + [Sent(t.id, t.sends + 1, t.phase.nonce, t.phase.fee, l.now)] else s.log)
  }

  /** Leaving process_next_message early drops its permit, if it holds one. */
  function Cancel(s: State, to: LoopPhase): State {
    s.(loop := to, permits := s.permits + if s.loop.HasPermit? then 1 else 0)
  }

  function Step(strategy: Strategy, s: State, l: Label): State
    requires Enabled(strategy, s, l)
  {
    match l
    case AddPush(msg, now) =>
      s.(added := s.added + [msg],
         queue := s.queue + [Entry(|s.added|, msg, 0, EffectivePriority(msg, now))],
         unnotified := s.unnotified + 1)
    case AddNotify => s.(unnotified := s.unnotified - 1, notified := true)
    case Acquire => s.(permits := s.permits - 1, loop := HasPermit)
    case PopNext(k) =>
      var e := s.queue[k];
      s.(queue := s.queue[..k] + s.queue[k + 1..],
         tasks := s.tasks + [Task(e.id, e.msg, e.sends, 0, 0, Starting)],
         loop := Acquiring)
    case PopNothing => s.(permits := s.permits + 1, loop := Sleeping)
    case Wake => s.(notified := false, loop := Acquiring)
    case BlockArrives => Cancel(s, Syncing)
    case StreamCloses => Cancel(s, Stopped)
    case SyncSucceeds(onChain) => s.(nonces := Advance(s.nonces, onChain), loop := Acquiring)
    case SyncFails => s.(loop := Stopped)
    case OfTask(i, step) => TaskStep(strategy, s, i, step)
    case Meddle(nonces, gas) => s.(nonces := nonces, gas := gas)
  }

  /** `states[i]` is the system after the first `i` steps of `labels`. */
  ghost predicate IsRun(strategy: Strategy, onChain: nat, states: seq<State>, labels: seq<Label>) {
    && |states| == |labels| + 1
    && states[0] == Initial(onChain)
    && forall i :: 0 <= i < |labels| ==>
         Enabled(strategy, states[i], labels[i]) && states[i + 1] == Step(strategy, states[i], labels[i])
  }

  /** One step of a run. */
  lemma RunStep(strategy: Strategy, onChain: nat, states: seq<State>, labels: seq<Label>, k: nat)
    requires IsRun(strategy, onChain, states, labels) && k < |labels|
    ensures Enabled(strategy, states[k], labels[k]) && states[k + 1] == Step(strategy, states[k], labels[k])
  {
  }

  /** One more step of a run. */
  lemma ExtendRun(strategy: Strategy, onChain: nat, states: seq<State>, labels: seq<Label>, l: Label)
    requires IsRun(strategy, onChain, states, labels) && Enabled(strategy, states[|labels|], l)
    ensures IsRun(strategy, onChain, states + [Step(strategy, states[|labels|], l)], labels + [l])
  {
    var states', labels' := states + [Step(strategy, states[|labels|], l)], labels + [l];
    assert forall i :: 0 <= i < |states| ==> states'[i] == states[i];
    assert forall i :: 0 <= i < |labels| ==> labels'[i] == labels[i];
  }
}
