/**
 The bounded-concurrency batch scheduler as a step relation.

 A submitter coroutine, a processor coroutine and one worker coroutine per
 factory share a buffered channel used as a semaphore, an unbuffered work
 channel, two wait groups and one settable future per factory.  The runtime may
 run the coroutines in any order; a step is what one coroutine does between two
 points where another one could run.
 */
module BatchScheduler {
  import opened Wrappers

  /** What a task's future resolves with. */
  datatype Outcome = Good(value: int) | Bad(error: string)

  /** batchSize, and for each factory the outcome of the future it returns. */
  datatype Params = Params(batchSize: nat, outcomes: seq<Outcome>) {
    function N(): nat { |outcomes| }
  }

  datatype Submitter =
    | TakingToken(i: nat)     // at semaphore.Send, index i not yet sent
    | HandingOver(i: nat)     // at workChan.Send(i), holding a token for i
    | Closing                 // loop over, at workChan.Close
    | SubmitterLeaving        // at the deferred wg.Done
    | SubmitterGone

  datatype Processor =
    | Receiving               // at workChan.Receive
    | Spawning(idx: nat)      // received idx, about to Add(1) and start a worker
    | Waiting                 // at wgForFutures.Wait
    | ProcessorLeaving        // at the deferred wg.Done
    | ProcessorGone

  datatype WorkerPc =
    | AtFactory               // about to call the factory
    | AtChain                 // has the factory's future, about to chain it
    | AtGet                   // blocked in f.Get
    | AtRelease               // at semaphore.Receive
    | AtDone                  // at the deferred wgForFutures.Done
    | Ended

  /** A worker: its index, its program point and its local future f. */
  datatype Worker = Worker(idx: nat, pc: WorkerPc, f: nat)

  /** A future returned by a factory call, in the order of the calls. */
  datatype Call = Call(factory: nat, result: Option<Outcome>)

  /** A future the caller sees: what it is chained to and what it holds. */
  datatype Settable = Settable(chained: Option<nat>, value: Option<Outcome>)

  datatype State = State(
    tokens: nat,
    closed: bool,
    sub: Submitter,
    proc: Processor,
    workers: seq<Worker>,
    calls: seq<Call>,
    settables: seq<Settable>,
    wgForFutures: int,
    wg: int)

  datatype Step =
    | TakeToken
    | HandOver
    | CloseChannel
    | SubmitterExit
    | SpawnWorker
    | SeeClosed
    | WaitReturns
    | ProcessorExit
    | CallFactory(k: nat)
    | ChainFuture(k: nat)
    | ResolveTask(f: nat)
    | GetReturns(k: nat)
    | ReleaseToken(k: nat)
    | PassToken(k: nat)
    | WorkerExit(k: nat)

  function AfterSend(p: Params, i: nat): Submitter {
    if i < p.N() then TakingToken(i) else Closing
  }

  /** The state NewBatchFuture leaves behind: both coordinators started. */
  function Init(p: Params): State {
    State(0, false, AfterSend(p, 0), Receiving, [], [],
          seq(p.N(), i => Settable(None, None)), 0, 2)
  }

  predicate WorkerAt(s: State, k: nat, pc: WorkerPc) {
    k < |s.workers| && s.workers[k].pc == pc
  }

  /** Which steps the runtime may take.  A send on the semaphore needs room in its
      buffer, or a receiver to hand the token to when the buffer is empty; a send on
      the unbuffered work channel needs the processor at its receive. */
  predicate Enabled(p: Params, s: State, step: Step) {
    match step
    case TakeToken => s.sub.TakingToken? && s.tokens < p.batchSize
    case HandOver => s.sub.HandingOver? && s.proc.Receiving?
    case CloseChannel => s.sub.Closing?
    case SubmitterExit => s.sub.SubmitterLeaving?
    case SpawnWorker => s.proc.Spawning?
    case SeeClosed => s.proc.Receiving? && s.closed
    case WaitReturns => s.proc.Waiting? && s.wgForFutures == 0
    case ProcessorExit => s.proc.ProcessorLeaving?
    case CallFactory(k) => WorkerAt(s, k, AtFactory) && s.workers[k].idx < p.N()
    case ChainFuture(k) =>
      && WorkerAt(s, k, AtChain) && s.workers[k].f < |s.calls|
      && s.workers[k].idx < |s.settables|
    case ResolveTask(f) =>
      f < |s.calls| && s.calls[f].result.None? && s.calls[f].factory < p.N()
    case GetReturns(k) =>
      && WorkerAt(s, k, AtGet) && s.workers[k].f < |s.calls|
      && s.calls[s.workers[k].f].result.Some?
    case ReleaseToken(k) => WorkerAt(s, k, AtRelease) && s.tokens > 0
    case PassToken(k) => s.sub.TakingToken? && s.tokens == 0 && WorkerAt(s, k, AtRelease)
    case WorkerExit(k) => WorkerAt(s, k, AtDone)
  }

  function MoveWorker(s: State, k: nat, pc: WorkerPc): State
    requires k < |s.workers|
  {
    s.(workers := s.workers[k := s.workers[k].(pc := pc)])
  }

  /** Resolving future f resolves every settable already chained to it. */
  function Notify(settables: seq<Settable>, f: nat, o: Outcome): seq<Settable> {
    seq(|settables|, i requires 0 <= i < |settables| =>
      if settables[i].chained == Some(f) then settables[i].(value := Some(o)) else settables[i])
  }

  function Apply(p: Params, s: State, step: Step): State
    requires Enabled(p, s, step)
  {
    match step
    case TakeToken => s.(sub := HandingOver(s.sub.i), tokens := s.tokens + 1)
    case HandOver => s.(sub := AfterSend(p, s.sub.i + 1), proc := Spawning(s.sub.i))
    case CloseChannel => s.(sub := SubmitterLeaving, closed := true)
    case SubmitterExit => s.(sub := SubmitterGone, wg := s.wg - 1)
    case SpawnWorker =>
      s.(proc := Receiving, wgForFutures := s.wgForFutures + 1,
         workers := s.workers + [Worker(s.proc.idx, AtFactory, 0)])
    case SeeClosed => s.(proc := Waiting)
    case WaitReturns => s.(proc := ProcessorLeaving)
    case ProcessorExit => s.(proc := ProcessorGone, wg := s.wg - 1)
    case CallFactory(k) =>
      s.(calls := s.calls + [Call(s.workers[k].idx, None)],
         workers := s.workers[k := s.workers[k].(pc := AtChain, f := |s.calls|)])
    case ChainFuture(k) =>
      var w := s.workers[k];
      MoveWorker(s.(settables := s.settables[w.idx := Settable(Some(w.f), s.calls[w.f].result)]), k, AtGet)
    case ResolveTask(f) =>
      var o := p.outcomes[s.calls[f].factory];
      s.(calls := s.calls[f := s.calls[f].(result := Some(o))],
         settables := Notify(s.settables, f, o))
    case GetReturns(k) => MoveWorker(s, k, AtRelease)
    case ReleaseToken(k) => MoveWorker(s.(tokens := s.tokens - 1), k, AtDone)
    case PassToken(k) => MoveWorker(s.(sub := HandingOver(s.sub.i)), k, AtDone)
    case WorkerExit(k) => MoveWorker(s.(wgForFutures := s.wgForFutures - 1), k, Ended)
  }

  /** A finite run: consecutive states, each obtained from the one before by an enabled step. */
  ghost predicate Run(p: Params, states: seq<State>, steps: seq<Step>) {
    && |states| == |steps| + 1
    && states[0] == Init(p)
    && forall j | 0 <= j < |steps| ::
         Enabled(p, states[j], steps[j]) && states[j + 1] == Apply(p, states[j], steps[j])
  }

  predicate Final(s: State) {
    && s.sub.SubmitterGone? && s.proc.ProcessorGone?
  }

  // ------------------------------------------------------------------------
  // The inductive invariant
  // ------------------------------------------------------------------------

  predicate HasCalled(pc: WorkerPc) { !pc.AtFactory? }
  predicate HasChained(pc: WorkerPc) { HasCalled(pc) && !pc.AtChain? }
  predicate HasGot(pc: WorkerPc) { HasChained(pc) && !pc.AtGet? }
  predicate HasReleased(pc: WorkerPc) { pc.AtDone? || pc.Ended? }

  /** Workers that still hold the token taken for their index. */
  ghost function Holders(ws: seq<Worker>): set<nat> {
    set k: nat | k < |ws| && !HasReleased(ws[k].pc)
  }

  ghost function Unfinished(ws: seq<Worker>): set<nat> {
    set k: nat | k < |ws| && !ws[k].pc.Ended?
  }

  /** Tasks started and not yet resolved. */
  ghost function InFlight(s: State): set<nat> {
    set f: nat | f < |s.calls| && s.calls[f].result.None?
  }

  /** How many indices have passed through the work channel. */
  function HandedOver(s: State): nat {
    |s.workers| + if s.proc.Spawning? then 1 else 0
  }

  ghost predicate ControlInv(p: Params, s: State) {
    && (forall k :: 0 <= k < |s.workers| ==> s.workers[k].idx == k)
    && (match s.sub
        case TakingToken(i) => i == HandedOver(s) < p.N()
        case HandingOver(i) => i == HandedOver(s) < p.N()
        case _ => HandedOver(s) == p.N())
    && (s.closed <==> s.sub.SubmitterLeaving? || s.sub.SubmitterGone?)
    && (s.proc.Spawning? ==> s.proc.idx == |s.workers|)
    && (s.proc.Waiting? || s.proc.ProcessorLeaving? || s.proc.ProcessorGone? ==> s.closed)
    && (s.proc.ProcessorLeaving? || s.proc.ProcessorGone? ==> Unfinished(s.workers) == {})
  }

  ghost predicate CountInv(p: Params, s: State) {
    && s.tokens == |Holders(s.workers)| + (if s.sub.HandingOver? then 1 else 0) + (if s.proc.Spawning? then 1 else 0)
    && s.tokens <= p.batchSize
    && s.wgForFutures == |Unfinished(s.workers)|
    && s.wg == (if s.sub.SubmitterGone? then 0 else 1) + (if s.proc.ProcessorGone? then 0 else 1)
  }

  /** Futures returned by factories and workers past their call correspond one to one. */
  ghost predicate CallInv(p: Params, s: State) {
    && (forall k {:trigger s.workers[k]} :: 0 <= k < |s.workers| && HasCalled(s.workers[k].pc) ==>
          s.workers[k].f < |s.calls| && s.calls[s.workers[k].f].factory == k)
    && (forall f {:trigger s.calls[f]} :: 0 <= f < |s.calls| ==>
          && s.calls[f].factory < |s.workers|
          && HasCalled(s.workers[s.calls[f].factory].pc)
          && s.workers[s.calls[f].factory].f == f
          && s.calls[f].factory < p.N()
          && (s.calls[f].result == None || s.calls[f].result == Some(p.outcomes[s.calls[f].factory])))
    && (forall k {:trigger s.workers[k]} :: 0 <= k < |s.workers| && HasGot(s.workers[k].pc) ==>
          s.calls[s.workers[k].f].result.Some?)
  }

  ghost predicate SettableInv(p: Params, s: State) {
    && |s.settables| == p.N()
    && forall i {:trigger s.settables[i]} :: 0 <= i < p.N() ==>
         s.settables[i] ==
           if i < |s.workers| && HasChained(s.workers[i].pc) && s.workers[i].f < |s.calls|
           then Settable(Some(s.workers[i].f), s.calls[s.workers[i].f].result)
           else Settable(None, None)
  }

  ghost predicate Inv(p: Params, s: State) {
    ControlInv(p, s) && CountInv(p, s) && CallInv(p, s) && SettableInv(p, s)
  }

  lemma InitInv(p: Params)
    ensures Inv(p, Init(p))
  {
    assert Holders([]) == {} && Unfinished([]) == {};
  }

  /** The steps of a worker. */
  predicate OfWorker(step: Step) {
    step.CallFactory? || step.ChainFuture? || step.GetReturns? || step.ReleaseToken? || step.PassToken? || step.WorkerExit?
  }

  /** Worker k, which has not ended, moves on; the counters follow its program point, and a token it
      gives up may go straight to the submitter. */
  ghost predicate Moves(s: State, t: State, k: nat) {
    && k < |s.workers| == |t.workers| && t.workers == s.workers[k := t.workers[k]]
    && t.workers[k].idx == s.workers[k].idx && !s.workers[k].pc.Ended?
    && (HasReleased(s.workers[k].pc) ==> HasReleased(t.workers[k].pc))
    && t.proc == s.proc && t.closed == s.closed && t.wg == s.wg
    && (t.sub == s.sub || (s.sub.TakingToken? && t.sub == HandingOver(s.sub.i)))
    && t.tokens == s.tokens - (if HasReleased(t.workers[k].pc) && !HasReleased(s.workers[k].pc) then 1 else 0)
                            + (if t.sub != s.sub then 1 else 0)
    && t.tokens <= s.tokens
    && t.wgForFutures == s.wgForFutures - (if t.workers[k].pc.Ended? then 1 else 0)
  }

  lemma WorkerMoves(p: Params, s: State, step: Step)
    requires Enabled(p, s, step) && OfWorker(step)
    ensures Moves(s, Apply(p, s, step), step.k)
  {
  }

  lemma ControlMove(p: Params, s: State, t: State, k: nat)
    requires ControlInv(p, s) && Moves(s, t, k)
    ensures ControlInv(p, t)
  {
    assert k in Unfinished(s.workers);
  }

  lemma ControlSpawn(p: Params, s: State)
    requires ControlInv(p, s) && Enabled(p, s, SpawnWorker)
    ensures ControlInv(p, Apply(p, s, SpawnWorker))
  {
  }

  lemma ControlCoordinator(p: Params, s: State, step: Step)
    requires Inv(p, s) && Enabled(p, s, step) && !OfWorker(step) && !step.SpawnWorker?
    ensures ControlInv(p, Apply(p, s, step))
  {
    assert s.wgForFutures == 0 ==> Unfinished(s.workers) == {};
  }

  lemma ControlStep(p: Params, s: State, step: Step)
    requires Inv(p, s) && Enabled(p, s, step)
    ensures ControlInv(p, Apply(p, s, step))
  {
    if OfWorker(step) {
      WorkerMoves(p, s, step);
      ControlMove(p, s, Apply(p, s, step), step.k);
    } else if step.SpawnWorker? {
      ControlSpawn(p, s);
    } else {
      ControlCoordinator(p, s, step);
    }
  }

  /** Replacing worker k's record changes at most k's membership in the two sets. */
  lemma WorkerSets(ws: seq<Worker>, k: nat, w: Worker)
    requires k < |ws|
    ensures Holders(ws[k := w]) == if HasReleased(w.pc) then Holders(ws) - {k} else Holders(ws) + {k}
    ensures Unfinished(ws[k := w]) == if w.pc.Ended? then Unfinished(ws) - {k} else Unfinished(ws) + {k}
    ensures k in Holders(ws) <==> !HasReleased(ws[k].pc)
    ensures k in Unfinished(ws) <==> !ws[k].pc.Ended?
  {
  }

  lemma CountMove(p: Params, s: State, t: State, k: nat)
    requires CountInv(p, s) && Moves(s, t, k)
    ensures CountInv(p, t)
  {
    var holders, unfinished := Holders(s.workers), Unfinished(s.workers);
    WorkerSets(s.workers, k, t.workers[k]);
    if k in holders { assert holders + {k} == holders; }
    if k in unfinished { assert unfinished + {k} == unfinished; }
    if k !in holders { assert holders - {k} == holders; }
  }

  /** A worker about to release still has its token in the buffer, so its receive cannot block. */
  lemma ReleaseNeverBlocks(p: Params, s: State, k: nat)
    requires Inv(p, s) && WorkerAt(s, k, AtRelease)
    ensures s.tokens > 0
  {
    assert k in Holders(s.workers);
  }

  lemma CountSpawn(p: Params, s: State)
    requires Inv(p, s) && Enabled(p, s, SpawnWorker)
    ensures CountInv(p, Apply(p, s, SpawnWorker))
  {
    var w := Worker(s.proc.idx, AtFactory, 0);
    SpawnHolders(s.workers, w);
    SpawnUnfinished(s.workers, w);
  }

  lemma SpawnHolders(ws: seq<Worker>, w: Worker)
    requires w.pc.AtFactory?
    ensures |Holders(ws + [w])| == |Holders(ws)| + 1
  {
    forall j ensures j in Holders(ws + [w]) <==> j in Holders(ws) || j == |ws| { }
    assert Holders(ws + [w]) == Holders(ws) + {|ws|};
  }

  lemma SpawnUnfinished(ws: seq<Worker>, w: Worker)
    requires w.pc.AtFactory?
    ensures |Unfinished(ws + [w])| == |Unfinished(ws)| + 1
  {
    forall j ensures j in Unfinished(ws + [w]) <==> j in Unfinished(ws) || j == |ws| { }
    assert Unfinished(ws + [w]) == Unfinished(ws) + {|ws|};
  }

  /** Steps of the two coordinators, and of a task, that leave the workers alone. */
  lemma CountCoordinator(p: Params, s: State, step: Step)
    requires Inv(p, s) && Enabled(p, s, step) && !OfWorker(step) && !step.SpawnWorker?
    ensures CountInv(p, Apply(p, s, step))
  {
    assert Apply(p, s, step).workers == s.workers;
  }

  lemma CountStep(p: Params, s: State, step: Step)
    requires Inv(p, s) && Enabled(p, s, step)
    ensures CountInv(p, Apply(p, s, step))
  {
    if OfWorker(step) {
      WorkerMoves(p, s, step);
      CountMove(p, s, Apply(p, s, step), step.k);
    } else if step.SpawnWorker? {
      CountSpawn(p, s);
    } else {
      CountCoordinator(p, s, step);
    }
  }

  lemma CallFactoryStep(p: Params, s: State, k: nat)
    requires Inv(p, s) && Enabled(p, s, CallFactory(k))
    ensures CallInv(p, Apply(p, s, CallFactory(k)))
  {
    var t := Apply(p, s, CallFactory(k));
    assert t.workers[k].f == |s.calls|;
    forall f | 0 <= f < |s.calls| ensures s.calls[f].factory != k { }
  }

  lemma ResolveStep(p: Params, s: State, f: nat)
    requires Inv(p, s) && Enabled(p, s, ResolveTask(f))
    ensures CallInv(p, Apply(p, s, ResolveTask(f)))
  {
  }

  lemma SpawnStep(p: Params, s: State)
    requires Inv(p, s) && Enabled(p, s, SpawnWorker)
    ensures CallInv(p, Apply(p, s, SpawnWorker))
  {
  }

  lemma MoveStep(p: Params, s: State, t: State, k: nat)
    requires CallInv(p, s) && k < |s.workers| == |t.workers| && t.calls == s.calls
    requires t.workers == s.workers[k := s.workers[k].(pc := t.workers[k].pc)]
    requires HasCalled(s.workers[k].pc) && HasCalled(t.workers[k].pc)
    requires HasGot(t.workers[k].pc) ==> s.calls[s.workers[k].f].result.Some?
    ensures CallInv(p, t)
  {
  }

  lemma CallMove(p: Params, s: State, step: Step)
    requires Inv(p, s) && Enabled(p, s, step) && OfWorker(step) && !step.CallFactory?
    ensures CallInv(p, Apply(p, s, step))
  {
    MoveStep(p, s, Apply(p, s, step), step.k);
  }

  lemma CallCoordinator(p: Params, s: State, step: Step)
    requires Inv(p, s) && Enabled(p, s, step) && !OfWorker(step) && !step.SpawnWorker? && !step.ResolveTask?
    ensures CallInv(p, Apply(p, s, step))
  {
    assert Apply(p, s, step).workers == s.workers && Apply(p, s, step).calls == s.calls;
  }

  lemma CallStep(p: Params, s: State, step: Step)
    requires Inv(p, s) && Enabled(p, s, step)
    ensures CallInv(p, Apply(p, s, step))
  {
    match step
    case CallFactory(k) => CallFactoryStep(p, s, k);
    case ResolveTask(f) => ResolveStep(p, s, f);
    case SpawnWorker => SpawnStep(p, s);
    case _ =>
      if OfWorker(step) {
        CallMove(p, s, step);
      } else {
        CallCoordinator(p, s, step);
      }
  }

  lemma ChainSettable(p: Params, s: State, k: nat)
    requires Inv(p, s) && Enabled(p, s, ChainFuture(k))
    ensures SettableInv(p, Apply(p, s, ChainFuture(k)))
  {
  }

  lemma ResolveSettable(p: Params, s: State, f: nat)
    requires Inv(p, s) && Enabled(p, s, ResolveTask(f))
    ensures SettableInv(p, Apply(p, s, ResolveTask(f)))
  {
  }

  lemma CallSettable(p: Params, s: State, k: nat)
    requires Inv(p, s) && Enabled(p, s, CallFactory(k))
    ensures SettableInv(p, Apply(p, s, CallFactory(k)))
  {
  }

  lemma SpawnSettable(p: Params, s: State)
    requires Inv(p, s) && Enabled(p, s, SpawnWorker)
    ensures SettableInv(p, Apply(p, s, SpawnWorker))
  {
  }

  lemma MoveSettable(p: Params, s: State, t: State, k: nat, pc: WorkerPc)
    requires SettableInv(p, s) && k < |s.workers| && HasChained(s.workers[k].pc) && HasChained(pc)
    requires t.workers == MoveWorker(s, k, pc).workers && t.calls == s.calls && t.settables == s.settables
    ensures SettableInv(p, t)
  {
  }

  lemma SettableStep(p: Params, s: State, step: Step)
    requires Inv(p, s) && Enabled(p, s, step)
    ensures SettableInv(p, Apply(p, s, step))
  {
    var t := Apply(p, s, step);
    match step
    case ChainFuture(k) => ChainSettable(p, s, k);
    case ResolveTask(f) => ResolveSettable(p, s, f);
    case CallFactory(k) => CallSettable(p, s, k);
    case SpawnWorker => SpawnSettable(p, s);
    case GetReturns(k) => MoveSettable(p, s, t, k, AtRelease);
    case ReleaseToken(k) => MoveSettable(p, s, t, k, AtDone);
    case PassToken(k) => MoveSettable(p, s, t, k, AtDone);
    case WorkerExit(k) => MoveSettable(p, s, t, k, Ended);
    case _ =>
  }

  /** Every step keeps the invariant. */
  lemma StepInv(p: Params, s: State, step: Step)
    requires Inv(p, s) && Enabled(p, s, step)
    ensures Inv(p, Apply(p, s, step))
  {
    ControlStep(p, s, step);
    CountStep(p, s, step);
    CallStep(p, s, step);
    SettableStep(p, s, step);
  }

  lemma {:induction false} RunInv(p: Params, states: seq<State>, steps: seq<Step>, j: nat)
    requires Run(p, states, steps) && j < |states|
    ensures Inv(p, states[j])
  {
    if j == 0 {
      InitInv(p);
    } else {
      RunInv(p, states, steps, j - 1);
      StepInv(p, states[j - 1], steps[j - 1]);
    }
  }
}
