/** What every run of the batch scheduler guarantees. */
module BatchProperties {
  import opened Wrappers
  import opened Cardinality
  import opened BatchScheduler

  // ------------------------------------------------------------------------
  // Bounded concurrency
  // ------------------------------------------------------------------------

  /** The factory index of a call, total so that it can serve as an injection. */
  function FactoryOf(calls: seq<Call>): nat -> nat {
    (f: nat) => if f < |calls| then calls[f].factory else 0
  }

  function FutureOf(ws: seq<Worker>): nat -> nat {
    (k: nat) => if k < |ws| then ws[k].f else 0
  }

  /** In every reachable state the semaphore holds one token for the index being handed
      over, and one for each worker that has not released; unresolved tasks number at
      most batchSize. */
  lemma BoundedConcurrency(p: Params, states: seq<State>, steps: seq<Step>, j: nat)
    requires Run(p, states, steps) && j < |states|
    ensures var s := states[j];
            && s.tokens == |Holders(s.workers)|
                           + (if s.sub.HandingOver? then 1 else 0) + (if s.proc.Spawning? then 1 else 0)
            && |InFlight(s)| <= |Holders(s.workers)| <= s.tokens <= p.batchSize
  {
    RunInv(p, states, steps, j);
    InFlightBound(p, states[j]);
  }

  lemma InFlightBound(p: Params, s: State)
    requires Inv(p, s)
    ensures |InFlight(s)| <= |Holders(s.workers)|
  {
    var g := FactoryOf(s.calls);
    forall f | f in InFlight(s) ensures g(f) in Holders(s.workers) {
      assert s.workers[s.calls[f].factory].f == f;
    }
    InjectionBound(InFlight(s), Holders(s.workers), g);
  }

  // ------------------------------------------------------------------------
  // Exactly once, in index order
  // ------------------------------------------------------------------------

  function Occurrences(steps: seq<Step>, step: Step): nat {
    if steps == [] then 0
    else Occurrences(steps[..|steps| - 1], step) + if steps[|steps| - 1] == step then 1 else 0
  }

  /** The part of a run before its last step is a run. */
  lemma RunPrefix(p: Params, states: seq<State>, steps: seq<Step>)
    requires Run(p, states, steps) && steps != []
    ensures Run(p, states[..|steps|], steps[..|steps| - 1])
  {
  }

  /** Worker k's factory call happens at most once in a run, and it has happened exactly when
      the worker is past it; as many hand-overs happened as indices went through the channel. */
  lemma {:induction false} StepCounts(p: Params, states: seq<State>, steps: seq<Step>, k: nat)
    requires Run(p, states, steps)
    ensures var s := states[|steps|];
            && Occurrences(steps, CallFactory(k)) == (if k < |s.workers| && HasCalled(s.workers[k].pc) then 1 else 0)
            && Occurrences(steps, ChainFuture(k)) == (if k < |s.workers| && HasChained(s.workers[k].pc) then 1 else 0)
            && Occurrences(steps, HandOver) == HandedOver(s)
  {
    if steps == [] {
    } else {
      var m := |steps| - 1;
      RunPrefix(p, states, steps);
      StepCounts(p, states[..|steps|], steps[..m], k);
      assert states[..|steps|][m] == states[m];
      RunInv(p, states, steps, m);
      StepEffect(p, states[m], steps[m], k);
    }
  }

  lemma StepEffect(p: Params, s: State, step: Step, k: nat)
    requires Inv(p, s) && Enabled(p, s, step)
    ensures var t := Apply(p, s, step);
            && (k < |t.workers| && HasCalled(t.workers[k].pc)
                <==> (k < |s.workers| && HasCalled(s.workers[k].pc)) || step == CallFactory(k))
            && (k < |t.workers| && HasChained(t.workers[k].pc)
                <==> (k < |s.workers| && HasChained(s.workers[k].pc)) || step == ChainFuture(k))
            && HandedOver(t) == HandedOver(s) + (if step.HandOver? then 1 else 0)
            && (step == CallFactory(k) ==> !HasCalled(s.workers[k].pc))
            && (step == ChainFuture(k) ==> !HasChained(s.workers[k].pc))
  {
  }

  /** Indices are handed over in order: the hand-over after c earlier ones carries index c,
      and worker c, which then serves it, is the one started next. */
  lemma HandOffInOrder(p: Params, states: seq<State>, steps: seq<Step>, j: nat)
    requires Run(p, states, steps) && j < |steps| && steps[j].HandOver?
    ensures states[j].sub.i == Occurrences(steps[..j], HandOver) == |states[j].workers|
    ensures states[j + 1].proc == Spawning(states[j].sub.i)
  {
    RunInv(p, states, steps, j);
    var before, taken := states[..j + 1], steps[..j];
    assert Run(p, before, taken);
    StepCounts(p, before, taken, 0);
  }

  /** In a complete run every index is handed over, every factory is called and every settable is
      chained exactly once. */
  lemma CompleteRunCallsEachOnce(p: Params, states: seq<State>, steps: seq<Step>, k: nat)
    requires Run(p, states, steps) && Final(states[|steps|]) && k < p.N()
    ensures Occurrences(steps, CallFactory(k)) == 1 == Occurrences(steps, ChainFuture(k))
    ensures Occurrences(steps, HandOver) == p.N()
  {
    RunInv(p, states, steps, |steps|);
    AllEnded(p, states[|steps|]);
    StepCounts(p, states, steps, k);
  }

  /** At most one call per factory, and a settable is chained to its own factory's future. */
  lemma OneCallPerFactory(p: Params, states: seq<State>, steps: seq<Step>, j: nat)
    requires Run(p, states, steps) && j < |states|
    ensures var s := states[j];
            && (forall f, g :: 0 <= f < |s.calls| && 0 <= g < |s.calls| && s.calls[f].factory == s.calls[g].factory ==> f == g)
            && (forall i :: 0 <= i < |s.settables| && s.settables[i].chained.Some? ==>
                  s.settables[i].chained.value < |s.calls| && s.calls[s.settables[i].chained.value].factory == i)
  {
    RunInv(p, states, steps, j);
  }

  // ------------------------------------------------------------------------
  // Termination: a complete run takes exactly 9n + 5 steps
  // ------------------------------------------------------------------------

  function WorkerSteps(pc: WorkerPc): nat {
    match pc
    case AtFactory => 0 case AtChain => 1 case AtGet => 2
    case AtRelease => 3 case AtDone => 4 case Ended => 5
  }

  function SumWorkerSteps(ws: seq<Worker>): nat {
    if ws == [] then 0 else SumWorkerSteps(ws[..|ws| - 1]) + WorkerSteps(ws[|ws| - 1].pc)
  }

  lemma {:induction false} SumUpdate(ws: seq<Worker>, k: nat, w: Worker)
    requires k < |ws|
    ensures SumWorkerSteps(ws[k := w]) == SumWorkerSteps(ws) - WorkerSteps(ws[k].pc) + WorkerSteps(w.pc)
  {
    var m := |ws| - 1;
    if k == m {
      assert ws[k := w][..m] == ws[..m];
    } else {
      assert ws[k := w][..m] == ws[..m][k := w];
      SumUpdate(ws[..m], k, w);
    }
  }

  lemma {:induction false} SumBound(ws: seq<Worker>)
    ensures SumWorkerSteps(ws) <= 5 * |ws|
    ensures SumWorkerSteps(ws) == 5 * |ws| <==> forall k :: 0 <= k < |ws| ==> ws[k].pc.Ended?
  {
    if ws == [] {
    } else {
      var m := |ws| - 1;
      SumBound(ws[..m]);
      assert forall k :: 0 <= k < m ==> ws[..m][k] == ws[k];
    }
  }

  function SubmitterSteps(p: Params, sub: Submitter): nat {
    match sub
    case TakingToken(i) => 2 * i
    case HandingOver(i) => 2 * i + 1
    case Closing => 2 * p.N()
    case SubmitterLeaving => 2 * p.N() + 1
    case SubmitterGone => 2 * p.N() + 2
  }

  function ProcessorSteps(proc: Processor): nat {
    match proc
    case Receiving => 0 case Spawning(_) => 0 case Waiting => 1
    case ProcessorLeaving => 2 case ProcessorGone => 3
  }

  /** Tasks that have resolved. */
  ghost function Resolved(s: State): nat
  {
    InFlightWithin(s);
    |s.calls| - |InFlight(s)|
  }

  lemma InFlightWithin(s: State)
    ensures |InFlight(s)| <= |s.calls|
  {
    BelowCard(|s.calls|);
    InjectionBound(InFlight(s), Below(|s.calls|), f => f);
  }

  /** How many steps led to s, read off the program points alone. */
  ghost function StepsTaken(p: Params, s: State): nat {
    SubmitterSteps(p, s.sub) + |s.workers| + ProcessorSteps(s.proc) + SumWorkerSteps(s.workers) + Resolved(s)
  }

  lemma InFlightUnchanged(s: State, t: State)
    requires t.calls == s.calls
    ensures InFlight(t) == InFlight(s) && Resolved(t) == Resolved(s)
  {
  }

  lemma InFlightMore(s: State, t: State, c: Call)
    requires t.calls == s.calls + [c] && c.result.None?
    ensures |InFlight(t)| == |InFlight(s)| + 1
  {
    forall f ensures f in InFlight(t) <==> f in InFlight(s) || f == |s.calls| { }
    assert InFlight(t) == InFlight(s) + {|s.calls|};
  }

  lemma ResolvedCall(p: Params, s: State, k: nat)
    requires Enabled(p, s, CallFactory(k))
    ensures Resolved(Apply(p, s, CallFactory(k))) == Resolved(s)
  {
    InFlightMore(s, Apply(p, s, CallFactory(k)), Call(s.workers[k].idx, None));
  }

  lemma ResolvedTask(p: Params, s: State, f: nat)
    requires Enabled(p, s, ResolveTask(f))
    ensures Resolved(Apply(p, s, ResolveTask(f))) == Resolved(s) + 1
  {
    var t := Apply(p, s, ResolveTask(f));
    assert f in InFlight(s) && InFlight(t) == InFlight(s) - {f};
  }

  /** A step that only advances worker k, by one program point. */
  lemma MoveIncrements(p: Params, s: State, t: State, k: nat)
    requires k < |s.workers| == |t.workers| && t.workers == s.workers[k := t.workers[k]]
    requires WorkerSteps(t.workers[k].pc) == WorkerSteps(s.workers[k].pc) + 1
    requires t.sub == s.sub && t.proc == s.proc && Resolved(t) == Resolved(s)
    ensures StepsTaken(p, t) == StepsTaken(p, s) + 1
  {
    SumUpdate(s.workers, k, t.workers[k]);
  }

  lemma SpawnIncrements(p: Params, s: State)
    requires Inv(p, s) && Enabled(p, s, SpawnWorker)
    ensures StepsTaken(p, Apply(p, s, SpawnWorker)) == StepsTaken(p, s) + 1
  {
    var t := Apply(p, s, SpawnWorker);
    InFlightUnchanged(s, t);
    assert t.workers[..|s.workers|] == s.workers;
  }

  lemma CoordinatorIncrements(p: Params, s: State, step: Step)
    requires Inv(p, s) && Enabled(p, s, step)
    requires step in {TakeToken, HandOver, CloseChannel, SubmitterExit, SeeClosed, WaitReturns, ProcessorExit}
    ensures StepsTaken(p, Apply(p, s, step)) == StepsTaken(p, s) + 1
  {
    InFlightUnchanged(s, Apply(p, s, step));
  }

  lemma WorkerIncrements(p: Params, s: State, step: Step)
    requires Inv(p, s) && Enabled(p, s, step) && OfWorker(step) && !step.CallFactory?
    ensures StepsTaken(p, Apply(p, s, step)) == StepsTaken(p, s) + 1
  {
    var t := Apply(p, s, step);
    if step.PassToken? { ReleaseNeverBlocks(p, s, step.k); }
    InFlightUnchanged(s, t);
    MoveIncrements(p, s, t, step.k);
  }

  /** Every step adds exactly one. */
  lemma StepIncrements(p: Params, s: State, step: Step)
    requires Inv(p, s) && Enabled(p, s, step)
    ensures StepsTaken(p, Apply(p, s, step)) == StepsTaken(p, s) + 1
  {
    match step
    case CallFactory(k) => ResolvedCall(p, s, k); MoveIncrements(p, s, Apply(p, s, step), k);
    case ResolveTask(f) => ResolvedTask(p, s, f);
    case SpawnWorker => SpawnIncrements(p, s);
    case _ =>
      if OfWorker(step) {
        WorkerIncrements(p, s, step);
      } else {
        CoordinatorIncrements(p, s, step);
      }
  }

  /** No state is more than 9n + 5 steps from the start, and only final states are that far. */
  lemma StepsTakenBound(p: Params, s: State)
    requires Inv(p, s)
    ensures StepsTaken(p, s) <= 9 * p.N() + 5
    ensures StepsTaken(p, s) == 9 * p.N() + 5 <==> Final(s)
  {
    SumBound(s.workers);
    CallsWithin(p, s);
    SubmitterBound(p, s);
    if Final(s) {
      AllEnded(p, s);
      AllCalledAllResolved(p, s);
    }
  }

  lemma SubmitterBound(p: Params, s: State)
    requires Inv(p, s)
    ensures SubmitterSteps(p, s.sub) <= 2 * p.N() + 2
    ensures SubmitterSteps(p, s.sub) == 2 * p.N() + 2 <==> s.sub.SubmitterGone?
  {
  }

  lemma AllEnded(p: Params, s: State)
    requires Inv(p, s) && s.proc.ProcessorGone?
    ensures |s.workers| == p.N() && forall k :: 0 <= k < |s.workers| ==> s.workers[k].pc.Ended?
  {
    forall k | 0 <= k < |s.workers| ensures s.workers[k].pc.Ended? {
      assert k !in Unfinished(s.workers);
    }
  }

  lemma CallsWithin(p: Params, s: State)
    requires Inv(p, s)
    ensures |s.calls| <= |s.workers| <= p.N()
  {
    BelowCard(|s.calls|);
    BelowCard(|s.workers|);
    var g := FactoryOf(s.calls);
    forall x, y | x in Below(|s.calls|) && y in Below(|s.calls|) && g(x) == g(y) ensures x == y {
      CallOwner(p, s, x);
      CallOwner(p, s, y);
    }
    InjectionBound(Below(|s.calls|), Below(|s.workers|), g);
  }

  lemma CallOwner(p: Params, s: State, f: nat)
    requires Inv(p, s) && f < |s.calls|
    ensures s.calls[f].factory < |s.workers| && s.workers[s.calls[f].factory].f == f
  {
  }

  lemma CalledOwner(p: Params, s: State, k: nat)
    requires Inv(p, s) && k < |s.workers| && HasCalled(s.workers[k].pc)
    ensures s.workers[k].f < |s.calls| && s.calls[s.workers[k].f].factory == k
  {
  }

  lemma EveryWorkerCalled(p: Params, s: State)
    requires Inv(p, s) && forall k :: 0 <= k < |s.workers| ==> HasCalled(s.workers[k].pc)
    ensures |s.workers| <= |s.calls|
  {
    BelowCard(|s.calls|);
    BelowCard(|s.workers|);
    var g := FutureOf(s.workers);
    forall x | x in Below(|s.workers|) ensures g(x) in Below(|s.calls|) && s.calls[g(x)].factory == x {
      CalledOwner(p, s, x);
    }
    InjectionBound(Below(|s.workers|), Below(|s.calls|), g);
  }

  lemma EveryCallResolved(p: Params, s: State)
    requires Inv(p, s) && forall k :: 0 <= k < |s.workers| ==> HasGot(s.workers[k].pc)
    ensures InFlight(s) == {}
  {
    forall f: nat | f < |s.calls| ensures s.calls[f].result.Some? {
      var k := s.calls[f].factory;
      assert s.workers[k].f == f && HasGot(s.workers[k].pc);
    }
  }

  /** Once every worker is past f.Get, every worker's task was started and has resolved. */
  lemma AllCalledAllResolved(p: Params, s: State)
    requires Inv(p, s) && forall k :: 0 <= k < |s.workers| ==> HasGot(s.workers[k].pc)
    ensures |s.calls| == |s.workers| && InFlight(s) == {}
  {
    CallsWithin(p, s);
    EveryWorkerCalled(p, s);
    EveryCallResolved(p, s);
  }

  lemma {:induction false} RunStepsTaken(p: Params, states: seq<State>, steps: seq<Step>)
    requires Run(p, states, steps)
    ensures |steps| == StepsTaken(p, states[|steps|])
  {
    var m := |steps|;
    if m == 0 {
      assert InFlight(Init(p)) == {};
    } else {
      RunPrefix(p, states, steps);
      RunStepsTaken(p, states[..m], steps[..m - 1]);
      RunInv(p, states, steps, m - 1);
      StepIncrements(p, states[m - 1], steps[m - 1]);
    }
  }

  /** Every run is at most 9n + 5 steps long, and it is that long exactly when it is complete. */
  lemma RunLength(p: Params, states: seq<State>, steps: seq<Step>)
    requires Run(p, states, steps)
    ensures |steps| <= 9 * p.N() + 5
    ensures |steps| == 9 * p.N() + 5 <==> Final(states[|steps|])
  {
    RunStepsTaken(p, states, steps);
    RunInv(p, states, steps, |steps|);
    StepsTakenBound(p, states[|steps|]);
  }

  // ------------------------------------------------------------------------
  // Deadlock freedom
  // ------------------------------------------------------------------------

  /** A step worker k itself can take, or that its task can take for it. */
  function WorkerMove(s: State, k: nat): Step
    requires k < |s.workers|
  {
    match s.workers[k].pc
    case AtFactory => CallFactory(k)
    case AtChain => ChainFuture(k)
    case AtGet =>
      if s.workers[k].f < |s.calls| && s.calls[s.workers[k].f].result.Some? then GetReturns(k)
      else ResolveTask(s.workers[k].f)
    case AtRelease => ReleaseToken(k)
    case _ => WorkerExit(k)
  }

  lemma UnfinishedWorkerMoves(p: Params, s: State, k: nat)
    requires Inv(p, s) && k in Unfinished(s.workers)
    ensures Enabled(p, s, WorkerMove(s, k))
  {
    if s.workers[k].pc.AtRelease? { ReleaseNeverBlocks(p, s, k); }
  }

  /** A step for a coordinator, used when every worker has ended. */
  function CoordinatorMove(s: State): Step {
    if s.proc.Spawning? then SpawnWorker
    else match s.sub
      case TakingToken(_) => TakeToken
      case HandingOver(_) => HandOver
      case Closing => CloseChannel
      case SubmitterLeaving => SubmitterExit
      case SubmitterGone =>
        match s.proc
        case Receiving => SeeClosed
        case Waiting => WaitReturns
        case _ => ProcessorExit
  }

  lemma CoordinatorMoves(p: Params, s: State)
    requires Inv(p, s) && Unfinished(s.workers) == {} && !Final(s)
    requires p.batchSize > 0 || p.N() == 0
    ensures Enabled(p, s, CoordinatorMove(s))
  {
    assert Holders(s.workers) <= Unfinished(s.workers);
  }

  ghost predicate Stuck(p: Params, s: State) {
    forall step: Step :: !Enabled(p, s, step)
  }

  /** With at least one token, or nothing to do, no reachable state but a final one is stuck;
      with no token and something to do, the very first state is. */
  lemma DeadlockFree(p: Params)
    ensures p.batchSize > 0 || p.N() == 0 <==> forall s: State :: Inv(p, s) && !Final(s) ==> !Stuck(p, s)
  {
    if p.batchSize > 0 || p.N() == 0 {
      forall s: State | Inv(p, s) && !Final(s) ensures !Stuck(p, s) {
        if Unfinished(s.workers) == {} {
          CoordinatorMoves(p, s);
        } else {
          var k :| k in Unfinished(s.workers);
          UnfinishedWorkerMoves(p, s, k);
        }
      }
    } else {
      InitInv(p);
      assert Stuck(p, Init(p));
    }
  }

  /** Every run can be extended to a complete one: no choice the runtime makes is a dead end. */
  lemma {:induction false} RunCompletes(p: Params, states: seq<State>, steps: seq<Step>)
    returns (allStates: seq<State>, allSteps: seq<Step>)
    requires Run(p, states, steps) && (p.batchSize > 0 || p.N() == 0)
    ensures states <= allStates && steps <= allSteps
    ensures Run(p, allStates, allSteps) && Final(allStates[|allSteps|])
    decreases 9 * p.N() + 5 - |steps|
  {
    RunLength(p, states, steps);
    var s := states[|steps|];
    RunInv(p, states, steps, |steps|);
    if Final(s) {
      allStates, allSteps := states, steps;
    } else {
      DeadlockFree(p);
      var step: Step :| Enabled(p, s, step);
      var states', steps' := states + [Apply(p, s, step)], steps + [step];
      assert Run(p, states', steps');
      RunLength(p, states', steps');
      allStates, allSteps := RunCompletes(p, states', steps');
    }
  }

  // ------------------------------------------------------------------------
  // Wait groups, readiness and confluence
  // ------------------------------------------------------------------------

  predicate AllReady(settables: seq<Settable>) {
    forall i :: 0 <= i < |settables| ==> settables[i].value.Some?
  }

  /** When wg reaches zero every settable holds its own factory's outcome. */
  lemma WaitGroupSound(p: Params, s: State)
    requires Inv(p, s) && s.wg == 0
    ensures Final(s) && |s.settables| == p.N()
    ensures forall i :: 0 <= i < p.N() ==> s.settables[i].value == Some(p.outcomes[i])
  {
    forall i | 0 <= i < p.N() ensures s.settables[i].value == Some(p.outcomes[i]) {
      assert i !in Unfinished(s.workers);
      assert s.workers[i].pc.Ended?;
      assert s.settables[i] == Settable(Some(s.workers[i].f), s.calls[s.workers[i].f].result);
    }
  }

  /** In every run, a settable that is ready holds its own factory's outcome from then on. */
  lemma {:induction false} ReadyIsStable(p: Params, states: seq<State>, steps: seq<Step>, i: nat, j: nat, k: nat)
    requires Run(p, states, steps) && j <= k < |states|
    requires i < |states[j].settables| && states[j].settables[i].value.Some?
    ensures i < p.N() && i < |states[k].settables|
    ensures states[k].settables[i].value == Some(p.outcomes[i])
    decreases k - j
  {
    RunInv(p, states, steps, j);
    if j < k {
      ReadyAfterStep(p, states[j], steps[j], i);
      ReadyIsStable(p, states, steps, i, j + 1, k);
    }
  }

  lemma ReadyAfterStep(p: Params, s: State, step: Step, i: nat)
    requires Inv(p, s) && Enabled(p, s, step) && i < |s.settables| && s.settables[i].value.Some?
    ensures var r := Apply(p, s, step); i < |r.settables| && r.settables[i].value == s.settables[i].value
  {
  }

  /** Confluence: whatever the interleavings and batch sizes, two runs over the same tasks whose
      wait group is down have the same caller-visible futures, those of the tasks themselves. */
  lemma Confluence(p: Params, states: seq<State>, steps: seq<Step>,
                   q: Params, states': seq<State>, steps': seq<Step>)
    requires Run(p, states, steps) && Run(q, states', steps') && p.outcomes == q.outcomes
    requires states[|steps|].wg == 0 && states'[|steps'|].wg == 0
    ensures |steps| == |steps'| == 9 * p.N() + 5
    ensures |states[|steps|].settables| == |states'[|steps'|].settables| == p.N()
    ensures forall i :: 0 <= i < p.N() ==>
              states[|steps|].settables[i].value == states'[|steps'|].settables[i].value == Some(p.outcomes[i])
  {
    RunInv(p, states, steps, |steps|);
    RunInv(q, states', steps', |steps'|);
    WaitGroupSound(p, states[|steps|]);
    WaitGroupSound(q, states'[|steps'|]);
    RunLength(p, states, steps);
    RunLength(q, states', steps');
  }
}
