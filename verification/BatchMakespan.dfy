/**
 The batch scheduler under virtual time.

 A task whose factory is called at time b resolves no earlier than b + d, and the
 workflow clock moves only when no coroutine can run and no task is due; it never
 moves past the moment a running task is due.
 */
module BatchMakespan {
  import opened Wrappers
  import opened Cardinality
  import opened BatchScheduler
  import opened BatchProperties

  /** A scheduler state, the clock, and when each factory was called. */
  datatype Timed = Timed(s: State, now: nat, began: seq<nat>)

  datatype TimedStep = Take(step: Step) | Advance(delta: nat)

  /** How long each factory's task takes. */
  predicate Durations(p: Params, d: seq<nat>) { |d| == p.N() }

  function TimedInit(p: Params): Timed {
    Timed(Init(p), 0, seq(p.N(), i => 0))
  }

  /** Factory i has been called. */
  predicate Called(s: State, i: nat) {
    i < |s.workers| && HasCalled(s.workers[i].pc) && s.workers[i].f < |s.calls|
  }

  /** Factory i's task runs. */
  predicate Busy(s: State, i: nat) {
    Called(s, i) && s.calls[s.workers[i].f].result.None?
  }

  predicate TakeEnabled(p: Params, d: seq<nat>, ts: Timed, step: Step)
    requires Durations(p, d)
  {
    && Enabled(p, ts.s, step)
    && |ts.began| == p.N()
    && (step.ResolveTask? ==>
          var i := ts.s.calls[step.f].factory;
          ts.began[i] + d[i] <= ts.now)
  }

  ghost predicate Quiet(p: Params, d: seq<nat>, ts: Timed)
    requires Durations(p, d)
  {
    forall step: Step :: !TakeEnabled(p, d, ts, step)
  }

  ghost predicate TimedEnabled(p: Params, d: seq<nat>, ts: Timed, tstep: TimedStep)
    requires Durations(p, d)
  {
    match tstep
    case Take(step) => TakeEnabled(p, d, ts, step)
    case Advance(delta) =>
      && delta > 0 && Quiet(p, d, ts) && |ts.began| == p.N()
      && (exists i: nat :: Busy(ts.s, i))
      && forall i: nat :: i < p.N() && Busy(ts.s, i) ==> ts.now + delta <= ts.began[i] + d[i]
  }

  function TimedApply(p: Params, d: seq<nat>, ts: Timed, tstep: TimedStep): Timed
    requires Durations(p, d)
    requires tstep.Take? ==> TakeEnabled(p, d, ts, tstep.step)
  {
    match tstep
    case Take(step) =>
      ts.(s := Apply(p, ts.s, step),
          began := if step.CallFactory? then ts.began[ts.s.workers[step.k].idx := ts.now] else ts.began)
    case Advance(delta) => ts.(now := ts.now + delta)
  }

  ghost predicate TimedRun(p: Params, d: seq<nat>, states: seq<Timed>, steps: seq<TimedStep>)
    requires Durations(p, d)
  {
    && |states| == |steps| + 1
    && states[0] == TimedInit(p)
    && forall j | 0 <= j < |steps| ::
         TimedEnabled(p, d, states[j], steps[j]) && states[j + 1] == TimedApply(p, d, states[j], steps[j])
  }

  // ------------------------------------------------------------------------
  // Sums and maxima of durations, and the work done so far
  // ------------------------------------------------------------------------

  function Sum(d: seq<nat>): nat {
    if d == [] then 0 else Sum(d[..|d| - 1]) + d[|d| - 1]
  }

  function Max(d: seq<nat>): (m: nat)
    ensures forall i :: 0 <= i < |d| ==> d[i] <= m
    ensures if d == [] then m == 0 else m in d
  {
    if d == [] then 0
    else
      var m := Max(d[..|d| - 1]);
      if m < d[|d| - 1] then d[|d| - 1] else m
  }

  /** How long factory i's task has run. */
  function Elapsed(d: seq<nat>, ts: Timed, i: nat): nat
    requires i < |d| && i < |ts.began|
  {
    if !Called(ts.s, i) then 0
    else if Busy(ts.s, i) then (if ts.began[i] <= ts.now then ts.now - ts.began[i] else 0)
    else d[i]
  }

  function Elapsings(d: seq<nat>, ts: Timed): seq<nat>
    requires |ts.began| == |d|
  {
    seq(|d|, i requires 0 <= i < |d| => Elapsed(d, ts, i))
  }

  lemma {:induction false} SumMonotone(a: seq<nat>, b: seq<nat>)
    requires |a| == |b| && forall i :: 0 <= i < |a| ==> a[i] <= b[i]
    ensures Sum(a) <= Sum(b)
  {
    if a == [] {
    } else {
      SumMonotone(a[..|a| - 1], b[..|a| - 1]);
    }
  }

  /** Where b has nothing, a sum bounded by b leaves room for that entry of a. */
  lemma {:induction false} SumRoom(a: seq<nat>, b: seq<nat>, k: nat)
    requires |a| == |b| && k < |a| && b[k] == 0 && forall i :: 0 <= i < |a| ==> b[i] <= a[i]
    ensures Sum(b) + a[k] <= Sum(a)
  {
    var m := |a| - 1;
    if k == m {
      SumMonotone(b[..m], a[..m]);
    } else {
      SumRoom(a[..m], b[..m], k);
    }
  }

  lemma OneMore(x: nat, y: nat)
    ensures x * (y + 1) == x * y + x
  {
  }

  /** Adding delta to the entries whose index is in s adds delta for each of them. */
  lemma {:induction false} SumTick(a: seq<nat>, b: seq<nat>, s: set<nat>, delta: nat)
    requires |a| == |b| && forall i :: i in s ==> i < |a|
    requires forall i: nat :: i < |a| ==> b[i] == a[i] + if i in s then delta else 0
    ensures Sum(b) == Sum(a) + delta * |s|
  {
    if a == [] {
      assert s == {};
    } else {
      var m := |a| - 1;
      var rest := s - {m};
      SumTick(a[..m], b[..m], rest, delta);
      if m in s {
        OneMore(delta, |rest|);
        assert s == rest + {m};
      } else {
        assert rest == s;
      }
    }
  }

  // ------------------------------------------------------------------------
  // The timed invariant
  // ------------------------------------------------------------------------

  ghost function BusySet(s: State): set<nat> {
    set i: nat | i < |s.workers| && Busy(s, i)
  }

  /** Every task runs from its start to at most its due time, and to it once resolved. */
  ghost predicate ClockInv(p: Params, d: seq<nat>, ts: Timed)
    requires Durations(p, d)
  {
    && |ts.began| == p.N()
    && (forall i :: 0 <= i < p.N() ==> ts.began[i] <= ts.now)
    && (forall i :: 0 <= i < p.N() && Called(ts.s, i) ==>
          if Busy(ts.s, i) then ts.now <= ts.began[i] + d[i] else ts.began[i] + d[i] <= ts.now)
    && (ts.now == 0 || exists i :: 0 <= i < p.N() && Called(ts.s, i) && ts.now <= ts.began[i] + d[i])
  }

  /** While some factory is still to be called the semaphore is kept full, so the work done
      is batchSize times the clock; hence each task starts before the others' total work
      divided by batchSize. */
  ghost predicate WorkInv(p: Params, d: seq<nat>, ts: Timed)
    requires Durations(p, d) && |ts.began| == p.N()
  {
    && Sum(Elapsings(d, ts)) <= p.batchSize * ts.now
    && ((exists i :: 0 <= i < p.N() && !Called(ts.s, i)) ==> Sum(Elapsings(d, ts)) == p.batchSize * ts.now)
    && (forall i :: 0 <= i < p.N() && Called(ts.s, i) ==> p.batchSize * ts.began[i] + d[i] <= Sum(d))
    && (p.N() <= p.batchSize ==> forall i :: 0 <= i < p.N() ==> ts.began[i] == 0)
    && (p.N() <= p.batchSize && ts.now > 0 ==> forall i :: 0 <= i < p.N() ==> Called(ts.s, i))
  }

  ghost predicate TimedInv(p: Params, d: seq<nat>, ts: Timed)
    requires Durations(p, d)
  {
    Inv(p, ts.s) && ClockInv(p, d, ts) && WorkInv(p, d, ts)
  }

  lemma {:induction false} SumZero(a: seq<nat>)
    requires forall i :: 0 <= i < |a| ==> a[i] == 0
    ensures Sum(a) == 0
  {
    if a != [] { SumZero(a[..|a| - 1]); }
  }

  lemma TimedInitInv(p: Params, d: seq<nat>)
    requires Durations(p, d)
    ensures TimedInv(p, d, TimedInit(p))
  {
    InitInv(p);
    SumZero(Elapsings(d, TimedInit(p)));
  }

  lemma CalledAfter(p: Params, s: State, step: Step, i: nat)
    requires Inv(p, s) && Enabled(p, s, step)
    ensures Called(Apply(p, s, step), i) <==> Called(s, i) || step == CallFactory(i)
  {
    CallStep(p, s, step);
  }

  lemma BusyAfter(p: Params, s: State, step: Step, i: nat)
    requires Inv(p, s) && Enabled(p, s, step)
    ensures Busy(Apply(p, s, step), i) <==>
              step == CallFactory(i) || (Busy(s, i) && !(step.ResolveTask? && s.calls[step.f].factory == i))
  {
    CallStep(p, s, step);
  }

  /** A step changes the call status of at most the worker or task it is about. */
  lemma StatusAfter(p: Params, s: State, step: Step, i: nat)
    requires Inv(p, s) && Enabled(p, s, step)
    ensures var t := Apply(p, s, step);
            && (Called(t, i) <==> Called(s, i) || step == CallFactory(i))
            && (Busy(t, i) <==> step == CallFactory(i) ||
                                (Busy(s, i) && !(step.ResolveTask? && s.calls[step.f].factory == i)))
  {
    CalledAfter(p, s, step, i);
    BusyAfter(p, s, step, i);
  }

  lemma TakeKeepsClock(p: Params, d: seq<nat>, ts: Timed, step: Step)
    requires Durations(p, d) && TimedInv(p, d, ts) && TakeEnabled(p, d, ts, step)
    ensures ClockInv(p, d, TimedApply(p, d, ts, Take(step)))
  {
    var t := TimedApply(p, d, ts, Take(step));
    forall i: nat { StatusAfter(p, ts.s, step, i); }
    if ts.now > 0 {
      var i :| 0 <= i < p.N() && Called(ts.s, i) && ts.now <= ts.began[i] + d[i];
      assert Called(t.s, i) && t.now <= t.began[i] + d[i];
    }
  }

  /** No step of a coroutine adds to the work done: that takes time. */
  lemma ElapsedKept(p: Params, d: seq<nat>, ts: Timed, step: Step, i: nat)
    requires Durations(p, d) && TimedInv(p, d, ts) && TakeEnabled(p, d, ts, step) && i < p.N()
    ensures Elapsed(d, TimedApply(p, d, ts, Take(step)), i) == Elapsed(d, ts, i)
  {
    StatusAfter(p, ts.s, step, i);
  }

  /** A factory is called before batchSize times the clock exceeds the other tasks' total work. */
  lemma CallRoom(p: Params, d: seq<nat>, ts: Timed, k: nat)
    requires Durations(p, d) && TimedInv(p, d, ts) && k < p.N() && !Called(ts.s, k)
    ensures p.batchSize * ts.now + d[k] <= Sum(d)
  {
    forall i: nat | i < p.N() ensures Elapsed(d, ts, i) <= d[i] { }
    SumRoom(d, Elapsings(d, ts), k);
  }

  lemma TakeKeepsStarts(p: Params, d: seq<nat>, ts: Timed, step: Step, i: nat)
    requires Durations(p, d) && TimedInv(p, d, ts) && TakeEnabled(p, d, ts, step) && i < p.N()
    ensures var t := TimedApply(p, d, ts, Take(step));
            && |t.began| == p.N()
            && (Called(t.s, i) ==> p.batchSize * t.began[i] + d[i] <= Sum(d))
            && (p.N() <= p.batchSize ==> t.began[i] == 0)
            && (Called(ts.s, i) ==> Called(t.s, i))
  {
    StatusAfter(p, ts.s, step, i);
    if step == CallFactory(i) {
      CallRoom(p, d, ts, i);
    }
  }

  lemma TakeKeepsWork(p: Params, d: seq<nat>, ts: Timed, step: Step)
    requires Durations(p, d) && TimedInv(p, d, ts) && TakeEnabled(p, d, ts, step)
    ensures WorkInv(p, d, TimedApply(p, d, ts, Take(step)))
  {
    var t := TimedApply(p, d, ts, Take(step));
    forall i: nat | i < p.N() ensures Elapsed(d, t, i) == Elapsed(d, ts, i) { ElapsedKept(p, d, ts, step, i); }
    assert Elapsings(d, t) == Elapsings(d, ts);
    forall i: nat | i < p.N() { TakeKeepsStarts(p, d, ts, step, i); }
  }

  /** When nothing can run and some factory is still to be called, exactly batchSize tasks run. */
  lemma QuietIsFull(p: Params, d: seq<nat>, ts: Timed, i: nat)
    requires Durations(p, d) && TimedInv(p, d, ts) && Quiet(p, d, ts)
    requires i < p.N() && !Called(ts.s, i)
    ensures |BusySet(ts.s)| == p.batchSize
  {
    var s := ts.s;
    forall k: nat | k < |s.workers| ensures Busy(s, k) <==> !HasReleased(s.workers[k].pc) {
      assert !TakeEnabled(p, d, ts, WorkerMove(s, k));
      if k in Unfinished(s.workers) { UnfinishedWorkerMoves(p, s, k); }
    }
    assert BusySet(s) == Holders(s.workers);
    assert i >= |s.workers|;
    assert !TakeEnabled(p, d, ts, SpawnWorker);
    assert !TakeEnabled(p, d, ts, HandOver);
    assert !TakeEnabled(p, d, ts, TakeToken);
  }

  lemma BusyBound(p: Params, s: State)
    requires Inv(p, s)
    ensures |BusySet(s)| <= p.batchSize && |BusySet(s)| <= |s.workers|
  {
    forall i | i in BusySet(s) ensures i in Holders(s.workers) { }
    InjectionBound(BusySet(s), Holders(s.workers), i => i);
    BelowCard(|s.workers|);
    InjectionBound(BusySet(s), Below(|s.workers|), i => i);
  }

  lemma AdvanceKeepsClock(p: Params, d: seq<nat>, ts: Timed, delta: nat)
    requires Durations(p, d) && TimedInv(p, d, ts) && TimedEnabled(p, d, ts, Advance(delta))
    ensures ClockInv(p, d, TimedApply(p, d, ts, Advance(delta)))
  {
    var t := TimedApply(p, d, ts, Advance(delta));
    var busy: nat :| Busy(ts.s, busy);
    assert Called(t.s, busy) && t.now <= t.began[busy] + d[busy];
  }

  /** A clock move of delta adds delta to the work for each running task. */
  lemma AdvanceWork(p: Params, d: seq<nat>, ts: Timed, delta: nat)
    requires Durations(p, d) && TimedInv(p, d, ts)
    ensures Sum(Elapsings(d, ts.(now := ts.now + delta))) == Sum(Elapsings(d, ts)) + delta * |BusySet(ts.s)|
  {
    var t := ts.(now := ts.now + delta);
    var b := BusySet(ts.s);
    forall i: nat | i < |d| ensures Elapsings(d, t)[i] == Elapsings(d, ts)[i] + if i in b then delta else 0 { }
    SumTick(Elapsings(d, ts), Elapsings(d, t), b, delta);
  }

  lemma MulMonotone(x: nat, y: nat, z: nat)
    requires y <= z
    ensures x * y <= x * z
  {
  }

  lemma AdvanceArithmetic(m: nat, now: nat, delta: nat, work: nat, busy: nat)
    requires work <= m * now && busy <= m
    ensures work + delta * busy <= m * (now + delta)
    ensures work == m * now && busy == m ==> work + delta * busy == m * (now + delta)
  {
    MulMonotone(delta, busy, m);
    assert m * (now + delta) == m * now + delta * m;
  }

  lemma AdvanceFull(p: Params, d: seq<nat>, ts: Timed)
    requires Durations(p, d) && TimedInv(p, d, ts) && Quiet(p, d, ts)
    ensures forall i: nat :: i < p.N() && !Called(ts.s, i) ==> |BusySet(ts.s)| == p.batchSize < p.N()
  {
    forall i: nat | i < p.N() && !Called(ts.s, i) ensures |BusySet(ts.s)| == p.batchSize < p.N() {
      QuietIsFull(p, d, ts, i);
      UnstartedNotBusy(p, ts.s, i);
    }
  }

  /** A clock move keeps the work invariant when the tasks that run fill the semaphore, or every
      factory has been called. */
  lemma WorkGrows(p: Params, d: seq<nat>, ts: Timed, t: Timed, done: nat, busy: nat, delta: nat)
    requires Durations(p, d) && |ts.began| == p.N() && WorkInv(p, d, ts) && t == ts.(now := ts.now + delta)
    requires done == Sum(Elapsings(d, ts)) && Sum(Elapsings(d, t)) == done + delta * busy && busy <= p.batchSize
    requires forall i: nat :: i < p.N() && !Called(ts.s, i) ==> busy == p.batchSize < p.N()
    ensures WorkInv(p, d, t)
  {
    AdvanceArithmetic(p.batchSize, ts.now, delta, done, busy);
  }

  lemma AdvanceKeepsWork(p: Params, d: seq<nat>, ts: Timed, t: Timed, delta: nat)
    requires Durations(p, d) && TimedInv(p, d, ts) && Quiet(p, d, ts) && t == ts.(now := ts.now + delta)
    ensures WorkInv(p, d, t)
  {
    AdvanceWork(p, d, ts, delta);
    BusyBound(p, ts.s);
    AdvanceFull(p, d, ts);
    WorkGrows(p, d, ts, t, Sum(Elapsings(d, ts)), |BusySet(ts.s)|, delta);
  }

  /** Fewer than n tasks run while one is still to be started. */
  lemma UnstartedNotBusy(p: Params, s: State, i: nat)
    requires Inv(p, s) && i < p.N() && !Called(s, i)
    ensures |BusySet(s)| < p.N()
  {
    BelowCard(p.N());
    assert |Below(p.N()) - {i}| == p.N() - 1;
    InjectionBound(BusySet(s), Below(p.N()) - {i}, k => k);
  }

  lemma {:induction false} TimedRunInv(p: Params, d: seq<nat>, states: seq<Timed>, steps: seq<TimedStep>, j: nat)
    requires Durations(p, d) && TimedRun(p, d, states, steps) && j < |states|
    ensures TimedInv(p, d, states[j])
  {
    if j == 0 {
      TimedInitInv(p, d);
    } else {
      TimedRunInv(p, d, states, steps, j - 1);
      match steps[j - 1]
      case Advance(delta) =>
        AdvanceKeepsClock(p, d, states[j - 1], delta);
        AdvanceKeepsWork(p, d, states[j - 1], states[j], delta);
      case Take(step) =>
        StepInv(p, states[j - 1].s, step);
        TakeKeepsClock(p, d, states[j - 1], step);
        TakeKeepsWork(p, d, states[j - 1], step);
    }
  }

  // ------------------------------------------------------------------------
  // Main results
  // ------------------------------------------------------------------------

  /** Some task started at began and runs for di, at least until now. */
  ghost predicate RunsUntil(p: Params, d: seq<nat>, now: nat, began: nat, di: nat) {
    now <= began + di && di <= Max(d) && p.batchSize * began + di <= Sum(d)
  }

  lemma LatestTask(p: Params, d: seq<nat>, states: seq<Timed>, steps: seq<TimedStep>, j: nat) returns (began: nat, di: nat)
    requires Durations(p, d) && TimedRun(p, d, states, steps) && j < |states| && states[j].now > 0
    ensures RunsUntil(p, d, states[j].now, began, di)
  {
    TimedRunInv(p, d, states, steps, j);
    var ts := states[j];
    var i :| 0 <= i < p.N() && Called(ts.s, i) && ts.now <= ts.began[i] + d[i];
    began, di := ts.began[i], d[i];
  }

  lemma GreedyArithmetic(m: nat, now: nat, began: nat, di: nat, longest: nat, sum: nat)
    requires m >= 1 && now <= began + di && di <= longest && m * began + di <= sum
    ensures m * now <= sum + (m - 1) * longest
  {
    MulMonotone(m, now, began + di);
    assert m * (began + di) == m * began + di + (m - 1) * di;
    MulMonotone(m - 1, di, longest);
  }

  /** The greedy bound: at every moment of every timed run the clock T satisfies
      batchSize * T <= sum(d) + (batchSize - 1) * max(d). */
  lemma GreedyBound(p: Params, d: seq<nat>, states: seq<Timed>, steps: seq<TimedStep>, j: nat)
    requires Durations(p, d) && TimedRun(p, d, states, steps) && j < |states| && p.batchSize >= 1
    ensures p.batchSize * states[j].now <= Sum(d) + (p.batchSize - 1) * Max(d)
  {
    if states[j].now > 0 {
      var began, di := LatestTask(p, d, states, steps, j);
      GreedyArithmetic(p.batchSize, states[j].now, began, di, Max(d), Sum(d));
    } else {
      MulMonotone(p.batchSize - 1, 0, Max(d));
    }
  }

  /** A complete run lasts at least sum(d) / batchSize and at least max(d); with room for every
      task at once it lasts exactly max(d). */
  lemma Makespan(p: Params, d: seq<nat>, states: seq<Timed>, steps: seq<TimedStep>)
    requires Durations(p, d) && TimedRun(p, d, states, steps) && Final(states[|steps|].s)
    ensures var T := states[|steps|].now;
            && Sum(d) <= p.batchSize * T
            && Max(d) <= T
            && (p.N() <= p.batchSize ==> T == Max(d))
  {
    TimedRunInv(p, d, states, steps, |steps|);
    var ts := states[|steps|];
    AllEnded(p, ts.s);
    forall i: nat | i < p.N() ensures Called(ts.s, i) && !Busy(ts.s, i) && d[i] <= ts.now {
      assert ts.s.workers[i].pc.Ended?;
    }
    assert Elapsings(d, ts) == d;
  }

  /** A timed run is stuck only when it is complete: either a coroutine runs, or a task is due,
      or the clock can move. */
  lemma TimedProgress(p: Params, d: seq<nat>, states: seq<Timed>, steps: seq<TimedStep>)
    requires Durations(p, d) && TimedRun(p, d, states, steps)
    requires p.batchSize > 0 || p.N() == 0
    requires !Final(states[|steps|].s)
    ensures exists tstep :: TimedEnabled(p, d, states[|steps|], tstep)
  {
    TimedRunInv(p, d, states, steps, |steps|);
    var ts := states[|steps|];
    if Quiet(p, d, ts) {
      DeadlockFree(p);
      var step: Step :| Enabled(p, ts.s, step);
      assert !TakeEnabled(p, d, ts, step);
      var f := step.f;
      assert ts.s.workers[ts.s.calls[f].factory].f == f;
      assert Busy(ts.s, ts.s.calls[f].factory);
      forall i: nat | i < p.N() && Busy(ts.s, i) ensures ts.now + 1 <= ts.began[i] + d[i] {
        assert !TakeEnabled(p, d, ts, ResolveTask(ts.s.workers[i].f));
      }
      assert TimedEnabled(p, d, ts, Advance(1));
    } else {
      var step: Step :| TakeEnabled(p, d, ts, step);
      assert TimedEnabled(p, d, ts, Take(step));
    }
  }

  lemma TimedRunPrefix(p: Params, d: seq<nat>, states: seq<Timed>, steps: seq<TimedStep>)
    requires Durations(p, d) && TimedRun(p, d, states, steps) && steps != []
    ensures TimedRun(p, d, states[..|steps|], steps[..|steps| - 1])
  {
  }

  lemma TimedStepCount(p: Params, d: seq<nat>, ts: Timed, tstep: TimedStep)
    requires Durations(p, d) && Inv(p, ts.s) && TimedEnabled(p, d, ts, tstep)
    ensures var t := TimedApply(p, d, ts, tstep);
            && StepsTaken(p, t.s) == StepsTaken(p, ts.s) + (if tstep.Take? then 1 else 0)
            && t.now >= ts.now + (if tstep.Take? then 0 else 1)
  {
    if tstep.Take? { StepIncrements(p, ts.s, tstep.step); }
  }

  lemma {:induction false} TimedStepsTaken(p: Params, d: seq<nat>, states: seq<Timed>, steps: seq<TimedStep>)
    requires Durations(p, d) && TimedRun(p, d, states, steps)
    ensures StepsTaken(p, states[|steps|].s) <= |steps| <= StepsTaken(p, states[|steps|].s) + states[|steps|].now
  {
    var m := |steps|;
    if m == 0 {
      assert InFlight(Init(p)) == {};
    } else {
      TimedRunPrefix(p, d, states, steps);
      TimedStepsTaken(p, d, states[..m], steps[..m - 1]);
      assert states[..m][m - 1] == states[m - 1];
      TimedRunInv(p, d, states, steps, m - 1);
      TimedStepCount(p, d, states[m - 1], steps[m - 1]);
      assert states[m] == TimedApply(p, d, states[m - 1], steps[m - 1]);
    }
  }

  /** A timed run makes at most 9n + 5 steps besides clock moves, and at most T clock moves. */
  lemma TimedRunLength(p: Params, d: seq<nat>, states: seq<Timed>, steps: seq<TimedStep>)
    requires Durations(p, d) && TimedRun(p, d, states, steps)
    ensures |steps| <= 9 * p.N() + 5 + states[|steps|].now
  {
    TimedStepsTaken(p, d, states, steps);
    TimedRunInv(p, d, states, steps, |steps|);
    StepsTakenBound(p, states[|steps|].s);
  }
}
