/** The caller's side of a batch: construction, readiness and result collection. */
module BatchFutures {
  import opened Wrappers
  import opened BatchScheduler
  import opened BatchProperties

  /** A variable of slice type: a length over a backing array whose length is the capacity. */
  class SliceVar {
    var data: array<int>
    var len: nat

    predicate Valid() reads this { len <= data.Length }

    ghost function Contents(): seq<int>
      requires Valid()
      reads this, data
    {
      data[..len]
    }

    constructor (data: array<int>, len: nat)
      requires len <= data.Length
      ensures this.data == data && this.len == len && Valid()
    {
      this.data, this.len := data, len;
    }

    /** reflect's Grow: guarantees room for k elements beyond len, reallocating only when the
        present capacity is short of that.  A new array keeps the old one's elements up to its
        capacity, also those beyond len, and is zero after them; it may have spare room. */
    method Grow(k: nat, spare: nat)
      requires Valid()
      modifies this
      ensures Valid() && len == old(len)
      ensures if old(len) + k <= old(data.Length) then data == old(data)
              else fresh(data) && data.Length == old(len) + k + spare
                   && data[..] == old(data[..]) + seq(old(len) + k + spare - old(data.Length), _ => 0)
    {
      if len + k > data.Length {
        var copy := new int[len + k + spare](i => 0);
        for i := 0 to data.Length
          invariant copy[..] == data[..i] + seq(copy.Length - i, _ => 0)
          modifies copy
        {
          copy[i] := data[i];
        }
        data := copy;
      }
    }
  }

  /** What the caller passes as valuePtr. */
  datatype Target = NilTarget | NotASlice | SlicePtr(v: SliceVar)

  /** Blocked: the wait group never comes down. */
  datatype GetResult = Collected(errs: seq<string>) | BadTarget | Panicked | Blocked

  // ------------------------------------------------------------------------
  // The sequential loop that Get is measured against
  // ------------------------------------------------------------------------

  /** The errors of the failed outcomes, in index order. */
  function Errors(outcomes: seq<Outcome>): seq<string> {
    if outcomes == [] then []
    else
      var m := |outcomes| - 1;
      Errors(outcomes[..m]) + match outcomes[m] { case Good(_) => [] case Bad(e) => [e] }
  }

  /** Good values in their own places, what was there before in the places of failures. */
  function Filled(outcomes: seq<Outcome>, before: seq<int>): (r: seq<int>)
    requires |before| == |outcomes|
    ensures |r| == |outcomes|
  {
    seq(|outcomes|, i requires 0 <= i < |outcomes| =>
      match outcomes[i] case Good(v) => v case Bad(_) => before[i])
  }

  lemma ErrorsStep(outcomes: seq<Outcome>, i: nat)
    requires i < |outcomes|
    ensures Errors(outcomes[..i + 1]) ==
            Errors(outcomes[..i]) + match outcomes[i] { case Good(_) => [] case Bad(e) => [e] }
  {
    assert outcomes[..i + 1][..i] == outcomes[..i];
  }

  /** Good values stand in their own places; in the place of a failure the element is what the old
      array held there, also beyond the old length, or zero past its capacity. */
  ghost predicate ValuesOf(outcomes: seq<Outcome>, backing: seq<int>, contents: seq<int>) {
    && |contents| == |outcomes|
    && forall i :: 0 <= i < |outcomes| ==>
         contents[i] == match outcomes[i]
                        case Good(v) => v
                        case Bad(_) => if i < |backing| then backing[i] else 0
  }

  lemma FilledIsValues(outcomes: seq<Outcome>, backing: seq<int>)
    ensures ValuesOf(outcomes, backing, Filled(outcomes, Resized(backing, |outcomes|)))
  {
  }

  /** A slice whose first i results have been stored. */
  function FilledUpTo(outcomes: seq<Outcome>, before: seq<int>, i: nat): (r: seq<int>)
    requires |before| == |outcomes|
    ensures |r| == |outcomes|
    ensures i == 0 ==> r == before
    ensures i >= |outcomes| ==> r == Filled(outcomes, before)
  {
    seq(|outcomes|, k requires 0 <= k < |outcomes| => if k < i then Filled(outcomes, before)[k] else before[k])
  }

  lemma FilledStep(outcomes: seq<Outcome>, before: seq<int>, i: nat)
    requires |before| == |outcomes| && i < |outcomes|
    ensures var r := FilledUpTo(outcomes, before, i);
            FilledUpTo(outcomes, before, i + 1) ==
              match outcomes[i] case Good(x) => r[i := x] case Bad(_) => r
  {
    var r, t := FilledUpTo(outcomes, before, i), FilledUpTo(outcomes, before, i + 1);
    forall k | 0 <= k < |t| ensures t[k] == if k == i then Filled(outcomes, before)[i] else r[k] { }
    assert r[i] == before[i];
  }

  /** How many of the first n outcomes are failures. */
  function FailedBefore(outcomes: seq<Outcome>, n: nat): nat
    requires n <= |outcomes|
  {
    if n == 0 then 0 else FailedBefore(outcomes, n - 1) + if outcomes[n - 1].Bad? then 1 else 0
  }

  /** One error for each failure, its own, in index order. */
  ghost predicate ErrorsOf(outcomes: seq<Outcome>, errs: seq<string>) {
    && |errs| == FailedBefore(outcomes, |outcomes|)
    && forall i :: 0 <= i < |outcomes| && outcomes[i].Bad? ==>
         FailedBefore(outcomes, i) < |errs| && errs[FailedBefore(outcomes, i)] == outcomes[i].error
  }

  lemma {:induction false} ErrorCount(outcomes: seq<Outcome>, n: nat)
    requires n <= |outcomes|
    ensures |Errors(outcomes[..n])| == FailedBefore(outcomes, n)
  {
    if n > 0 {
      ErrorCount(outcomes, n - 1);
      ErrorsStep(outcomes, n - 1);
    }
  }

  lemma {:induction false} ErrorAt(outcomes: seq<Outcome>, n: nat, i: nat)
    requires i < n <= |outcomes| && outcomes[i].Bad?
    ensures var errs := Errors(outcomes[..n]);
            FailedBefore(outcomes, i) < |errs| && errs[FailedBefore(outcomes, i)] == outcomes[i].error
  {
    ErrorsStep(outcomes, n - 1);
    if i < n - 1 {
      ErrorAt(outcomes, n - 1, i);
    } else {
      ErrorCount(outcomes, i);
    }
  }

  lemma ErrorsAreOf(outcomes: seq<Outcome>)
    ensures ErrorsOf(outcomes, Errors(outcomes))
  {
    var n := |outcomes|;
    assert outcomes[..n] == outcomes;
    ErrorCount(outcomes, n);
    forall i: nat | i < n && outcomes[i].Bad?
      ensures FailedBefore(outcomes, i) < |Errors(outcomes)| && Errors(outcomes)[FailedBefore(outcomes, i)] == outcomes[i].error
    {
      ErrorAt(outcomes, n, i);
    }
  }

  lemma {:induction false} ErrorsEmpty(outcomes: seq<Outcome>)
    ensures Errors(outcomes) == [] <==> forall i :: 0 <= i < |outcomes| ==> outcomes[i].Good?
  {
    if outcomes != [] { ErrorsEmpty(outcomes[..|outcomes| - 1]); }
  }

  // ------------------------------------------------------------------------
  // Resizing the output slice
  // ------------------------------------------------------------------------

  /** The capacity after the resize: Grow is asked for n - cap elements beyond len. */
  function CapAfter(len: nat, cap: nat, n: nat, spare: nat): nat {
    if cap >= n || len + (n - cap) <= cap then cap else len + (n - cap) + spare
  }

  /** SetLen(n) panics beyond the capacity. */
  predicate ResizePanics(len: nat, cap: nat, n: nat, spare: nat) {
    CapAfter(len, cap, n, spare) < n
  }

  /** The resize is safe whatever spare room the allocator adds if and only if the slice is
      full or already has room. */
  lemma ResizeSafe(len: nat, cap: nat, n: nat)
    requires len <= cap
    ensures (forall spare: nat :: !ResizePanics(len, cap, n, spare)) <==> len == cap || cap >= n
  {
    if len < cap < n {
      assert ResizePanics(len, cap, n, 0);
    }
  }

  /** A slice of capacity 2 and length 0 cannot take the results of three tasks. */
  lemma ResizeUnsafeExample(spare: nat)
    ensures ResizePanics(0, 2, 3, spare)
  {
  }

  /** The elements a resized slice shows before any result is stored: what the old array held, also
      beyond the old length, then zeros. */
  function Resized(backing: seq<int>, n: nat): (r: seq<int>)
    ensures |r| == n
  {
    if n <= |backing| then backing[..n] else backing + seq(n - |backing|, _ => 0)
  }

  // ------------------------------------------------------------------------
  // The BatchFuture object
  // ------------------------------------------------------------------------

  /** A batch of tasks that may not run at all. */
  predicate Blocks(p: Params) { p.batchSize == 0 && p.N() > 0 }

  /** With no room for a token nothing is ever handed over. */
  ghost predicate Held(p: Params, s: State) {
    p.batchSize == 0 ==> HandedOver(s) == 0
  }

  /** A batch that blocks is stuck from the start, with its wait group up. */
  lemma BlocksIsStuck(p: Params, s: State)
    requires Inv(p, s) && Held(p, s) && Blocks(p)
    ensures s.wg != 0 && Stuck(p, s)
  {
    assert !s.sub.HandingOver?;
  }

  class BatchFuture {
    const p: Params
    var s: State

    ghost predicate Valid() reads this { Inv(p, s) && Held(p, s) }

    /** NewBatchFuture: one fresh settable per factory, then both coordinators are started. */
    constructor (p: Params)
      ensures this.p == p && s == Init(p) && Valid()
    {
      this.p := p;
      var settables: seq<Settable> := [];
      for i := 0 to |p.outcomes|
        invariant settables == seq(i, _ => Settable(None, None))
      {
        settables := settables + [Settable(None, None)];
      }
      s := State(0, false, AfterSend(p, 0), Receiving, [], [], settables, 0, 2);
      new;
      InitInv(p);
    }

    /** IsReady: true exactly when every future holds a result. */
    method IsReady() returns (ready: bool)
      ensures ready <==> AllReady(s.settables)
    {
      for i := 0 to |s.settables|
        invariant forall k :: 0 <= k < i ==> s.settables[k].value.Some?
      {
        if s.settables[i].value.None? {
          return false;
        }
      }
      return true;
    }

    /** wg.Wait: the other coroutines run, in any order, until the wait group is down or none of
        them can ever run. */
    method Wait() returns (blocked: bool)
      requires Valid()
      modifies this`s
      ensures Valid() && (blocked <==> Blocks(p))
      ensures if blocked then s.wg != 0 && Stuck(p, s) else s.wg == 0
      ensures !blocked ==> |s.settables| == p.N() && AllReady(s.settables)
      ensures !blocked ==> forall i :: 0 <= i < p.N() ==> s.settables[i].value == Some(p.outcomes[i])
    {
      if Blocks(p) {
        BlocksIsStuck(p, s);
        return true;
      }
      while s.wg != 0
        invariant Valid()
        decreases 9 * p.N() + 5 - StepsTaken(p, s)
      {
        StepsTakenBound(p, s);
        DeadlockFree(p);
        assert !Final(s);
        var step: Step :| Enabled(p, s, step);
        StepInv(p, s, step);
        StepIncrements(p, s, step);
        StepsTakenBound(p, Apply(p, s, step));
        s := Apply(p, s, step);
      }
      WaitGroupSound(p, s);
      return false;
    }

    /** The resize Get makes before it waits: room for every result, or a panic. */
    method Resize(v: SliceVar, spare: nat) returns (panicked: bool)
      requires v.Valid()
      modifies v
      ensures panicked <==> ResizePanics(old(v.len), old(v.data.Length), |s.settables|, spare)
      ensures v.data == old(v.data) || fresh(v.data)
      ensures !panicked ==> v.Valid() && v.len == |s.settables|
      ensures !panicked ==> v.Contents() == Resized(old(v.data[..]), |s.settables|)
    {
      var n := |s.settables|;
      if v.data.Length < n {
        v.Grow(n - v.data.Length, spare);
      }
      if n > v.data.Length {
        return true;
      }
      v.len := n;
      return false;
    }

    /** The loop of Get without a slice: only the errors are kept. */
    method CollectErrors() returns (errs: seq<string>)
      requires |s.settables| == p.N()
      requires forall i :: 0 <= i < p.N() ==> s.settables[i].value == Some(p.outcomes[i])
      ensures errs == Errors(p.outcomes)
    {
      errs := [];
      for i := 0 to |s.settables|
        invariant errs == Errors(p.outcomes[..i])
      {
        ErrorsStep(p.outcomes, i);
        match s.settables[i].value.value
        case Good(_) =>
        case Bad(e) => errs := errs + [e];
      }
      assert p.outcomes[..|p.outcomes|] == p.outcomes;
    }

    /** The loop of Get with a slice: element i receives future i's value if it has one. */
    method CollectInto(v: SliceVar) returns (errs: seq<string>)
      requires |s.settables| == p.N() == v.len && v.Valid()
      requires forall i :: 0 <= i < p.N() ==> s.settables[i].value == Some(p.outcomes[i])
      modifies v.data
      ensures errs == Errors(p.outcomes)
      ensures v.Contents() == Filled(p.outcomes, old(v.Contents()))
    {
      errs := [];
      ghost var base := v.data[..v.len];
      for i := 0 to |s.settables|
        invariant errs == Errors(p.outcomes[..i])
        invariant v.data[..v.len] == FilledUpTo(p.outcomes, base, i)
      {
        ErrorsStep(p.outcomes, i);
        FilledStep(p.outcomes, base, i);
        match s.settables[i].value.value
        case Good(x) => v.data[i] := x;
        case Bad(e) => errs := errs + [e];
      }
      assert p.outcomes[..|p.outcomes|] == p.outcomes;
    }

    /** Get: waits for every future, then behaves as a loop over the factories' own outcomes; with a
        slice it fills it, keeping good values beside failures.  It never returns when it blocks. */
    method Get(target: Target, spare: nat) returns (r: GetResult)
      requires Valid()
      requires target.SlicePtr? ==> target.v.Valid()
      modifies this`s, if target.SlicePtr? then {target.v, target.v.data} else {}
      ensures Valid()
      ensures r.BadTarget? <==> target.NotASlice?
      ensures r.Panicked? <==> target.SlicePtr? &&
                               ResizePanics(old(target.v.len), old(target.v.data.Length), p.N(), spare)
      ensures r.Blocked? <==> !r.BadTarget? && !r.Panicked? && Blocks(p)
      ensures r.Collected? ==> s.wg == 0 && r.errs == Errors(p.outcomes)
      ensures r.Collected? && target.SlicePtr? ==>
                && target.v.Valid() && target.v.len == p.N()
                && target.v.Contents() ==
                     Filled(p.outcomes, Resized(old(target.v.data[..]), p.N()))
      ensures r.Collected? ==> ErrorsOf(p.outcomes, r.errs)
      ensures r.Collected? && target.SlicePtr? ==>
                target.v.Valid() && ValuesOf(p.outcomes, old(target.v.data[..]), target.v.Contents())
    {
      ErrorsAreOf(p.outcomes);
      ghost var backing := if target.SlicePtr? then target.v.data[..] else [];
      FilledIsValues(p.outcomes, backing);
      match target
      case NotASlice =>
        return BadTarget;
      case NilTarget =>
        var blocked := Wait();
        if blocked {
          return Blocked;
        }
        var errs := CollectErrors();
        return Collected(errs);
      case SlicePtr(v) =>
        var panicked := Resize(v, spare);
        if panicked {
          return Panicked;
        }
        var blocked := Wait();
        if blocked {
          return Blocked;
        }
        var errs := CollectInto(v);
        return Collected(errs);
    }
  }
}
