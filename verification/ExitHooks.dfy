/**
 Exit hooks: a slice of hook pointers that Run walks backwards through its own copy of
 the slice header, while the hooks it calls, and other coroutines, may append to the
 list or remove from it by shifting the same backing array.
 */
module ExitHooks {
  import opened Wrappers

  /** A function value; registering nil is ignored. */
  datatype Callable = Nil | Fn(id: nat)

  /** A pointer to a hook: its address, and the function and arguments stored there. */
  datatype Hook = Hook(address: nat, fn: nat, args: int)

  /** What can happen to the list while a hook runs; spare is the extra room a reallocating append gets. */
  datatype Op = Register(fn: Callable, args: int, spare: nat) | Unregister(target: nat)

  /** One hook call: the list operations made while it lasts, and its failure if it fails. */
  datatype Turn = Turn(ops: seq<Op>, failure: Option<string>)

  const FILLER := Hook(0, 0, 0)

  // ------------------------------------------------------------------------
  // Specification: the list as a value
  // ------------------------------------------------------------------------

  /** A slice header over its backing array, and the next free address. */
  datatype Hooks = Hooks(backing: seq<Hook>, len: nat, next: nat) {
    predicate Valid() { len <= |backing| }

    function Live(): seq<Hook>
      requires Valid()
    {
      backing[..len]
    }
  }

  /** The position of the first hook of function fn among the first n, or n. */
  function IndexOf(s: seq<Hook>, n: nat, fn: nat): (i: nat)
    requires n <= |s|
    ensures i <= n && (i < n ==> s[i].fn == fn)
    ensures forall k :: 0 <= k < i ==> s[k].fn != fn
  {
    if n == 0 then 0
    else
      var i := IndexOf(s, n - 1, fn);
      if i < n - 1 || s[n - 1].fn == fn then i else n
  }

  /** The list without the first hook of function fn. */
  function RemoveFirst(live: seq<Hook>, fn: nat): seq<Hook> {
    var i := IndexOf(live, |live|, fn);
    if i == |live| then live else live[..i] + live[i + 1..]
  }

  /** The slots after the live hooks above i have moved down by one; the slot at the old end keeps
      its stale pointer. */
  function Shifted(backing: seq<Hook>, len: nat, i: nat): (r: seq<Hook>)
    requires i < len <= |backing|
    ensures |r| == |backing|
  {
    seq(|backing|, q requires 0 <= q < |backing| => if i <= q < len - 1 then backing[q + 1] else backing[q])
  }

  predicate Reallocates(h: Hooks, op: Op) {
    op.Register? && op.fn.Fn? && h.len == |h.backing|
  }

  /** The effect of one operation on the header and on the array it ends up pointing to. */
  function ApplyOp(h: Hooks, op: Op): (r: Hooks)
    requires h.Valid()
    ensures r.Valid() && |r.backing| >= |h.backing|
  {
    match op
    case Register(Nil, _, _) => h
    case Register(Fn(id), args, spare) =>
      var hook := Hook(h.next, id, args);
      if h.len < |h.backing| then
        Hooks(h.backing[h.len := hook], h.len + 1, h.next + 1)
      else
        Hooks(h.backing + [hook] + seq(spare, _ => FILLER), h.len + 1, h.next + 1)
    case Unregister(fn) =>
      var i := IndexOf(h.backing, h.len, fn);
      if i == h.len then h else h.(backing := Shifted(h.backing, h.len, i), len := h.len - 1)
  }

  lemma ShiftedLive(h: Hooks, i: nat)
    requires h.Valid() && i < h.len
    ensures Shifted(h.backing, h.len, i)[..h.len - 1] == h.Live()[..i] + h.Live()[i + 1..]
  {
  }

  lemma IndexIs(s: seq<Hook>, n: nat, fn: nat, i: nat)
    requires i <= n <= |s| && (i < n ==> s[i].fn == fn) && forall k :: 0 <= k < i ==> s[k].fn != fn
    ensures IndexOf(s, n, fn) == i
  {
  }

  /** Whatever the two operations leave in the array, the list itself is appended to, or loses the
      first hook of the function. */
  lemma ApplyOpLive(h: Hooks, op: Op)
    requires h.Valid()
    ensures ApplyOp(h, op).Live() == match op
                                     case Register(Nil, _, _) => h.Live()
                                     case Register(Fn(id), args, _) => h.Live() + [Hook(h.next, id, args)]
                                     case Unregister(fn) => RemoveFirst(h.Live(), fn)
  {
    match op
    case Register(_, _, _) =>
    case Unregister(fn) =>
      var i := IndexOf(h.backing, h.len, fn);
      IndexIs(h.Live(), h.len, fn, i);
      if i < h.len {
        ShiftedLive(h, i);
      }
  }

  /** What the two operations do to the array: an append with room writes the slot behind the list, one
      without room writes a longer array, and a removal moves the hooks behind the first match down by
      one, which leaves the last slot as it was. */
  lemma ApplyOpSlots(h: Hooks, op: Op, i: nat)
    requires h.Valid()
    ensures op.Register? && op.fn.Fn? ==>
              var r := ApplyOp(h, op);
              && r.len == h.len + 1 && r.backing[h.len] == Hook(h.next, op.fn.id, op.args)
              && (h.len < |h.backing| ==> |r.backing| == |h.backing|)
              && (h.len == |h.backing| ==> |r.backing| == h.len + 1 + op.spare)
              && forall q :: 0 <= q < |h.backing| && q != h.len ==> r.backing[q] == h.backing[q]
    ensures op.Unregister? && i < h.len && h.backing[i].fn == op.target
            && (forall k :: 0 <= k < i ==> h.backing[k].fn != op.target) ==>
              var r := ApplyOp(h, op);
              && r.len == h.len - 1 && |r.backing| == |h.backing|
              && forall q :: 0 <= q < |h.backing| ==> r.backing[q] == h.backing[if i <= q < h.len - 1 then q + 1 else q]
    ensures op.Unregister? && (forall k :: 0 <= k < h.len ==> h.backing[k].fn != op.target) ==> ApplyOp(h, op) == h
    ensures op.Register? && op.fn.Nil? ==> ApplyOp(h, op) == h
  {
  }

  /** The list as Run sees it: the current header, the array Run's own header points to, and
      whether the two still share it. */
  datatype Mem = Mem(cur: Hooks, snap: seq<Hook>, shared: bool) {
    predicate Valid() {
      cur.Valid() && (shared ==> snap == cur.backing)
    }
  }

  function StepOp(m: Mem, op: Op): (r: Mem)
    requires m.Valid()
    ensures r.Valid() && |r.snap| == |m.snap|
  {
    var cur := ApplyOp(m.cur, op);
    if m.shared && !Reallocates(m.cur, op) then Mem(cur, cur.backing, true) else Mem(cur, m.snap, false)
  }

  /** The first n operations. */
  function StepOps(m: Mem, ops: seq<Op>, n: nat): (r: Mem)
    requires m.Valid() && n <= |ops|
    ensures r.Valid() && |r.snap| == |m.snap|
  {
    if n == 0 then m else StepOp(StepOps(m, ops, n - 1), ops[n - 1])
  }

  /** What call number k does; calls beyond the script do nothing. */
  function TurnAt(env: seq<Turn>, k: nat): Turn {
    if k < |env| then env[k] else Turn([], None)
  }

  datatype Trace = Trace(mem: Mem, calls: seq<Hook>, errs: seq<string>)

  function Failures(t: Turn): seq<string> {
    match t.failure case None => [] case Some(e) => [e]
  }

  /** The first k calls of Run on list h: call number j takes turn j of env, and calls the hook
      that Run's array then holds at index h.len - 1 - j. */
  function FirstCalls(h: Hooks, env: seq<Turn>, k: nat): (r: Trace)
    requires h.Valid() && k <= h.len
    ensures r.mem.Valid() && |r.mem.snap| == |h.backing|
  {
    if k == 0 then Trace(Mem(h, h.backing, true), [], [])
    else
      var t, turn := FirstCalls(h, env, k - 1), TurnAt(env, k - 1);
      Trace(StepOps(t.mem, turn.ops, |turn.ops|), t.calls + [t.mem.snap[h.len - k]], t.errs + Failures(turn))
  }

  lemma NextCall(h: Hooks, env: seq<Turn>, k: nat)
    requires h.Valid() && k < h.len
    ensures var t, turn := FirstCalls(h, env, k), TurnAt(env, k);
            FirstCalls(h, env, k + 1) ==
              Trace(StepOps(t.mem, turn.ops, |turn.ops|), t.calls + [t.mem.snap[h.len - 1 - k]], t.errs + Failures(turn))
  {
  }

  /** Run on list h. */
  function RunAll(h: Hooks, env: seq<Turn>): Trace
    requires h.Valid()
  {
    FirstCalls(h, env, h.len)
  }

  // ------------------------------------------------------------------------
  // What Run guarantees under re-entrancy
  // ------------------------------------------------------------------------

  /** The failures of the first n turns, in order. */
  function AllFailures(env: seq<Turn>, n: nat): seq<string> {
    if n == 0 then [] else AllFailures(env, n - 1) + Failures(TurnAt(env, n - 1))
  }

  /** How many of the first n calls fail. */
  function Failing(env: seq<Turn>, n: nat): nat {
    if n == 0 then 0 else Failing(env, n - 1) + if n <= |env| && env[n - 1].failure.Some? then 1 else 0
  }

  /** The failures of n calls: one for each call that fails, its own, in the order of the calls. */
  ghost predicate FailuresOf(env: seq<Turn>, n: nat, errs: seq<string>) {
    && |errs| == Failing(env, n)
    && forall k :: 0 <= k < n && k < |env| && env[k].failure.Some? ==>
         Failing(env, k) < |errs| && errs[Failing(env, k)] == env[k].failure.value
  }

  lemma {:induction false} FailureCount(env: seq<Turn>, n: nat)
    ensures |AllFailures(env, n)| == Failing(env, n)
  {
    if n > 0 {
      FailureCount(env, n - 1);
    }
  }

  lemma {:induction false} FailureAt(env: seq<Turn>, n: nat, k: nat)
    requires k < n && k < |env| && env[k].failure.Some?
    ensures Failing(env, k) < |AllFailures(env, n)| && AllFailures(env, n)[Failing(env, k)] == env[k].failure.value
  {
    var before := AllFailures(env, n - 1);
    if k < n - 1 {
      FailureAt(env, n - 1, k);
      InFront(before, Failures(TurnAt(env, n - 1)), Failing(env, k));
    } else {
      FailureCount(env, n - 1);
      LastOne(before, env[k].failure.value);
    }
  }

  lemma InFront<T>(a: seq<T>, b: seq<T>, i: nat)
    requires i < |a|
    ensures i < |a + b| && (a + b)[i] == a[i]
  {
  }

  lemma LastOne<T>(a: seq<T>, x: T)
    ensures |a + [x]| == |a| + 1 && (a + [x])[|a|] == x
  {
  }

  lemma AllFailuresOf(env: seq<Turn>, n: nat)
    ensures FailuresOf(env, n, AllFailures(env, n))
  {
    FailureCount(env, n);
    forall k: nat | k < n && k < |env| && env[k].failure.Some?
      ensures Failing(env, k) < |AllFailures(env, n)| && AllFailures(env, n)[Failing(env, k)] == env[k].failure.value
    {
      FailureAt(env, n, k);
    }
  }

  /** Run makes exactly as many calls as the list had hooks at its start, whatever the hooks do,
      and returns every failure in call order. */
  lemma {:induction false} CallCount(h: Hooks, env: seq<Turn>, k: nat)
    requires h.Valid() && k <= h.len
    ensures |FirstCalls(h, env, k).calls| == k
    ensures FirstCalls(h, env, k).errs == AllFailures(env, k)
  {
    if k > 0 {
      CallCount(h, env, k - 1);
    }
  }

  /** Whatever the hooks do, Run makes one call for each hook of the start, and returns the failure of
      every call that fails, and nothing else, in the order of the calls. */
  lemma RunCounts(h: Hooks, env: seq<Turn>)
    requires h.Valid()
    ensures |RunAll(h, env).calls| == h.len && FailuresOf(env, h.len, RunAll(h, env).errs)
  {
    CallCount(h, env, h.len);
    AllFailuresOf(env, h.len);
  }

  /** Hook h sits below index i of Run's array, and below the end of the list while the two share it. */
  ghost predicate Pending(m: Mem, i: nat, h: Hook)
    requires m.Valid()
  {
    exists q: nat :: q < i && q < |m.snap| && m.snap[q] == h && (m.shared ==> q < m.cur.len)
  }

  predicate Unregisters(op: Op, fn: nat) { op == Unregister(fn) }

  /** Where position q of the list goes when the hook at position j is shifted out. */
  lemma ShiftMoves(h: Hooks, fn: nat, q: nat)
    requires h.Valid() && q < h.len && h.backing[q].fn != fn
    ensures var r := ApplyOp(h, Unregister(fn));
            var q' := if IndexOf(h.backing, h.len, fn) < q then q - 1 else q;
            q' < r.len && q' <= q && r.backing[q'] == h.backing[q]
  {
  }

  lemma OpKeepsPending(m: Mem, op: Op, i: nat, h: Hook)
    requires m.Valid() && Pending(m, i, h) && !Unregisters(op, h.fn)
    ensures Pending(StepOp(m, op), i, h)
  {
    var q: nat :| q < i && q < |m.snap| && m.snap[q] == h && (m.shared ==> q < m.cur.len);
    var r := StepOp(m, op);
    if op.Unregister? && m.shared {
      ShiftMoves(m.cur, op.target, q);
      var q' := if IndexOf(m.cur.backing, m.cur.len, op.target) < q then q - 1 else q;
      assert r.snap[q'] == h;
    } else {
      assert r.snap[q] == h;
    }
  }

  lemma {:induction false} OpsKeepPending(m: Mem, ops: seq<Op>, n: nat, i: nat, h: Hook)
    requires m.Valid() && n <= |ops| && Pending(m, i, h) && forall o :: 0 <= o < n ==> !Unregisters(ops[o], h.fn)
    ensures Pending(StepOps(m, ops, n), i, h)
  {
    if n > 0 {
      OpsKeepPending(m, ops, n - 1, i, h);
      OpKeepsPending(StepOps(m, ops, n - 1), ops[n - 1], i, h);
    }
  }

  /** None of the first n turns unregisters function fn. */
  ghost predicate NeverUnregistered(env: seq<Turn>, n: nat, fn: nat) {
    forall c, o :: 0 <= c < n && 0 <= o < |TurnAt(env, c).ops| ==> !Unregisters(TurnAt(env, c).ops[o], fn)
  }

  /** After k calls a starting hook has been called or is still to come. */
  lemma {:induction false} CalledOrPending(h: Hooks, env: seq<Turn>, q: nat, k: nat)
    requires h.Valid() && q < h.len && k <= h.len && NeverUnregistered(env, h.len, h.backing[q].fn)
    ensures var t := FirstCalls(h, env, k); h.backing[q] in t.calls || Pending(t.mem, h.len - k, h.backing[q])
  {
    var hook := h.backing[q];
    if k == 0 {
      assert FirstCalls(h, env, 0).mem.snap[q] == hook;
    } else {
      var t, ops := FirstCalls(h, env, k - 1), TurnAt(env, k - 1).ops;
      CalledOrPending(h, env, q, k - 1);
      if hook !in t.calls && t.mem.snap[h.len - k] != hook {
        PendingBelow(t.mem, h.len - k, hook);
        OpsKeepPending(t.mem, ops, |ops|, h.len - k, hook);
      }
    }
  }

  lemma PendingBelow(m: Mem, i: nat, h: Hook)
    requires m.Valid() && i < |m.snap| && Pending(m, i + 1, h) && m.snap[i] != h
    ensures Pending(m, i, h)
  {
  }

  /** Every hook on the list when Run starts is called at least once, unless its function is
      unregistered while Run lasts. */
  lemma EveryStartingHookRuns(h: Hooks, env: seq<Turn>, q: nat)
    requires h.Valid() && q < h.len && NeverUnregistered(env, h.len, h.backing[q].fn)
    ensures h.Live()[q] in RunAll(h, env).calls
    ensures |RunAll(h, env).calls| == h.len
  {
    CalledOrPending(h, env, q, h.len);
    CallCount(h, env, h.len);
  }

  /** Live hooks have addresses of their own, below the next free one. */
  ghost predicate Addressed(h: Hooks)
    requires h.Valid()
  {
    && (forall i :: 0 <= i < h.len ==> h.backing[i].address < h.next)
    && (forall i, j :: 0 <= i < j < h.len ==> h.backing[i].address != h.backing[j].address)
  }

  /** So distinct hooks stay distinct, and "called" above is about one particular hook. */
  lemma StaysAddressed(h: Hooks, op: Op)
    requires h.Valid() && Addressed(h)
    ensures Addressed(ApplyOp(h, op))
  {
    var r := ApplyOp(h, op);
    ApplyOpLive(h, op);
    forall i | 0 <= i < r.len ensures r.backing[i] == r.Live()[i] { }
    if op.Register? {
      forall i | 0 <= i < h.len ensures r.backing[i] == h.backing[i] { }
    }
  }

  function Reversed(s: seq<Hook>): (r: seq<Hook>)
    ensures |r| == |s|
  {
    if s == [] then [] else Reversed(s[1..]) + [s[0]]
  }

  /** While Run's array is still the list's, the operation writes no slot of it below index c: an
      unregistration removes at or above c, or removes the last hook, which moves nothing; a
      registration in place appends at or above c. */
  predicate WritesAbove(m: Mem, op: Op, c: nat)
    requires m.Valid()
  {
    m.shared ==>
      match op
      case Register(fn, _, _) => fn.Nil? || m.cur.len >= c
      case Unregister(fn) => var i := IndexOf(m.cur.backing, m.cur.len, fn); i >= c || i >= m.cur.len - 1
  }

  predicate OpsAbove(m: Mem, ops: seq<Op>, n: nat, c: nat)
    requires m.Valid() && n <= |ops|
  {
    n == 0 || (OpsAbove(m, ops, n - 1, c) && WritesAbove(StepOps(m, ops, n - 1), ops[n - 1], c))
  }

  /** Nothing that call number k does writes below the index that is running. */
  predicate TurnAbove(h: Hooks, env: seq<Turn>, k: nat)
    requires h.Valid() && k < h.len
  {
    var ops := TurnAt(env, k).ops;
    OpsAbove(FirstCalls(h, env, k).mem, ops, |ops|, h.len - 1 - k)
  }

  /** None of the first k turns writes a slot of Run's array that is still to be walked. */
  predicate RunsAbove(h: Hooks, env: seq<Turn>, k: nat)
    requires h.Valid() && k <= h.len
  {
    k == 0 || (RunsAbove(h, env, k - 1) && TurnAbove(h, env, k - 1))
  }

  /** Run's array holds the starting list below index c. */
  ghost predicate SameBelow(h: Hooks, m: Mem, c: nat)
    requires h.Valid() && c <= h.len
  {
    m.Valid() && c <= |m.snap| && forall j :: 0 <= j < c ==> m.snap[j] == h.backing[j]
  }

  lemma OpKeepsSame(h: Hooks, m: Mem, op: Op, c: nat)
    requires h.Valid() && c <= h.len && SameBelow(h, m, c) && WritesAbove(m, op, c)
    ensures SameBelow(h, StepOp(m, op), c)
  {
  }

  lemma {:induction false} OpsKeepSame(h: Hooks, m: Mem, ops: seq<Op>, n: nat, c: nat)
    requires h.Valid() && n <= |ops| && c <= h.len && SameBelow(h, m, c) && OpsAbove(m, ops, n, c)
    ensures SameBelow(h, StepOps(m, ops, n), c)
  {
    if n > 0 {
      OpsKeepSame(h, m, ops, n - 1, c);
      OpKeepsSame(h, StepOps(m, ops, n - 1), ops[n - 1], c);
    }
  }

  /** After k calls the part of the array still to be walked is as it was. */
  lemma {:induction false} BelowUntouched(h: Hooks, env: seq<Turn>, k: nat)
    requires h.Valid() && k <= h.len && RunsAbove(h, env, k)
    ensures SameBelow(h, FirstCalls(h, env, k).mem, h.len - k)
  {
    if k > 0 {
      BelowUntouched(h, env, k - 1);
      var ops := TurnAt(env, k - 1).ops;
      OpsKeepSame(h, FirstCalls(h, env, k - 1).mem, ops, |ops|, h.len - k);
    }
  }

  lemma LastCall(h: Hooks, env: seq<Turn>, k: nat)
    requires h.Valid() && k < h.len
    ensures |FirstCalls(h, env, k + 1).calls| == k + 1
    ensures FirstCalls(h, env, k + 1).calls[k] == FirstCalls(h, env, k).mem.snap[h.len - 1 - k]
  {
    CallCount(h, env, k);
    LastOne(FirstCalls(h, env, k).calls, FirstCalls(h, env, k).mem.snap[h.len - 1 - k]);
  }

  lemma EarlierCall(h: Hooks, env: seq<Turn>, k: nat, n: nat)
    requires h.Valid() && k < n < h.len && |FirstCalls(h, env, n).calls| == n
    ensures |FirstCalls(h, env, n + 1).calls| == n + 1
    ensures FirstCalls(h, env, n + 1).calls[k] == FirstCalls(h, env, n).calls[k]
  {
    InFront(FirstCalls(h, env, n).calls, [FirstCalls(h, env, n).mem.snap[h.len - 1 - n]], k);
  }

  /** Call number k calls what Run's array then holds at index h.len - 1 - k. */
  lemma {:induction false} CallAt(h: Hooks, env: seq<Turn>, k: nat, n: nat)
    requires h.Valid() && k < n <= h.len
    ensures |FirstCalls(h, env, n).calls| == n
    ensures FirstCalls(h, env, n).calls[k] == FirstCalls(h, env, k).mem.snap[h.len - 1 - k]
  {
    if k == n - 1 {
      LastCall(h, env, k);
    } else {
      CallAt(h, env, k, n - 1);
      EarlierCall(h, env, k, n - 1);
    }
  }

  lemma {:induction false} AboveEarlier(h: Hooks, env: seq<Turn>, k: nat, n: nat)
    requires h.Valid() && k <= n <= h.len && RunsAbove(h, env, n)
    ensures RunsAbove(h, env, k)
  {
    if k < n {
      AboveEarlier(h, env, k, n - 1);
    }
  }

  lemma {:induction false} ReversedAt(s: seq<Hook>, j: nat)
    requires j < |s|
    ensures Reversed(s)[j] == s[|s| - 1 - j]
  {
    if j < |s| - 1 {
      ReversedAt(s[1..], j);
    }
  }

  lemma AboveIsLifo(h: Hooks, env: seq<Turn>)
    requires h.Valid() && RunsAbove(h, env, h.len)
    ensures RunAll(h, env).calls == Reversed(h.Live())
  {
    var calls, reversed := RunAll(h, env).calls, Reversed(h.Live());
    CallCount(h, env, h.len);
    forall k | 0 <= k < h.len ensures calls[k] == reversed[k] {
      CallAt(h, env, k, h.len);
      AboveEarlier(h, env, k, h.len);
      BelowUntouched(h, env, k);
      ReversedAt(h.Live(), k);
    }
  }

  // A hook that has left its slot never returns to it.

  /** Hook x is not in slot j of Run's array and cannot come back to it: while the array is shared,
      x is no live hook at j or above, and new hooks have other addresses. */
  ghost predicate Left(m: Mem, j: nat, x: Hook)
    requires m.Valid()
  {
    && j < |m.snap| && m.snap[j] != x
    && (m.shared ==>
         x.address < m.cur.next && forall q :: j <= q < m.cur.len ==> m.cur.backing[q].address != x.address)
  }

  lemma OpKeepsLeft(m: Mem, op: Op, j: nat, x: Hook)
    requires m.Valid() && Left(m, j, x)
    ensures Left(StepOp(m, op), j, x)
  {
  }

  lemma {:induction false} OpsKeepLeft(m: Mem, ops: seq<Op>, o: nat, n: nat, j: nat, x: Hook)
    requires m.Valid() && o <= n <= |ops| && Left(StepOps(m, ops, o), j, x)
    ensures Left(StepOps(m, ops, n), j, x)
  {
    if o < n {
      OpsKeepLeft(m, ops, o, n - 1, j, x);
      OpKeepsLeft(StepOps(m, ops, n - 1), ops[n - 1], j, x);
    }
  }

  lemma {:induction false} CallsKeepLeft(h: Hooks, env: seq<Turn>, k: nat, n: nat, j: nat, x: Hook)
    requires h.Valid() && k <= n <= h.len && Left(FirstCalls(h, env, k).mem, j, x)
    ensures Left(FirstCalls(h, env, n).mem, j, x)
  {
    if k < n {
      CallsKeepLeft(h, env, k, n - 1, j, x);
      var ops := TurnAt(env, n - 1).ops;
      OpsKeepLeft(FirstCalls(h, env, n - 1).mem, ops, 0, |ops|, j, x);
    }
  }

  /** The current list is addressed, with addresses that h has not given out. */
  ghost predicate AddressedSince(h: Hooks, m: Mem)
    requires h.Valid() && m.Valid()
  {
    Addressed(m.cur) && h.next <= m.cur.next
  }

  lemma {:induction false} OpsKeepAddressed(h: Hooks, m: Mem, ops: seq<Op>, n: nat)
    requires h.Valid() && m.Valid() && n <= |ops| && AddressedSince(h, m)
    ensures AddressedSince(h, StepOps(m, ops, n))
  {
    if n > 0 {
      OpsKeepAddressed(h, m, ops, n - 1);
      StaysAddressed(StepOps(m, ops, n - 1).cur, ops[n - 1]);
    }
  }

  lemma {:induction false} CallsKeepAddressed(h: Hooks, env: seq<Turn>, k: nat)
    requires h.Valid() && k <= h.len && Addressed(h)
    ensures AddressedSince(h, FirstCalls(h, env, k).mem)
  {
    if k > 0 {
      CallsKeepAddressed(h, env, k - 1);
      var ops := TurnAt(env, k - 1).ops;
      OpsKeepAddressed(h, FirstCalls(h, env, k - 1).mem, ops, |ops|);
    }
  }

  /** An operation that writes below index c drives a starting hook out of its slot. */
  lemma OpLeaves(h: Hooks, m: Mem, op: Op, c: nat) returns (j: nat)
    requires h.Valid() && m.Valid() && c <= h.len && Addressed(h)
    requires SameBelow(h, m, c) && AddressedSince(h, m) && !WritesAbove(m, op, c)
    ensures j < c && Left(StepOp(m, op), j, h.backing[j])
  {
    j := match op case Register(_, _, _) => m.cur.len case Unregister(fn) => IndexOf(m.cur.backing, m.cur.len, fn);
    assert m.snap[j] == h.backing[j];
  }

  lemma {:induction false} FirstOpBelow(m: Mem, ops: seq<Op>, n: nat, c: nat) returns (o: nat)
    requires m.Valid() && n <= |ops| && !OpsAbove(m, ops, n, c)
    ensures o < n && OpsAbove(m, ops, o, c) && !WritesAbove(StepOps(m, ops, o), ops[o], c)
  {
    if OpsAbove(m, ops, n - 1, c) {
      o := n - 1;
    } else {
      o := FirstOpBelow(m, ops, n - 1, c);
    }
  }

  lemma OpsLeaveAt(h: Hooks, m: Mem, ops: seq<Op>, o: nat, c: nat) returns (j: nat)
    requires h.Valid() && m.Valid() && o < |ops| && c <= h.len && Addressed(h)
    requires SameBelow(h, m, c) && AddressedSince(h, m)
    requires OpsAbove(m, ops, o, c) && !WritesAbove(StepOps(m, ops, o), ops[o], c)
    ensures j < c && Left(StepOps(m, ops, o + 1), j, h.backing[j])
  {
    OpsKeepSame(h, m, ops, o, c);
    OpsKeepAddressed(h, m, ops, o);
    j := OpLeaves(h, StepOps(m, ops, o), ops[o], c);
  }

  lemma OpsLeave(h: Hooks, m: Mem, ops: seq<Op>, n: nat, c: nat) returns (j: nat)
    requires h.Valid() && m.Valid() && n <= |ops| && c <= h.len && Addressed(h)
    requires SameBelow(h, m, c) && AddressedSince(h, m) && !OpsAbove(m, ops, n, c)
    ensures j < c && Left(StepOps(m, ops, n), j, h.backing[j])
  {
    var o := FirstOpBelow(m, ops, n, c);
    j := OpsLeaveAt(h, m, ops, o, c);
    OpsKeepLeft(m, ops, o + 1, n, j, h.backing[j]);
  }

  /** The first turn that writes below the running index. */
  lemma {:induction false} FirstBelow(h: Hooks, env: seq<Turn>, n: nat) returns (k: nat)
    requires h.Valid() && n <= h.len && !RunsAbove(h, env, n)
    ensures k < n && RunsAbove(h, env, k) && !TurnAbove(h, env, k)
  {
    if RunsAbove(h, env, n - 1) {
      k := n - 1;
    } else {
      k := FirstBelow(h, env, n - 1);
    }
  }

  /** Some hook does not run in its turn. */
  lemma TurnLeaves(h: Hooks, env: seq<Turn>, k: nat) returns (j: nat)
    requires h.Valid() && Addressed(h) && k < h.len && RunsAbove(h, env, k) && !TurnAbove(h, env, k)
    ensures j < h.len - 1 - k && Left(FirstCalls(h, env, k + 1).mem, j, h.backing[j])
  {
    var ops := TurnAt(env, k).ops;
    BelowUntouched(h, env, k);
    CallsKeepAddressed(h, env, k);
    j := OpsLeave(h, FirstCalls(h, env, k).mem, ops, |ops|, h.len - 1 - k);
  }

  lemma LeftIsNotCalled(h: Hooks, env: seq<Turn>, k: nat, j: nat)
    requires h.Valid() && k <= h.len && j < h.len - k && Left(FirstCalls(h, env, k).mem, j, h.backing[j])
    ensures |RunAll(h, env).calls| == h.len && RunAll(h, env).calls[h.len - 1 - j] != h.backing[j]
  {
    CallsKeepLeft(h, env, k, h.len - 1 - j, j, h.backing[j]);
    CallAt(h, env, h.len - 1 - j, h.len);
  }

  lemma NotReversed(h: Hooks, calls: seq<Hook>, j: nat)
    requires h.Valid() && |calls| == h.len && j < h.len && calls[h.len - 1 - j] != h.backing[j]
    ensures calls != Reversed(h.Live())
  {
    ReversedAt(h.Live(), h.len - 1 - j);
  }

  lemma BelowIsNotLifo(h: Hooks, env: seq<Turn>)
    requires h.Valid() && Addressed(h) && !RunsAbove(h, env, h.len)
    ensures RunAll(h, env).calls != Reversed(h.Live())
  {
    var k := FirstBelow(h, env, h.len);
    var j := TurnLeaves(h, env, k);
    LeftIsNotCalled(h, env, k + 1, j);
    NotReversed(h, RunAll(h, env).calls, j);
  }

  /** Every starting hook runs exactly once, last registered first, if and only if no operation made
      while Run lasts writes a slot of Run's array that is still to be walked. */
  lemma ExactlyOnceLifo(h: Hooks, env: seq<Turn>)
    requires h.Valid()
    ensures RunsAbove(h, env, h.len) ==> RunAll(h, env).calls == Reversed(h.Live())
    ensures Addressed(h) ==> (RunAll(h, env).calls == Reversed(h.Live()) <==> RunsAbove(h, env, h.len))
  {
    if RunsAbove(h, env, h.len) {
      AboveIsLifo(h, env);
    } else if Addressed(h) {
      BelowIsNotLifo(h, env);
    }
  }

  lemma {:induction false} QuietKeeps(h: Hooks, env: seq<Turn>, k: nat)
    requires h.Valid() && k <= h.len && forall c :: 0 <= c < h.len ==> TurnAt(env, c).ops == []
    ensures FirstCalls(h, env, k).mem == Mem(h, h.backing, true) && RunsAbove(h, env, k)
  {
    if k > 0 {
      QuietKeeps(h, env, k - 1);
    }
  }

  /** Hooks that leave the list alone: the reverse of the list is called in full despite failures,
      the failures come back in call order, and the list stays as it was. */
  lemma QuietRun(h: Hooks, env: seq<Turn>)
    requires h.Valid() && forall c :: 0 <= c < h.len ==> TurnAt(env, c).ops == []
    ensures RunAll(h, env).calls == Reversed(h.Live())
    ensures FailuresOf(env, h.len, RunAll(h, env).errs)
    ensures RunAll(h, env).mem.cur == h
  {
    QuietKeeps(h, env, h.len);
    ExactlyOnceLifo(h, env);
    RunCounts(h, env);
  }

  /** A hook that unregisters the one registered before it writes below itself, and is called twice. */
  lemma RemovalBelowRunsTwice(a: Hook, b: Hook, next: nat)
    requires a.fn != b.fn && a.address < b.address < next
    ensures var env := [Turn([Unregister(a.fn)], None)];
            var h := Hooks([a, b], 2, next);
            h.Valid() && RunAll(h, env).calls == [b, b]
  {
    var env := [Turn([Unregister(a.fn)], None)];
    var h := Hooks([a, b], 2, next);
    var m := Mem(h, [a, b], true);
    assert h.Live() == [a, b];
    var op := Unregister(a.fn);
    assert IndexOf(h.backing, 1, a.fn) == 0;
    assert StepOps(m, [op], 1) == StepOp(StepOps(m, [op], 0), op) == StepOp(m, op);
    assert StepOp(m, op).snap == [b, b];
    var first := FirstCalls(h, env, 1);
    assert FirstCalls(h, env, 0) == Trace(m, [], []);
    assert first.calls == [] + [m.snap[1]] == [b];
    assert FirstCalls(h, env, 2).calls == first.calls + [first.mem.snap[0]];
  }

  // ------------------------------------------------------------------------
  // The object, with its backing array
  // ------------------------------------------------------------------------

  class ExitHookList {
    var data: array<Hook>
    var len: nat
    var next: nat

    ghost function Abs(): Hooks reads this, data { Hooks(data[..], len, next) }

    /** Live hooks have addresses of their own. */
    ghost predicate Valid() reads this, data { Abs().Valid() && Addressed(Abs()) }

    constructor ()
      ensures Valid() && Abs().Live() == [] && fresh(data)
    {
      data := new Hook[0];
      len, next := 0, 0;
    }

    /** append(r.hooks, h): in place while the array has room, else into a new array. */
    method Register(fn: Callable, args: int, spare: nat)
      requires Valid()
      modifies this, data
      ensures Valid() && Abs() == ApplyOp(old(Abs()), Op.Register(fn, args, spare))
      ensures if Reallocates(old(Abs()), Op.Register(fn, args, spare))
              then fresh(data) && old(data)[..] == old(data[..])
              else data == old(data)
    {
      StaysAddressed(Abs(), Op.Register(fn, args, spare));
      if fn.Nil? {
        return;
      }
      var h := Hook(next, fn.id, args);
      if len < data.Length {
        data[len] := h;
      } else {
        var grown := new Hook[len + 1 + spare](_ => FILLER);
        forall i | 0 <= i < len { grown[i] := data[i]; }
        grown[len] := h;
        data := grown;
        assert data[..] == old(data[..]) + [h] + seq(spare, _ => FILLER);
      }
      len, next := len + 1, next + 1;
    }

    /** append(r.hooks[:i], r.hooks[i+1:]...): shifts left within the same array. */
    method Unregister(fn: nat)
      requires Valid()
      modifies this, data
      ensures Valid() && data == old(data) && Abs() == ApplyOp(old(Abs()), Op.Unregister(fn))
    {
      StaysAddressed(Abs(), Op.Unregister(fn));
      for i := 0 to len
        invariant forall k :: 0 <= k < i ==> data[k].fn != fn
      {
        if data[i].fn == fn {
          IndexIs(data[..], len, fn, i);
          RemoveAt(i);
          return;
        }
      }
      IndexIs(data[..], len, fn, len);
    }

    /** Moves the hooks after index i down by one; the last slot keeps its old pointer. */
    method RemoveAt(i: nat)
      requires Valid() && i < len
      modifies this`len, data
      ensures len == old(len) - 1 && next == old(next)
      ensures data[..] == Shifted(old(data[..]), old(len), i)
    {
      forall k | i <= k < len - 1 { data[k] := data[k + 1]; }
      len := len - 1;
    }

    method Perform(op: Op)
      requires Valid()
      modifies this, data
      ensures Valid() && Abs() == ApplyOp(old(Abs()), op)
      ensures if Reallocates(old(Abs()), op) then fresh(data) && old(data)[..] == old(data[..])
              else data == old(data)
    {
      match op
      case Register(fn, args, spare) => Register(fn, args, spare);
      case Unregister(fn) => Unregister(fn);
    }

    /** The list, and the array Run holds, are in state m. */
    ghost predicate InState(hooks: array<Hook>, m: Mem)
      reads this, data, hooks
    {
      Valid() && m.Valid() && m.cur == Abs() && m.snap == hooks[..] && (m.shared <==> data == hooks)
    }

    /** What a hook does to the list while Run holds the array hooks. */
    method PerformAll(ops: seq<Op>, hooks: array<Hook>, ghost m: Mem)
      requires InState(hooks, m)
      modifies this, data
      ensures data == old(data) || fresh(data)
      ensures InState(hooks, StepOps(m, ops, |ops|))
    {
      for o := 0 to |ops|
        invariant (data == old(data) || fresh(data)) && InState(hooks, StepOps(m, ops, o))
      {
        PerformOne(ops[o], hooks, StepOps(m, ops, o));
      }
    }

    method PerformOne(op: Op, hooks: array<Hook>, ghost m: Mem)
      requires InState(hooks, m)
      modifies this, data
      ensures data == old(data) || fresh(data)
      ensures InState(hooks, StepOp(m, op))
    {
      Perform(op);
    }

    /** The hook at index i of Run's array is called and takes its turn; errs gains its failure. */
    method CallHook(hooks: array<Hook>, i: nat, turn: Turn, errs: seq<string>, ghost m: Mem)
      returns (ghost called: Hook, errs': seq<string>)
      requires InState(hooks, m) && i < hooks.Length
      modifies this, data
      ensures data == old(data) || fresh(data)
      ensures InState(hooks, StepOps(m, turn.ops, |turn.ops|))
      ensures called == m.snap[i] && errs' == errs + Failures(turn)
    {
      called := hooks[i];
      PerformAll(turn.ops, hooks, m);
      errs' := errs;
      if turn.failure.Some? {
        errs' := errs + [turn.failure.value];
      }
    }

    /** After k calls of a run that began on list start, the memory and the failures are those of the
        reference run. */
    ghost predicate Reached(hooks: array<Hook>, start: Hooks, env: seq<Turn>, k: nat, calls: seq<Hook>, errs: seq<string>)
      requires start.Valid() && k <= start.len
      reads this, data, hooks
    {
      var t := FirstCalls(start, env, k);
      InState(hooks, t.mem) && calls == t.calls && errs == t.errs
    }

    /** Call number k, of the hook at index i of Run's array. */
    method CallNext(hooks: array<Hook>, i: nat, env: seq<Turn>, ghost start: Hooks, ghost k: nat,
                    ghost calls: seq<Hook>, errs: seq<string>, turn: Turn)
      returns (ghost calls': seq<Hook>, errs': seq<string>)
      requires start.Valid() && k < start.len <= hooks.Length && i == start.len - 1 - k && turn == TurnAt(env, k)
      requires Reached(hooks, start, env, k, calls, errs)
      modifies this, data
      ensures data == old(data) || fresh(data)
      ensures Reached(hooks, start, env, k + 1, calls', errs')
    {
      NextCall(start, env, k);
      ghost var called;
      called, errs' := CallHook(hooks, i, turn, errs, FirstCalls(start, env, k).mem);
      calls' := calls + [called];
    }

    /** The loop of Run: walks its own copy of the header downwards and keeps going after failures;
        call number k makes the list operations of turn k of env. */
    method Walk(env: seq<Turn>) returns (ghost calls: seq<Hook>, errs: seq<string>)
      requires Valid()
      modifies this, data
      ensures Valid()
      ensures var t := RunAll(old(Abs()), env); calls == t.calls && errs == t.errs && Abs() == t.mem.cur
    {
      var hooks, count := data, len;
      ghost var start := Abs();
      calls, errs := [], [];
      for i := count downto 0
        invariant data == hooks || fresh(data)
        invariant Reached(hooks, start, env, count - i, calls, errs)
      {
        calls, errs := CallNext(hooks, i, env, start, count - 1 - i, calls, errs, TurnAt(env, count - 1 - i));
      }
    }

    /** Run: one call for each hook of the start, and the failure of every call that fails. */
    method Run(env: seq<Turn>) returns (ghost calls: seq<Hook>, errs: seq<string>)
      requires Valid()
      modifies this, data
      ensures Valid()
      ensures var t := RunAll(old(Abs()), env); calls == t.calls && errs == t.errs && Abs() == t.mem.cur
      ensures |calls| == old(len) && FailuresOf(env, old(len), errs)
    {
      RunCounts(Abs(), env);
      calls, errs := Walk(env);
    }
  }
}
