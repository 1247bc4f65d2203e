/** Result types shared by every module. */
module Wrappers {
  datatype Option<+T> = None | Some(value: T)

  datatype Result<+T, +E> = Ok(value: T) | Err(error: E)
}

/** Cardinality facts about finite sets of indices. */
module Cardinality {

  /** An injection from one finite set into another bounds the size of its domain. */
  lemma {:induction false} InjectionBound(a: set<nat>, b: set<nat>, g: nat -> nat)
    requires forall x :: x in a ==> g(x) in b
    requires forall x, y :: x in a && y in a && g(x) == g(y) ==> x == y
    ensures |a| <= |b|
    decreases a
  {
    if a == {} {
    } else {
      var x :| x in a;
      InjectionBound(a - {x}, b - {g(x)}, g);
    }
  }

  function Below(n: nat): (r: set<nat>)
    ensures forall i: nat :: i in r <==> i < n
  {
    if n == 0 then {} else Below(n - 1) + {n - 1}
  }

  /** There are n indices below n. */
  lemma {:induction false} BelowCard(n: nat)
    ensures |Below(n)| == n
  {
    if n == 0 {
    } else {
      BelowCard(n - 1);
    }
  }
}
