/** batch_run: the scheduler as scripts reach it. */
module ConcurrentModule {
  import opened Wrappers
  import opened BatchScheduler
  import opened BatchProperties

  /** An element of the list a script passes: a callable, known by what calling it yields. */
  datatype Item = Callable(outcome: Outcome) | Other(typeName: string)

  datatype Rejected = Rejected(index: nat, typeName: string)

  /** What is passed on to the batch future. */
  datatype Request = Request(concurrency: int, outcomes: seq<Outcome>)

  /** Checks the list, picks the default concurrency and builds one factory per callable. */
  method BatchRun(items: seq<Item>, maxConcurrency: int) returns (r: Result<Request, Rejected>)
    ensures r.Err? <==> exists i :: 0 <= i < |items| && items[i].Other?
    ensures r.Err? ==> r.error.index < |items| && items[r.error.index] == Other(r.error.typeName)
                       && forall k :: 0 <= k < r.error.index ==> items[k].Callable?
    ensures r.Ok? ==> |r.value.outcomes| == |items|
                      && forall i :: 0 <= i < |items| ==> items[i] == Callable(r.value.outcomes[i])
    ensures r.Ok? ==> r.value.concurrency == if maxConcurrency == 0 then |items| else maxConcurrency
  {
    var callables := new Outcome[|items|](_ => Good(0));
    for i := 0 to |items|
      invariant forall k :: 0 <= k < i ==> items[k] == Callable(callables[k])
    {
      match items[i] {
        case Callable(o) => callables[i] := o;
        case Other(t) =>
          return Err(Rejected(i, t));
      }
    }
    var concurrency := maxConcurrency;
    if concurrency == 0 {
      concurrency := callables.Length;
    }
    var factories := new Outcome[callables.Length](_ => Good(0));
    for i := 0 to callables.Length
      invariant factories[..i] == callables[..i]
      modifies factories
    {
      factories[i] := callables[i];
    }
    assert factories[..] == factories[..callables.Length] == callables[..callables.Length];
    return Ok(Request(concurrency, factories[..]));
  }

  /** Whatever concurrency from 0 up a script asks for, the batch it starts never gets stuck. */
  method StartBatch(items: seq<Item>, maxConcurrency: nat) returns (r: Result<Params, Rejected>)
    ensures r.Ok? ==> forall s: State :: Inv(r.value, s) && !Final(s) ==> !Stuck(r.value, s)
    ensures r.Ok? <==> forall i :: 0 <= i < |items| ==> items[i].Callable?
    ensures r.Ok? ==> |r.value.outcomes| == |items|
                      && forall i :: 0 <= i < |items| ==> items[i] == Callable(r.value.outcomes[i])
    ensures r.Ok? ==> r.value.batchSize == if maxConcurrency == 0 then |items| else maxConcurrency
    ensures r.Err? ==> r.error.index < |items| && items[r.error.index] == Other(r.error.typeName)
                       && forall k :: 0 <= k < r.error.index ==> items[k].Callable?
  {
    var request := BatchRun(items, maxConcurrency);
    if request.Err? {
      return Err(request.error);
    }
    r := Ok(Params(request.value.concurrency, request.value.outcomes));
    DeadlockFree(r.value);
  }
}
