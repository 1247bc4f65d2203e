/** The script values the worker passes around.  Floats and bytes inside values are not modelled. */
module Starlark {
  import opened Wrappers

  /** Dict and Data compare without regard to order, so they are maps; Data is a dataclass. */
  datatype Value =
    | NoneValue
    | Bool(b: bool)
    | Int(i: int)
    | Str(s: string)
    | List(elems: seq<Value>)
    | Tuple(elems: seq<Value>)
    | Dict(entries: map<string, Value>)
    | Data(entries: map<string, Value>)

  const CODEC := "__codec__"
  const DATACLASS := "dataclass"

  /** The codec names whose dictionaries are revived. */
  const CODECS: set<string> := {DATACLASS}

  /** The attributes of a new dataclass: a missing codec attribute is filled in. */
  function WithCodec(attrs: map<string, Value>): (r: map<string, Value>)
    ensures CODEC in r && forall k :: k in attrs ==> k in r && r[k] == attrs[k]
    ensures r.Keys == attrs.Keys + {"__codec__"}
    ensures "__codec__" !in attrs ==> r["__codec__"] == Str("dataclass")
  {
    if CODEC in attrs then attrs else attrs[CODEC := Str(DATACLASS)]
  }

  /** The entries of a keyword list; a later entry replaces an earlier one. */
  function FromKeywords<T>(keywords: seq<(string, T)>): map<string, T> {
    if keywords == [] then map[]
    else
      var last := keywords[|keywords| - 1];
      FromKeywords(keywords[..|keywords| - 1])[last.0 := last.1]
  }

  method KeywordsToStringDict<T>(keywords: seq<(string, T)>) returns (res: map<string, T>)
    ensures res == FromKeywords(keywords)
  {
    res := map[];
    for i := 0 to |keywords|
      invariant res == FromKeywords(keywords[..i])
    {
      assert keywords[..i + 1][..i] == keywords[..i];
      res := res[keywords[i].0 := keywords[i].1];
    }
    assert keywords[..|keywords|] == keywords;
  }

  /** The last entry of a key wins, and no other key appears. */
  lemma {:induction false} KeywordsLookup<T>(keywords: seq<(string, T)>, k: string)
    ensures k in FromKeywords(keywords) <==> exists i :: 0 <= i < |keywords| && keywords[i].0 == k
    ensures forall i :: 0 <= i < |keywords| && keywords[i].0 == k && (forall j :: i < j < |keywords| ==> keywords[j].0 != k)
              ==> k in FromKeywords(keywords) && FromKeywords(keywords)[k] == keywords[i].1
  {
    if keywords != [] {
      var n := |keywords| - 1;
      KeywordsLookup(keywords[..n], k);
      if keywords[n].0 != k {
        if i :| 0 <= i < |keywords| && keywords[i].0 == k { assert keywords[..n][i] == keywords[i]; }
      }
    }
  }

  /** Every value in the table comes from an entry of its key. */
  lemma {:induction false} KeywordsSource<T>(keywords: seq<(string, T)>, k: string) returns (i: nat)
    requires k in FromKeywords(keywords)
    ensures i < |keywords| && keywords[i] == (k, FromKeywords(keywords)[k])
  {
    i := |keywords| - 1;
    if keywords[i].0 != k {
      i := KeywordsSource(keywords[..i], k);
    }
  }

  // ------------------------------------------------------------------------
  // Reviving dataclasses
  // ------------------------------------------------------------------------

  /** The dictionary announces a registered codec. */
  predicate Revivable(entries: map<string, Value>) {
    CODEC in entries && entries[CODEC].Str? && entries[CODEC].s in CODECS
  }

  /** The only registered codec is that of dataclasses. */
  lemma OnlyDataclassRevives(entries: map<string, Value>)
    ensures Revivable(entries) <==> "__codec__" in entries && entries["__codec__"] == Str("dataclass")
  {
  }

  /** What one dictionary becomes. */
  function ReviveDict(entries: map<string, Value>): Value {
    if Revivable(entries) then Data(WithCodec(entries)) else Dict(entries)
  }

  /** The bottom-up rewrite of a value: children first, then the dictionary itself. */
  function Revive(v: Value): Value {
    match v
    case Dict(m) => ReviveDict(map k | k in m :: Revive(m[k]))
    case List(e) => List(seq(|e|, i requires 0 <= i < |e| => Revive(e[i])))
    case _ => v
  }

  /** n holds the revived values of m. */
  ghost predicate RevivedFrom(m: map<string, Value>, n: map<string, Value>) {
    n.Keys == m.Keys && forall k :: k in m ==> n[k] == Revive(m[k])
  }

  lemma ReviveOfDict(m: map<string, Value>, n: map<string, Value>)
    requires RevivedFrom(m, n)
    ensures Revive(Dict(m)) == ReviveDict(n)
  {
    assert n == map k | k in m :: Revive(m[k]);
  }

  /** No dictionary inside v is still to be revived. */
  predicate FullyRevived(v: Value) {
    match v
    case Dict(m) => !Revivable(m) && forall k :: k in m ==> FullyRevived(m[k])
    case Data(m) => forall k :: k in m ==> FullyRevived(m[k])
    case List(e) => forall i :: 0 <= i < |e| ==> FullyRevived(e[i])
    case Tuple(e) => forall i :: 0 <= i < |e| ==> FullyRevived(e[i])
    case _ => true
  }

  /** v is what a JSON document decodes to: no tuples and no dataclasses. */
  predicate JsonShaped(v: Value) {
    match v
    case Dict(m) => forall k :: k in m ==> JsonShaped(m[k])
    case List(e) => forall i :: 0 <= i < |e| ==> JsonShaped(e[i])
    case Data(_) => false
    case Tuple(_) => false
    case _ => true
  }

  lemma {:induction false} ReviveIsComplete(v: Value)
    requires JsonShaped(v)
    ensures FullyRevived(Revive(v))
  {
    match v
    case Dict(m) =>
      forall k | k in m ensures FullyRevived(Revive(m[k])) { ReviveIsComplete(m[k]); }
    case List(e) =>
      forall i | 0 <= i < |e| ensures FullyRevived(Revive(e[i])) { ReviveIsComplete(e[i]); }
    case _ =>
  }

  /** A dataclass object. */
  class Dataclass {
    var attrs: map<string, Value>

    /** NewDataclass: a copy of the attributes, with a codec. */
    constructor (attrs: map<string, Value>)
      ensures this.attrs == WithCodec(attrs)
    {
      var copy: map<string, Value> := map[];
      var keys := attrs.Keys;
      while keys != {}
        invariant keys <= attrs.Keys
        invariant copy == map k | k in attrs.Keys - keys :: attrs[k]
        decreases keys
      {
        var k :| k in keys;
        copy := copy[k := attrs[k]];
        keys := keys - {k};
      }
      assert copy == attrs;
      if CODEC !in copy {
        copy := copy[CODEC := Str(DATACLASS)];
      }
      this.attrs := copy;
    }

    /** SetField: only existing attributes can be set. */
    method SetField(name: string, val: Value) returns (ok: bool)
      modifies this
      ensures ok <==> name in old(attrs)
      ensures attrs == if ok then old(attrs)[name := val] else old(attrs)
    {
      if name !in attrs {
        return false;
      }
      attrs := attrs[name := val];
      return true;
    }
  }
}

/** Depth-limited comparison of script values. */
module Equality {
  import opened Wrappers
  import opened Starlark

  datatype DepthError = DepthExceeded | NotImplemented

  datatype Op = EQL | NEQ | Ordering

  /** v nests less than depth levels. */
  predicate Fits(v: Value, depth: int)
    decreases v
  {
    depth >= 1 &&
    match v
    case List(e) => forall i :: 0 <= i < |e| ==> Fits(e[i], depth - 1)
    case Tuple(e) => forall i :: 0 <= i < |e| ==> Fits(e[i], depth - 1)
    case Dict(m) => forall k :: k in m ==> Fits(m[k], depth - 1)
    case Data(m) => forall k :: k in m ==> Fits(m[k], depth - 1)
    case _ => true
  }

  /** The entries of an attribute table nest less than depth levels below it. */
  predicate EntriesFit(m: map<string, Value>, depth: int) {
    forall k :: k in m ==> Fits(m[k], depth - 1)
  }

  predicate ElementsFit(e: seq<Value>, depth: int) {
    forall i :: 0 <= i < |e| ==> Fits(e[i], depth - 1)
  }

  /** The comparison of two values: correct whenever it answers, and it answers whenever one of the
      two nests less than depth levels. */
  method EqualDepth(x: Value, y: Value, depth: int) returns (r: Result<bool, DepthError>)
    ensures r.Ok? ==> r.value == (x == y)
    ensures Fits(x, depth) || Fits(y, depth) ==> r.Ok?
    ensures x == y && !Fits(x, depth) ==> r == Err(DepthExceeded)
    decreases x, 1
  {
    if depth < 1 {
      return Err(DepthExceeded);
    }
    match (x, y) {
      case (List(e), List(f)) => r := SliceEqual(x, e, f, depth);
      case (Tuple(e), Tuple(f)) => r := SliceEqual(x, e, f, depth);
      case (Dict(m), Dict(n)) => r := TableEqual(x, m, n, depth);
      case (Data(m), Data(n)) => r := TableEqual(x, m, n, depth);
      case _ => return Ok(x == y);
    }
  }

  method SliceEqual(owner: Value, x: seq<Value>, y: seq<Value>, depth: int) returns (r: Result<bool, DepthError>)
    requires owner == List(x) || owner == Tuple(x)
    ensures r.Ok? ==> r.value == (x == y)
    ensures ElementsFit(x, depth) || ElementsFit(y, depth) ==> r.Ok?
    ensures x == y && !ElementsFit(x, depth) ==> r == Err(DepthExceeded)
    decreases owner, 0
  {
    if |x| != |y| {
      return Ok(false);
    }
    for i := 0 to |x|
      invariant x[..i] == y[..i]
      invariant x == y ==> forall k :: 0 <= k < i ==> Fits(x[k], depth - 1)
    {
      r := EqualDepth(x[i], y[i], depth - 1);
      if r.Err? || !r.value {
        return;
      }
    }
    return Ok(true);
  }

  /** Two tables of values; the keys of x are visited in any order. */
  method TableEqual(owner: Value, x: map<string, Value>, y: map<string, Value>, depth: int)
    returns (r: Result<bool, DepthError>)
    requires owner == Dict(x) || owner == Data(x)
    ensures r.Ok? ==> r.value == (x == y)
    ensures EntriesFit(x, depth) || EntriesFit(y, depth) ==> r.Ok?
    ensures x == y && !EntriesFit(x, depth) ==> r == Err(DepthExceeded)
    decreases owner, 0
  {
    if |x| != |y| {
      return Ok(false);
    }
    var keys := x.Keys;
    while keys != {}
      invariant keys <= x.Keys
      invariant forall k :: k in x.Keys - keys ==> k in y && y[k] == x[k]
      invariant x == y ==> forall k :: k in x.Keys - keys ==> Fits(x[k], depth - 1)
      decreases keys
    {
      var key :| key in keys;
      if key !in y {
        return Ok(false);
      }
      r := EqualDepth(x[key], y[key], depth - 1);
      if r.Err? || !r.value {
        return;
      }
      keys := keys - {key};
    }
    SameSizeSubset(x.Keys, y.Keys);
    return Ok(true);
  }

  lemma SameSizeSubset(a: set<string>, b: set<string>)
    requires a <= b && |a| == |b|
    ensures a == b
  {
    if a != b {
      var k :| k in b && k !in a;
      assert |b - {k}| == |b| - 1;
      SubsetSize(a, b - {k});
    }
  }

  lemma {:induction false} SubsetSize(a: set<string>, b: set<string>)
    requires a <= b
    ensures |a| <= |b|
    decreases a
  {
    if k :| k in a {
      SubsetSize(a - {k}, b - {k});
    }
  }

  /** StringDictEqualDepth on the attribute tables of two dataclasses. */
  method StringDictEqualDepth(x: map<string, Value>, y: map<string, Value>, depth: int)
    returns (r: Result<bool, DepthError>)
    ensures r.Ok? ==> r.value == (x == y)
    ensures EntriesFit(x, depth) || EntriesFit(y, depth) ==> r.Ok?
    ensures x == y && !EntriesFit(x, depth) ==> r == Err(DepthExceeded)
  {
    r := TableEqual(Data(x), x, y, depth);
  }

  /** CompareSameType: only == and != are supported. */
  method CompareSameType(op: Op, x: map<string, Value>, y: map<string, Value>, depth: int)
    returns (r: Result<bool, DepthError>)
    ensures op.Ordering? ==> r == Err(NotImplemented)
    ensures r.Ok? ==> r.value == if op.EQL? then x == y else x != y
    ensures !op.Ordering? && (EntriesFit(x, depth) || EntriesFit(y, depth)) ==> r.Ok?
    ensures !op.Ordering? && x == y && !EntriesFit(x, depth) ==> r == Err(DepthExceeded)
  {
    match op
    case Ordering => return Err(NotImplemented);
    case EQL => r := StringDictEqualDepth(x, y, depth);
    case NEQ =>
      r := StringDictEqualDepth(x, y, depth);
      if r.Ok? {
        r := Ok(!r.value);
      }
  }
}
