/**
 Decoding as the codec does it: the parsed document is built as cells of a store, and
 dataclasses are revived in those cells.
 */
module DecodeInPlace {
  import opened Wrappers
  import opened Starlark
  import opened ReplaceDict
  import J = JsonText
  import C = Codec

  /** Nothing that was in the store has changed. */
  ghost predicate Extends(cells: Cells, cells': Cells) {
    cells.Keys <= cells'.Keys && forall x :: x in cells ==> cells'[x] == cells[x]
  }

  /** A tree of new cells, as a document decodes to. */
  ghost predicate Fresh(cells: Cells, cells': Cells, t: Layout) {
    WellFormed(t) && Holds(cells', t) && Separate(t) && NoData(t) && Addrs(t) <= cells'.Keys - cells.Keys
  }

  /** Trees of new cells that share none. */
  ghost predicate AllFresh(cells: Cells, cells': Cells, kids: seq<Layout>) {
    && Extends(cells, cells')
    && (forall i :: 0 <= i < |kids| ==> Fresh(cells, cells', kids[i]))
    && (forall i, j :: 0 <= i < j < |kids| ==> Addrs(kids[i]) !! Addrs(kids[j]))
  }

  lemma FreshStays(cells: Cells, mid: Cells, cells': Cells, t: Layout)
    requires Fresh(cells, mid, t) && Extends(mid, cells')
    ensures Fresh(cells, cells', t)
  {
    HoldsFrame(mid, cells', t);
  }

  /** A tree built after the others shares no cell with them. */
  lemma OneMoreFresh(cells: Cells, mid: Cells, cells': Cells, kids: seq<Layout>, kid: Layout)
    requires AllFresh(cells, mid, kids) && Extends(mid, cells') && Fresh(mid, cells', kid)
    ensures AllFresh(cells, cells', kids) && Fresh(cells, cells', kid)
    ensures forall i :: 0 <= i < |kids| ==> Addrs(kids[i]) !! Addrs(kid)
  {
    forall i | 0 <= i < |kids| ensures Fresh(cells, cells', kids[i]) && Addrs(kids[i]) !! Addrs(kid) {
      FreshStays(cells, mid, cells', kids[i]);
    }
  }

  /** Element i replaced, or, past the end, one more element. */
  function Put<T>(s: seq<T>, i: nat, x: T): seq<T> {
    if i < |s| then s[i := x] else s + [x]
  }

  lemma FreshPut(cells: Cells, cells': Cells, kids: seq<Layout>, i: nat, kid: Layout)
    requires AllFresh(cells, cells', kids) && Fresh(cells, cells', kid)
    requires forall k :: 0 <= k < |kids| ==> Addrs(kids[k]) !! Addrs(kid)
    ensures AllFresh(cells, cells', Put(kids, i, kid))
  {
  }

  /** A new cell over trees of new cells makes a tree of new cells. */
  lemma NewParent(cells: Cells, mid: Cells, t: Layout)
    requires !t.Leaf? && !t.DataAt? && AllFresh(cells, mid, t.kids) && WellFormed(t) && t.a !in mid
    ensures var cells' := mid[t.a := CellOf(t)]; Extends(cells, cells') && Fresh(cells, cells', t)
  {
    var cells' := mid[t.a := CellOf(t)];
    forall i | 0 <= i < |t.kids| ensures Fresh(cells, cells', t.kids[i]) {
      FreshStays(cells, mid, cells', t.kids[i]);
    }
    NewParentAddrs(cells, cells', t);
  }

  lemma NewParentAddrs(cells: Cells, cells': Cells, t: Layout)
    requires !t.Leaf? && t.a in cells' && t.a !in cells
    requires forall i :: 0 <= i < |t.kids| ==> Addrs(t.kids[i]) <= cells'.Keys - cells.Keys
    ensures Addrs(t) <= cells'.Keys - cells.Keys
  {
    forall x | x in Addrs(t) ensures x in cells'.Keys - cells.Keys {
      if x != t.a {
        var i :| 0 <= i < |t.kids| && x in Addrs(t.kids[i]);
      }
    }
  }

  // ------------------------------------------------------------------------
  // Items of a dictionary under construction
  // ------------------------------------------------------------------------

  lemma {:induction false} ReplacedEntry<T>(keys: seq<string>, vals: seq<T>, i: nat, v: T)
    requires |keys| == |vals| && Distinct(keys) && i < |keys|
    ensures FromKeywords(Zip(keys, vals[i := v])) == FromKeywords(Zip(keys, vals))[keys[i] := v]
  {
    var n := |keys| - 1;
    assert Zip(keys, vals)[..n] == Zip(keys[..n], vals[..n]);
    assert Zip(keys, vals[i := v])[..n] == Zip(keys[..n], vals[i := v][..n]);
    if i < n {
      ReplacedEntry(keys[..n], vals[..n], i, v);
      assert vals[i := v][..n] == vals[..n][i := v];
    } else {
      assert vals[i := v][..n] == vals[..n];
    }
  }

  lemma AppendedEntry<T>(keys: seq<string>, vals: seq<T>, key: string, v: T)
    requires |keys| == |vals|
    ensures Zip(keys + [key], vals + [v]) == Zip(keys, vals) + [(key, v)]
    ensures FromKeywords(Zip(keys + [key], vals + [v])) == FromKeywords(Zip(keys, vals))[key := v]
  {
    assert (Zip(keys, vals) + [(key, v)])[..|keys|] == Zip(keys, vals);
  }

  lemma PutMapped(kids: seq<Layout>, i: nat, kid: Layout)
    requires WellFormed(kid) && forall k :: 0 <= k < |kids| ==> WellFormed(kids[k])
    ensures Refs(Put(kids, i, kid)) == Put(Refs(kids), i, RefOf(kid))
    ensures forall k :: 0 <= k < |Put(kids, i, kid)| ==> WellFormed(Put(kids, i, kid)[k])
    ensures Vals(Put(kids, i, kid)) == Put(Vals(kids), i, Val(kid))
  {
  }

  /** Setting a key in parallel sequences of keys and values. */
  lemma EntryPut<T>(keys: seq<string>, vals: seq<T>, i: nat, key: string, v: T)
    requires |keys| == |vals| && Distinct(keys) && (i < |keys| ==> keys[i] == key)
    ensures Zip(Put(keys, i, key), Put(vals, i, v)) == Put(Zip(keys, vals), i, (key, v))
    ensures FromKeywords(Zip(Put(keys, i, key), Put(vals, i, v))) == FromKeywords(Zip(keys, vals))[key := v]
  {
    if i < |keys| {
      assert Put(keys, i, key) == keys;
      ReplacedEntry(keys, vals, i, v);
    } else {
      AppendedEntry(keys, vals, key, v);
    }
  }

  /** What SetKey does to the items of a dictionary and to its value. */
  lemma ItemSet(keys: seq<string>, kids: seq<Layout>, key: string, kid: Layout) returns (i: nat)
    requires |keys| == |kids| && Distinct(keys) && WellFormed(kid)
    requires forall k :: 0 <= k < |kids| ==> WellFormed(kids[k])
    ensures Distinct(Put(keys, i, key)) && forall k :: 0 <= k < |Put(kids, i, kid)| ==> WellFormed(Put(kids, i, kid)[k])
    ensures SetItem(Zip(keys, Refs(kids)), key, RefOf(kid)) == Zip(Put(keys, i, key), Refs(Put(kids, i, kid)))
    ensures FromKeywords(Zip(Put(keys, i, key), Vals(Put(kids, i, kid)))) == FromKeywords(Zip(keys, Vals(kids)))[key := Val(kid)]
  {
    var items := Zip(keys, Refs(kids));
    i := KeyIndex(items, key);
    assert forall j :: 0 <= j < |keys| ==> items[j].0 == keys[j];
    PutMapped(kids, i, kid);
    EntryPut(keys, Refs(kids), i, key, RefOf(kid));
    EntryPut(keys, Vals(kids), i, key, Val(kid));
  }

  lemma EntriesMore(ms: seq<J.Member>, i: nat)
    requires i < |ms|
    ensures FromKeywords(C.Entries(ms[..i + 1])) == FromKeywords(C.Entries(ms[..i]))[ms[i].key := C.FromJson(ms[i].val)]
  {
    assert C.Entries(ms[..i + 1])[..i] == C.Entries(ms[..i]);
  }

  // ------------------------------------------------------------------------
  // Building and reviving
  // ------------------------------------------------------------------------

  /** A new cell for a dictionary or a list. */
  method Allocate(store: Store, c: Cell) returns (a: Addr)
    modifies store
    ensures a !in old(store.cells) && store.cells == old(store.cells)[a := c]
  {
    ghost var bound := FreshAddr(store.cells.Keys);
    assert bound !in store.cells;
    a :| a !in store.cells;
    store.cells := store.cells[a := c];
  }

  /** Builds the document in new cells. */
  method Build(store: Store, j: J.Json) returns (v: Ref, ghost t: Layout)
    modifies store
    decreases j, 1
    ensures Extends(old(store.cells), store.cells) && Fresh(old(store.cells), store.cells, t)
    ensures RefOf(t) == v && Val(t) == C.FromJson(j)
  {
    match j
    case Null => return RNone, Leaf(RNone);
    case Bool(b) => return RBool(b), Leaf(RBool(b));
    case Num(i) => return RInt(i), Leaf(RInt(i));
    case Str(s) => return RStr(s), Leaf(RStr(s));
    case Arr(e) => v, t := BuildList(store, j, e);
    case Obj(ms) => v, t := BuildDict(store, j, ms);
  }

  method BuildList(store: Store, j: J.Json, e: seq<J.Json>) returns (v: Ref, ghost t: Layout)
    requires j == J.Arr(e)
    modifies store
    decreases j, 0
    ensures Extends(old(store.cells), store.cells) && Fresh(old(store.cells), store.cells, t)
    ensures RefOf(t) == v && Val(t) == C.FromJson(j)
  {
    ghost var before := store.cells;
    var refs: seq<Ref> := [];
    ghost var kids: seq<Layout> := [];
    for i := 0 to |e|
      invariant AllFresh(before, store.cells, kids) && |kids| == i && refs == Refs(kids)
      invariant forall k :: 0 <= k < i ==> Val(kids[k]) == C.Elements(e)[k]
    {
      ghost var mid := store.cells;
      var r;
      ghost var kid;
      r, kid := Build(store, e[i]);
      OneMoreFresh(before, mid, store.cells, kids, kid);
      FreshPut(before, store.cells, kids, i, kid);
      RefsMore(kids, kid);
      refs, kids := refs + [r], kids + [kid];
    }
    ghost var mid := store.cells;
    var a := Allocate(store, ListCell(refs));
    t := ListAt(a, kids);
    NewParent(before, mid, t);
    ValUnfold(t);
    C.FromJsonUnfold(j);
    assert Vals(kids) == C.Elements(e);
    return RPtr(a), t;
  }

  method BuildDict(store: Store, j: J.Json, ms: seq<J.Member>) returns (v: Ref, ghost t: Layout)
    requires j == J.Obj(ms)
    modifies store
    decreases j, 0
    ensures Extends(old(store.cells), store.cells) && Fresh(old(store.cells), store.cells, t)
    ensures RefOf(t) == v && Val(t) == C.FromJson(j)
  {
    ghost var before := store.cells;
    var items: seq<(string, Ref)> := [];
    ghost var keys: seq<string>, kids: seq<Layout> := [], [];
    for i := 0 to |ms|
      invariant AllFresh(before, store.cells, kids) && |keys| == |kids| && Distinct(keys) && items == Zip(keys, Refs(kids))
      invariant FromKeywords(Zip(keys, Vals(kids))) == FromKeywords(C.Entries(ms[..i]))
    {
      ghost var mid := store.cells;
      var r;
      ghost var kid;
      r, kid := Build(store, ms[i].val);
      OneMoreFresh(before, mid, store.cells, kids, kid);
      EntriesMore(ms, i);
      ghost var at := ItemSet(keys, kids, ms[i].key, kid);
      FreshPut(before, store.cells, kids, at, kid);
      items := SetItem(items, ms[i].key, r);
      keys, kids := Put(keys, at, ms[i].key), Put(kids, at, kid);
    }
    ghost var mid := store.cells;
    assert ms[..|ms|] == ms;
    var a := Allocate(store, DictCell(items));
    t := DictAt(a, keys, kids);
    NewParent(before, mid, t);
    ValUnfold(t);
    C.FromJsonUnfold(j);
    return RPtr(a), t;
  }

  /** The value of a line, parsed into cells and revived in place: it is the value that the pure
      reading of the line gives, no dictionary in it is still to be revived, and the branch for
      unexpected types is never taken. */
  method DecodeValue(line: string) returns (r: Result<Ref, C.Error>, store: Store, ghost t: Layout)
    ensures fresh(store) && (r.Ok? <==> C.DecodedValue(line).Ok?)
    ensures r.Ok? ==> WellFormed(t) && Holds(store.cells, t) && RefOf(t) == r.value
    ensures r.Ok? ==> Val(t) == C.DecodedValue(line).value && FullyRevived(Val(t))
    ensures r.Err? ==> r == Err(C.BadText)
  {
    store := new Store(map[]);
    t := Leaf(RNone);
    match J.Parse(line)
    case None => r := Err(C.BadText);
    case Some(j) =>
      var v;
      v, t := Build(store, j);
      var revived;
      revived, t := store.ReplaceDict(v, t);
      r := Ok(revived.value);
  }
}
