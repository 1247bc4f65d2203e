/**
 The in-place rewrite of a decoded document: dictionaries and lists are cells of a store
 and are updated where they are; reviving a dictionary allocates a dataclass cell.
 */
module ReplaceDict {
  import opened Wrappers
  import opened Starlark

  type Addr = nat

  /** A value as the interpreter holds it: a scalar, or a pointer to a cell. */
  datatype Ref = RNone | RBool(b: bool) | RInt(i: int) | RStr(s: string) | RPtr(a: Addr)

  /** A dictionary keeps its items in insertion order. */
  datatype Cell =
    | DictCell(items: seq<(string, Ref)>)
    | ListCell(elems: seq<Ref>)
    | DataCell(attrs: map<string, Ref>)

  type Cells = map<Addr, Cell>

  // ------------------------------------------------------------------------
  // Tree-shaped data in a store
  // ------------------------------------------------------------------------

  /** Where each node of a tree lives. */
  datatype Layout =
    | Leaf(r: Ref)
    | DictAt(a: Addr, keys: seq<string>, kids: seq<Layout>)
    | ListAt(a: Addr, kids: seq<Layout>)
    | DataAt(a: Addr, keys: seq<string>, kids: seq<Layout>)

  function RefOf(t: Layout): Ref {
    if t.Leaf? then t.r else RPtr(t.a)
  }

  function Refs(kids: seq<Layout>): (r: seq<Ref>)
    ensures |r| == |kids|
  {
    seq(|kids|, i requires 0 <= i < |kids| => RefOf(kids[i]))
  }

  lemma RefsMore(kids: seq<Layout>, kid: Layout)
    ensures Refs(kids + [kid]) == Refs(kids) + [RefOf(kid)]
  {
  }

  function Zip<T>(keys: seq<string>, vals: seq<T>): (r: seq<(string, T)>)
    requires |keys| == |vals|
    ensures |r| == |keys|
  {
    seq(|keys|, i requires 0 <= i < |keys| => (keys[i], vals[i]))
  }

  predicate Distinct(keys: seq<string>) {
    forall i, j :: 0 <= i < j < |keys| ==> keys[i] != keys[j]
  }

  predicate WellFormed(t: Layout) {
    match t
    case Leaf(r) => !r.RPtr?
    case DictAt(_, keys, kids) => |keys| == |kids| && Distinct(keys) && forall i :: 0 <= i < |kids| ==> WellFormed(kids[i])
    case DataAt(_, keys, kids) => |keys| == |kids| && Distinct(keys) && forall i :: 0 <= i < |kids| ==> WellFormed(kids[i])
    case ListAt(_, kids) => forall i :: 0 <= i < |kids| ==> WellFormed(kids[i])
  }

  ghost function Addrs(t: Layout): set<Addr> {
    match t
    case Leaf(_) => {}
    case DictAt(a, _, kids) => {a} + set i, x | 0 <= i < |kids| && x in Addrs(kids[i]) :: x
    case ListAt(a, kids) => {a} + set i, x | 0 <= i < |kids| && x in Addrs(kids[i]) :: x
    case DataAt(a, _, kids) => {a} + set i, x | 0 <= i < |kids| && x in Addrs(kids[i]) :: x
  }

  /** No cell is shared and none contains itself. */
  ghost predicate Separate(t: Layout) {
    t.Leaf? || (
      && (forall i :: 0 <= i < |t.kids| ==> Separate(t.kids[i]) && t.a !in Addrs(t.kids[i]))
      && (forall i, j :: 0 <= i < j < |t.kids| ==> Addrs(t.kids[i]) !! Addrs(t.kids[j])))
  }

  /** The store holds the tree. */
  ghost predicate Holds(cells: Cells, t: Layout)
    requires WellFormed(t)
  {
    t.Leaf? || (
      && t.a in cells
      && cells[t.a] == CellOf(t)
      && forall i :: 0 <= i < |t.kids| ==> Holds(cells, t.kids[i]))
  }

  function CellOf(t: Layout): Cell
    requires WellFormed(t) && !t.Leaf?
  {
    match t
    case DictAt(_, keys, kids) => DictCell(Zip(keys, Refs(kids)))
    case DataAt(_, keys, kids) => DataCell(FromKeywords(Zip(keys, Refs(kids))))
    case ListAt(_, kids) => ListCell(Refs(kids))
  }

  /** The value of a tree. */
  function Val(t: Layout): Value
    requires WellFormed(t)
  {
    match t
    case Leaf(RNone) => NoneValue
    case Leaf(RBool(b)) => Bool(b)
    case Leaf(RInt(i)) => Int(i)
    case Leaf(RStr(s)) => Str(s)
    case DictAt(_, keys, kids) => Dict(FromKeywords(Zip(keys, seq(|kids|, i requires 0 <= i < |kids| => Val(kids[i])))))
    case DataAt(_, keys, kids) => Data(FromKeywords(Zip(keys, seq(|kids|, i requires 0 <= i < |kids| => Val(kids[i])))))
    case ListAt(_, kids) => List(seq(|kids|, i requires 0 <= i < |kids| => Val(kids[i])))
  }

  function Vals(kids: seq<Layout>): (r: seq<Value>)
    requires forall i :: 0 <= i < |kids| ==> WellFormed(kids[i])
    ensures |r| == |kids|
  {
    seq(|kids|, i requires 0 <= i < |kids| => Val(kids[i]))
  }

  /** A decoded document has no dataclass cells. */
  predicate NoData(t: Layout) {
    t.Leaf? || (!t.DataAt? && forall i :: 0 <= i < |t.kids| ==> NoData(t.kids[i]))
  }

  predicate NoDataBelow(kids: seq<Layout>, n: nat)
    requires n <= |kids|
  {
    forall i :: 0 <= i < n ==> NoData(kids[i])
  }

  lemma NoDataNext(kids: seq<Layout>, n: nat)
    requires n < |kids|
    ensures NoDataBelow(kids, n + 1) <==> NoDataBelow(kids, n) && NoData(kids[n])
    ensures !NoData(kids[n]) ==> !NoDataBelow(kids, |kids|)
  {
  }

  lemma {:induction false} HoldsFrame(cells: Cells, cells': Cells, t: Layout)
    requires WellFormed(t) && Holds(cells, t)
    requires forall x :: x in Addrs(t) ==> x in cells' && (x in cells ==> cells'[x] == cells[x])
    ensures Holds(cells', t)
  {
    if !t.Leaf? {
      assert t.a in Addrs(t);
      forall i | 0 <= i < |t.kids| ensures Holds(cells', t.kids[i]) {
        KidAddrs(t, i);
        HoldsFrame(cells, cells', t.kids[i]);
      }
    }
  }

  lemma KidAddrs(t: Layout, i: nat)
    requires !t.Leaf? && i < |t.kids|
    ensures Addrs(t.kids[i]) <= Addrs(t)
  {
    match t
    case DictAt(_, _, kids) => assert kids[i] == t.kids[i];
    case ListAt(_, kids) => assert kids[i] == t.kids[i];
    case DataAt(_, _, kids) => assert kids[i] == t.kids[i];
  }

  lemma {:induction false} HeldAddrs(cells: Cells, t: Layout)
    requires WellFormed(t) && Holds(cells, t)
    ensures Addrs(t) <= cells.Keys
  {
    if !t.Leaf? {
      forall i | 0 <= i < |t.kids| ensures Addrs(t.kids[i]) <= cells.Keys {
        HeldAddrs(cells, t.kids[i]);
      }
    }
  }

  /** What a rewrite may do to a cell: dictionaries keep their keys in order, lists their length. */
  predicate SameShape(c: Cell, d: Cell) {
    match (c, d)
    case (DictCell(x), DictCell(y)) => |x| == |y| && forall i :: 0 <= i < |x| ==> x[i].0 == y[i].0
    case (ListCell(x), ListCell(y)) => |x| == |y|
    case _ => c == d
  }

  /** From cells to cells' only cells in touched have changed, and those kept their shape. */
  ghost predicate Changed(cells: Cells, cells': Cells, touched: set<Addr>) {
    && cells.Keys <= cells'.Keys
    && (forall x :: x in cells && x !in touched ==> cells'[x] == cells[x])
    && (forall x :: x in cells ==> SameShape(cells[x], cells'[x]))
  }

  /** r is the rewritten form of tree t: it holds the revived value in t's own cells and new ones. */
  ghost predicate Rewritten(cells: Cells, cells': Cells, t: Layout, r: Layout)
    requires WellFormed(t)
  {
    && WellFormed(r) && Holds(cells', r)
    && Val(r) == Revive(Val(t))
    && forall x :: x in Addrs(r) ==> x in cells' && (x in cells ==> x in Addrs(t))
  }

  // ------------------------------------------------------------------------
  // Rewriting the children of one cell
  // ------------------------------------------------------------------------

  ghost function KidAddrsBelow(kids: seq<Layout>, n: nat): set<Addr>
    requires n <= |kids|
  {
    set i, x | 0 <= i < n && x in Addrs(kids[i]) :: x
  }

  /** The first |done| children of the cell at a have been rewritten. */
  ghost predicate Progress(cells: Cells, cells': Cells, a: Addr, kids: seq<Layout>, done: seq<Layout>)
    requires forall i :: 0 <= i < |kids| ==> WellFormed(kids[i])
  {
    && |done| <= |kids|
    && Changed(cells, cells', KidAddrsBelow(kids, |done|) + {a})
    && forall i :: 0 <= i < |done| ==> Rewritten(cells, cells', kids[i], done[i]) && a !in Addrs(done[i])
  }

  ghost predicate Ready(cells: Cells, a: Addr, kids: seq<Layout>) {
    && a in cells
    && (forall i :: 0 <= i < |kids| ==> WellFormed(kids[i]) && Holds(cells, kids[i]) && Addrs(kids[i]) <= cells.Keys)
    && (forall i :: 0 <= i < |kids| ==> Separate(kids[i]) && a !in Addrs(kids[i]))
    && (forall i, j :: 0 <= i < j < |kids| ==> Addrs(kids[i]) !! Addrs(kids[j]))
  }

  lemma TreeIsReady(cells: Cells, t: Layout)
    requires WellFormed(t) && Holds(cells, t) && Separate(t) && !t.Leaf?
    ensures Ready(cells, t.a, t.kids)
  {
    forall i | 0 <= i < |t.kids| ensures Addrs(t.kids[i]) <= cells.Keys {
      HeldAddrs(cells, t.kids[i]);
    }
  }

  /** The next child is still as it was. */
  lemma NextKidHeld(cells: Cells, cells': Cells, a: Addr, kids: seq<Layout>, done: seq<Layout>)
    requires Ready(cells, a, kids) && Progress(cells, cells', a, kids, done) && |done| < |kids|
    ensures Holds(cells', kids[|done|])
  {
    var n := |done|;
    forall x | x in Addrs(kids[n]) ensures x !in KidAddrsBelow(kids, n) && x != a { }
    HoldsFrame(cells, cells', kids[n]);
  }

  /** A rewritten tree stays so when only cells of other old trees change. */
  lemma StaysRewritten(cells: Cells, mid: Cells, cells': Cells, t: Layout, r: Layout, other: set<Addr>)
    requires WellFormed(t) && Rewritten(cells, mid, t, r) && Changed(mid, cells', other)
    requires other <= cells.Keys && other !! Addrs(t)
    ensures Rewritten(cells, cells', t, r)
  {
    forall x | x in Addrs(r) ensures x !in other { }
    HoldsFrame(mid, cells', r);
  }

  lemma ProgressMore(cells: Cells, cells': Cells, a: Addr, kids: seq<Layout>, done: seq<Layout>, r: Layout)
    requires |done| < |kids| && forall i :: 0 <= i < |kids| ==> WellFormed(kids[i])
    requires Changed(cells, cells', KidAddrsBelow(kids, |done| + 1) + {a})
    requires forall i :: 0 <= i < |done| ==> Rewritten(cells, cells', kids[i], done[i]) && a !in Addrs(done[i])
    requires Rewritten(cells, cells', kids[|done|], r) && a !in Addrs(r)
    ensures Progress(cells, cells', a, kids, done + [r])
  {
  }

  /** Rewriting the next child extends the progress. */
  lemma KidRewritten(cells: Cells, mid: Cells, cells': Cells, a: Addr, kids: seq<Layout>, done: seq<Layout>, r: Layout)
    requires Ready(cells, a, kids) && Progress(cells, mid, a, kids, done) && |done| < |kids|
    requires Changed(mid, cells', Addrs(kids[|done|])) && Rewritten(mid, cells', kids[|done|], r)
    ensures Progress(cells, cells', a, kids, done + [r])
    ensures cells'[a] == mid[a]
  {
    var n := |done|;
    assert a !in Addrs(kids[n]) && a in mid;
    ChangedTwice(cells, mid, cells', KidAddrsBelow(kids, n) + {a}, Addrs(kids[n]), KidAddrsBelow(kids, n + 1) + {a});
    forall i | 0 <= i < n ensures Rewritten(cells, cells', kids[i], done[i]) {
      StaysRewritten(cells, mid, cells', kids[i], done[i], Addrs(kids[n]));
    }
    ProgressMore(cells, cells', a, kids, done, r);
  }

  lemma ChangedTwice(c0: Cells, c1: Cells, c2: Cells, t1: set<Addr>, t2: set<Addr>, t: set<Addr>)
    requires Changed(c0, c1, t1) && Changed(c1, c2, t2) && t1 <= t && t2 <= t
    ensures Changed(c0, c2, t)
  {
  }

  lemma CellUpdated(cells: Cells, mid: Cells, a: Addr, touched: set<Addr>, c: Cell)
    requires Changed(cells, mid, touched) && a in touched && a in cells && SameShape(mid[a], c)
    ensures Changed(cells, mid[a := c], touched)
  {
    forall x | x in cells ensures SameShape(cells[x], mid[a := c][x]) {
      assert SameShape(cells[x], mid[x]);
    }
  }

  /** Updating the parent's own cell, within its shape, keeps the progress. */
  lemma ParentUpdated(cells: Cells, mid: Cells, a: Addr, kids: seq<Layout>, done: seq<Layout>, c: Cell)
    requires Ready(cells, a, kids) && Progress(cells, mid, a, kids, done) && SameShape(mid[a], c)
    ensures Progress(cells, mid[a := c], a, kids, done)
  {
    CellUpdated(cells, mid, a, KidAddrsBelow(kids, |done|) + {a}, c);
    forall i | 0 <= i < |done| ensures Rewritten(cells, mid[a := c], kids[i], done[i]) {
      HoldsFrame(mid, mid[a := c], done[i]);
    }
  }

  // ------------------------------------------------------------------------
  // Values of rewritten cells
  // ------------------------------------------------------------------------

  lemma {:induction false} ReviveEntries(keys: seq<string>, vals: seq<Value>, revived: seq<Value>)
    requires |keys| == |vals| == |revived| && forall i :: 0 <= i < |vals| ==> revived[i] == Revive(vals[i])
    ensures RevivedFrom(FromKeywords(Zip(keys, vals)), FromKeywords(Zip(keys, revived)))
  {
    if keys != [] {
      var n := |keys| - 1;
      ReviveEntries(keys[..n], vals[..n], revived[..n]);
      assert Zip(keys, vals)[..n] == Zip(keys[..n], vals[..n]);
      assert Zip(keys, revived)[..n] == Zip(keys[..n], revived[..n]);
    }
  }

  // ------------------------------------------------------------------------
  // Dictionary cells
  // ------------------------------------------------------------------------

  /** The position of a key, or the number of items. */
  function KeyIndex(items: seq<(string, Ref)>, key: string): (i: nat)
    ensures i <= |items| && (i < |items| ==> items[i].0 == key)
    ensures forall j :: 0 <= j < i ==> items[j].0 != key
  {
    if items == [] || items[0].0 == key then 0 else 1 + KeyIndex(items[1..], key)
  }

  /** An existing key keeps its place; a new one goes last. */
  function SetItem(items: seq<(string, Ref)>, key: string, v: Ref): seq<(string, Ref)> {
    var i := KeyIndex(items, key);
    if i < |items| then items[i := (key, v)] else items + [(key, v)]
  }

  lemma KeyIndexIs(items: seq<(string, Ref)>, keys: seq<string>, i: nat)
    requires |keys| == |items| && Distinct(keys) && i < |items|
    requires forall j :: 0 <= j < |items| ==> items[j].0 == keys[j]
    ensures KeyIndex(items, keys[i]) == i
  {
    var k := KeyIndex(items, keys[i]);
    assert k < |items| ==> keys[k] == keys[i];
  }

  /** The first i items already point to rewritten children. */
  function MixedItems(keys: seq<string>, kids: seq<Layout>, done: seq<Layout>): (r: seq<(string, Ref)>)
    requires |keys| == |kids| && |done| <= |kids|
    ensures |r| == |keys|
  {
    seq(|keys|, i requires 0 <= i < |keys| => (keys[i], if i < |done| then RefOf(done[i]) else RefOf(kids[i])))
  }

  lemma {:induction false} FreshAddr(s: set<Addr>) returns (a: Addr)
    ensures forall x :: x in s ==> x < a
    decreases s
  {
    if s == {} {
      a := 0;
    } else {
      var x :| x in s;
      var b := FreshAddr(s - {x});
      a := if x < b then b else x + 1;
      forall y | y in s ensures y < a { assert y == x || y in s - {x}; }
    }
  }

  /** The codec item of a dictionary whose children hold the given values. */
  lemma CodecItem(keys: seq<string>, kids: seq<Layout>)
    requires |keys| == |kids| && Distinct(keys) && forall i :: 0 <= i < |kids| ==> WellFormed(kids[i])
    ensures var items := Zip(keys, Refs(kids));
            var entries := FromKeywords(Zip(keys, Vals(kids)));
            var i := KeyIndex(items, CODEC);
            && (i < |items| <==> CODEC in entries)
            && (i < |items| ==> entries[CODEC] == Val(kids[i]))
            && (Revivable(entries) <==> i < |items| && items[i].1.RStr? && items[i].1.s in CODECS)
  {
    var items, pairs := Zip(keys, Refs(kids)), Zip(keys, Vals(kids));
    var i := KeyIndex(items, CODEC);
    KeywordsLookup(pairs, CODEC);
    if i < |items| {
      assert pairs[i].0 == keys[i] == CODEC;
      assert forall j :: i < j < |pairs| ==> pairs[j].0 == keys[j] != CODEC;
    } else {
      assert forall j :: 0 <= j < |pairs| ==> pairs[j].0 == items[j].0;
    }
  }

  /** The cell's dictionary with the first |done| children replaced. */
  ghost predicate DictProgress(cells: Cells, cells': Cells, t: Layout, done: seq<Layout>)
    requires WellFormed(t) && t.DictAt?
  {
    && Progress(cells, cells', t.a, t.kids, done)
    && t.a in cells' && cells'[t.a] == DictCell(MixedItems(t.keys, t.kids, done))
  }

  lemma MixedItemsMore(keys: seq<string>, kids: seq<Layout>, done: seq<Layout>, r: Layout)
    requires |keys| == |kids| && Distinct(keys) && |done| < |kids|
    ensures var items, i := MixedItems(keys, kids, done), |done|;
            && items[i] == (keys[i], RefOf(kids[i]))
            && (items[i].1 == RefOf(r) ==> MixedItems(keys, kids, done + [r]) == items)
            && MixedItems(keys, kids, done + [r]) == SetItem(items, keys[i], RefOf(r))
  {
    var items, i := MixedItems(keys, kids, done), |done|;
    KeyIndexIs(items, keys, i);
    assert MixedItems(keys, kids, done + [r]) == items[i := (keys[i], RefOf(r))];
  }

  /** Storing the next child, or leaving it when it is what was there, extends the progress. */
  lemma ItemStored(cells: Cells, mid: Cells, t: Layout, done: seq<Layout>, r: Layout)
    requires WellFormed(t) && t.DictAt? && Ready(cells, t.a, t.kids) && |done| < |t.kids|
    requires Progress(cells, mid, t.a, t.kids, done + [r])
    requires t.a in mid && mid[t.a] == DictCell(MixedItems(t.keys, t.kids, done))
    ensures var i := |done|;
            var items := MixedItems(t.keys, t.kids, done);
            && items[i] == (t.keys[i], RefOf(t.kids[i]))
            && (items[i].1 == RefOf(r) ==> DictProgress(cells, mid, t, done + [r]))
            && DictProgress(cells, mid[t.a := DictCell(SetItem(items, t.keys[i], RefOf(r)))], t, done + [r])
  {
    MixedItemsMore(t.keys, t.kids, done, r);
    ParentUpdated(cells, mid, t.a, t.kids, done + [r], DictCell(MixedItems(t.keys, t.kids, done + [r])));
  }

  lemma ValUnfold(t: Layout)
    requires WellFormed(t)
    ensures t.DictAt? ==> Val(t) == Dict(FromKeywords(Zip(t.keys, Vals(t.kids))))
    ensures t.DataAt? ==> Val(t) == Data(FromKeywords(Zip(t.keys, Vals(t.kids))))
    ensures t.ListAt? ==> Val(t) == List(Vals(t.kids))
  {
    if !t.Leaf? {
      assert Vals(t.kids) == seq(|t.kids|, i requires 0 <= i < |t.kids| => Val(t.kids[i]));
    }
  }

  /** A tree without dataclass cells holds what a JSON document decodes to. */
  lemma {:induction false} NoDataIsJsonShaped(t: Layout)
    requires WellFormed(t) && NoData(t)
    ensures JsonShaped(Val(t))
  {
    ValUnfold(t);
    if !t.Leaf? {
      forall i | 0 <= i < |t.kids| ensures JsonShaped(Vals(t.kids)[i]) {
        NoDataIsJsonShaped(t.kids[i]);
      }
    }
    if t.DictAt? {
      var pairs := Zip(t.keys, Vals(t.kids));
      var m := FromKeywords(pairs);
      forall k | k in m ensures JsonShaped(m[k]) {
        var i := KeywordsSource(pairs, k);
      }
    }
  }

  /** After the rewrite no dictionary with a registered codec is left anywhere in the tree. */
  lemma RewrittenIsRevived(cells: Cells, cells': Cells, t: Layout, r: Layout)
    requires WellFormed(t) && NoData(t) && Rewritten(cells, cells', t, r)
    ensures FullyRevived(Val(r))
  {
    NoDataIsJsonShaped(t);
    ReviveIsComplete(Val(t));
  }

  /** The revived value of a dictionary, from its rewritten children. */
  lemma RevivedDict(t: Layout, done: seq<Layout>)
    requires WellFormed(t) && t.DictAt? && |done| == |t.kids|
    requires forall i :: 0 <= i < |done| ==> WellFormed(done[i]) && Val(done[i]) == Revive(Val(t.kids[i]))
    ensures Revive(Val(t)) == ReviveDict(FromKeywords(Zip(t.keys, Vals(done))))
  {
    ValUnfold(t);
    ReviveEntries(t.keys, Vals(t.kids), Vals(done));
    ReviveOfDict(FromKeywords(Zip(t.keys, Vals(t.kids))), FromKeywords(Zip(t.keys, Vals(done))));
  }

  /** Where the addresses of a rewritten cell come from. */
  lemma CellAddrs(cells: Cells, cells': Cells, t: Layout, done: seq<Layout>, r: Layout)
    requires WellFormed(t) && !t.Leaf? && Progress(cells, cells', t.a, t.kids, done)
    requires !r.Leaf? && r.kids == done && (r.a == t.a || r.a !in cells) && r.a in cells'
    ensures forall x :: x in Addrs(r) ==> x in cells' && (x in cells ==> x in Addrs(t))
  {
    forall x | x in Addrs(r) ensures x in cells' && (x in cells ==> x in Addrs(t)) {
      if x != r.a {
        var i :| 0 <= i < |done| && x in Addrs(done[i]);
        KidAddrs(t, i);
      }
    }
  }

  /** No revivable codec: the dictionary itself is the result. */
  lemma DictKept(cells: Cells, cells': Cells, t: Layout, done: seq<Layout>)
    requires WellFormed(t) && t.DictAt? && DictProgress(cells, cells', t, done) && |done| == |t.kids|
    requires !Revivable(FromKeywords(Zip(t.keys, Vals(done))))
    ensures Rewritten(cells, cells', t, DictAt(t.a, t.keys, done))
  {
    var r := DictAt(t.a, t.keys, done);
    RevivedDict(t, done);
    ValUnfold(r);
    CellAddrs(cells, cells', t, done, r);
    assert MixedItems(t.keys, t.kids, done) == Zip(t.keys, Refs(done));
  }

  /** A new cell beside the tree keeps the progress. */
  lemma NewCellKeeps(cells: Cells, mid: Cells, a: Addr, kids: seq<Layout>, done: seq<Layout>, d: Addr, c: Cell)
    requires forall i :: 0 <= i < |kids| ==> WellFormed(kids[i])
    requires Progress(cells, mid, a, kids, done) && d !in mid
    ensures Progress(cells, mid[d := c], a, kids, done)
  {
    forall i | 0 <= i < |done| ensures Rewritten(cells, mid[d := c], kids[i], done[i]) {
      HoldsFrame(mid, mid[d := c], done[i]);
    }
  }

  /** A registered codec: a new dataclass cell with the same entries is the result. */
  lemma DictRevived(cells: Cells, mid: Cells, t: Layout, done: seq<Layout>, d: Addr)
    requires WellFormed(t) && t.DictAt? && DictProgress(cells, mid, t, done) && |done| == |t.kids|
    requires Revivable(FromKeywords(Zip(t.keys, Vals(done)))) && d !in mid
    ensures var cells' := mid[d := DataCell(FromKeywords(Zip(t.keys, Refs(done))))];
            && Rewritten(cells, cells', t, DataAt(d, t.keys, done))
            && Changed(cells, cells', KidAddrsBelow(t.kids, |done|) + {t.a})
  {
    var cells' := mid[d := DataCell(FromKeywords(Zip(t.keys, Refs(done))))];
    var r := DataAt(d, t.keys, done);
    NewCellKeeps(cells, mid, t.a, t.kids, done, d, cells'[d]);
    RevivedDict(t, done);
    ValUnfold(r);
    CellAddrs(cells, cells', t, done, r);
  }

  /** The replacements of the first |refs| elements: those that differ. */
  ghost predicate Remembers(replacements: map<nat, Ref>, elems: seq<Ref>, refs: seq<Ref>) {
    && |refs| <= |elems|
    && (forall i :: i in replacements ==> i < |refs| && replacements[i] == refs[i])
    && (forall i :: 0 <= i < |refs| && i !in replacements ==> refs[i] == elems[i])
  }

  /** The list while the replacements at the pending indices are still to be stored. */
  ghost function Stored(elems: seq<Ref>, refs: seq<Ref>, pending: set<nat>): (r: seq<Ref>)
    requires |refs| == |elems|
    ensures |r| == |elems|
  {
    seq(|elems|, i requires 0 <= i < |elems| => if i in pending then elems[i] else refs[i])
  }

  lemma RemembersMore(replacements: map<nat, Ref>, elems: seq<Ref>, refs: seq<Ref>, v: Ref)
    requires Remembers(replacements, elems, refs) && |refs| < |elems|
    ensures elems[|refs|] == v ==> Remembers(replacements, elems, refs + [v])
    ensures Remembers(replacements[|refs| := v], elems, refs + [v])
  {
  }

  lemma StoredSteps(replacements: map<nat, Ref>, elems: seq<Ref>, refs: seq<Ref>, pending: set<nat>)
    requires Remembers(replacements, elems, refs) && |refs| == |elems| && pending <= replacements.Keys
    ensures Stored(elems, refs, replacements.Keys) == elems
    ensures Stored(elems, refs, {}) == refs
    ensures forall i :: i in pending ==>
              i < |elems| && Stored(elems, refs, pending)[i := replacements[i]] == Stored(elems, refs, pending - {i})
  {
  }

  /** A new element is remembered when it differs from the old one. */
  method Remember(replacements: map<nat, Ref>, i: nat, v0: Ref, v1: Ref, ghost elems: seq<Ref>, ghost refs: seq<Ref>)
    returns (r: map<nat, Ref>)
    requires Remembers(replacements, elems, refs) && i == |refs| < |elems| && v0 == elems[i]
    ensures Remembers(r, elems, refs + [v1])
  {
    RemembersMore(replacements, elems, refs, v1);
    r := if v0 != v1 then replacements[i := v1] else replacements;
  }

  lemma ListRewritten(cells: Cells, cells': Cells, t: Layout, done: seq<Layout>)
    requires WellFormed(t) && t.ListAt? && Progress(cells, cells', t.a, t.kids, done) && |done| == |t.kids|
    requires t.a in cells' && cells'[t.a] == ListCell(Refs(done))
    ensures Rewritten(cells, cells', t, ListAt(t.a, done))
  {
    var r := ListAt(t.a, done);
    ValUnfold(t);
    ValUnfold(r);
    CellAddrs(cells, cells', t, done, r);
    assert Revive(Val(t)) == List(Vals(done));
  }

  lemma KidsWithinTree(t: Layout, n: nat)
    requires !t.Leaf? && n <= |t.kids|
    ensures KidAddrsBelow(t.kids, n) + {t.a} <= Addrs(t)
  {
    forall i | 0 <= i < n ensures Addrs(t.kids[i]) <= Addrs(t) { KidAddrs(t, i); }
  }

  // ------------------------------------------------------------------------
  // The rewrite
  // ------------------------------------------------------------------------

  class Store {
    var cells: Cells

    constructor (cells: Cells)
      ensures this.cells == cells
    {
      this.cells := cells;
    }

    method SetKey(a: Addr, key: string, v: Ref)
      requires a in cells && cells[a].DictCell?
      modifies this
      ensures cells == old(cells)[a := DictCell(SetItem(old(cells[a]).items, key, v))]
    {
      var items := cells[a].items;
      var i := KeyIndex(items, key);
      items := if i < |items| then items[i := (key, v)] else items + [(key, v)];
      cells := cells[a := DictCell(items)];
    }

    method SetIndex(a: Addr, i: nat, v: Ref)
      requires a in cells && cells[a].ListCell? && i < |cells[a].elems|
      modifies this
      ensures cells == old(cells)[a := ListCell(old(cells[a]).elems[i := v])]
    {
      cells := cells[a := ListCell(cells[a].elems[i := v])];
    }

    /** NewDataclassFromDict: a new cell with a copy of the items. */
    method NewDataclassFromDict(a: Addr) returns (d: Addr)
      requires a in cells && cells[a].DictCell?
      modifies this
      ensures d !in old(cells)
      ensures var attrs := FromKeywords(old(cells[a]).items);
              cells == old(cells)[d := DataCell(if CODEC in attrs then attrs else attrs[CODEC := RStr(DATACLASS)])]
    {
      var attrs := KeywordsToStringDict(cells[a].items);
      if CODEC !in attrs {
        attrs := attrs[CODEC := RStr(DATACLASS)];
      }
      ghost var bound := FreshAddr(cells.Keys);
      assert bound !in cells;
      d :| d !in cells;
      cells := cells[d := DataCell(attrs)];
    }

    /** The replacer: a dictionary with a registered codec becomes a dataclass. */
    method CodecDictReplacer(a: Addr) returns (r: Ref)
      requires a in cells && cells[a].DictCell?
      modifies this
      ensures var items := old(cells[a]).items;
              var i := KeyIndex(items, CODEC);
              if i < |items| && items[i].1.RStr? && items[i].1.s in CODECS
              then r.RPtr? && r.a !in old(cells) && cells == old(cells)[r.a := DataCell(FromKeywords(items))]
              else r == RPtr(a) && cells == old(cells)
    {
      var items := cells[a].items;
      var i := KeyIndex(items, CODEC);
      if i < |items| && items[i].1.RStr? && items[i].1.s in CODECS {
        KeywordsLookup(items, CODEC);
        var d := NewDataclassFromDict(a);
        return RPtr(d);
      }
      return RPtr(a);
    }

    /** replaceDict: rewrites the tree at v where it is.  It fails exactly on trees that hold
        something a JSON document cannot. */
    method ReplaceDict(v: Ref, ghost t: Layout) returns (res: Result<Ref, string>, ghost r: Layout)
      requires WellFormed(t) && Holds(cells, t) && Separate(t) && RefOf(t) == v
      modifies this
      decreases t, 2
      ensures res.Ok? <==> NoData(t)
      ensures Changed(old(cells), cells, Addrs(t))
      ensures res.Ok? ==> Rewritten(old(cells), cells, t, r) && res.value == RefOf(r)
      ensures res.Ok? ==> FullyRevived(Val(r))
    {
      r := t;
      if v.RPtr? {
        match cells[v.a]
        case DictCell(_) => res, r := ReplaceInDict(v.a, t);
        case ListCell(_) => res, r := ReplaceInList(v.a, t);
        case DataCell(_) => res := Err("unexpected-type");
      } else {
        res := Ok(v);
      }
      if res.Ok? {
        RewrittenIsRevived(old(cells), cells, t, r);
      }
    }

    method ReplaceInDict(a: Addr, ghost t: Layout) returns (res: Result<Ref, string>, ghost r: Layout)
      requires WellFormed(t) && Holds(cells, t) && Separate(t) && t.DictAt? && t.a == a
      modifies this
      decreases t, 1
      ensures res.Ok? <==> NoData(t)
      ensures Changed(old(cells), cells, Addrs(t))
      ensures res.Ok? ==> Rewritten(old(cells), cells, t, r) && res.value == RefOf(r)
    {
      ghost var before := cells;
      ghost var done: seq<Layout> := [];
      var items := cells[a].items;
      r := t;
      TreeIsReady(cells, t);
      assert items == MixedItems(t.keys, t.kids, done);
      for i := 0 to |items|
        invariant |done| == i && DictProgress(before, cells, t, done)
        invariant NoDataBelow(t.kids, i)
      {
        var err;
        err, done := ReplaceItem(a, items[i], t, before, done);
        NoDataNext(t.kids, i);
        if err.Some? {
          return Err(err.value), t;
        }
      }
      var result;
      result, r := ReplaceItself(a, t, before, done);
      return Ok(result), r;
    }

    /** The last step for a dictionary whose items have been rewritten: the replacer's turn. */
    method ReplaceItself(a: Addr, ghost t: Layout, ghost before: Cells, ghost done: seq<Layout>)
      returns (result: Ref, ghost r: Layout)
      requires WellFormed(t) && t.DictAt? && t.a == a && |done| == |t.kids| && DictProgress(before, cells, t, done)
      modifies this
      decreases t, 0
      ensures Changed(before, cells, Addrs(t)) && Rewritten(before, cells, t, r) && result == RefOf(r)
    {
      ghost var mid := cells;
      KidsWithinTree(t, |done|);
      CodecItem(t.keys, done);
      assert MixedItems(t.keys, t.kids, done) == Zip(t.keys, Refs(done));
      result := CodecDictReplacer(a);
      if result == RPtr(a) {
        r := DictAt(a, t.keys, done);
        DictKept(before, mid, t, done);
      } else {
        r := DataAt(result.a, t.keys, done);
        DictRevived(before, mid, t, done, result.a);
      }
    }

    /** One iteration of the loop over a dictionary's items. */
    method ReplaceItem(a: Addr, item: (string, Ref), ghost t: Layout, ghost before: Cells, ghost done: seq<Layout>)
      returns (err: Option<string>, ghost done': seq<Layout>)
      requires WellFormed(t) && t.DictAt? && t.a == a && Ready(before, a, t.kids) && |done| < |t.kids|
      requires DictProgress(before, cells, t, done)
      requires item == (t.keys[|done|], RefOf(t.kids[|done|]))
      modifies this
      decreases t, 0
      ensures err.None? <==> NoData(t.kids[|done|])
      ensures err.None? ==> |done'| == |done| + 1 && DictProgress(before, cells, t, done')
      ensures err.Some? ==> Changed(before, cells, Addrs(t))
    {
      done' := done;
      NextKidHeld(before, cells, t.a, t.kids, done);
      ghost var mid := cells;
      var res;
      ghost var kid;
      res, kid := ReplaceDict(item.1, t.kids[|done|]);
      if res.Err? {
        KidsWithinTree(t, |done|);
        KidAddrs(t, |done|);
        ChangedTwice(before, mid, cells, KidAddrsBelow(t.kids, |done|) + {t.a}, Addrs(t.kids[|done|]), Addrs(t));
        return Some(res.error), done;
      }
      KidRewritten(before, mid, cells, t.a, t.kids, done, kid);
      ItemStored(before, cells, t, done, kid);
      done' := done + [kid];
      if item.1 != res.value {
        SetKey(a, item.0, res.value);
      }
      err := None;
    }

    /** One iteration of the loop over a list's elements: the new element is only remembered. */
    method ReplaceElement(v0: Ref, ghost t: Layout, ghost before: Cells, ghost done: seq<Layout>)
      returns (res: Result<Ref, string>, ghost done': seq<Layout>)
      requires WellFormed(t) && t.ListAt? && Ready(before, t.a, t.kids) && |done| < |t.kids|
      requires Progress(before, cells, t.a, t.kids, done) && v0 == RefOf(t.kids[|done|])
      modifies this
      decreases t, 0
      ensures res.Ok? <==> NoData(t.kids[|done|])
      ensures res.Ok? ==> Progress(before, cells, t.a, t.kids, done') && cells[t.a] == old(cells)[t.a]
      ensures res.Ok? ==> |done'| == |done| + 1 && Refs(done') == Refs(done) + [res.value]
      ensures res.Err? ==> Changed(before, cells, Addrs(t))
    {
      done' := done;
      NextKidHeld(before, cells, t.a, t.kids, done);
      ghost var mid := cells;
      ghost var kid;
      res, kid := ReplaceDict(v0, t.kids[|done|]);
      if res.Err? {
        KidsWithinTree(t, |done|);
        KidAddrs(t, |done|);
        ChangedTwice(before, mid, cells, KidAddrsBelow(t.kids, |done|) + {t.a}, Addrs(t.kids[|done|]), Addrs(t));
        return;
      }
      KidRewritten(before, mid, cells, t.a, t.kids, done, kid);
      RefsMore(done, kid);
      done' := done + [kid];
    }

    method ReplaceInList(a: Addr, ghost t: Layout) returns (res: Result<Ref, string>, ghost r: Layout)
      requires WellFormed(t) && Holds(cells, t) && Separate(t) && t.ListAt? && t.a == a
      modifies this
      decreases t, 1
      ensures res.Ok? <==> NoData(t)
      ensures Changed(old(cells), cells, Addrs(t))
      ensures res.Ok? ==> Rewritten(old(cells), cells, t, r) && res.value == RefOf(r)
    {
      ghost var before := cells;
      ghost var done: seq<Layout> := [];
      var elems := cells[a].elems;
      var replacements: map<nat, Ref> := map[];
      ghost var refs: seq<Ref> := [];
      r := t;
      TreeIsReady(cells, t);
      for i := 0 to |elems|
        invariant |done| == i && Progress(before, cells, a, t.kids, done) && cells[a] == ListCell(elems)
        invariant refs == Refs(done) && Remembers(replacements, elems, refs)
        invariant NoDataBelow(t.kids, i)
      {
        var element;
        element, done := ReplaceElement(elems[i], t, before, done);
        NoDataNext(t.kids, i);
        if element.Err? {
          return Err(element.error), t;
        }
        replacements := Remember(replacements, i, elems[i], element.value, elems, refs);
        refs := refs + [element.value];
      }
      Apply(a, elems, replacements, t, before, done);
      KidsWithinTree(t, |done|);
      r := ListAt(a, done);
      ListRewritten(before, cells, t, done);
      return Ok(RPtr(a)), r;
    }

    /** The second loop over a list: stores the remembered elements, in any order. */
    method Apply(a: Addr, ghost elems: seq<Ref>, replacements: map<nat, Ref>,
                 ghost t: Layout, ghost before: Cells, ghost done: seq<Layout>)
      requires WellFormed(t) && t.ListAt? && t.a == a && Ready(before, a, t.kids) && |done| == |t.kids| == |elems|
      requires Progress(before, cells, a, t.kids, done) && cells[a] == ListCell(elems)
      requires Remembers(replacements, elems, Refs(done))
      modifies this
      ensures Progress(before, cells, a, t.kids, done) && cells[a] == ListCell(Refs(done))
    {
      var pending := replacements.Keys;
      ghost var refs := Refs(done);
      StoredSteps(replacements, elems, refs, pending);
      while pending != {}
        invariant pending <= replacements.Keys
        invariant Progress(before, cells, a, t.kids, done)
        invariant cells[a] == ListCell(Stored(elems, refs, pending))
        decreases pending
      {
        var i :| i in pending;
        ghost var mid := cells;
        StoredSteps(replacements, elems, refs, pending);
        SetIndex(a, i, replacements[i]);
        ParentUpdated(before, mid, a, t.kids, done, cells[a]);
        pending := pending - {i};
      }
    }
  }
}
