/** The wire codec: script values, byte strings and keyword lists as one line of JSON text. */
module Codec {
  import opened Wrappers
  import opened Starlark
  import J = JsonText
  import F = JsonForms
  import Base64

  /** What can be handed to Encode. */
  datatype GoValue =
    | Script(v: Value)
    | Bytes(bytes: seq<Base64.byte>)
    | Keywords(tuples: Option<seq<seq<Value>>>)   // None is the nil slice
    | NilValue
    | GoBytes(raw: seq<Base64.byte>)              // []byte
    | BytesPtr(raw: seq<Base64.byte>)             // a pointer to a byte string
    | Foreign(id: int)                            // any other Go value

  datatype Error = UnsupportedType | NoCodecAttribute | Incompatible | BadText | DecodePanic | NotAPointer

  // ------------------------------------------------------------------------
  // Sorted keys
  // ------------------------------------------------------------------------

  predicate Leq(a: string, b: string) {
    a == "" || (b != "" && (a[0] < b[0] || (a[0] == b[0] && Leq(a[1..], b[1..]))))
  }

  lemma {:induction false} LeqTotal(a: string, b: string)
    ensures Leq(a, b) || Leq(b, a)
  {
    if a != "" && b != "" { LeqTotal(a[1..], b[1..]); }
  }

  lemma {:induction false} LeqAntisymmetric(a: string, b: string)
    requires Leq(a, b) && Leq(b, a)
    ensures a == b
  {
    if a != "" {
      LeqAntisymmetric(a[1..], b[1..]);
      assert a == [a[0]] + a[1..] && b == [b[0]] + b[1..];
    }
  }

  lemma {:induction false} LeqTransitive(a: string, b: string, c: string)
    requires Leq(a, b) && Leq(b, c)
    ensures Leq(a, c)
  {
    if a != "" && a[0] == b[0] == c[0] { LeqTransitive(a[1..], b[1..], c[1..]); }
  }

  /** a comes before b when it is the beginning of b, or has the smaller character where the two first
      differ. */
  lemma {:induction false} LeqIsLexicographic(a: string, b: string)
    ensures Leq(a, b) <==> a <= b || exists k: nat :: Differs(a, b, k)
  {
    if a != "" && b != "" {
      if a[0] == b[0] {
        LeqIsLexicographic(a[1..], b[1..]);
        FirstDifference(a, b);
        PrefixOfTails(a, b);
      } else {
        FirstDecides(a, b);
      }
    }
  }

  lemma SameFirst(a: string, b: string, k: nat)
    requires 0 < k <= |a| && k <= |b| && a[..k] == b[..k]
    ensures a[0] == b[0]
  {
    assert a[0] == a[..k][0] == b[..k][0] == b[0];
  }

  lemma FirstDecides(a: string, b: string)
    requires a != "" && b != "" && a[0] != b[0]
    ensures !(a <= b) && ((exists k: nat :: Differs(a, b, k)) <==> a[0] < b[0])
  {
    if k: nat :| Differs(a, b, k) {
      if k > 0 { SameFirst(a, b, k); }
    }
    if a[0] < b[0] {
      assert Differs(a, b, 0);
    }
  }

  lemma PrefixOfTails(a: string, b: string)
    requires a != "" && b != "" && a[0] == b[0]
    ensures a <= b <==> a[1..] <= b[1..]
  {
    assert a == [a[0]] + a[1..] && b == [b[0]] + b[1..];
  }

  ghost predicate Differs(a: string, b: string, k: nat) {
    k < |a| && k < |b| && a[..k] == b[..k] && a[k] < b[k]
  }

  lemma FirstDifference(a: string, b: string)
    requires a != "" && b != "" && a[0] == b[0]
    ensures (exists k: nat :: Differs(a[1..], b[1..], k)) <==> exists k: nat :: Differs(a, b, k)
  {
    if k: nat :| Differs(a[1..], b[1..], k) {
      assert a[..k + 1] == [a[0]] + a[1..][..k] && b[..k + 1] == [b[0]] + b[1..][..k];
      assert Differs(a, b, k + 1);
    }
    if k: nat :| Differs(a, b, k) {
      assert a[1..][..k - 1] == a[..k][1..] && b[1..][..k - 1] == b[..k][1..];
      assert Differs(a[1..], b[1..], k - 1);
    }
  }

  predicate IsLeast(s: set<string>, k: string) {
    k in s && forall j :: j in s ==> Leq(k, j)
  }

  lemma {:induction false} LeastExists(s: set<string>) returns (k: string)
    requires s != {}
    ensures IsLeast(s, k)
    decreases s
  {
    k :| k in s;
    LeqTotal(k, k);
    var rest := s - {k};
    if rest == {} {
      assert s == {k};
    } else {
      var m := LeastExists(rest);
      LeqTotal(k, m);
      forall j | j in s ensures Leq(if Leq(k, m) then k else m, j) {
        if j != k {
          assert j in rest;
          if Leq(k, m) { LeqTransitive(k, m, j); }
        }
      }
      if !Leq(k, m) { k := m; }
    }
  }

  function Least(s: set<string>): (k: string)
    requires s != {}
    ensures IsLeast(s, k)
  {
    assert exists k :: IsLeast(s, k) by { var k := LeastExists(s); }
    assert forall j, k :: IsLeast(s, j) && IsLeast(s, k) ==> j == k by {
      forall j, k | IsLeast(s, j) && IsLeast(s, k) ensures j == k { LeqAntisymmetric(j, k); }
    }
    var k :| IsLeast(s, k);
    k
  }

  predicate SortedDistinct(keys: seq<string>) {
    forall i, j :: 0 <= i < j < |keys| ==> Leq(keys[i], keys[j]) && keys[i] != keys[j]
  }

  /** The keys of a dictionary in the order in which they are written. */
  function SortedKeys(s: set<string>): (r: seq<string>)
    ensures forall k :: k in r <==> k in s
    ensures SortedDistinct(r)
    decreases s
  {
    if s == {} then []
    else
      var k := Least(s);
      [k] + SortedKeys(s - {k})
  }

  // ------------------------------------------------------------------------
  // Values and documents
  // ------------------------------------------------------------------------

  /** The document of a value: tuples are arrays, dataclasses objects, keys sorted. */
  function ToJson(v: Value): J.Json {
    match v
    case NoneValue => J.Null
    case Bool(b) => J.Bool(b)
    case Int(i) => J.Num(i)
    case Str(s) => J.Str(s)
    case List(e) => J.Arr(seq(|e|, i requires 0 <= i < |e| => ToJson(e[i])))
    case Tuple(e) => J.Arr(seq(|e|, i requires 0 <= i < |e| => ToJson(e[i])))
    case Dict(m) =>
      var keys := SortedKeys(m.Keys);
      J.Obj(seq(|keys|, i requires 0 <= i < |keys| => assert keys[i] in keys; J.Member(keys[i], ToJson(m[keys[i]]))))
    case Data(m) =>
      var keys := SortedKeys(m.Keys);
      J.Obj(seq(|keys|, i requires 0 <= i < |keys| => assert keys[i] in keys; J.Member(keys[i], ToJson(m[keys[i]]))))
  }

  /** A dataclass without its codec attribute cannot be written. */
  predicate Encodable(v: Value) {
    match v
    case List(e) => forall i :: 0 <= i < |e| ==> Encodable(e[i])
    case Tuple(e) => forall i :: 0 <= i < |e| ==> Encodable(e[i])
    case Dict(m) => forall k :: k in m ==> Encodable(m[k])
    case Data(m) => CODEC in m && forall k :: k in m ==> Encodable(m[k])
    case _ => true
  }

  /** The plain value of a document; the last of several members with one key wins. */
  function FromJson(j: J.Json): Value {
    match j
    case Null => NoneValue
    case Bool(b) => Bool(b)
    case Num(i) => Int(i)
    case Str(s) => Str(s)
    case Arr(e) => List(seq(|e|, i requires 0 <= i < |e| => FromJson(e[i])))
    case Obj(ms) => Dict(FromKeywords(seq(|ms|, i requires 0 <= i < |ms| => (ms[i].key, FromJson(ms[i].val)))))
  }

  /** The entries of an object's members. */
  function Entries(ms: seq<J.Member>): (r: seq<(string, Value)>)
    ensures |r| == |ms|
  {
    seq(|ms|, i requires 0 <= i < |ms| => (ms[i].key, FromJson(ms[i].val)))
  }

  function Elements(e: seq<J.Json>): (r: seq<Value>)
    ensures |r| == |e|
  {
    seq(|e|, i requires 0 <= i < |e| => FromJson(e[i]))
  }

  lemma FromJsonUnfold(j: J.Json)
    ensures j.Obj? ==> FromJson(j) == Dict(FromKeywords(Entries(j.members)))
    ensures j.Arr? ==> FromJson(j) == List(Elements(j.elems))
  {
    if j.Obj? {
      assert Entries(j.members) == seq(|j.members|, i requires 0 <= i < |j.members| => (j.members[i].key, FromJson(j.members[i].val)));
    }
  }

  /** v with tuples as lists and dataclasses as dictionaries. */
  function Plain(v: Value): Value {
    match v
    case List(e) => List(seq(|e|, i requires 0 <= i < |e| => Plain(e[i])))
    case Tuple(e) => List(seq(|e|, i requires 0 <= i < |e| => Plain(e[i])))
    case Dict(m) => Dict(map k | k in m :: Plain(m[k]))
    case Data(m) => Dict(map k | k in m :: Plain(m[k]))
    case _ => v
  }

  lemma {:induction false} FromSortedMembers(keys: seq<string>, m: map<string, Value>, pairs: seq<(string, Value)>)
    requires |pairs| == |keys| && forall i :: 0 <= i < |keys| ==> keys[i] in m && pairs[i] == (keys[i], m[keys[i]])
    ensures FromKeywords(pairs) == map k | k in m && k in keys :: m[k]
  {
    if keys != [] {
      var n := |keys| - 1;
      FromSortedMembers(keys[..n], m, pairs[..n]);
      assert forall k :: k in keys <==> k in keys[..n] || k == keys[n];
    }
  }

  lemma FromAllMembers(keys: seq<string>, m: map<string, Value>, pairs: seq<(string, Value)>)
    requires |pairs| == |keys| && forall i :: 0 <= i < |keys| ==> keys[i] in m && pairs[i] == (keys[i], m[keys[i]])
    requires forall k :: k in m ==> k in keys
    ensures FromKeywords(pairs) == m
  {
    FromSortedMembers(keys, m, pairs);
  }

  ghost predicate ReadsBack(v: Value) { FromJson(ToJson(v)) == Plain(v) }

  /** Reading a document back gives the plain value. */
  lemma {:induction false} JsonRoundTrip(v: Value)
    ensures ReadsBack(v)
    decreases v, 1
  {
    if v.List? || v.Tuple? {
      ElementsBack(v, v.elems);
    } else if v.Dict? || v.Data? {
      EntriesBack(v, v.entries);
    } else {
      ScalarBack(v);
    }
  }

  lemma ScalarBack(v: Value)
    requires v.NoneValue? || v.Bool? || v.Int? || v.Str?
    ensures ReadsBack(v)
  {
  }

  lemma {:induction false} ElementsBack(v: Value, e: seq<Value>)
    requires v == List(e) || v == Tuple(e)
    ensures ReadsBack(v)
    decreases v, 0
  {
    forall i | 0 <= i < |e| ensures ReadsBack(e[i]) {
      JsonRoundTrip(e[i]);
    }
  }

  function PlainEntries(m: map<string, Value>): map<string, Value> { map k | k in m :: Plain(m[k]) }

  /** The members of a dictionary's object, in key order. */
  function Members(m: map<string, Value>): (r: seq<J.Member>)
    ensures |r| == |SortedKeys(m.Keys)|
  {
    var keys := SortedKeys(m.Keys);
    seq(|keys|, i requires 0 <= i < |keys| => assert keys[i] in keys; J.Member(keys[i], ToJson(m[keys[i]])))
  }

  lemma ObjectOf(m: map<string, Value>)
    ensures ToJson(Dict(m)) == ToJson(Data(m)) == J.Obj(Members(m))
    ensures Plain(Dict(m)) == Plain(Data(m)) == Dict(PlainEntries(m))
  {
    assert PlainEntries(m) == map k | k in m :: Plain(m[k]);
  }

  /** The document of a list or tuple has their documents in order; that of a dictionary or dataclass has
      one member for each key, in key order. */
  lemma DocumentOf(e: seq<Value>, m: map<string, Value>)
    ensures var d := ToJson(List(e));
            d == ToJson(Tuple(e)) && d.Arr? && |d.elems| == |e| && forall i :: 0 <= i < |e| ==> d.elems[i] == ToJson(e[i])
    ensures var d := ToJson(Dict(m));
            && d == ToJson(Data(m)) && d.Obj?
            && (forall i :: 0 <= i < |d.members| ==> d.members[i].key in m && d.members[i].val == ToJson(m[d.members[i].key]))
            && (forall k :: k in m ==> exists i :: 0 <= i < |d.members| && d.members[i].key == k)
            && forall i, j :: 0 <= i < j < |d.members| ==>
                 Leq(d.members[i].key, d.members[j].key) && d.members[i].key != d.members[j].key
  {
    ObjectOf(m);
    var keys, ms := SortedKeys(m.Keys), Members(m);
    assert forall i :: 0 <= i < |keys| ==> keys[i] in keys && ms[i].key == keys[i];
  }

  /** The value of an array has the values of its elements in order; that of an object has the keys of its
      members, each with the value of the last member that has it. */
  lemma ValueOf(e: seq<J.Json>, ms: seq<J.Member>, k: string)
    ensures var v := FromJson(J.Arr(e));
            v.List? && |v.elems| == |e| && forall i :: 0 <= i < |e| ==> v.elems[i] == FromJson(e[i])
    ensures var v := FromJson(J.Obj(ms));
            && v.Dict?
            && (k in v.entries <==> exists i :: 0 <= i < |ms| && ms[i].key == k)
            && forall i :: 0 <= i < |ms| && ms[i].key == k && (forall j :: i < j < |ms| ==> ms[j].key != k)
                 ==> k in v.entries && v.entries[k] == FromJson(ms[i].val)
  {
    FromJsonUnfold(J.Arr(e));
    FromJsonUnfold(J.Obj(ms));
    forall i | 0 <= i < |ms| ensures Entries(ms)[i] == (ms[i].key, FromJson(ms[i].val)) { }
    KeywordsLookup(Entries(ms), k);
  }

  lemma MemberBack(m: map<string, Value>, i: nat)
    requires i < |Members(m)| && forall k :: k in m ==> ReadsBack(m[k])
    ensures var key := SortedKeys(m.Keys)[i];
            key in m && Entries(Members(m))[i] == (key, PlainEntries(m)[key])
  {
    var key := SortedKeys(m.Keys)[i];
    assert key in SortedKeys(m.Keys);
    assert ReadsBack(m[key]);
  }

  lemma MembersBack(m: map<string, Value>)
    requires forall k :: k in m ==> ReadsBack(m[k])
    ensures FromJson(J.Obj(Members(m))) == Dict(PlainEntries(m))
  {
    var keys, plain := SortedKeys(m.Keys), PlainEntries(m);
    forall i: nat | i < |keys| ensures keys[i] in plain && Entries(Members(m))[i] == (keys[i], plain[keys[i]]) {
      MemberBack(m, i);
    }
    FromAllMembers(keys, plain, Entries(Members(m)));
    FromJsonUnfold(J.Obj(Members(m)));
  }

  lemma {:induction false} EntriesBack(v: Value, m: map<string, Value>)
    requires v == Dict(m) || v == Data(m)
    ensures ReadsBack(v)
    decreases v, 0
  {
    forall k | k in m ensures ReadsBack(m[k]) {
      JsonRoundTrip(m[k]);
    }
    ObjectOf(m);
    MembersBack(m);
  }

  // ------------------------------------------------------------------------
  // What a value becomes on its way through the wire
  // ------------------------------------------------------------------------

  /** Decode(Encode(v)): tuples become lists; a dictionary or dataclass comes back as a dataclass
      exactly when its codec attribute is a registered name. */
  function Normal(v: Value): Value {
    match v
    case List(e) => List(seq(|e|, i requires 0 <= i < |e| => Normal(e[i])))
    case Tuple(e) => List(seq(|e|, i requires 0 <= i < |e| => Normal(e[i])))
    case Dict(m) => ReviveDict(map k | k in m :: Normal(m[k]))
    case Data(m) => ReviveDict(map k | k in m :: Normal(m[k]))
    case _ => v
  }

  /** v with its tuples as lists, and nothing else changed. */
  function TuplesAsLists(v: Value): Value {
    match v
    case List(e) => List(seq(|e|, i requires 0 <= i < |e| => TuplesAsLists(e[i])))
    case Tuple(e) => List(seq(|e|, i requires 0 <= i < |e| => TuplesAsLists(e[i])))
    case Dict(m) => Dict(map k | k in m :: TuplesAsLists(m[k]))
    case Data(m) => Data(map k | k in m :: TuplesAsLists(m[k]))
    case _ => v
  }

  /** No dictionary in v carries a registered codec, and every dataclass does. */
  predicate Faithful(v: Value) {
    match v
    case List(e) => forall i :: 0 <= i < |e| ==> Faithful(e[i])
    case Tuple(e) => forall i :: 0 <= i < |e| ==> Faithful(e[i])
    case Dict(m) => !Revivable(m) && forall k :: k in m ==> Faithful(m[k])
    case Data(m) => Revivable(m) && forall k :: k in m ==> Faithful(m[k])
    case _ => true
  }

  function NormalEntries(m: map<string, Value>): map<string, Value> { map k | k in m :: Normal(m[k]) }
  function ListedEntries(m: map<string, Value>): map<string, Value> { map k | k in m :: TuplesAsLists(m[k]) }
  function NormalElements(e: seq<Value>): seq<Value> { seq(|e|, i requires 0 <= i < |e| => Normal(e[i])) }
  function ListedElements(e: seq<Value>): seq<Value> { seq(|e|, i requires 0 <= i < |e| => TuplesAsLists(e[i])) }

  lemma UnfoldEntries(m: map<string, Value>)
    ensures Normal(Dict(m)) == Normal(Data(m)) == ReviveDict(NormalEntries(m))
    ensures TuplesAsLists(Dict(m)) == Dict(ListedEntries(m)) && TuplesAsLists(Data(m)) == Data(ListedEntries(m))
  {
    assert NormalEntries(m) == map k | k in m :: Normal(m[k]);
    assert ListedEntries(m) == map k | k in m :: TuplesAsLists(m[k]);
  }

  lemma UnfoldElements(e: seq<Value>)
    ensures Normal(List(e)) == Normal(Tuple(e)) == List(NormalElements(e))
    ensures TuplesAsLists(List(e)) == TuplesAsLists(Tuple(e)) == List(ListedElements(e))
  {
  }

  lemma {:induction false} RevivePlain(v: Value)
    ensures Revive(Plain(v)) == Normal(v)
  {
    match v
    case List(e) => forall i | 0 <= i < |e| ensures Revive(Plain(e[i])) == Normal(e[i]) { RevivePlain(e[i]); }
    case Tuple(e) => forall i | 0 <= i < |e| ensures Revive(Plain(e[i])) == Normal(e[i]) { RevivePlain(e[i]); }
    case Dict(m) => RevivePlainEntries(v, m);
    case Data(m) => RevivePlainEntries(v, m);
    case _ =>
  }

  lemma {:induction false} RevivePlainEntries(v: Value, m: map<string, Value>)
    requires v == Dict(m) || v == Data(m)
    ensures Revive(Plain(v)) == Normal(v)
    decreases v, 0
  {
    forall k | k in m ensures Revive(Plain(m[k])) == Normal(m[k]) { RevivePlain(m[k]); }
    ObjectOf(m);
    UnfoldEntries(m);
    ReviveOfDict(PlainEntries(m), NormalEntries(m));
  }

  /** Normalising does not touch a codec attribute. */
  lemma NormalCodec(m: map<string, Value>)
    ensures Revivable(NormalEntries(m)) <==> Revivable(m)
    ensures Revivable(m) ==> WithCodec(NormalEntries(m)) == NormalEntries(m)
  {
    var n := NormalEntries(m);
    if CODEC in m {
      var c := m[CODEC];
      assert n[CODEC] == Normal(c);
      match c case Dict(d) => UnfoldEntries(d); case Data(d) => UnfoldEntries(d); case _ =>
    }
  }

  lemma NormalDict(m: map<string, Value>)
    ensures Normal(Dict(m)) == if Revivable(m) then Data(NormalEntries(m)) else Dict(NormalEntries(m))
  {
    UnfoldEntries(m);
    NormalCodec(m);
  }

  lemma SameEntries(m: map<string, Value>)
    requires forall k :: k in m ==> (Normal(m[k]) == TuplesAsLists(m[k]) <==> Faithful(m[k]))
    ensures NormalEntries(m) == ListedEntries(m) <==> forall k :: k in m ==> Faithful(m[k])
  {
    if NormalEntries(m) == ListedEntries(m) {
      forall k | k in m ensures Faithful(m[k]) { assert NormalEntries(m)[k] == ListedEntries(m)[k]; }
    }
  }

  lemma SameElements(e: seq<Value>)
    requires forall i :: 0 <= i < |e| ==> (Normal(e[i]) == TuplesAsLists(e[i]) <==> Faithful(e[i]))
    ensures NormalElements(e) == ListedElements(e) <==> forall i :: 0 <= i < |e| ==> Faithful(e[i])
  {
    if NormalElements(e) == ListedElements(e) {
      forall i | 0 <= i < |e| ensures Faithful(e[i]) { assert NormalElements(e)[i] == ListedElements(e)[i]; }
    }
  }

  /** The wire changes nothing but tuples if and only if v is faithful. */
  lemma {:induction false} NormalIsFaithful(v: Value)
    ensures Normal(v) == TuplesAsLists(v) <==> Faithful(v)
    decreases v, 1
  {
    match v
    case List(e) => FaithfulElements(v, e);
    case Tuple(e) => FaithfulElements(v, e);
    case Dict(m) => FaithfulEntries(v, m);
    case Data(m) => FaithfulEntries(v, m);
    case _ =>
  }

  lemma {:induction false} FaithfulElements(v: Value, e: seq<Value>)
    requires v == List(e) || v == Tuple(e)
    ensures Normal(v) == TuplesAsLists(v) <==> Faithful(v)
    decreases v, 0
  {
    forall i | 0 <= i < |e| ensures Normal(e[i]) == TuplesAsLists(e[i]) <==> Faithful(e[i]) { NormalIsFaithful(e[i]); }
    UnfoldElements(e);
    SameElements(e);
  }

  lemma {:induction false} FaithfulEntries(v: Value, m: map<string, Value>)
    requires v == Dict(m) || v == Data(m)
    ensures Normal(v) == TuplesAsLists(v) <==> Faithful(v)
    decreases v, 0
  {
    forall k | k in m ensures Normal(m[k]) == TuplesAsLists(m[k]) <==> Faithful(m[k]) { NormalIsFaithful(m[k]); }
    UnfoldEntries(m);
    SameEntries(m);
    NormalCodec(m);
  }

  // ------------------------------------------------------------------------
  // Encode
  // ------------------------------------------------------------------------

  /** The text of one script value that can be written. */
  function Wire(v: Value): string { J.Print(ToJson(v)) }

  function EncodeScript(v: Value): Result<string, Error> {
    if Encodable(v) then Ok(Wire(v)) else Err(NoCodecAttribute)
  }

  /** The document of a keyword list. */
  function KeywordsJson(tuples: seq<seq<Value>>): J.Json {
    J.Arr(seq(|tuples|, i requires 0 <= i < |tuples| => ToJson(Tuple(tuples[i]))))
  }

  function Encoded(v: GoValue): Result<string, Error> {
    match v
    case Bytes(bs) => Ok("\"" + Base64.Encode(bs) + "\"")
    case Keywords(None) => Ok("null")
    case Keywords(Some(ts)) =>
      if forall i :: 0 <= i < |ts| ==> Encodable(Tuple(ts[i])) then Ok(J.Print(KeywordsJson(ts))) else Err(NoCodecAttribute)
    case NilValue => Ok("null")
    case Script(s) => EncodeScript(s)
    case _ => Err(UnsupportedType)
  }

  /** What can be written: a list, tuple or dictionary of writable values, a dataclass if it also has its
      codec attribute, and every scalar. */
  lemma EncodesExactly(e: seq<Value>, m: map<string, Value>, v: Value)
    ensures v.NoneValue? || v.Bool? || v.Int? || v.Str? ==> Encoded(Script(v)).Ok?
    ensures Encoded(Script(List(e))).Ok? <==> forall i :: 0 <= i < |e| ==> Encoded(Script(e[i])).Ok?
    ensures Encoded(Script(Tuple(e))).Ok? <==> forall i :: 0 <= i < |e| ==> Encoded(Script(e[i])).Ok?
    ensures Encoded(Script(Dict(m))).Ok? <==> forall k :: k in m ==> Encoded(Script(m[k])).Ok?
    ensures Encoded(Script(Data(m))).Ok? <==> "__codec__" in m && forall k :: k in m ==> Encoded(Script(m[k])).Ok?
  {
  }

  /** A keyword list can be written if its tuples can; other Go values but byte strings are refused. */
  lemma EncodesOthers(ts: seq<seq<Value>>, v: GoValue)
    ensures Encoded(Keywords(Some(ts))).Ok? <==> forall i :: 0 <= i < |ts| ==> Encoded(Script(Tuple(ts[i]))).Ok?
    ensures v.Bytes? || v.NilValue? ==> Encoded(v).Ok?
    ensures v.Foreign? || v.GoBytes? || v.BytesPtr? ==> Encoded(v) == Err(UnsupportedType)
  {
  }

  /** The text of scalars and nils, and what it is read as. */
  lemma Scalars(s: string, i: int)
    ensures Encoded(Script(NoneValue)) == Encoded(NilValue) == Encoded(Keywords(None)) == Ok("null")
    ensures Encoded(Script(Bool(true))) == Ok("true") && Encoded(Script(Bool(false))) == Ok("false")
    ensures Encoded(Script(Int(i))) == Ok(J.Print(J.Num(i))) && Encoded(Script(Str(s))) == Ok(J.Print(J.Str(s)))
  {
  }

  /** res is what the loop over keywords has written before element i. */
  ghost predicate WrittenUpTo(e: seq<J.Json>, i: nat, res: string)
    requires i <= |e|
  {
    if i < |e| || e == [] then res + J.PrintElements(e[i..]) == J.Print(J.Arr(e))
    else res + "]" == J.Print(J.Arr(e))
  }

  lemma WriteElement(e: seq<J.Json>, i: nat, res: string)
    requires i < |e| && WrittenUpTo(e, i, res)
    ensures WrittenUpTo(e, i + 1, res + J.Print(e[i]) + if i < |e| - 1 then "," else "")
  {
    var one := J.Print(e[i]);
    assert e[i..][1..] == e[i + 1..];
    if i < |e| - 1 {
      var rest := J.PrintElements(e[i + 1..]);
      assert J.PrintElements(e[i..]) == one + ("," + rest);
      assert res + (one + ("," + rest)) == res + one + "," + rest;
    } else {
      assert J.PrintElements(e[i..]) == one + "]";
      assert res + (one + "]") == res + one + "" + "]";
    }
  }

  method EncodeKeywords(ts: seq<seq<Value>>) returns (r: Result<string, Error>)
    ensures r == Encoded(Keywords(Some(ts)))
  {
    ghost var e := KeywordsJson(ts).elems;
    var res := "[";
    assert e[0..] == e;
    for i := 0 to |ts|
      invariant forall k :: 0 <= k < i ==> Encodable(Tuple(ts[k]))
      invariant WrittenUpTo(e, i, res)
    {
      var one := EncodeScript(Tuple(ts[i]));
      if one.Err? {
        return one;
      }
      WriteElement(e, i, res);
      res := res + one.value + if i < |ts| - 1 then "," else "";
    }
    return Ok(res + "]");
  }

  /** Encode. */
  method Encode(v: GoValue) returns (r: Result<string, Error>)
    ensures r == Encoded(v)
  {
    match v
    case Bytes(bs) =>
      var res := Base64.EncodeQuoted(bs);
      return Ok(res[..]);
    case Keywords(None) => return Ok("null");
    case Keywords(Some(ts)) => r := EncodeKeywords(ts);
    case NilValue => return Ok("null");
    case Script(s) => return EncodeScript(s);
    case _ => return Err(UnsupportedType);
  }

  // ------------------------------------------------------------------------
  // Decode
  // ------------------------------------------------------------------------

  datatype Tag = TNone | TBool | TInt | TStr | TList | TTuple | TDict | TData

  function TagOf(v: Value): Tag {
    match v
    case NoneValue => TNone case Bool(_) => TBool case Int(_) => TInt case Str(_) => TStr
    case List(_) => TList case Tuple(_) => TTuple case Dict(_) => TDict case Data(_) => TData
  }

  /** What the output pointer points to; Typed is one concrete script type. */
  datatype Kind = NotPointer | GoBytesOut | BytesOut | KeywordsOut | TupleOut | ValueOut | TypedOut(tag: Tag) | ForeignOut

  datatype Out =
    | OutBytes(bytes: seq<Base64.byte>)
    | OutKeywords(tuples: Option<seq<seq<Value>>>)
    | OutTuple(elems: Option<seq<Value>>)
    | OutValue(v: Value)
    | OutForeign(id: int)                         // written by the Go JSON library only

  /** The value of a line: parsed, then revived. */
  function DecodedValue(line: string): Result<Value, Error> {
    match J.Parse(line)
    case None => Err(BadText)
    case Some(j) => Ok(Revive(FromJson(j)))
  }

  function DecodedBytes(text: string): Result<Out, Error> {
    match Base64.Decode(text) case None => Err(BadText) case Some(bs) => Ok(OutBytes(bs))
  }

  function AsKeywords(l: seq<Value>): Result<Out, Error> {
    if forall i :: 0 <= i < |l| ==> l[i].List?
    then Ok(OutKeywords(Some(seq(|l|, i requires 0 <= i < |l| => l[i].elems))))
    else Err(DecodePanic)
  }

  function Decoded(line: string, kind: Kind): Result<Out, Error> {
    match kind
    case NotPointer => Err(NotAPointer)
    case ForeignOut => Err(UnsupportedType)
    case GoBytesOut =>
      (match J.Parse(line)
       case Some(Str(s)) => DecodedBytes(s)
       case Some(Null) => Ok(OutBytes([]))
       case _ => Err(BadText))
    case BytesOut =>
      if |line| < 2 || line[0] != '"' || line[|line| - 1] != '"' then Err(Incompatible)
      else DecodedBytes(line[1..|line| - 1])
    case KeywordsOut =>
      (match DecodedValue(line)
       case Err(e) => Err(e)
       case Ok(NoneValue) => Ok(OutKeywords(None))
       case Ok(List(l)) => AsKeywords(l)
       case Ok(_) => Err(Incompatible))
    case TupleOut =>
      (match DecodedValue(line)
       case Err(e) => Err(e)
       case Ok(NoneValue) => Ok(OutTuple(None))
       case Ok(List(l)) => Ok(OutTuple(Some(l)))
       case Ok(_) => Err(Incompatible))
    case ValueOut =>
      (match DecodedValue(line) case Err(e) => Err(e) case Ok(v) => Ok(OutValue(v)))
    case TypedOut(tag) =>
      (match DecodedValue(line)
       case Err(e) => Err(e)
       case Ok(v) => if TagOf(v) == tag then Ok(OutValue(v)) else Err(DecodePanic))
  }

  /** tupleFromList. */
  method TupleFromList(l: seq<Value>) returns (t: seq<Value>)
    ensures t == l
  {
    var a := new Value[|l|](_ => NoneValue);
    for i := 0 to |l|
      invariant a[..i] == l[..i]
    {
      a[i] := l[i];
    }
    t := a[..];
  }

  /** keywordsFromList: panics on an element that is no list. */
  method KeywordsFromList(l: seq<Value>) returns (r: Result<Out, Error>)
    ensures r == AsKeywords(l)
  {
    var t := new seq<Value>[|l|](_ => []);
    for i := 0 to |l|
      invariant forall k :: 0 <= k < i ==> l[k].List? && t[k] == l[k].elems
    {
      if !l[i].List? {
        return Err(DecodePanic);
      }
      var elems := TupleFromList(l[i].elems);
      t[i] := elems;
    }
    assert t[..] == seq(|l|, i requires 0 <= i < |l| => l[i].elems);
    return Ok(OutKeywords(Some(t[..])));
  }

  /** Decode, by output kind. */
  method Decode(line: string, kind: Kind) returns (r: Result<Out, Error>)
    ensures r == Decoded(line, kind)
    decreases kind.KeywordsOut?
  {
    match kind
    case NotPointer => return Err(NotAPointer);
    case ForeignOut => return Err(UnsupportedType);
    case GoBytesOut =>
      match J.Parse(line) {
        case Some(Str(s)) => r := DecodeText(s);
        case Some(Null) => return Ok(OutBytes([]));
        case _ => return Err(BadText);
      }
    case BytesOut =>
      if |line| < 2 || line[0] != '"' || line[|line| - 1] != '"' {
        return Err(Incompatible);
      }
      r := DecodeText(line[1..|line| - 1]);
    case KeywordsOut =>
      var dst := Decode(line, ValueOut);
      if dst.Err? {
        return dst;
      }
      match dst.value.v {
        case NoneValue => return Ok(OutKeywords(None));
        case List(l) => r := KeywordsFromList(l);
        case _ => return Err(Incompatible);
      }
    case TupleOut =>
      match DecodedValue(line) {
        case Err(e) => return Err(e);
        case Ok(NoneValue) => return Ok(OutTuple(None));
        case Ok(List(l)) =>
          var t := TupleFromList(l);
          return Ok(OutTuple(Some(t)));
        case Ok(_) => return Err(Incompatible);
      }
    case ValueOut =>
      match DecodedValue(line) {
        case Err(e) => return Err(e);
        case Ok(v) => return Ok(OutValue(v));
      }
    case TypedOut(tag) =>
      match DecodedValue(line) {
        case Err(e) => return Err(e);
        case Ok(v) => return if TagOf(v) == tag then Ok(OutValue(v)) else Err(DecodePanic);
      }
  }

  method DecodeText(text: string) returns (r: Result<Out, Error>)
    ensures r == DecodedBytes(text)
  {
    var res := Base64.DecodeBuffer(text);
    match res
    case None => return Err(BadText);
    case Some(bs) => return Ok(OutBytes(bs));
  }

  // ------------------------------------------------------------------------
  // Round trips
  // ------------------------------------------------------------------------

  lemma DocumentRoundTrip(v: Value)
    ensures DecodedValue(Wire(v)) == Ok(Normal(v))
  {
    J.RoundTrip(ToJson(v));
    JsonRoundTrip(v);
    RevivePlain(v);
  }

  /** A line that writes a document in any way, with any white space and any escapes, has the value of
      the document, and goes into every target but a byte string as the compact text does. */
  lemma WrittenDecodes(line: string, before: string, f: F.Form, after: string, kind: Kind)
    requires F.Written(line, before, f, after)
    ensures DecodedValue(line) == Ok(Revive(FromJson(F.Meaning(f))))
    ensures !kind.BytesOut? ==> Decoded(line, kind) == Decoded(J.Print(F.Meaning(f)), kind)
  {
    F.WrittenIsParsed(line, before, f, after);
    J.RoundTrip(F.Meaning(f));
  }

  /** No other line has a value. */
  lemma OnlyWrittenDecodes(line: string)
    ensures DecodedValue(line).Ok? <==> exists before, f, after :: F.Written(line, before, f, after)
  {
    if DecodedValue(line).Ok? {
      var before, f, after := F.ParsedIsWritten(line);
    }
    if before, f, after :| F.Written(line, before, f, after) {
      F.WrittenIsParsed(line, before, f, after);
    }
  }

  lemma ScriptLine(v: Value, line: string)
    requires Encoded(Script(v)) == Ok(line)
    ensures line == Wire(v)
  {
  }

  lemma ValueOfLine(line: string, v: Value)
    requires DecodedValue(line) == Ok(v)
    ensures Decoded(line, ValueOut) == Ok(OutValue(v))
    ensures v.List? ==> Decoded(line, TupleOut) == Ok(OutTuple(Some(v.elems)))
    ensures v.List? ==> Decoded(line, KeywordsOut) == AsKeywords(v.elems)
  {
  }

  /** Which targets take the value of a line, and how the others fail. */
  lemma TargetsExactly(line: string, v: Value, kind: Kind)
    requires DecodedValue(line) == Ok(v)
    ensures Decoded(line, ValueOut) == Ok(OutValue(v))
    ensures Decoded(line, TupleOut) == match v
                                       case NoneValue => Ok(OutTuple(None))
                                       case List(e) => Ok(OutTuple(Some(e)))
                                       case _ => Err(Incompatible)
    ensures v.NoneValue? ==> Decoded(line, KeywordsOut) == Ok(OutKeywords(None))
    ensures v.List? && (exists i :: 0 <= i < |v.elems| && !v.elems[i].List?) ==> Decoded(line, KeywordsOut) == Err(DecodePanic)
    ensures !v.NoneValue? && !v.List? ==> Decoded(line, KeywordsOut) == Err(Incompatible)
    ensures kind.TypedOut? ==>
              Decoded(line, kind) == if match (kind.tag, v)
                                        case (TNone, NoneValue) => true
                                        case (TBool, Bool(_)) => true
                                        case (TInt, Int(_)) => true
                                        case (TStr, Str(_)) => true
                                        case (TList, List(_)) => true
                                        case (TTuple, Tuple(_)) => true
                                        case (TDict, Dict(_)) => true
                                        case (TData, Data(_)) => true
                                        case _ => false
                                     then Ok(OutValue(v)) else Err(DecodePanic)
    ensures Decoded(line, NotPointer) == Err(NotAPointer) && Decoded(line, ForeignOut) == Err(UnsupportedType)
  {
  }

  /** Every value that can be written is read back as its normal form. */
  lemma ScriptRoundTrip(v: Value, line: string)
    requires Encoded(Script(v)) == Ok(line)
    ensures Decoded(line, ValueOut) == Ok(OutValue(Normal(v)))
  {
    ScriptLine(v, line);
    DocumentRoundTrip(v);
    ValueOfLine(line, Normal(v));
  }

  /** Reading back what was written changes only tuples into lists, if and only if no dictionary
      carries a registered codec name and every dataclass carries one. */
  lemma FaithfulRoundTrip(v: Value, line: string)
    requires Encoded(Script(v)) == Ok(line)
    ensures Decoded(line, ValueOut) == Ok(OutValue(TuplesAsLists(v))) <==> Faithful(v)
  {
    ScriptRoundTrip(v, line);
    NormalIsFaithful(v);
  }

  /** A dictionary that carries a registered codec name comes back as a dataclass. */
  lemma RevivedOnTheWay(m: map<string, Value>, line: string)
    requires Encoded(Script(Dict(m))) == Ok(line) && Revivable(m)
    ensures Decoded(line, ValueOut) == Ok(OutValue(Data(NormalEntries(m))))
  {
    ScriptRoundTrip(Dict(m), line);
    UnfoldEntries(m);
    NormalCodec(m);
  }

  /** A new dataclass with attributes that can be written and are faithful comes back as itself, but for
      tuples inside the attributes. */
  lemma NewDataclassSurvives(attrs: map<string, Value>)
    requires CODEC !in attrs && forall k :: k in attrs ==> Encodable(attrs[k]) && Faithful(attrs[k])
    ensures var v := Data(attrs["__codec__" := Str("dataclass")]);
            && WithCodec(attrs) == v.entries && Encoded(Script(v)) == Ok(Wire(v))
            && Decoded(Wire(v), ValueOut) == Ok(OutValue(TuplesAsLists(v)))
  {
    var v := Data(attrs["__codec__" := Str("dataclass")]);
    assert Encodable(v) && Faithful(v);
    FaithfulRoundTrip(v, Wire(v));
  }

  /** For instance the one-entry dictionary that only names the codec. */
  lemma UnfaithfulExample()
    ensures var d := Dict(map[CODEC := Str(DATACLASS)]); Normal(d) == Data(map[CODEC := Str(DATACLASS)]) && !Faithful(d)
  {
    var m := map[CODEC := Str(DATACLASS)];
    UnfoldEntries(m);
    NormalCodec(m);
    assert NormalEntries(m) == m;
  }

  /** A tuple read into a tuple stays a tuple, with its elements in normal form. */
  lemma TupleRoundTrip(e: seq<Value>, line: string)
    requires Encoded(Script(Tuple(e))) == Ok(line)
    ensures Decoded(line, TupleOut) == Ok(OutTuple(Some(NormalElements(e))))
  {
    ScriptLine(Tuple(e), line);
    DocumentRoundTrip(Tuple(e));
    UnfoldElements(e);
    ValueOfLine(line, Normal(Tuple(e)));
  }

  function Tuples(ts: seq<seq<Value>>): seq<Value> { seq(|ts|, i requires 0 <= i < |ts| => Tuple(ts[i])) }

  function NormalTuples(ts: seq<seq<Value>>): seq<seq<Value>> {
    seq(|ts|, i requires 0 <= i < |ts| => NormalElements(ts[i]))
  }

  lemma NormalOfTuples(ts: seq<seq<Value>>)
    ensures KeywordsJson(ts) == ToJson(List(Tuples(ts)))
    ensures Normal(List(Tuples(ts))) == List(NormalElements(Tuples(ts)))
    ensures AsKeywords(NormalElements(Tuples(ts))) == Ok(OutKeywords(Some(NormalTuples(ts))))
  {
    var normal := NormalElements(Tuples(ts));
    UnfoldElements(Tuples(ts));
    forall i | 0 <= i < |ts| ensures normal[i] == List(NormalElements(ts[i])) {
      UnfoldElements(ts[i]);
      assert normal[i] == Normal(Tuples(ts)[i]);
    }
    assert seq(|normal|, i requires 0 <= i < |normal| => normal[i].elems) == NormalTuples(ts);
  }

  /** A keyword list read into a keyword list keeps its tuples. */
  lemma KeywordsRoundTrip(ts: seq<seq<Value>>, line: string)
    requires Encoded(Keywords(Some(ts))) == Ok(line)
    ensures Decoded(line, KeywordsOut) == Ok(OutKeywords(Some(NormalTuples(ts))))
  {
    NormalOfTuples(ts);
    DocumentRoundTrip(List(Tuples(ts)));
    ValueOfLine(line, Normal(List(Tuples(ts))));
  }

  lemma NilRoundTrip()
    ensures Decoded("null", KeywordsOut) == Ok(OutKeywords(None))
    ensures Decoded("null", TupleOut) == Ok(OutTuple(None))
    ensures Decoded("null", ValueOut) == Ok(OutValue(NoneValue))
  {
    J.RoundTrip(J.Null);
  }

  lemma {:induction false} AlphabetUnescaped(s: string)
    requires forall i :: 0 <= i < |s| ==> Base64.IsAlphabet(s[i])
    ensures J.EscapeAll(s, true) == s && J.PrintableAscii(s)
  {
    if s != "" {
      AlphabetUnescaped(s[1..]);
    }
  }

  /** What the byte targets accept: a byte string the base64 text between two quotes, Go bytes the base64
      text of a JSON string, or null. */
  lemma ByteTargets(line: string, j: J.Json)
    ensures |line| < 2 || line[0] != '"' || line[|line| - 1] != '"' ==> Decoded(line, BytesOut) == Err(Incompatible)
    ensures match Base64.Decode(line)
            case Some(bs) => Decoded("\"" + line + "\"", BytesOut) == Ok(OutBytes(bs))
            case None => Decoded("\"" + line + "\"", BytesOut) == Err(BadText)
    ensures J.Parse(line) == Some(j) ==>
              Decoded(line, GoBytesOut) == match j
                                           case Null => Ok(OutBytes([]))
                                           case Str(s) => (match Base64.Decode(s) case Some(bs) => Ok(OutBytes(bs)) case None => Err(BadText))
                                           case _ => Err(BadText)
    ensures J.Parse(line) == None ==> Decoded(line, GoBytesOut) == Err(BadText)
  {
    var quoted := "\"" + line + "\"";
    assert quoted[0] == '"' && quoted[|quoted| - 1] == '"' && quoted[1..|quoted| - 1] == line;
  }

  /** A byte string survives the wire, whether it is read as Go bytes or as script bytes. */
  lemma BytesRoundTrip(bs: seq<Base64.byte>, line: string)
    requires Encoded(Bytes(bs)) == Ok(line)
    ensures |line| == Base64.EncodedLen(|bs|) + 2
    ensures Decoded(line, BytesOut) == Ok(OutBytes(bs))
    ensures Decoded(line, GoBytesOut) == Ok(OutBytes(bs))
  {
    var text := Base64.Encode(bs);
    Base64.RoundTrip(bs);
    AlphabetUnescaped(text);
    J.RoundTrip(J.Str(text));
    assert line == J.Print(J.Str(text));
    assert line[1..|line| - 1] == text;
  }

  /** An encoded value is one line: it holds no control character at all. */
  lemma EncodedIsOneLine(v: GoValue, line: string)
    requires Encoded(v) == Ok(line)
    ensures J.NoControl(line)
  {
    match v
    case Bytes(bs) => AlphabetUnescaped(Base64.Encode(bs));
    case Keywords(Some(ts)) => J.PrintNoControl(KeywordsJson(ts));
    case Script(s) => J.PrintNoControl(ToJson(s));
    case _ =>
  }
}
