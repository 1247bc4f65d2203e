/** The limited JSON path language: dotted fields with optional list indices. */
module JsonPath {
  import opened Wrappers
  import opened Text
  import Decimal

  /** A decoded JSON value as Go holds it. */
  datatype Any = Nil | Bool(b: bool) | Num(n: int) | Str(s: string) | Arr(elems: seq<Any>) | Map(entries: map<string, Any>)

  /** The type parameter of JP; AnyType accepts everything but nil. */
  datatype Type = AnyType | BoolType | NumType | StrType | ArrType | MapType

  datatype PathError = Unsupported | BadType | BadPath | NotFound

  predicate HasType(v: Any, t: Type) {
    match t
    case AnyType => !v.Nil?
    case BoolType => v.Bool?
    case NumType => v.Num?
    case StrType => v.Str?
    case ArrType => v.Arr?
    case MapType => v.Map?
  }

  const FORBIDDEN: set<char> := {'(', ')', '<', '>', '=', '*', '?', '\'', '"', ' '}

  const MAX_INT: int := 0x7FFF_FFFF_FFFF_FFFF

  // ------------------------------------------------------------------------
  // The language the code reads
  // ------------------------------------------------------------------------

  predicate HasDoubleDot(s: string) {
    exists i :: 0 <= i < |s| - 1 && s[i] == '.' && s[i + 1] == '.'
  }

  predicate HasForbidden(s: string) {
    exists i :: 0 <= i < |s| && s[i] in FORBIDDEN
  }

  function IndexOfChar(s: string, c: char): (i: nat)
    ensures i <= |s| && c !in s[..i] && (i < |s| ==> s[i] == c)
  {
    if s == "" || s[0] == c then 0
    else
      var i := 1 + IndexOfChar(s[1..], c);
      assert s[..i] == [s[0]] + s[1..][..i - 1];
      i
  }

  /** strconv.Atoi: an optional sign, then decimal digits, within the range of int. */
  function Atoi(s: string): Option<int> {
    var signed := s != "" && (s[0] == '+' || s[0] == '-');
    var digits := if signed then s[1..] else s;
    if digits == "" || !Decimal.AllDigits(digits) then None
    else
      var n: int := Decimal.Value(digits);
      if signed && s[0] == '-' then (if n <= MAX_INT + 1 then Some(-n) else None)
      else if n <= MAX_INT then Some(n) else None
  }

  /** One path component: a field name and an index, -1 when there is none. */
  function Component(f: string): Result<(string, int), PathError>
    requires f != ""
  {
    if f[|f| - 1] != ']' then Ok((f, -1))
    else
      var i := IndexOfChar(f, '[');
      if i == |f| then Err(BadPath)
      else match Atoi(f[i + 1..|f| - 1])
        case None => Err(BadPath)
        case Some(idx) => Ok((f[..i], idx))
  }

  function Lookup(v: Any, name: string, idx: int): Result<Any, PathError> {
    if !v.Map? then Err(BadType)
    else if name !in v.entries then Err(NotFound)
    else
      var res := v.entries[name];
      if idx <= -1 then Ok(res)
      else if !res.Arr? then Err(BadType)
      else if idx >= |res.elems| then Err(NotFound)
      else Ok(res.elems[idx])
  }

  function Follow(v: Any, f: string): Result<Any, PathError> {
    if f == "" then Ok(v)
    else if !v.Map? then Err(BadType)
    else match Component(f)
      case Err(e) => Err(e)
      case Ok((name, idx)) => Lookup(v, name, idx)
  }

  function FollowAll(v: Any, parts: seq<string>): Result<Any, PathError>
    decreases |parts|
  {
    if parts == [] then Ok(v)
    else match Follow(v, parts[0]) case Err(e) => Err(e) case Ok(next) => FollowAll(next, parts[1..])
  }

  function Typed(r: Result<Any, PathError>, t: Type): Result<Any, PathError> {
    match r case Err(e) => Err(e) case Ok(v) => if HasType(v, t) then Ok(v) else Err(BadType)
  }

  function Query(obj: Any, path: string, t: Type): Result<Any, PathError> {
    if HasDoubleDot(path) || HasForbidden(path) then Err(Unsupported)
    else Typed(FollowAll(obj, Split(if HasPrefix(path, "$.") then path[1..] else path, '.')), t)
  }

  /** One turn of the loop: a component is looked up; no string or list is indexed out of range. */
  method StepInto(res: Any, component: string) returns (r: Result<Any, PathError>)
    ensures r == Follow(res, component)
  {
    var f := component;
    if f == "" {
      return Ok(res);
    }
    if !res.Map? {
      return Err(BadType);
    }
    var idx := -1;
    if f[|f| - 1] == ']' {
      var i := IndexOfChar(f, '[');
      if i == |f| {
        return Err(BadPath);
      }
      var parsed := Atoi(f[i + 1..|f| - 1]);
      if parsed.None? {
        return Err(BadPath);
      }
      f, idx := f[..i], parsed.value;
    }
    if f !in res.entries {
      return Err(NotFound);
    }
    var field := res.entries[f];
    if idx > -1 {
      if !field.Arr? {
        return Err(BadType);
      }
      if idx >= |field.elems| {
        return Err(NotFound);
      }
      field := field.elems[idx];
    }
    return Ok(field);
  }

  /** JP. */
  method JP(obj: Any, path: string, t: Type) returns (r: Result<Any, PathError>)
    ensures r == Query(obj, path, t)
  {
    if HasDoubleDot(path) || HasForbidden(path) {
      return Err(Unsupported);
    }
    var parts := Split(if HasPrefix(path, "$.") then path[1..] else path, '.');
    var res := obj;
    assert parts[0..] == parts;
    for k := 0 to |parts|
      invariant FollowAll(obj, parts) == FollowAll(res, parts[k..])
    {
      assert parts[k..][0] == parts[k] && parts[k..][1..] == parts[k + 1..];
      var next := StepInto(res, parts[k]);
      if next.Err? {
        return next;
      }
      res := next.value;
    }
    return if HasType(res, t) then Ok(res) else Err(BadType);
  }

  // ------------------------------------------------------------------------
  // Printing a path and walking it
  // ------------------------------------------------------------------------

  /** A path segment: a field, and the index of an element of the list stored there. */
  datatype Segment = Segment(name: string, index: Option<nat>)

  predicate FieldChars(name: string) {
    '.' !in name && !HasForbidden(name)
  }

  /** The segments that can be written: an unindexed field is not empty and does not end in a closing
      bracket, an indexed one has no opening bracket; an index is a Go int. */
  predicate Accepted(s: Segment) {
    && FieldChars(s.name)
    && match s.index
       case None => s.name != "" && s.name[|s.name| - 1] != ']'
       case Some(i) => '[' !in s.name && i <= MAX_INT
  }

  function RenderSegment(s: Segment): string {
    match s.index
    case None => s.name
    case Some(i) => s.name + ['['] + (Decimal.Print(i) + "]")
  }

  function RenderAll(segments: seq<Segment>): (r: seq<string>)
    ensures |r| == |segments|
  {
    seq(|segments|, i requires 0 <= i < |segments| => RenderSegment(segments[i]))
  }

  function Render(segments: seq<Segment>): string {
    "$" + ['.'] + Join(RenderAll(segments), '.')
  }

  /** What a segment means, on the structure itself. */
  function WalkSegment(v: Any, s: Segment): Result<Any, PathError> {
    match v
    case Map(m) =>
      if s.name !in m then Err(NotFound)
      else (match (s.index, m[s.name])
            case (None, field) => Ok(field)
            case (Some(i), Arr(elems)) => if i < |elems| then Ok(elems[i]) else Err(NotFound)
            case (Some(_), _) => Err(BadType))
    case _ => Err(BadType)
  }

  function Walk(v: Any, segments: seq<Segment>): Result<Any, PathError>
    decreases |segments|
  {
    if segments == [] then Ok(v)
    else match WalkSegment(v, segments[0]) case Err(e) => Err(e) case Ok(next) => Walk(next, segments[1..])
  }

  lemma AtoiPrint(i: nat)
    requires i <= MAX_INT
    ensures Atoi(Decimal.Print(i)) == Some(i)
  {
    Decimal.ValuePrint(i);
    var s := Decimal.Print(i);
    assert Decimal.IsDigit(s[0]);
  }

  lemma {:induction false} IndexAfter(name: string, c: char, rest: string)
    requires c !in name
    ensures IndexOfChar(name + [c] + rest, c) == |name|
  {
    if name == "" {
    } else {
      assert (name + [c] + rest)[1..] == name[1..] + [c] + rest;
      IndexAfter(name[1..], c, rest);
    }
  }

  lemma IndexedText(name: string, digits: string)
    requires '[' !in name
    ensures var f := name + ['['] + (digits + "]");
            && f[|f| - 1] == ']' && IndexOfChar(f, '[') == |name| < |f|
            && f[..|name|] == name && f[|name| + 1..|f| - 1] == digits
  {
    IndexAfter(name, '[', digits + "]");
  }

  lemma IndexedComponent(name: string, digits: string)
    requires '[' !in name && digits != ""
    ensures var f := name + ['['] + (digits + "]");
            Component(f) == match Atoi(digits) case None => Err(BadPath) case Some(idx) => Ok((name, idx))
  {
    IndexedText(name, digits);
  }

  /** Reading a rendered segment gives its field and index. */
  lemma SegmentComponent(s: Segment)
    requires Accepted(s)
    ensures RenderSegment(s) != ""
    ensures Component(RenderSegment(s)) == Ok((s.name, match s.index { case None => -1 case Some(i) => i }))
  {
    match s.index
    case None =>
    case Some(i) =>
      AtoiPrint(i);
      IndexedComponent(s.name, Decimal.Print(i));
  }

  lemma FollowSegment(v: Any, s: Segment)
    requires Accepted(s)
    ensures Follow(v, RenderSegment(s)) == WalkSegment(v, s)
  {
    SegmentComponent(s);
  }

  lemma RenderRest(segments: seq<Segment>)
    requires segments != []
    ensures RenderAll(segments)[0] == RenderSegment(segments[0]) && RenderAll(segments)[1..] == RenderAll(segments[1..])
  {
  }

  lemma {:induction false} FollowSegments(v: Any, segments: seq<Segment>)
    requires forall i :: 0 <= i < |segments| ==> Accepted(segments[i])
    ensures FollowAll(v, RenderAll(segments)) == Walk(v, segments)
    decreases |segments|
  {
    if segments != [] {
      FollowSegment(v, segments[0]);
      RenderRest(segments);
      match WalkSegment(v, segments[0])
      case Err(_) =>
      case Ok(next) => FollowSegments(next, segments[1..]);
    }
  }

  /** A piece that can stand between dots: not empty, no dot and no forbidden character. */
  predicate Piece(s: string) { s != "" && '.' !in s && !HasForbidden(s) }

  lemma RenderedPiece(s: Segment)
    requires Accepted(s)
    ensures Piece(RenderSegment(s))
  {
    match s.index
    case None =>
    case Some(i) =>
      var r, digits := RenderSegment(s), Decimal.Print(i);
      forall k | 0 <= k < |r| ensures r[k] != '.' && r[k] !in FORBIDDEN {
        if k < |s.name| {
          assert r[k] == s.name[k];
        } else if |s.name| < k < |r| - 1 {
          assert r[k] == digits[k - |s.name| - 1];
        }
      }
  }

  lemma {:induction false} JoinedPieces(pieces: seq<string>)
    requires pieces != [] && forall i :: 0 <= i < |pieces| ==> Piece(pieces[i])
    ensures var s := Join(pieces, '.');
            s != "" && s[0] != '.' && !HasDoubleDot(s) && !HasForbidden(s)
  {
    if |pieces| > 1 {
      var rest := Join(pieces[1..], '.');
      JoinedPieces(pieces[1..]);
      DotBetween(pieces[0], rest);
    }
  }

  lemma DotBetween(piece: string, rest: string)
    requires Piece(piece) && rest != "" && rest[0] != '.' && !HasDoubleDot(rest) && !HasForbidden(rest)
    ensures var s := piece + ['.'] + rest;
            s[0] != '.' && !HasDoubleDot(s) && !HasForbidden(s)
  {
    var s, n := piece + ['.'] + rest, |piece|;
    forall i | 0 <= i < |s| - 1 ensures !(s[i] == '.' && s[i + 1] == '.') {
      if i < n { assert s[i] == piece[i]; }
      else if i == n { assert s[i + 1] == rest[0]; }
      else { assert s[i] == rest[i - n - 1] && s[i + 1] == rest[i - n]; }
    }
    forall i | 0 <= i < |s| ensures s[i] !in FORBIDDEN {
      if i < n { assert s[i] == piece[i]; }
      else if i > n { assert s[i] == rest[i - n - 1]; }
    }
  }

  lemma RenderedTail(joined: string)
    ensures var path := "$" + ['.'] + joined;
            HasPrefix(path, "$.") && path[1..] == "." + joined
  {
  }

  lemma RenderedPath(segments: seq<Segment>)
    requires forall i :: 0 <= i < |segments| ==> Accepted(segments[i])
    ensures !HasDoubleDot(Render(segments)) && !HasForbidden(Render(segments))
  {
    if segments == [] {
      assert Render(segments) == "$.";
    } else {
      var pieces := RenderAll(segments);
      forall i | 0 <= i < |pieces| ensures Piece(pieces[i]) { RenderedPiece(segments[i]); }
      JoinedPieces(pieces);
      DotBetween("$", Join(pieces, '.'));
    }
  }

  lemma RenderedParts(segments: seq<Segment>)
    requires forall i :: 0 <= i < |segments| ==> Accepted(segments[i])
    ensures Split("." + Join(RenderAll(segments), '.'), '.') ==
            [""] + if segments == [] then [""] else RenderAll(segments)
  {
    var joined := Join(RenderAll(segments), '.');
    SplitFirst("", joined, '.');
    assert "" + ['.'] + joined == "." + joined;
    if segments == [] {
      SplitPiece("", '.');
    } else {
      forall i | 0 <= i < |segments| ensures '.' !in RenderAll(segments)[i] { RenderedPiece(segments[i]); }
      SplitJoin(RenderAll(segments), '.');
    }
  }

  lemma PartsFollowed(obj: Any, segments: seq<Segment>)
    requires forall i :: 0 <= i < |segments| ==> Accepted(segments[i])
    ensures FollowAll(obj, [""] + if segments == [] then [""] else RenderAll(segments)) == Walk(obj, segments)
  {
    FollowSegments(obj, segments);
    var parts := [""] + if segments == [] then [""] else RenderAll(segments);
    assert parts[1..] == if segments == [] then [""] else RenderAll(segments);
    if segments == [] {
      assert [""][1..] == [];
      assert FollowAll(obj, [""]) == FollowAll(obj, []);
    }
    assert FollowAll(obj, parts) == FollowAll(obj, parts[1..]);
  }

  /** What JP[T] makes of the value it finds, by the type it was asked for. */
  lemma TypedBy(r: Result<Any, PathError>, t: Type)
    ensures Typed(r, t) == match r
                           case Err(e) => Err(e)
                           case Ok(v) =>
                             match (t, v)
                             case (AnyType, Nil) => Err(BadType)
                             case (AnyType, _) => Ok(v)
                             case (BoolType, Bool(_)) => Ok(v)
                             case (NumType, Num(_)) => Ok(v)
                             case (StrType, Str(_)) => Ok(v)
                             case (ArrType, Arr(_)) => Ok(v)
                             case (MapType, Map(_)) => Ok(v)
                             case _ => Err(BadType)
  {
  }

  /** Printing a path and running it is walking the structure, failures included. */
  lemma PathRoundTrip(obj: Any, segments: seq<Segment>, t: Type)
    requires forall i :: 0 <= i < |segments| ==> Accepted(segments[i])
    ensures Query(obj, Render(segments), t) == Typed(Walk(obj, segments), t)
  {
    RenderedPath(segments);
    RenderedTail(Join(RenderAll(segments), '.'));
    RenderedParts(segments);
    PartsFollowed(obj, segments);
  }

  /** The segments that a path without "$." names: a first field called $ is taken for the root. */
  function Named(segments: seq<Segment>): seq<Segment> {
    if |segments| > 1 && segments[0] == Segment("$", None) then segments[1..] else segments
  }

  lemma DollarPrefix(segments: seq<Segment>)
    requires segments != [] && forall i :: 0 <= i < |segments| ==> Accepted(segments[i])
    ensures HasPrefix(Join(RenderAll(segments), '.'), "$.") <==> |segments| > 1 && segments[0] == Segment("$", None)
  {
    RenderedPiece(segments[0]);
    RenderRest(segments);
    DollarSegment(segments[0]);
    if |segments| > 1 {
      JoinFirst(RenderAll(segments), '.');
      DollarText(RenderSegment(segments[0]), ['.'] + Join(RenderAll(segments[1..]), '.'));
      assert RenderSegment(segments[0]) + ['.'] + Join(RenderAll(segments[1..]), '.') ==
             RenderSegment(segments[0]) + (['.'] + Join(RenderAll(segments[1..]), '.'));
    } else {
      DollarText(RenderSegment(segments[0]), "");
      assert RenderSegment(segments[0]) + "" == RenderSegment(segments[0]);
    }
  }

  /** A text that begins with a piece begins with "$." only if the piece is "$" and a dot follows. */
  lemma DollarText(first: string, rest: string)
    requires Piece(first) && (rest == "" || rest[0] == '.')
    ensures HasPrefix(first + rest, "$.") <==> |first| == 1 && first[0] == '$' && rest != ""
  {
    var path := first + rest;
    assert forall i :: 0 <= i < |first| ==> path[i] == first[i] != '.';
    if rest != "" { assert path[|first|] == rest[0]; }
    StartsDollar(path);
  }

  lemma StartsDollar(path: string)
    ensures HasPrefix(path, "$.") <==> |path| >= 2 && path[0] == '$' && path[1] == '.'
  {
    if |path| >= 2 && path[0] == '$' && path[1] == '.' {
      assert path[..2] == "$.";
    }
  }

  lemma DollarSegment(s: Segment)
    requires Accepted(s)
    ensures (|RenderSegment(s)| == 1 && RenderSegment(s)[0] == '$') <==> s == Segment("$", None)
  {
    if s.index.None? && |s.name| == 1 { assert s.name == [s.name[0]]; }
  }

  /** The same for paths without the leading "$.". */
  lemma BarePathRoundTrip(obj: Any, segments: seq<Segment>, t: Type)
    requires segments != [] && forall i :: 0 <= i < |segments| ==> Accepted(segments[i])
    ensures Query(obj, Join(RenderAll(segments), '.'), t) == Typed(Walk(obj, Named(segments)), t)
  {
    var path := Join(RenderAll(segments), '.');
    forall i | 0 <= i < |segments| ensures Piece(RenderAll(segments)[i]) { RenderedPiece(segments[i]); }
    JoinedPieces(RenderAll(segments));
    DollarPrefix(segments);
    if HasPrefix(path, "$.") {
      var rest := segments[1..];
      RenderRest(segments);
      JoinFirst(RenderAll(segments), '.');
      assert path[1..] == "." + Join(RenderAll(rest), '.');
      RenderedParts(rest);
      PartsFollowed(obj, rest);
    } else {
      SplitJoin(RenderAll(segments), '.');
      FollowSegments(obj, segments);
    }
  }

  /** Paths with two dots in a row or one of ten characters are unsupported, and no others are. */
  lemma RefusedExactly(obj: Any, path: string, t: Type)
    ensures Query(obj, path, t) == Err(Unsupported) <==>
              || (exists i :: 0 <= i < |path| - 1 && path[i] == '.' && path[i + 1] == '.')
              || (exists i :: 0 <= i < |path| && path[i] in {'(', ')', '<', '>', '=', '*', '?', '\'', '"', ' '})
  {
    UnsupportedText(obj, path, t);
    assert HasDoubleDot(path) <==> exists i :: 0 <= i < |path| - 1 && path[i] == '.' && path[i + 1] == '.';
    assert HasForbidden(path) <==>
             exists i :: 0 <= i < |path| && path[i] in {'(', ')', '<', '>', '=', '*', '?', '\'', '"', ' '};
  }

  lemma UnsupportedText(obj: Any, path: string, t: Type)
    ensures Query(obj, path, t) == Err(Unsupported) <==> HasDoubleDot(path) || HasForbidden(path)
  {
    FollowSupported(obj, Split(if HasPrefix(path, "$.") then path[1..] else path, '.'));
  }

  lemma {:induction false} FollowSupported(v: Any, parts: seq<string>)
    ensures FollowAll(v, parts) != Err(Unsupported)
    decreases |parts|
  {
    if parts != [] && Follow(v, parts[0]).Ok? {
      FollowSupported(Follow(v, parts[0]).value, parts[1..]);
    }
  }

  /** A component that ends in a closing bracket needs an opening one and an integer between them. */
  lemma BadComponents(m: map<string, Any>, name: string, text: string, k: nat)
    requires '[' !in name
    ensures Follow(Map(m), name + "]") == Err(BadPath)
    ensures k < |text| && !('0' <= text[k] <= '9') && (k > 0 || (text[0] != '+' && text[0] != '-')) ==>
              Follow(Map(m), name + ['['] + (text + "]")) == Err(BadPath)
  {
    var f := name + "]";
    assert f[|f| - 1] == ']' && '[' !in f;
    if k < |text| && !('0' <= text[k] <= '9') && (k > 0 || (text[0] != '+' && text[0] != '-')) {
      IndexedComponent(name, text);
      var digits := if text[0] == '+' || text[0] == '-' then text[1..] else text;
      assert digits[if text[0] == '+' || text[0] == '-' then k - 1 else k] == text[k];
    }
  }

  /** A negative index is read and then ignored: the component names the whole field. */
  lemma NegativeIndexIgnored(m: map<string, Any>, name: string, i: nat)
    requires '[' !in name && 0 < i <= MAX_INT && name in m
    ensures Follow(Map(m), name + ['['] + ("-" + Decimal.Print(i) + "]")) == Ok(m[name])
  {
    var digits := "-" + Decimal.Print(i);
    Decimal.ValuePrint(i);
    assert digits[1..] == Decimal.Print(i);
    IndexedComponent(name, digits);
  }
}
