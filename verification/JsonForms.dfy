/**
 Every way to write a JSON document (RFC 8259, sections 2 to 7, without fractions and
 exponents): white space between tokens, and any escape for any character.  The parser
 accepts exactly these texts and gives each its meaning.
 */
module JsonForms {
  import opened Wrappers
  import opened JsonText
  import Decimal

  // ------------------------------------------------------------------------
  // The grammar
  // ------------------------------------------------------------------------

  /** White space (section 2). */
  predicate Gap(s: string) {
    forall i :: 0 <= i < |s| ==> s[i] in {' ', '\t', '\n', '\r'}
  }

  /** A hexadecimal digit, in either case. */
  datatype Hex = Hex(d: nat, upper: bool) {
    predicate Valid() { d < 16 }

    function Char(): char
      requires Valid()
    {
      if d < 10 then '0' + d as char else if upper then 'A' + (d - 10) as char else 'a' + (d - 10) as char
    }
  }

  /** A piece of a string (section 7): a character as it is, a short escape, or four digits after \u. */
  datatype Piece = Plain(c: char) | Short(letter: char) | Unit(h3: Hex, h2: Hex, h1: Hex, h0: Hex) {
    predicate Valid() {
      match this
      case Plain(c) => c >= ' ' && c != '"' && c != '\\'
      case Short(letter) => letter in {'"', '\\', '/', 'b', 'f', 'n', 'r', 't'}
      case Unit(h3, h2, h1, h0) => h3.Valid() && h2.Valid() && h1.Valid() && h0.Valid()
    }

    function Code(): nat
      requires Unit?
    {
      4096 * h3.d + 256 * h2.d + 16 * h1.d + h0.d
    }
  }

  predicate ValidPieces(ps: seq<Piece>) { forall i :: 0 <= i < |ps| ==> ps[i].Valid() }

  function ShortMeaning(letter: char): char {
    match letter
    case 'b' => '\U{8}' case 'f' => '\U{C}' case 'n' => '\n' case 'r' => '\r' case 't' => '\t'
    case _ => letter
  }

  predicate Leads(p: Piece) { p.Unit? && 0xD800 <= p.Code() <= 0xDBFF }
  predicate Trails(p: Piece) { p.Unit? && 0xDC00 <= p.Code() <= 0xDFFF }

  /** The string that pieces stand for: two surrogates in their order are one character, any other
      surrogate is replaced. */
  function PiecesMeaning(ps: seq<Piece>): string
    requires ValidPieces(ps)
    decreases |ps|
  {
    if ps == [] then ""
    else match ps[0]
      case Plain(c) => [c] + PiecesMeaning(ps[1..])
      case Short(letter) => [ShortMeaning(letter)] + PiecesMeaning(ps[1..])
      case Unit(_, _, _, _) =>
        var n := ps[0].Code();
        if Leads(ps[0]) && |ps| > 1 && Trails(ps[1]) then
          [(0x10000 + 1024 * (n - 0xD800) + (ps[1].Code() - 0xDC00)) as char] + PiecesMeaning(ps[2..])
        else [if 0xD800 <= n <= 0xDFFF then '\U{FFFD}' else n as char] + PiecesMeaning(ps[1..])
  }

  /** A written document; gap is the white space of an empty array or object. */
  datatype Form =
    | FNull
    | FBool(b: bool)
    | FNum(negative: bool, n: nat)
    | FStr(pieces: seq<Piece>)
    | FArr(gap: string, items: seq<Item>)
    | FObj(gap: string, fields: seq<Field>)

  datatype Item = Item(before: string, val: Form, after: string)

  datatype Field = Field(before: string, key: seq<Piece>, afterKey: string, beforeVal: string, val: Form, after: string)

  predicate Valid(f: Form) {
    match f
    case FStr(ps) => ValidPieces(ps)
    case FArr(gap, items) => Gap(gap) && forall i :: 0 <= i < |items| ==> ValidItem(items[i])
    case FObj(gap, fields) => Gap(gap) && forall i :: 0 <= i < |fields| ==> ValidField(fields[i])
    case _ => true
  }

  predicate ValidItem(item: Item) { Gap(item.before) && Valid(item.val) && Gap(item.after) }

  predicate ValidField(f: Field) {
    && Gap(f.before) && ValidPieces(f.key) && Gap(f.afterKey)
    && Gap(f.beforeVal) && Valid(f.val) && Gap(f.after)
  }

  predicate ValidItems(items: seq<Item>) { forall i :: 0 <= i < |items| ==> ValidItem(items[i]) }

  predicate ValidFields(fields: seq<Field>) { forall i :: 0 <= i < |fields| ==> ValidField(fields[i]) }

  function Signed(negative: bool, n: int): int { if negative then -n else n }

  /** The document that a form stands for. */
  function Meaning(f: Form): Json
    requires Valid(f)
  {
    match f
    case FNull => Null
    case FBool(b) => Bool(b)
    case FNum(negative, n) => Num(Signed(negative, n))
    case FStr(ps) => Str(PiecesMeaning(ps))
    case FArr(_, items) => Arr(seq(|items|, i requires 0 <= i < |items| => assert ValidItem(items[i]); Meaning(items[i].val)))
    case FObj(_, fields) =>
      Obj(seq(|fields|, i requires 0 <= i < |fields| =>
        assert ValidField(fields[i]); Member(PiecesMeaning(fields[i].key), Meaning(fields[i].val))))
  }

  /** The text of a piece, followed by rest. */
  function WritePiece(p: Piece, rest: string): string
    requires p.Valid()
  {
    match p
    case Plain(c) => [c] + rest
    case Short(letter) => ['\\', letter] + rest
    case Unit(h3, h2, h1, h0) => ['\\', 'u', h3.Char(), h2.Char(), h1.Char(), h0.Char()] + rest
  }

  /** The pieces, the closing quote, and rest. */
  function WritePieces(ps: seq<Piece>, rest: string): string
    requires ValidPieces(ps)
    decreases |ps|
  {
    if ps == [] then ['"'] + rest else WritePiece(ps[0], WritePieces(ps[1..], rest))
  }

  /** The text of a form, followed by rest. */
  function Write(f: Form, rest: string): string
    requires Valid(f)
    decreases f, 1
  {
    match f
    case FNull => "null" + rest
    case FBool(b) => (if b then "true" else "false") + rest
    case FNum(negative, n) => (if negative then "-" else "") + (Decimal.Print(n) + rest)
    case FStr(ps) => ['"'] + WritePieces(ps, rest)
    case FArr(gap, items) => ['['] + if items == [] then gap + ([']'] + rest) else WriteItems(items, rest)
    case FObj(gap, fields) => ['{'] + if fields == [] then gap + (['}'] + rest) else WriteFields(fields, rest)
  }

  function WriteItems(items: seq<Item>, rest: string): string
    requires items != [] && ValidItems(items)
    decreases items, 0
  {
    var more := if |items| == 1 then [']'] + rest else [','] + WriteItems(items[1..], rest);
    items[0].before + Write(items[0].val, items[0].after + more)
  }

  function WriteFields(fields: seq<Field>, rest: string): string
    requires fields != [] && ValidFields(fields)
    decreases fields, 0
  {
    var f := fields[0];
    var more := if |fields| == 1 then ['}'] + rest else [','] + WriteFields(fields[1..], rest);
    f.before + (['"'] + WritePieces(f.key, f.afterKey + ([':'] + (f.beforeVal + Write(f.val, f.after + more)))))
  }

  // ------------------------------------------------------------------------
  // Every form is read
  // ------------------------------------------------------------------------

  /** A text that does not begin with white space. */
  predicate Starts(s: string) { s != "" && s[0] !in {' ', '\t', '\n', '\r'} }

  lemma TailOf(c: char, s: string)
    ensures ([c] + s)[0] == c && ([c] + s)[1..] == s
  {
  }

  lemma HeadAndTail(t: string)
    requires t != ""
    ensures t == [t[0]] + t[1..]
  {
  }

  lemma {:induction false} GapSkipped(gap: string, s: string)
    requires Gap(gap) && (s == "" || Starts(s))
    ensures SkipSpace(gap + s) == s
  {
    if gap == "" {
      assert gap + s == s;
    } else {
      assert (gap + s)[1..] == gap[1..] + s;
      GapSkipped(gap[1..], s);
    }
  }

  lemma ValueAfterGap(gap: string, s: string)
    requires Gap(gap) && Starts(s)
    ensures ParseValue(gap + s) == ParseValue(s)
  {
    GapSkipped(gap, s);
    GapSkipped("", s);
  }

  lemma ElementsAfterGap(gap: string, s: string)
    requires Gap(gap) && Starts(s)
    ensures ParseElements(gap + s) == ParseElements(s)
  {
    ValueAfterGap(gap, s);
  }

  lemma MembersAfterGap(gap: string, s: string)
    requires Gap(gap) && Starts(s)
    ensures ParseMembers(gap + s) == ParseMembers(s)
  {
    GapSkipped(gap, s);
    GapSkipped("", s);
  }

  lemma HexRead(h: Hex)
    requires h.Valid()
    ensures HexValue(h.Char()) == Some(h.d)
  {
  }

  lemma UnitRead(p: Piece, rest: string)
    requires p.Valid() && p.Unit?
    ensures var s := WritePiece(p, rest);
            s[0] == '\\' && s[1] == 'u' && Hex4(s[2..]) == Some(p.Code()) && s[2..][4..] == rest && s[6..] == rest
  {
    HexRead(p.h3);
    HexRead(p.h2);
    HexRead(p.h1);
    HexRead(p.h0);
  }

  /** What the parser sees when it looks behind a high surrogate. */
  lemma LookAhead(ps: seq<Piece>, rest: string)
    requires ValidPieces(ps)
    ensures var s := WritePieces(ps, rest);
            && s != ""
            && (|s| >= 2 && s[0] == '\\' && s[1] == 'u' <==> ps != [] && ps[0].Unit?)
            && (ps != [] && ps[0].Unit? ==> Hex4(s[2..]) == Some(ps[0].Code()) && s[6..] == WritePieces(ps[1..], rest))
  {
    if ps != [] && ps[0].Unit? {
      UnitRead(ps[0], WritePieces(ps[1..], rest));
    }
  }

  lemma TrailsAhead(ps: seq<Piece>, rest: string)
    requires ValidPieces(ps)
    ensures var t := WritePieces(ps, rest);
            && (|t| >= 2 && t[0] == '\\' && t[1] == 'u' && Hex4(t[2..]).Some? && LowSurrogate(Hex4(t[2..]).value)
                <==> ps != [] && Trails(ps[0]))
            && (ps != [] && Trails(ps[0]) ==> Hex4(t[2..]) == Some(ps[0].Code()) && t[6..] == WritePieces(ps[1..], rest))
  {
    LookAhead(ps, rest);
  }

  lemma ShortRead(letter: char, s: string)
    requires Short(letter).Valid()
    ensures ParseEscape([letter] + s) == Yes(ShortMeaning(letter), s)
    ensures (['\\', letter] + s)[0] == '\\' && (['\\', letter] + s)[1..] == [letter] + s
  {
    TailOf(letter, s);
  }

  /** The parser's choice after \u, in terms of the text t after the four digits. */
  lemma UnicodeStep(u: string, n: nat, t: string)
    requires Hex4(u) == Some(n) && u[4..] == t
    ensures ParseUnicode(u) ==
              if HighSurrogate(n) && |t| >= 2 && t[0] == '\\' && t[1] == 'u' && Hex4(t[2..]).Some? && LowSurrogate(Hex4(t[2..]).value)
              then Yes((0x10000 + 1024 * (n - 0xD800) + (Hex4(t[2..]).value - 0xDC00)) as char, t[6..])
              else Yes(if HighSurrogate(n) || LowSurrogate(n) then REPLACEMENT else n as char, t)
  {
    if |t| >= 2 {
      assert u[4] == t[0] && u[5] == t[1] && u[6..] == t[2..];
      if |t| >= 6 { assert u[10..] == t[6..]; }
    }
  }

  /** The character of a \u escape, with the second half of a surrogate pair if it follows. */
  lemma UnicodeRead(ps: seq<Piece>, rest: string)
    requires ValidPieces(ps) && ps != [] && ps[0].Unit?
    ensures var s := WritePieces(ps, rest);
            var n := ps[0].Code();
            s[0] == '\\' &&
            ParseEscape(s[1..]) ==
              if Leads(ps[0]) && |ps| > 1 && Trails(ps[1])
              then Yes((0x10000 + 1024 * (n - 0xD800) + (ps[1].Code() - 0xDC00)) as char, WritePieces(ps[2..], rest))
              else Yes(if 0xD800 <= n <= 0xDFFF then '\U{FFFD}' else n as char, WritePieces(ps[1..], rest))
  {
    var s, t := WritePieces(ps, rest), WritePieces(ps[1..], rest);
    UnitRead(ps[0], t);
    TrailsAhead(ps[1..], rest);
    assert s[1..][0] == 'u' && s[1..][1..] == s[2..];
    UnicodeStep(s[2..], ps[0].Code(), t);
    if |ps| > 1 { TailTwice(ps); }
  }

  lemma TailTwice(ps: seq<Piece>)
    requires |ps| > 1
    ensures ps[1..][0] == ps[1] && ps[1..][1..] == ps[2..]
  {
  }

  /** One character, however it is written, in front of the rest of a string. */
  lemma OneRead(s: string, c: char, tail: string, more: string, rest: string)
    requires s != "" && s[0] >= ' ' && s[0] != '"'
    requires (if s[0] == '\\' then ParseEscape(s[1..]) else Yes(s[0], s[1..])) == Yes(c, tail)
    requires ParseString(tail) == Yes(more, rest)
    ensures ParseString(s) == Yes([c] + more, rest)
  {
  }

  lemma {:induction false} PiecesRead(ps: seq<Piece>, rest: string)
    requires ValidPieces(ps)
    ensures ParseString(WritePieces(ps, rest)) == Yes(PiecesMeaning(ps), rest)
    decreases |ps|
  {
    if ps == [] {
      TailOf('"', rest);
    } else {
      var tail := WritePieces(ps[1..], rest);
      PiecesRead(ps[1..], rest);
      match ps[0]
      case Plain(c) =>
        TailOf(c, tail);
        OneRead([c] + tail, c, tail, PiecesMeaning(ps[1..]), rest);
      case Short(letter) =>
        ShortRead(letter, tail);
        OneRead(['\\', letter] + tail, ShortMeaning(letter), tail, PiecesMeaning(ps[1..]), rest);
      case Unit(_, _, _, _) => UnitsRead(ps, rest);
    }
  }

  /** A \u escape, or two, in front of the rest of a string. */
  lemma {:induction false} UnitsRead(ps: seq<Piece>, rest: string)
    requires ValidPieces(ps) && ps != [] && ps[0].Unit?
    requires ParseString(WritePieces(ps[1..], rest)) == Yes(PiecesMeaning(ps[1..]), rest)
    ensures ParseString(WritePieces(ps, rest)) == Yes(PiecesMeaning(ps), rest)
    decreases |ps|, 0
  {
    var s, n := WritePieces(ps, rest), ps[0].Code();
    UnicodeRead(ps, rest);
    if Leads(ps[0]) && |ps| > 1 && Trails(ps[1]) {
      PiecesRead(ps[2..], rest);
      OneRead(s, (0x10000 + 1024 * (n - 0xD800) + (ps[1].Code() - 0xDC00)) as char, WritePieces(ps[2..], rest), PiecesMeaning(ps[2..]), rest);
    } else {
      OneRead(s, if 0xD800 <= n <= 0xDFFF then '\U{FFFD}' else n as char, WritePieces(ps[1..], rest), PiecesMeaning(ps[1..]), rest);
    }
  }

  lemma FormStarts(f: Form, rest: string)
    requires Valid(f)
    ensures Starts(Write(f, rest)) && Write(f, rest)[0] !in {']', '}', ',', ':'}
  {
  }

  /** What may follow a value inside a document. */
  lemma EndsBefore(gap: string, more: string)
    requires Gap(gap) && more != "" && more[0] in {',', ']', '}'}
    ensures EndsNumber(gap + more) && SkipSpace(gap + more) == more
  {
    GapSkipped(gap, more);
    assert gap != "" ==> (gap + more)[0] == gap[0];
  }

  lemma LiteralRead(name: string, rest: string, j: Json)
    requires (name, j) in {("null", Null), ("true", Bool(true)), ("false", Bool(false))}
    ensures ParseValue(name + rest) == Yes(j, rest)
  {
    assert name <= name + rest && (name + rest)[|name|..] == rest;
  }

  lemma PositiveRead(n: nat, rest: string)
    requires EndsNumber(rest)
    ensures ParseValue(Decimal.Print(n) + rest) == Yes(Num(n), rest)
  {
    DigitsRoundTrip(n, rest);
    SignedNumber(n, Decimal.Print(n), rest);
    NumberDispatch(Decimal.Print(n) + rest);
  }

  lemma MinusRead(t: string, n: nat, rest: string)
    requires ParseDigits(t) == Yes(n, rest)
    ensures ParseValue("-" + t) == Yes(Num(Signed(true, n)), rest)
  {
    TailOf('-', t);
    NumberDispatch("-" + t);
  }

  lemma NumberRead(negative: bool, n: nat, rest: string)
    requires EndsNumber(rest)
    ensures ParseValue((if negative then "-" else "") + (Decimal.Print(n) + rest)) == Yes(Num(Signed(negative, n)), rest)
  {
    if negative {
      DigitsRoundTrip(n, rest);
      MinusRead(Decimal.Print(n) + rest, n, rest);
    } else {
      PositiveRead(n, rest);
      assert "" + (Decimal.Print(n) + rest) == Decimal.Print(n) + rest;
    }
  }

  lemma StringRead(ps: seq<Piece>, rest: string)
    requires ValidPieces(ps)
    ensures ParseValue(['"'] + WritePieces(ps, rest)) == Yes(Str(PiecesMeaning(ps)), rest)
  {
    PiecesRead(ps, rest);
    assert (['"'] + WritePieces(ps, rest))[1..] == WritePieces(ps, rest);
  }

  lemma EmptyRead(gap: string, rest: string)
    requires Gap(gap)
    ensures ParseValue(['['] + (gap + ([']'] + rest))) == Yes(Arr([]), rest)
    ensures ParseValue(['{'] + (gap + (['}'] + rest))) == Yes(Obj([]), rest)
  {
    GapSkipped(gap, [']'] + rest);
    GapSkipped(gap, ['}'] + rest);
    assert (['['] + (gap + ([']'] + rest)))[1..] == gap + ([']'] + rest) && ([']'] + rest)[1..] == rest;
    assert (['{'] + (gap + (['}'] + rest)))[1..] == gap + (['}'] + rest) && (['}'] + rest)[1..] == rest;
  }

  /** Each form is read as what it stands for, up to what follows it. */
  lemma {:induction false} FormRead(f: Form, rest: string)
    requires Valid(f) && EndsNumber(rest)
    ensures ParseValue(Write(f, rest)) == Yes(Meaning(f), rest)
    decreases f, 1
  {
    match f
    case FNull => LiteralRead("null", rest, Null);
    case FBool(b) => LiteralRead(if b then "true" else "false", rest, Bool(b));
    case FNum(negative, n) => NumberRead(negative, n, rest);
    case FStr(ps) => StringRead(ps, rest);
    case FArr(gap, items) =>
      MeaningUnfold(f);
      if items == [] {
        EmptyRead(gap, rest);
      } else {
        ItemsRead(items, rest);
        ArrayRead(items, rest);
      }
    case FObj(gap, fields) =>
      MeaningUnfold(f);
      if fields == [] {
        EmptyRead(gap, rest);
      } else {
        FieldsRead(fields, rest);
        ObjectRead(fields, rest);
      }
  }

  function Meanings(items: seq<Item>): (r: seq<Json>)
    requires ValidItems(items)
    ensures |r| == |items|
  {
    seq(|items|, i requires 0 <= i < |items| => Meaning(items[i].val))
  }

  function FieldMeanings(fields: seq<Field>): (r: seq<Member>)
    requires ValidFields(fields)
    ensures |r| == |fields|
  {
    seq(|fields|, i requires 0 <= i < |fields| => Member(PiecesMeaning(fields[i].key), Meaning(fields[i].val)))
  }

  lemma MeaningUnfold(f: Form)
    requires Valid(f)
    ensures f.FArr? ==> Meaning(f) == Arr(Meanings(f.items))
    ensures f.FObj? ==> Meaning(f) == Obj(FieldMeanings(f.fields))
  {
  }

  /** What follows the value of the first item or field. */
  function ItemTail(items: seq<Item>, rest: string): string
    requires items != [] && ValidItems(items)
  {
    if |items| == 1 then [']'] + rest else [','] + WriteItems(items[1..], rest)
  }

  function FieldTail(fields: seq<Field>, rest: string): string
    requires fields != [] && ValidFields(fields)
  {
    if |fields| == 1 then ['}'] + rest else [','] + WriteFields(fields[1..], rest)
  }

  lemma OpenArray(t: string, u: string, elems: seq<Json>, rest: string)
    requires SkipSpace(t) == u && u != "" && u[0] != ']' && ParseElements(u) == Yes(elems, rest)
    ensures ParseValue(['['] + t) == Yes(Arr(elems), rest)
  {
    TailOf('[', t);
  }

  lemma OpenObject(t: string, u: string, members: seq<Member>, rest: string)
    requires SkipSpace(t) == u && u != "" && u[0] != '}' && ParseMembers(u) == Yes(members, rest)
    ensures ParseValue(['{'] + t) == Yes(Obj(members), rest)
  {
    TailOf('{', t);
  }

  lemma ArrayRead(items: seq<Item>, rest: string)
    requires items != [] && ValidItems(items) && ParseElements(WriteItems(items, rest)) == Yes(Meanings(items), rest)
    ensures ParseValue(['['] + WriteItems(items, rest)) == Yes(Arr(Meanings(items)), rest)
  {
    var first := Write(items[0].val, items[0].after + ItemTail(items, rest));
    FormStarts(items[0].val, items[0].after + ItemTail(items, rest));
    GapSkipped(items[0].before, first);
    ElementsAfterGap(items[0].before, first);
    OpenArray(WriteItems(items, rest), first, Meanings(items), rest);
  }

  /** An element whose value has been read. */
  lemma ItemRead(s: string, v: Json, tail: string, after: string)
    requires Gap(after) && ParseValue(s) == Yes(v, after + tail) && tail != "" && tail[0] in {',', ']'}
    ensures ParseElements(s) ==
              if tail[0] == ']' then Yes([v], tail[1..])
              else match ParseElements(tail[1..]) case No => No case Yes(vs, rest) => Yes([v] + vs, rest)
  {
    GapSkipped(after, tail);
  }

  lemma MeaningsFirst(items: seq<Item>)
    requires items != [] && ValidItems(items)
    ensures |items| == 1 ==> Meanings(items) == [Meaning(items[0].val)]
    ensures |items| > 1 ==> Meanings(items) == [Meaning(items[0].val)] + Meanings(items[1..])
  {
  }

  lemma {:induction false} ItemsRead(items: seq<Item>, rest: string)
    requires items != [] && ValidItems(items)
    ensures ParseElements(WriteItems(items, rest)) == Yes(Meanings(items), rest)
    decreases items, 0
  {
    var v, after, tail := items[0].val, items[0].after, ItemTail(items, rest);
    EndsBefore(after, tail);
    FormRead(v, after + tail);
    FormStarts(v, after + tail);
    ElementsAfterGap(items[0].before, Write(v, after + tail));
    ItemRead(Write(v, after + tail), Meaning(v), tail, after);
    MeaningsFirst(items);
    if |items| == 1 {
      TailOf(']', rest);
    } else {
      ItemsRead(items[1..], rest);
      TailOf(',', WriteItems(items[1..], rest));
    }
  }

  lemma ObjectRead(fields: seq<Field>, rest: string)
    requires fields != [] && ValidFields(fields) && ParseMembers(WriteFields(fields, rest)) == Yes(FieldMeanings(fields), rest)
    ensures ParseValue(['{'] + WriteFields(fields, rest)) == Yes(Obj(FieldMeanings(fields)), rest)
  {
    var body := WritePieces(fields[0].key, FieldValue(fields, rest));
    TailOf('"', body);
    GapSkipped(fields[0].before, ['"'] + body);
    MembersAfterGap(fields[0].before, ['"'] + body);
    OpenObject(WriteFields(fields, rest), ['"'] + body, FieldMeanings(fields), rest);
  }

  /** What follows the key of the first field. */
  function FieldValue(fields: seq<Field>, rest: string): string
    requires fields != [] && ValidFields(fields)
  {
    var f := fields[0];
    f.afterKey + ([':'] + (f.beforeVal + Write(f.val, f.after + FieldTail(fields, rest))))
  }

  /** How the parser goes through one member. */
  lemma MemberStep(s: string, key: string, afterKey: string, colon: string, v: Json, afterVal: string, tail: string)
    requires s != "" && s[0] == '"' && ParseString(s[1..]) == Yes(key, afterKey)
    requires SkipSpace(afterKey) == colon && colon != "" && colon[0] == ':'
    requires ParseValue(colon[1..]) == Yes(v, afterVal)
    requires SkipSpace(afterVal) == tail && tail != "" && tail[0] in {',', '}'}
    ensures ParseMembers(s) ==
              if tail[0] == '}' then Yes([Member(key, v)], tail[1..])
              else match ParseMembers(tail[1..])
                case No => No
                case Yes(ms, rest) => Yes([Member(key, v)] + ms, rest)
  {
    assert SkipSpace(s) == s;
  }

  /** A member whose value has been read. */
  lemma FieldRead(key: seq<Piece>, afterKey: string, text: string, v: Json, tail: string, after: string)
    requires ValidPieces(key) && Gap(afterKey) && Gap(after) && ParseValue(text) == Yes(v, after + tail)
    requires tail != "" && tail[0] in {',', '}'}
    ensures ParseMembers(['"'] + WritePieces(key, afterKey + ([':'] + text))) ==
              if tail[0] == '}' then Yes([Member(PiecesMeaning(key), v)], tail[1..])
              else match ParseMembers(tail[1..])
                case No => No
                case Yes(ms, rest) => Yes([Member(PiecesMeaning(key), v)] + ms, rest)
  {
    var colon := [':'] + text;
    var body := WritePieces(key, afterKey + colon);
    PiecesRead(key, afterKey + colon);
    GapSkipped(afterKey, colon);
    GapSkipped(after, tail);
    TailOf('"', body);
    TailOf(':', text);
    MemberStep(['"'] + body, PiecesMeaning(key), afterKey + colon, colon, v, after + tail, tail);
  }

  lemma FieldMeaningsFirst(fields: seq<Field>)
    requires fields != [] && ValidFields(fields)
    ensures var first := Member(PiecesMeaning(fields[0].key), Meaning(fields[0].val));
            && (|fields| == 1 ==> FieldMeanings(fields) == [first])
            && (|fields| > 1 ==> FieldMeanings(fields) == [first] + FieldMeanings(fields[1..]))
  {
  }

  /** The first field, when its value has been read. */
  lemma FirstFieldRead(fields: seq<Field>, rest: string)
    requires fields != [] && ValidFields(fields)
    requires var f := fields[0]; var after := f.after + FieldTail(fields, rest);
             ParseValue(Write(f.val, after)) == Yes(Meaning(f.val), after)
    ensures var f, tail := fields[0], FieldTail(fields, rest);
            ParseMembers(WriteFields(fields, rest)) ==
              if tail[0] == '}' then Yes([Member(PiecesMeaning(f.key), Meaning(f.val))], tail[1..])
              else match ParseMembers(tail[1..])
                case No => No
                case Yes(ms, rest) => Yes([Member(PiecesMeaning(f.key), Meaning(f.val))] + ms, rest)
  {
    var f, tail := fields[0], FieldTail(fields, rest);
    var value := Write(f.val, f.after + tail);
    FormStarts(f.val, f.after + tail);
    ValueAfterGap(f.beforeVal, value);
    FieldRead(f.key, f.afterKey, f.beforeVal + value, Meaning(f.val), tail, f.after);
    MembersAfterGap(f.before, ['"'] + WritePieces(f.key, FieldValue(fields, rest)));
  }

  lemma {:induction false} FieldsRead(fields: seq<Field>, rest: string)
    requires fields != [] && ValidFields(fields)
    ensures ParseMembers(WriteFields(fields, rest)) == Yes(FieldMeanings(fields), rest)
    decreases fields, 0
  {
    var f, tail := fields[0], FieldTail(fields, rest);
    EndsBefore(f.after, tail);
    FormRead(f.val, f.after + tail);
    FirstFieldRead(fields, rest);
    FieldMeaningsFirst(fields);
    if |fields| == 1 {
      TailOf('}', rest);
    } else {
      FieldsRead(fields[1..], rest);
      TailOf(',', WriteFields(fields[1..], rest));
    }
  }

  // ------------------------------------------------------------------------
  // Nothing else is accepted
  // ------------------------------------------------------------------------

  lemma {:induction false} GapFound(s: string) returns (gap: string)
    ensures Gap(gap) && s == gap + SkipSpace(s)
  {
    gap := "";
    if s != "" && IsSpace(s[0]) {
      gap := GapFound(s[1..]);
      gap := [s[0]] + gap;
    }
  }

  lemma HexFound(c: char) returns (h: Hex)
    requires HexValue(c).Some?
    ensures h.Valid() && h.Char() == c && HexValue(c) == Some(h.d)
  {
    h := Hex(HexValue(c).value, 'A' <= c <= 'F');
  }

  lemma UnitFound(s: string) returns (p: Piece)
    requires Hex4(s).Some?
    ensures p.Unit? && p.Valid() && Hex4(s) == Some(p.Code())
    ensures ['\\', 'u'] + s == WritePiece(p, s[4..])
  {
    var h3 := HexFound(s[0]);
    var h2 := HexFound(s[1]);
    var h1 := HexFound(s[2]);
    var h0 := HexFound(s[3]);
    p := Unit(h3, h2, h1, h0);
  }

  lemma PieceMore(p: Piece, ps: seq<Piece>, rest: string)
    requires p.Valid() && ValidPieces(ps)
    ensures ValidPieces([p] + ps) && WritePieces([p] + ps, rest) == WritePiece(p, WritePieces(ps, rest))
  {
    assert ([p] + ps)[1..] == ps;
  }

  lemma {:induction false} PiecesFound(s: string) returns (ps: seq<Piece>)
    requires ParseString(s).Yes?
    ensures ValidPieces(ps) && s == WritePieces(ps, ParseString(s).rest)
    decreases |s|, 1
  {
    var rest := ParseString(s).rest;
    HeadAndTail(s);
    if s[0] == '"' {
      ps := [];
    } else if s[0] != '\\' {
      var more := PiecesFound(s[1..]);
      PieceMore(Plain(s[0]), more, rest);
      ps := [Plain(s[0])] + more;
    } else if s[1] != 'u' {
      assert s[1..][1..] == s[2..] && s == ['\\', s[1]] + s[2..];
      var more := PiecesFound(s[2..]);
      PieceMore(Short(s[1]), more, rest);
      ps := [Short(s[1])] + more;
    } else {
      ps := UnitsFound(s);
    }
  }

  lemma EscapeText(s: string)
    requires |s| >= 2 && s[0] == '\\' && s[1] == 'u'
    ensures s == ['\\', 'u'] + s[2..] && s[1..][1..] == s[2..]
    ensures |s| >= 6 ==> s[2..][4..] == s[6..]
  {
  }

  lemma {:induction false} UnitsFound(s: string) returns (ps: seq<Piece>)
    requires ParseString(s).Yes? && |s| >= 2 && s[0] == '\\' && s[1] == 'u'
    ensures ValidPieces(ps) && s == WritePieces(ps, ParseString(s).rest)
    decreases |s|, 0
  {
    var u, rest := s[2..], ParseString(s).rest;
    EscapeText(s);
    var t := u[4..];
    var p := UnitFound(u);
    UnicodeStep(u, p.Code(), t);
    var after := ParseEscape(s[1..]).rest;
    var more := PiecesFound(after);
    if after != t {
      var q := UnitFound(t[2..]);
      EscapeText(t);
      PieceMore(q, more, rest);
      PieceMore(p, [q] + more, rest);
      ps := [p] + ([q] + more);
    } else {
      PieceMore(p, more, rest);
      ps := [p] + more;
    }
  }

  lemma DigitsFound(s: string)
    requires ParseDigits(s).Yes?
    ensures var r := ParseDigits(s); s == Decimal.Print(r.value) + r.rest && EndsNumber(r.rest)
  {
    var k := Decimal.DigitCount(s);
    Decimal.PrintValue(s[..k]);
    assert s == s[..k] + s[k..];
  }

  lemma NumberText(n: nat, rest: string)
    ensures Write(FNum(true, n), rest) == ['-'] + (Decimal.Print(n) + rest)
    ensures Write(FNum(false, n), rest) == Decimal.Print(n) + rest
  {
  }

  lemma NumberSplit(t: string)
    requires t != "" && ParseNumber(t).Yes?
    ensures var negative := t[0] == '-';
            var d := if negative then t[1..] else t;
            && ParseDigits(d).Yes? && ParseDigits(d).rest == ParseNumber(t).rest
            && ParseNumber(t).value == Signed(negative, ParseDigits(d).value)
            && t == if negative then ['-'] + d else d
  {
    HeadAndTail(t);
  }

  lemma NumberFound(t: string) returns (f: Form)
    requires t != "" && ParseNumber(t).Yes?
    ensures f.FNum? && t == Write(f, ParseNumber(t).rest) && Meaning(f) == Num(ParseNumber(t).value)
    ensures EndsNumber(ParseNumber(t).rest)
  {
    var negative := t[0] == '-';
    var d := if negative then t[1..] else t;
    NumberSplit(t);
    f := NumberOf(t, negative, d, ParseDigits(d).value, ParseNumber(t).rest);
  }

  lemma NumberOf(t: string, negative: bool, d: string, n: nat, rest: string) returns (f: Form)
    requires ParseDigits(d) == Yes(n, rest) && t == if negative then ['-'] + d else d
    ensures f.FNum? && t == Write(f, rest) && Meaning(f) == Num(Signed(negative, n)) && EndsNumber(rest)
  {
    DigitsFound(d);
    NumberText(n, rest);
    f := FNum(negative, n);
  }

  lemma LiteralFound(t: string, name: string)
    requires name <= t
    ensures t == name + t[|name|..]
  {
  }

  lemma PlainFound(t: string) returns (f: Form)
    requires t != "" && ParsePlain(t).Yes?
    ensures Valid(f) && t == Write(f, ParsePlain(t).rest) && Meaning(f) == ParsePlain(t).value
    ensures f.FNum? ==> EndsNumber(ParsePlain(t).rest)
  {
    if t[0] == 'n' {
      LiteralFound(t, "null");
      f := FNull;
    } else if t[0] == 't' {
      LiteralFound(t, "true");
      f := FBool(true);
    } else if t[0] == 'f' {
      LiteralFound(t, "false");
      f := FBool(false);
    } else {
      f := NumberFound(t);
    }
  }

  /** What the parser reads at the front of a text is white space and a form. */
  lemma {:induction false} ValueFound(s: string) returns (gap: string, f: Form)
    requires ParseValue(s).Yes?
    ensures Gap(gap) && Valid(f) && s == gap + Write(f, ParseValue(s).rest) && Meaning(f) == ParseValue(s).value
    ensures f.FNum? ==> EndsNumber(ParseValue(s).rest)
    decreases |s|, 1
  {
    gap := GapFound(s);
    var t := SkipSpace(s);
    if t[0] == '"' {
      var ps := PiecesFound(t[1..]);
      HeadAndTail(t);
      PiecesRead(ps, ParseString(t[1..]).rest);
      f := FStr(ps);
    } else if t[0] == '[' {
      f := ArrayFound(t);
    } else if t[0] == '{' {
      f := ObjectFound(t);
    } else {
      f := PlainFound(t);
    }
  }

  /** White space in front of the first item. */
  lemma WiderItems(gap: string, items: seq<Item>, rest: string) returns (r: seq<Item>)
    requires Gap(gap) && items != [] && ValidItems(items)
    ensures r != [] && ValidItems(r) && WriteItems(r, rest) == gap + WriteItems(items, rest) && Meanings(r) == Meanings(items)
  {
    r := [items[0].(before := gap + items[0].before)] + items[1..];
    assert r[1..] == items[1..];
    var value := Write(items[0].val, items[0].after + ItemTail(items, rest));
    Assoc(gap, items[0].before, value);
  }

  lemma WiderFields(gap: string, fields: seq<Field>, rest: string) returns (r: seq<Field>)
    requires Gap(gap) && fields != [] && ValidFields(fields)
    ensures r != [] && ValidFields(r) && WriteFields(r, rest) == gap + WriteFields(fields, rest)
    ensures FieldMeanings(r) == FieldMeanings(fields)
  {
    r := [fields[0].(before := gap + fields[0].before)] + fields[1..];
    assert r[1..] == fields[1..];
    var body := ['"'] + WritePieces(fields[0].key, FieldValue(fields, rest));
    Assoc(gap, fields[0].before, body);
  }

  lemma {:induction false} ArrayFound(t: string) returns (f: Form)
    requires t != "" && t[0] == '[' && SkipSpace(t) == t && ParseValue(t).Yes?
    ensures f.FArr? && Valid(f) && t == Write(f, ParseValue(t).rest) && Meaning(f) == ParseValue(t).value
    decreases |t|, 0
  {
    var gap := GapFound(t[1..]);
    var u := SkipSpace(t[1..]);
    HeadAndTail(t);
    HeadAndTail(u);
    if u[0] == ']' {
      f := FArr(gap, []);
    } else {
      var items := ElementsFound(u);
      items := WiderItems(gap, items, ParseElements(u).rest);
      f := FArr("", items);
      MeaningUnfold(f);
    }
  }

  lemma {:induction false} ObjectFound(t: string) returns (f: Form)
    requires t != "" && t[0] == '{' && SkipSpace(t) == t && ParseValue(t).Yes?
    ensures f.FObj? && Valid(f) && t == Write(f, ParseValue(t).rest) && Meaning(f) == ParseValue(t).value
    decreases |t|, 0
  {
    var gap := GapFound(t[1..]);
    var u := SkipSpace(t[1..]);
    HeadAndTail(t);
    HeadAndTail(u);
    if u[0] == '}' {
      f := FObj(gap, []);
    } else {
      var fields := MembersFound(u);
      fields := WiderFields(gap, fields, ParseMembers(u).rest);
      f := FObj("", fields);
      MeaningUnfold(f);
    }
  }

  lemma OneItem(item: Item, rest: string)
    requires ValidItem(item)
    ensures ValidItems([item]) && WriteItems([item], rest) == item.before + Write(item.val, item.after + ([']'] + rest))
    ensures Meanings([item]) == [Meaning(item.val)]
  {
  }

  lemma MoreItems(item: Item, more: seq<Item>, rest: string)
    requires ValidItem(item) && more != [] && ValidItems(more)
    ensures ValidItems([item] + more)
    ensures WriteItems([item] + more, rest) == item.before + Write(item.val, item.after + ([','] + WriteItems(more, rest)))
    ensures Meanings([item] + more) == [Meaning(item.val)] + Meanings(more)
  {
    assert ([item] + more)[1..] == more;
  }

  lemma {:induction false} ElementsFound(s: string) returns (items: seq<Item>)
    requires ParseElements(s).Yes?
    ensures items != [] && ValidItems(items)
    ensures s == WriteItems(items, ParseElements(s).rest) && Meanings(items) == ParseElements(s).value
    decreases |s|, 2
  {
    var gap, f := ValueFound(s);
    var r := ParseValue(s).rest;
    var t := SkipSpace(r);
    var after := GapFound(r);
    HeadAndTail(t);
    if t[0] == ']' {
      OneItem(Item(gap, f, after), t[1..]);
      items := [Item(gap, f, after)];
    } else {
      var more := ElementsFound(t[1..]);
      MoreItems(Item(gap, f, after), more, ParseElements(t[1..]).rest);
      items := [Item(gap, f, after)] + more;
    }
  }

  /** The text of one field up to its value's end. */
  function WriteField(f: Field, more: string): string
    requires ValidField(f)
  {
    f.before + (['"'] + WritePieces(f.key, f.afterKey + ([':'] + (f.beforeVal + Write(f.val, f.after + more)))))
  }

  lemma OneField(f: Field, rest: string)
    requires ValidField(f)
    ensures ValidFields([f]) && WriteFields([f], rest) == WriteField(f, ['}'] + rest)
    ensures FieldMeanings([f]) == [Member(PiecesMeaning(f.key), Meaning(f.val))]
  {
  }

  lemma MoreFields(f: Field, more: seq<Field>, rest: string)
    requires ValidField(f) && more != [] && ValidFields(more)
    ensures ValidFields([f] + more) && WriteFields([f] + more, rest) == WriteField(f, [','] + WriteFields(more, rest))
    ensures FieldMeanings([f] + more) == [Member(PiecesMeaning(f.key), Meaning(f.val))] + FieldMeanings(more)
  {
    assert ([f] + more)[1..] == more;
  }

  /** The key, colon and value of the member at the front of a text, and where its tail begins. */
  lemma {:induction false} MemberFound(s: string) returns (f: Field, tail: string)
    requires ParseMembers(s).Yes?
    ensures ValidField(f) && s == WriteField(f, tail) && tail != "" && |tail| < |s|
    ensures var v := Member(PiecesMeaning(f.key), Meaning(f.val));
            if tail[0] == '}' then ParseMembers(s) == Yes([v], tail[1..])
            else tail[0] == ',' && ParseMembers(tail[1..]).Yes?
                 && ParseMembers(s) == Yes([v] + ParseMembers(tail[1..]).value, ParseMembers(tail[1..]).rest)
    decreases |s|, 1
  {
    var t := SkipSpace(s);
    var k := ParseString(t[1..]).rest;
    var colon := SkipSpace(k);
    var before := GapFound(s);
    var key := PiecesFound(t[1..]);
    PiecesRead(key, k);
    var afterKey := GapFound(k);
    var beforeVal, val := ValueFound(colon[1..]);
    var r := ParseValue(colon[1..]).rest;
    var after := GapFound(r);
    tail := SkipSpace(r);
    HeadAndTail(t);
    HeadAndTail(colon);
    f := Field(before, key, afterKey, beforeVal, val, after);
  }

  lemma {:induction false} MembersFound(s: string) returns (fields: seq<Field>)
    requires ParseMembers(s).Yes?
    ensures fields != [] && ValidFields(fields)
    ensures s == WriteFields(fields, ParseMembers(s).rest) && FieldMeanings(fields) == ParseMembers(s).value
    decreases |s|, 2
  {
    var f, tail := MemberFound(s);
    HeadAndTail(tail);
    if tail[0] == '}' {
      OneField(f, tail[1..]);
      fields := [f];
    } else {
      var more := MembersFound(tail[1..]);
      MoreFields(f, more, ParseMembers(tail[1..]).rest);
      fields := [f] + more;
    }
  }

  // ------------------------------------------------------------------------
  // The parser and the grammar
  // ------------------------------------------------------------------------

  /** s is a form between white space. */
  ghost predicate Written(s: string, before: string, f: Form, after: string) {
    Gap(before) && Valid(f) && Gap(after) && s == before + Write(f, after)
  }

  /** A written document is read as what it stands for. */
  lemma WrittenIsParsed(s: string, before: string, f: Form, after: string)
    requires Written(s, before, f, after)
    ensures Parse(s) == Some(Meaning(f))
  {
    FormStarts(f, after);
    FormRead(f, after);
    ValueAfterGap(before, Write(f, after));
    GapSkipped(after, "");
    assert after + "" == after;
  }

  lemma ParsedIsWritten(s: string) returns (before: string, f: Form, after: string)
    requires Parse(s).Some?
    ensures Written(s, before, f, after) && Meaning(f) == Parse(s).value
  {
    before, f := ValueFound(s);
    after := GapFound(ParseValue(s).rest);
    assert after + "" == after;
  }

  /** The parser accepts exactly the written documents, and gives each its meaning. */
  lemma ParsesExactly(s: string, j: Json)
    ensures Parse(s) == Some(j) <==>
              exists before, f, after :: Written(s, before, f, after) && Meaning(f) == j
  {
    if Parse(s) == Some(j) {
      var before, f, after := ParsedIsWritten(s);
    }
    if before, f, after :| Written(s, before, f, after) && Meaning(f) == j {
      WrittenIsParsed(s, before, f, after);
    }
  }
}
