/**
 JSON text (RFC 8259, sections 2 to 7) without fractions and exponents: a compact printer
 and a parser that accepts every escape and insignificant white space.
 */
module JsonText {
  import opened Wrappers
  import Decimal

  /** A JSON document; the members of an object keep their order. */
  datatype Json =
    | Null
    | Bool(b: bool)
    | Num(i: int)
    | Str(s: string)
    | Arr(elems: seq<Json>)
    | Obj(members: seq<Member>)

  datatype Member = Member(key: string, val: Json)

  // ------------------------------------------------------------------------
  // Strings (section 7)
  // ------------------------------------------------------------------------

  function HexDigit(n: nat): char
    requires n < 16
  {
    if n < 10 then '0' + n as char else 'a' + (n - 10) as char
  }

  function HexValue(c: char): Option<nat> {
    if '0' <= c <= '9' then Some((c - '0') as nat)
    else if 'a' <= c <= 'f' then Some(10 + (c - 'a') as nat)
    else if 'A' <= c <= 'F' then Some(10 + (c - 'A') as nat)
    else None
  }

  function UnicodeEscape(n: nat): string
    requires n < 0x10000
  {
    ['\\', 'u', HexDigit(n / 4096), HexDigit(n / 256 % 16), HexDigit(n / 16 % 16), HexDigit(n % 16)]
  }

  /** Space to tilde: DEL (0x7F) is taken not to be printable, so text that holds it is written the
      other way. */
  predicate PrintableAscii(s: string) {
    forall i :: 0 <= i < |s| ==> ' ' <= s[i] <= '~'
  }

  /** Only quotes and backslashes are escaped in printable ASCII text; other text also has its
      control characters, angle brackets, ampersands and line separators escaped. */
  function EscapeChar(c: char, ascii: bool): string {
    if c == '"' then "\\\""
    else if c == '\\' then "\\\\"
    else if ascii then [c]
    else if c == '\n' then "\\n"
    else if c == '\r' then "\\r"
    else if c == '\t' then "\\t"
    else if c < ' ' || c in {'<', '>', '&', '\U{2028}', '\U{2029}'} then UnicodeEscape(c as nat)
    else [c]
  }

  function EscapeAll(s: string, ascii: bool): string {
    if s == "" then "" else EscapeChar(s[0], ascii) + EscapeAll(s[1..], ascii)
  }

  function Quote(s: string): string {
    "\"" + EscapeAll(s, PrintableAscii(s)) + "\""
  }

  datatype Parsed<+T> = No | Yes(value: T, rest: string)

  function Hex4(s: string): (r: Option<nat>)
    ensures r.Some? ==> r.value < 0x10000 && |s| >= 4
  {
    if |s| < 4 then None
    else match (HexValue(s[0]), HexValue(s[1]), HexValue(s[2]), HexValue(s[3]))
      case (Some(a), Some(b), Some(c), Some(d)) =>
        if a < 16 && b < 16 && c < 16 && d < 16 then Some(4096 * a + 256 * b + 16 * c + d) else None
      case _ => None
  }

  predicate HighSurrogate(n: nat) { 0xD800 <= n < 0xDC00 }
  predicate LowSurrogate(n: nat) { 0xDC00 <= n < 0xE000 }

  const REPLACEMENT: char := '\U{FFFD}'

  /** The character after "\u": a surrogate pair is one character, a lone half is replaced. */
  function ParseUnicode(s: string): (r: Parsed<char>)
    ensures r.Yes? ==> |r.rest| < |s|
  {
    match Hex4(s)
    case None => No
    case Some(n) =>
      if HighSurrogate(n) && |s| >= 6 && s[4] == '\\' && s[5] == 'u' && Hex4(s[6..]).Some? && LowSurrogate(Hex4(s[6..]).value)
      then Yes((0x10000 + 1024 * (n - 0xD800) + (Hex4(s[6..]).value - 0xDC00)) as char, s[10..])
      else if HighSurrogate(n) || LowSurrogate(n) then Yes(REPLACEMENT, s[4..])
      else Yes(n as char, s[4..])
  }

  /** The character after a backslash. */
  function ParseEscape(s: string): (r: Parsed<char>)
    ensures r.Yes? ==> |r.rest| < |s|
  {
    if s == "" then No
    else match s[0]
      case '"' => Yes('"', s[1..])
      case '\\' => Yes('\\', s[1..])
      case '/' => Yes('/', s[1..])
      case 'b' => Yes('\U{8}', s[1..])
      case 'f' => Yes('\U{C}', s[1..])
      case 'n' => Yes('\n', s[1..])
      case 'r' => Yes('\r', s[1..])
      case 't' => Yes('\t', s[1..])
      case 'u' => ParseUnicode(s[1..])
      case _ => No
  }

  /** The rest of a string after its opening quote. */
  function ParseString(s: string): (r: Parsed<string>)
    ensures r.Yes? ==> |r.rest| < |s|
    decreases |s|
  {
    if s == "" || s[0] < ' ' then No
    else if s[0] == '"' then Yes("", s[1..])
    else
      var c := if s[0] == '\\' then ParseEscape(s[1..]) else Yes(s[0], s[1..]);
      match c
      case No => No
      case Yes(first, rest) =>
        match ParseString(rest)
        case No => No
        case Yes(more, rest) => Yes([first] + more, rest)
  }

  lemma Assoc(a: string, b: string, c: string)
    ensures a + b + c == a + (b + c)
  {
  }

  lemma HexRoundTrip(n: nat)
    requires n < 16
    ensures HexValue(HexDigit(n)) == Some(n)
  {
  }

  lemma HexDigits(n: nat)
    requires n < 0x10000
    ensures 4096 * (n / 4096) + 256 * (n / 256 % 16) + 16 * (n / 16 % 16) + n % 16 == n && n / 4096 < 16
  {
    var a, b := n / 16, n / 256;
    assert n == 16 * a + n % 16;
    assert a == 16 * b + a % 16 && b == n / 16 / 16;
    assert b == 16 * (n / 4096) + b % 16;
  }

  lemma Hex4RoundTrip(n: nat, rest: string)
    requires n < 0x10000
    ensures Hex4(UnicodeEscape(n)[2..] + rest) == Some(n)
  {
    HexRoundTrip(n / 4096);
    HexRoundTrip(n / 256 % 16);
    HexRoundTrip(n / 16 % 16);
    HexRoundTrip(n % 16);
    HexDigits(n);
    var s := UnicodeEscape(n)[2..] + rest;
    assert s[0] == HexDigit(n / 4096) && s[1] == HexDigit(n / 256 % 16);
    assert s[2] == HexDigit(n / 16 % 16) && s[3] == HexDigit(n % 16);
  }

  lemma UnicodeRoundTrip(c: char, rest: string)
    requires c as int < 0xD800
    ensures var s := UnicodeEscape(c as nat) + rest;
            s[0] == '\\' && ParseEscape(s[1..]) == Yes(c, rest)
  {
    var n := c as nat;
    var s := UnicodeEscape(n) + rest;
    Hex4RoundTrip(n, rest);
    assert s[1..][0] == 'u' && s[1..][1..] == UnicodeEscape(n)[2..] + rest;
    assert s[1..][1..][4..] == rest;
  }

  /** Reading an escaped character gives the character back. */
  lemma CharRoundTrip(c: char, ascii: bool, rest: string)
    requires ascii ==> ' ' <= c <= '~'
    ensures var s := EscapeChar(c, ascii) + rest;
            && s[0] >= ' ' && s[0] != '"'
            && (if s[0] == '\\' then ParseEscape(s[1..]) else Yes(s[0], s[1..])) == Yes(c, rest)
  {
    var e := EscapeChar(c, ascii);
    if |e| == 6 {
      UnicodeRoundTrip(c, rest);
    } else if |e| == 2 {
      TwoCharEscape(e, rest);
    } else {
      assert (e + rest)[1..] == rest;
    }
  }

  lemma TwoCharEscape(e: string, rest: string)
    requires |e| == 2
    ensures (e + rest)[1..][1..] == rest && (e + rest)[1..][0] == e[1]
  {
  }

  /** Reading a quoted string gives the string back and stops after the closing quote. */
  lemma {:induction false} StringRoundTrip(s: string, ascii: bool, rest: string)
    requires ascii ==> PrintableAscii(s)
    ensures ParseString(EscapeAll(s, ascii) + "\"" + rest) == Yes(s, rest)
  {
    if s == "" {
      assert EscapeAll(s, ascii) + "\"" + rest == ['"'] + rest;
    } else {
      var tail := EscapeAll(s[1..], ascii) + "\"" + rest;
      assert EscapeAll(s, ascii) + "\"" + rest == EscapeChar(s[0], ascii) + tail;
      CharRoundTrip(s[0], ascii, tail);
      StringRoundTrip(s[1..], ascii, rest);
      assert [s[0]] + s[1..] == s;
    }
  }

  // ------------------------------------------------------------------------
  // Printing
  // ------------------------------------------------------------------------

  function PrintInt(i: int): string {
    if i < 0 then "-" + Decimal.Print(-i) else Decimal.Print(i)
  }

  function Print(j: Json): string
    decreases j, 1
  {
    match j
    case Null => "null"
    case Bool(b) => if b then "true" else "false"
    case Num(i) => PrintInt(i)
    case Str(s) => Quote(s)
    case Arr(elems) => "[" + PrintElements(elems)
    case Obj(members) => "{" + PrintMembers(members)
  }

  /** The elements, separated, and the closing bracket. */
  function PrintElements(elems: seq<Json>): string
    decreases elems, 0
  {
    if elems == [] then "]"
    else Print(elems[0]) + (if |elems| == 1 then "]" else "," + PrintElements(elems[1..]))
  }

  function PrintMembers(members: seq<Member>): string
    decreases members, 0
  {
    if members == [] then "}"
    else
      Quote(members[0].key) + ":" + Print(members[0].val)
      + (if |members| == 1 then "}" else "," + PrintMembers(members[1..]))
  }

  // ------------------------------------------------------------------------
  // Parsing
  // ------------------------------------------------------------------------

  predicate IsSpace(c: char) { c == ' ' || c == '\t' || c == '\n' || c == '\r' }

  function SkipSpace(s: string): (r: string)
    ensures |r| <= |s| && (r == "" || !IsSpace(r[0]))
    ensures s == "" || !IsSpace(s[0]) ==> r == s
  {
    if s == "" || !IsSpace(s[0]) then s else SkipSpace(s[1..])
  }

  /** Characters that would continue a number; a fraction or an exponent is rejected. */
  predicate ContinuesNumber(c: char) { Decimal.IsDigit(c) || c == '.' || c == 'e' || c == 'E' }

  function ParseDigits(s: string): (r: Parsed<nat>)
    ensures r.Yes? ==> |r.rest| < |s|
  {
    var k := Decimal.DigitCount(s);
    if k == 0 || (k > 1 && s[0] == '0') || (k < |s| && ContinuesNumber(s[k])) then No
    else Yes(Decimal.Value(s[..k]), s[k..])
  }

  function Negated(n: int): int { -n }

  function ParseNumber(s: string): (r: Parsed<int>)
    ensures r.Yes? ==> |r.rest| < |s|
  {
    if s != "" && s[0] == '-' then
      match ParseDigits(s[1..]) case No => No case Yes(n, rest) => Yes(Negated(n), rest)
    else
      match ParseDigits(s) case No => No case Yes(n, rest) => Yes(n, rest)
  }

  function ParseLiteral(s: string, name: string, j: Json): (r: Parsed<Json>)
    requires name != ""
    ensures r.Yes? ==> |r.rest| < |s|
  {
    if name <= s then Yes(j, s[|name|..]) else No
  }

  function AsNum(n: Parsed<int>): Parsed<Json> {
    match n case No => No case Yes(i, rest) => Yes(Num(i), rest)
  }

  /** A literal or a number. */
  function ParsePlain(t: string): (r: Parsed<Json>)
    requires t != ""
    ensures r.Yes? ==> |r.rest| < |t|
  {
    if t[0] == 'n' then ParseLiteral(t, "null", Null)
    else if t[0] == 't' then ParseLiteral(t, "true", Bool(true))
    else if t[0] == 'f' then ParseLiteral(t, "false", Bool(false))
    else AsNum(ParseNumber(t))
  }

  function ParseValue(s: string): (r: Parsed<Json>)
    ensures r.Yes? ==> |r.rest| < |s|
    decreases |s|, 1
  {
    var t := SkipSpace(s);
    if t == "" then No
    else if t[0] == '"' then
      match ParseString(t[1..]) case No => No case Yes(v, rest) => Yes(Str(v), rest)
    else if t[0] == '[' then
      var u := SkipSpace(t[1..]);
      if u != "" && u[0] == ']' then Yes(Arr([]), u[1..])
      else match ParseElements(u) case No => No case Yes(v, rest) => Yes(Arr(v), rest)
    else if t[0] == '{' then
      var u := SkipSpace(t[1..]);
      if u != "" && u[0] == '}' then Yes(Obj([]), u[1..])
      else match ParseMembers(u) case No => No case Yes(v, rest) => Yes(Obj(v), rest)
    else ParsePlain(t)
  }

  function ParseElements(s: string): (r: Parsed<seq<Json>>)
    ensures r.Yes? ==> |r.rest| < |s|
    decreases |s|, 2
  {
    match ParseValue(s)
    case No => No
    case Yes(v, rest) =>
      var t := SkipSpace(rest);
      if t == "" then No
      else if t[0] == ']' then Yes([v], t[1..])
      else if t[0] == ',' then
        match ParseElements(t[1..]) case No => No case Yes(vs, rest) => Yes([v] + vs, rest)
      else No
  }

  function ParseMembers(s: string): (r: Parsed<seq<Member>>)
    ensures r.Yes? ==> |r.rest| < |s|
    decreases |s|, 2
  {
    var t := SkipSpace(s);
    if t == "" || t[0] != '"' then No
    else match ParseString(t[1..])
      case No => No
      case Yes(key, afterKey) =>
        var colon := SkipSpace(afterKey);
        if colon == "" || colon[0] != ':' then No
        else match ParseValue(colon[1..])
          case No => No
          case Yes(v, rest) =>
            var u := SkipSpace(rest);
            if u == "" then No
            else if u[0] == '}' then Yes([Member(key, v)], u[1..])
            else if u[0] == ',' then
              match ParseMembers(u[1..]) case No => No case Yes(ms, rest) => Yes([Member(key, v)] + ms, rest)
            else No
  }

  /** A whole document. */
  function Parse(s: string): Option<Json> {
    match ParseValue(s)
    case Yes(j, rest) => if SkipSpace(rest) == "" then Some(j) else None
    case No => None
  }

  // ------------------------------------------------------------------------
  // Round trip
  // ------------------------------------------------------------------------

  predicate EndsNumber(rest: string) { rest == "" || !ContinuesNumber(rest[0]) }

  lemma DigitsRoundTrip(n: nat, rest: string)
    requires EndsNumber(rest)
    ensures ParseDigits(Decimal.Print(n) + rest) == Yes(n, rest)
  {
    var digits := Decimal.Print(n);
    Decimal.DigitCountIs(digits, rest);
    Decimal.ValuePrint(n);
    assert (digits + rest)[..|digits|] == digits && (digits + rest)[|digits|..] == rest;
  }

  lemma SignedNumber(n: nat, digits: string, rest: string)
    requires digits != "" && Decimal.IsDigit(digits[0]) && ParseDigits(digits + rest) == Yes(n, rest)
    ensures ParseNumber(digits + rest) == Yes(n, rest)
    ensures ParseNumber("-" + digits + rest) == Yes(Negated(n), rest)
  {
    assert (digits + rest)[0] == digits[0];
    assert ("-" + digits + rest)[1..] == digits + rest;
  }

  lemma NumberRoundTrip(i: int, rest: string)
    requires EndsNumber(rest)
    ensures ParseNumber(PrintInt(i) + rest) == Yes(i, rest)
  {
    var n: nat := if i < 0 then -i else i;
    DigitsRoundTrip(n, rest);
    SignedNumber(n, Decimal.Print(n), rest);
  }

  /** A printed value starts with a character that is neither a space nor a closing bracket. */
  lemma PrintStart(j: Json)
    ensures var s := Print(j); s != "" && !IsSpace(s[0]) && s[0] != ']' && s[0] != '}'
  {
  }

  lemma NumberStart(i: int, rest: string)
    ensures var s := PrintInt(i) + rest;
            s != "" && (s[0] == '-' || Decimal.IsDigit(s[0]))
  {
  }

  lemma LiteralRoundTrip(j: Json, rest: string)
    requires j.Null? || j.Bool?
    ensures ParseValue(Print(j) + rest) == Yes(j, rest)
  {
    var s := Print(j) + rest;
    assert s[|Print(j)|..] == rest;
  }

  lemma PlainDispatch(s: string)
    requires s != "" && !IsSpace(s[0]) && s[0] != '"' && s[0] != '[' && s[0] != '{'
    ensures ParseValue(s) == ParsePlain(s)
  {
    assert SkipSpace(s) == s;
  }

  lemma NumberDispatch(s: string)
    requires s != "" && (s[0] == '-' || Decimal.IsDigit(s[0]))
    ensures ParseValue(s) == AsNum(ParseNumber(s))
  {
    PlainDispatch(s);
  }

  lemma NumRoundTrip(i: int, rest: string)
    requires EndsNumber(rest)
    ensures ParseValue(PrintInt(i) + rest) == Yes(Num(i), rest)
  {
    var s := PrintInt(i) + rest;
    NumberStart(i, rest);
    NumberDispatch(s);
    NumberRoundTrip(i, rest);
  }

  lemma QuoteTail(v: string, rest: string)
    ensures var s := Quote(v) + rest;
            s[0] == '"' && s[1..] == EscapeAll(v, PrintableAscii(v)) + "\"" + rest
  {
  }

  lemma StrRoundTrip(v: string, rest: string)
    ensures ParseValue(Quote(v) + rest) == Yes(Str(v), rest)
  {
    QuoteTail(v, rest);
    StringRoundTrip(v, PrintableAscii(v), rest);
  }

  /** text is what follows an opening bracket: the elements, the closing bracket, and rest. */
  ghost predicate ReadsElements(text: string, elems: seq<Json>, rest: string) {
    && text != "" && !IsSpace(text[0]) && (text[0] == ']' <==> elems == [])
    && if elems == [] then text[1..] == rest else ParseElements(text) == Yes(elems, rest)
  }

  ghost predicate ReadsMembers(text: string, members: seq<Member>, rest: string) {
    && text != "" && !IsSpace(text[0]) && (text[0] == '}' <==> members == [])
    && if members == [] then text[1..] == rest else ParseMembers(text) == Yes(members, rest)
  }

  lemma ArrayStep(text: string, elems: seq<Json>, rest: string)
    requires ReadsElements(text, elems, rest)
    ensures ParseValue("[" + text) == Yes(Arr(elems), rest)
  {
    assert ("[" + text)[1..] == text;
  }

  lemma ObjectStep(text: string, members: seq<Member>, rest: string)
    requires ReadsMembers(text, members, rest)
    ensures ParseValue("{" + text) == Yes(Obj(members), rest)
  {
    assert ("{" + text)[1..] == text;
  }

  lemma LastElement(s: string, v: Json, rest: string)
    requires ParseValue(s) == Yes(v, "]" + rest)
    ensures ParseElements(s) == Yes([v], rest)
  {
    assert ("]" + rest)[1..] == rest;
  }

  lemma NextElement(s: string, v: Json, t: string, vs: seq<Json>, rest: string)
    requires ParseValue(s) == Yes(v, "," + t) && ParseElements(t) == Yes(vs, rest)
    ensures ParseElements(s) == Yes([v] + vs, rest)
  {
    assert ("," + t)[1..] == t;
  }

  lemma MemberHead(key: string, text: string)
    ensures var s := Quote(key) + ":" + text;
            s[0] == '"' && ParseString(s[1..]) == Yes(key, ":" + text)
  {
    Assoc(Quote(key), ":", text);
    QuoteTail(key, ":" + text);
    StringRoundTrip(key, PrintableAscii(key), ":" + text);
  }

  /** A member up to its value: key, colon, and the text of the value. */
  lemma MemberStart(key: string, text: string, v: Json, after: string)
    requires ParseValue(text) == Yes(v, after) && after != "" && !IsSpace(after[0])
    ensures var s := Quote(key) + ":" + text;
            ParseMembers(s) ==
              if after[0] == '}' then Yes([Member(key, v)], after[1..])
              else if after[0] == ',' then
                match ParseMembers(after[1..]) case No => No case Yes(ms, rest) => Yes([Member(key, v)] + ms, rest)
              else No
  {
    MemberHead(key, text);
    assert (":" + text)[1..] == text;
  }

  lemma {:induction false} ValueRoundTrip(j: Json, rest: string)
    requires EndsNumber(rest)
    ensures ParseValue(Print(j) + rest) == Yes(j, rest)
    decreases j, 1
  {
    match j
    case Arr(elems) =>
      ElementsRoundTrip(elems, rest);
      ArrayStep(PrintElements(elems) + rest, elems, rest);
      Assoc("[", PrintElements(elems), rest);
    case Obj(members) =>
      MembersRoundTrip(members, rest);
      ObjectStep(PrintMembers(members) + rest, members, rest);
      Assoc("{", PrintMembers(members), rest);
    case Num(i) => NumRoundTrip(i, rest);
    case Str(v) => StrRoundTrip(v, rest);
    case _ => LiteralRoundTrip(j, rest);
  }

  lemma PrintOneElement(v: Json, rest: string)
    ensures PrintElements([v]) + rest == Print(v) + ("]" + rest)
  {
    Assoc(Print(v), "]", rest);
  }

  lemma PrintMoreElements(elems: seq<Json>, rest: string)
    requires |elems| > 1
    ensures PrintElements(elems) + rest == Print(elems[0]) + ("," + (PrintElements(elems[1..]) + rest))
  {
    Assoc(Print(elems[0]), "," + PrintElements(elems[1..]), rest);
    Assoc(",", PrintElements(elems[1..]), rest);
  }

  lemma {:induction false} ElementsRoundTrip(elems: seq<Json>, rest: string)
    ensures ReadsElements(PrintElements(elems) + rest, elems, rest)
    decreases elems, 0
  {
    if |elems| == 1 {
      var v := elems[0];
      assert elems == [v];
      PrintStart(v);
      PrintOneElement(v, rest);
      ValueRoundTrip(v, "]" + rest);
      LastElement(PrintElements(elems) + rest, v, rest);
    } else if elems != [] {
      var v, t := elems[0], PrintElements(elems[1..]) + rest;
      assert elems == [v] + elems[1..];
      PrintStart(v);
      PrintMoreElements(elems, rest);
      ElementsRoundTrip(elems[1..], rest);
      ValueRoundTrip(v, "," + t);
      NextElement(PrintElements(elems) + rest, v, t, elems[1..], rest);
    }
  }

  /** What follows the first member's value. */
  function AfterMember(members: seq<Member>, rest: string): string
    requires members != []
  {
    if |members| == 1 then "}" + rest else "," + (PrintMembers(members[1..]) + rest)
  }

  lemma PrintFirstMember(members: seq<Member>, rest: string)
    requires members != []
    ensures PrintMembers(members) + rest ==
            Quote(members[0].key) + ":" + (Print(members[0].val) + AfterMember(members, rest))
  {
    var a, b := Quote(members[0].key) + ":", Print(members[0].val);
    var c := if |members| == 1 then "}" else "," + PrintMembers(members[1..]);
    Assoc(a + b, c, rest);
    Assoc(a, b, c + rest);
    if |members| > 1 { Assoc(",", PrintMembers(members[1..]), rest); }
  }

  lemma LastMember(key: string, text: string, v: Json, rest: string)
    requires ParseValue(text) == Yes(v, "}" + rest)
    ensures ReadsMembers(Quote(key) + ":" + text, [Member(key, v)], rest)
  {
    MemberStart(key, text, v, "}" + rest);
    assert ("}" + rest)[1..] == rest;
  }

  lemma NextMember(key: string, text: string, v: Json, t: string, members: seq<Member>, rest: string)
    requires ParseValue(text) == Yes(v, "," + t) && ParseMembers(t) == Yes(members, rest)
    ensures ReadsMembers(Quote(key) + ":" + text, [Member(key, v)] + members, rest)
  {
    MemberStart(key, text, v, "," + t);
    assert ("," + t)[1..] == t;
  }

  lemma {:induction false} MembersRoundTrip(members: seq<Member>, rest: string)
    ensures ReadsMembers(PrintMembers(members) + rest, members, rest)
    decreases members, 0
  {
    if members != [] {
      var m, after := members[0], AfterMember(members, rest);
      ValueRoundTrip(m.val, after);
      PrintFirstMember(members, rest);
      if |members| == 1 {
        assert members == [m];
        LastMember(m.key, Print(m.val) + after, m.val, rest);
      } else {
        assert members == [m] + members[1..];
        MembersRoundTrip(members[1..], rest);
        NextMember(m.key, Print(m.val) + after, m.val, PrintMembers(members[1..]) + rest, members[1..], rest);
      }
    }
  }

  /** Parsing undoes printing. */
  lemma RoundTrip(j: Json)
    ensures Parse(Print(j)) == Some(j)
  {
    ValueRoundTrip(j, "");
    assert Print(j) + "" == Print(j);
  }

  // ------------------------------------------------------------------------
  // The text itself
  // ------------------------------------------------------------------------

  lemma {:induction false} EscapesNothing(s: string)
    requires PrintableAscii(s) && '"' !in s && '\\' !in s
    ensures EscapeAll(s, true) == s
  {
    if s != "" {
      EscapesNothing(s[1..]);
    }
  }

  /** The names of RFC 8259 section 3, and numbers in decimal digits. */
  lemma PrintedScalars(n: nat)
    ensures Print(Null) == "null" && Print(Bool(true)) == "true" && Print(Bool(false)) == "false"
    ensures Print(Num(n)) == Decimal.Print(n) && (n > 0 ==> Print(Num(0 - n)) == "-" + Decimal.Print(n))
  {
  }

  /** Plain text is quoted as it is. */
  lemma PrintedText(s: string)
    requires forall i :: 0 <= i < |s| ==> ' ' <= s[i] <= '~' && s[i] != '"' && s[i] != '\\'
    ensures Print(Str(s)) == "\"" + s + "\""
  {
    EscapesNothing(s);
  }

  /** There is no white space between the tokens of an array. */
  lemma PrintedArray(v: Json, more: seq<Json>)
    ensures Print(Arr([])) == "[]" && Print(Arr([v])) == "[" + (Print(v) + "]")
    ensures more != [] ==> Print(Arr([v] + more)) == "[" + (Print(v) + ("," + Print(Arr(more))[1..]))
  {
    var e := [v] + more;
    assert e[0] == v && e[1..] == more;
    assert ("[" + PrintElements(more))[1..] == PrintElements(more);
  }

  /** Nor between those of an object. */
  lemma PrintedObject(m: Member, more: seq<Member>)
    ensures Print(Obj([])) == "{}" && Print(Obj([m])) == "{" + (Print(Str(m.key)) + ":" + Print(m.val) + "}")
    ensures more != [] ==> Print(Obj([m] + more)) == "{" + (Print(Str(m.key)) + ":" + Print(m.val) + ("," + Print(Obj(more))[1..]))
  {
    var ms := [m] + more;
    assert ms[0] == m && ms[1..] == more;
    assert ("{" + PrintMembers(more))[1..] == PrintMembers(more);
  }

  // ------------------------------------------------------------------------
  // Printed text has no control characters, hence no raw newline
  // ------------------------------------------------------------------------

  predicate NoControl(s: string) {
    forall i :: 0 <= i < |s| ==> s[i] >= ' '
  }

  lemma {:induction false} EscapeNoControl(s: string, ascii: bool)
    requires ascii ==> PrintableAscii(s)
    ensures NoControl(EscapeAll(s, ascii))
  {
    if s != "" {
      EscapeNoControl(s[1..], ascii);
    }
  }

  lemma {:induction false} PrintNoControl(j: Json)
    ensures NoControl(Print(j))
    decreases j, 1
  {
    match j
    case Str(s) => EscapeNoControl(s, PrintableAscii(s));
    case Arr(elems) => ElementsNoControl(elems);
    case Obj(members) => MembersNoControl(members);
    case _ =>
  }

  lemma {:induction false} ElementsNoControl(elems: seq<Json>)
    ensures NoControl(PrintElements(elems))
    decreases elems, 0
  {
    if elems != [] {
      PrintNoControl(elems[0]);
      ElementsNoControl(elems[1..]);
    }
  }

  lemma {:induction false} MembersNoControl(members: seq<Member>)
    ensures NoControl(PrintMembers(members))
    decreases members, 0
  {
    if members != [] {
      EscapeNoControl(members[0].key, PrintableAscii(members[0].key));
      PrintNoControl(members[0].val);
      MembersNoControl(members[1..]);
    }
  }
}
