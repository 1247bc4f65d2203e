/** Standard base64 with padding (section 4 of RFC 4648), read the way Go's decoder reads it. */
module Base64 {
  import opened Wrappers

  type byte = n: nat | n < 256

  function SextetChar(n: nat): char
    requires n < 64
  {
    if n < 26 then 'A' + n as char
    else if n < 52 then 'a' + (n - 26) as char
    else if n < 62 then '0' + (n - 52) as char
    else if n == 62 then '+' else '/'
  }

  function SextetValue(c: char): (r: Option<nat>)
    ensures r.Some? ==> r.value < 64
  {
    if 'A' <= c <= 'Z' then Some((c - 'A') as nat)
    else if 'a' <= c <= 'z' then Some(26 + (c - 'a') as nat)
    else if '0' <= c <= '9' then Some(52 + (c - '0') as nat)
    else if c == '+' then Some(62)
    else if c == '/' then Some(63)
    else None
  }

  predicate IsAlphabet(c: char) { SextetValue(c).Some? || c == '=' }

  lemma SextetRoundTrip(n: nat)
    requires n < 64
    ensures SextetValue(SextetChar(n)) == Some(n) && SextetChar(n) != '='
  {
  }

  /** The alphabet of section 4 of RFC 4648. */
  lemma Alphabet(n: nat)
    requires n < 64
    ensures n < 26 ==> SextetChar(n) as int == 'A' as int + n
    ensures 26 <= n < 52 ==> SextetChar(n) as int == 'a' as int + (n - 26)
    ensures 52 <= n < 62 ==> SextetChar(n) as int == '0' as int + (n - 52)
    ensures SextetChar(62) == '+' && SextetChar(63) == '/'
  {
  }

  /** The four characters of one, two or three bytes. */
  function EncodeGroup(g: seq<byte>): (r: string)
    requires 1 <= |g| <= 3
    ensures |r| == 4 && forall i :: 0 <= i < 4 ==> IsAlphabet(r[i])
  {
    var a := g[0];
    var b := if |g| > 1 then g[1] else 0;
    var c := if |g| > 2 then g[2] else 0;
    SextetRoundTrip(a / 4);
    SextetRoundTrip(a % 4 * 16 + b / 16);
    SextetRoundTrip(b % 16 * 4 + c / 64);
    SextetRoundTrip(c % 64);
    [SextetChar(a / 4), SextetChar(a % 4 * 16 + b / 16),
     if |g| > 1 then SextetChar(b % 16 * 4 + c / 64) else '=',
     if |g| > 2 then SextetChar(c % 64) else '=']
  }

  function Encode(src: seq<byte>): (r: string)
    ensures forall i :: 0 <= i < |r| ==> IsAlphabet(r[i])
  {
    if src == [] then ""
    else if |src| <= 3 then EncodeGroup(src)
    else EncodeGroup(src[..3]) + Encode(src[3..])
  }

  function EncodedLen(n: nat): nat { (n + 2) / 3 * 4 }

  function DecodedLen(n: nat): nat { n / 4 * 3 }

  /** The bytes of a last quantum, which may be padded. */
  function DecodeLast(q: string): (r: Option<seq<byte>>)
    requires |q| == 4
    ensures r.Some? ==> 1 <= |r.value| <= 3
  {
    match (SextetValue(q[0]), SextetValue(q[1]), SextetValue(q[2]), SextetValue(q[3]))
    case (Some(a), Some(b), None, None) =>
      if q[2] == '=' && q[3] == '=' then Some([a * 4 + b / 16]) else None
    case (Some(a), Some(b), Some(c), None) =>
      if q[3] == '=' then Some([a * 4 + b / 16, b % 16 * 16 + c / 4]) else None
    case (Some(a), Some(b), Some(c), Some(d)) =>
      Some([a * 4 + b / 16, b % 16 * 16 + c / 4, c % 4 * 64 + d])
    case _ => None
  }

  function DecodeQuanta(s: string): (r: Option<seq<byte>>)
    ensures r.Some? ==> |r.value| <= DecodedLen(|s|)
  {
    if s == "" then Some([])
    else if |s| < 4 then None
    else if |s| == 4 then DecodeLast(s)
    else
      var head := DecodeLast(s[..4]);
      if head.None? || |head.value| < 3 then None
      else match DecodeQuanta(s[4..]) case None => None case Some(tail) => Some(head.value + tail)
  }

  predicate IsBreak(c: char) { c == '\n' || c == '\r' }

  /** Line breaks are ignored wherever they stand. */
  function WithoutBreaks(s: string): (r: string)
    ensures |r| <= |s|
  {
    if s == "" then ""
    else if IsBreak(s[0]) then WithoutBreaks(s[1..])
    else [s[0]] + WithoutBreaks(s[1..])
  }

  /** The decoded bytes; they always fit a buffer of DecodedLen(|s|). */
  function Decode(s: string): (r: Option<seq<byte>>)
    ensures r.Some? ==> |r.value| <= DecodedLen(|s|)
  {
    DecodeQuanta(WithoutBreaks(s))
  }

  /** Cutting three bytes into four sextets loses nothing. */
  lemma GroupArithmetic(a: byte, b: byte, c: byte)
    ensures a / 4 * 4 + (a % 4 * 16 + b / 16) / 16 == a
    ensures (a % 4 * 16 + b / 16) % 16 * 16 + (b % 16 * 4 + c / 64) / 4 == b
    ensures (b % 16 * 4 + c / 64) % 4 * 64 + c % 64 == c
  {
  }

  /** What a quantum made of n sextets and padding decodes to. */
  lemma DecodeSextets(p: nat, q: nat, r: nat, t: nat)
    requires p < 64 && q < 64 && r < 64 && t < 64
    ensures DecodeLast([SextetChar(p), SextetChar(q), '=', '=']) == Some([p * 4 + q / 16])
    ensures DecodeLast([SextetChar(p), SextetChar(q), SextetChar(r), '=']) == Some([p * 4 + q / 16, q % 16 * 16 + r / 4])
    ensures DecodeLast([SextetChar(p), SextetChar(q), SextetChar(r), SextetChar(t)]) ==
            Some([p * 4 + q / 16, q % 16 * 16 + r / 4, r % 4 * 64 + t])
  {
    SextetRoundTrip(p);
    SextetRoundTrip(q);
    SextetRoundTrip(r);
    SextetRoundTrip(t);
  }

  lemma QuantumOf(g: seq<byte>, e: string, p: nat, q: nat, r: nat, t: nat)
    requires 1 <= |g| <= 3 && p < 64 && q < 64 && r < 64 && t < 64
    requires e == [SextetChar(p), SextetChar(q), if |g| > 1 then SextetChar(r) else '=',
                   if |g| > 2 then SextetChar(t) else '=']
    requires p * 4 + q / 16 == g[0]
    requires |g| > 1 ==> q % 16 * 16 + r / 4 == g[1]
    requires |g| > 2 ==> r % 4 * 64 + t == g[2]
    ensures DecodeLast(e) == Some(g)
  {
    DecodeSextets(p, q, r, t);
    if |g| == 1 {
      assert g == [g[0]];
    } else if |g| == 2 {
      assert g == [g[0], g[1]];
    } else {
      assert g == [g[0], g[1], g[2]];
    }
  }

  lemma GroupRoundTrip(g: seq<byte>)
    requires 1 <= |g| <= 3
    ensures DecodeLast(EncodeGroup(g)) == Some(g)
  {
    var a := g[0];
    var b := if |g| > 1 then g[1] else 0;
    var c := if |g| > 2 then g[2] else 0;
    GroupArithmetic(a, b, c);
    QuantumOf(g, EncodeGroup(g), a / 4, a % 4 * 16 + b / 16, b % 16 * 4 + c / 64, c % 64);
  }

  lemma OneMoreGroup(n: nat)
    requires n > 3
    ensures EncodedLen(n) == 4 + EncodedLen(n - 3)
  {
  }

  lemma {:induction false} EncodeLength(src: seq<byte>)
    ensures |Encode(src)| == EncodedLen(|src|)
  {
    if |src| > 3 {
      EncodeLength(src[3..]);
      OneMoreGroup(|src|);
    }
  }

  /** Reading a full group and then the rest. */
  lemma QuantaStep(q: string, rest: string, g: seq<byte>, tail: seq<byte>)
    requires |q| == 4 && rest != "" && DecodeLast(q) == Some(g) && |g| == 3 && DecodeQuanta(rest) == Some(tail)
    ensures DecodeQuanta(q + rest) == Some(g + tail)
  {
    assert (q + rest)[..4] == q && (q + rest)[4..] == rest;
  }

  lemma {:induction false} QuantaRoundTrip(src: seq<byte>)
    ensures DecodeQuanta(Encode(src)) == Some(src)
  {
    if src == [] {
    } else if |src| <= 3 {
      GroupRoundTrip(src);
    } else {
      GroupRoundTrip(src[..3]);
      QuantaRoundTrip(src[3..]);
      EncodeLength(src[3..]);
      QuantaStep(EncodeGroup(src[..3]), Encode(src[3..]), src[..3], src[3..]);
      assert src == src[..3] + src[3..];
    }
  }

  lemma {:induction false} NoBreaks(s: string)
    requires forall i :: 0 <= i < |s| ==> IsAlphabet(s[i])
    ensures WithoutBreaks(s) == s
  {
    if s != "" {
      NoBreaks(s[1..]);
    }
  }

  /** Line feeds and carriage returns are ignored wherever they stand, and nothing else is. */
  lemma {:induction false} BreaksIgnored(a: string, b: string)
    ensures WithoutBreaks(a + (['\n'] + b)) == WithoutBreaks(a + (['\r'] + b)) == WithoutBreaks(a + b)
    ensures '\n' !in a && '\r' !in a ==> WithoutBreaks(a) == a
  {
    if a == "" {
      assert a + (['\n'] + b) == ['\n'] + b && a + (['\r'] + b) == ['\r'] + b && a + b == b;
    } else {
      BreaksIgnored(a[1..], b);
      AfterFirst(a, ['\n'] + b);
      AfterFirst(a, ['\r'] + b);
      AfterFirst(a, b);
      assert a == [a[0]] + a[1..];
    }
  }

  lemma AfterFirst(a: string, b: string)
    requires a != ""
    ensures (a + b)[0] == a[0] && (a + b)[1..] == a[1..] + b
  {
  }

  /** What is decoded has the length of an encoding of its result: padding is never left out. */
  lemma {:induction false} DecodedLength(s: string)
    ensures DecodeQuanta(s).Some? ==> |s| == (|DecodeQuanta(s).value| + 2) / 3 * 4
    ensures DecodeQuanta(s).Some? ==> |DecodeQuanta(s).value| <= |s| / 4 * 3
  {
    if |s| > 4 && DecodeQuanta(s).Some? {
      FirstQuantum(s);
      DecodedLength(s[4..]);
    }
  }

  lemma FirstQuantum(s: string)
    requires |s| > 4 && DecodeQuanta(s).Some?
    ensures DecodeQuanta(s[4..]).Some? && |DecodeQuanta(s).value| == 3 + |DecodeQuanta(s[4..]).value|
  {
  }

  /** The 64 digits. */
  predicate Digit(c: char) { 'A' <= c <= 'Z' || 'a' <= c <= 'z' || '0' <= c <= '9' || c == '+' || c == '/' }

  /** Whole quanta of digits, but for p padding characters at the end. */
  predicate Padded(s: string, p: nat) {
    && |s| % 4 == 0 && p <= |s|
    && (forall i :: 0 <= i < |s| - p ==> Digit(s[i]))
    && forall i :: |s| - p <= i < |s| ==> s[i] == '='
  }

  lemma LastQuantum(q: string)
    requires |q| == 4
    ensures DecodeLast(q).Some? <==> Padded(q, 0) || Padded(q, 1) || Padded(q, 2)
    ensures DecodeLast(q).Some? && |DecodeLast(q).value| == 3 <==> Padded(q, 0)
  {
  }

  lemma MoreQuanta(s: string, p: nat)
    requires |s| > 4 && p <= 2
    ensures Padded(s, p) <==> Padded(s[..4], 0) && Padded(s[4..], p)
  {
    if Padded(s[..4], 0) && Padded(s[4..], p) {
      assert forall i :: 0 <= i < 4 ==> s[..4][i] == s[i];
      assert forall i :: 4 <= i < |s| ==> s[i] == s[4..][i - 4];
    }
  }

  /** What is decoded: whole quanta of digits, of which at most the last two may be padding instead. */
  lemma {:induction false} AcceptsExactly(s: string)
    ensures DecodeQuanta(s).Some? <==> Padded(s, 0) || Padded(s, 1) || Padded(s, 2)
  {
    if |s| == 4 {
      LastQuantum(s);
    } else if |s| > 4 {
      LastQuantum(s[..4]);
      AcceptsExactly(s[4..]);
      MoreQuanta(s, 0);
      MoreQuanta(s, 1);
      MoreQuanta(s, 2);
    }
  }

  /** Decoding undoes encoding, and the encoding has exactly the announced length. */
  lemma RoundTrip(src: seq<byte>)
    ensures Decode(Encode(src)) == Some(src)
    ensures |Encode(src)| == EncodedLen(|src|)
  {
    var e := Encode(src);
    NoBreaks(e);
    QuantaRoundTrip(src);
    EncodeLength(src);
    assert Decode(e) == DecodeQuanta(e);
  }

  /** The byte at an index, 0 beyond the end. */
  function ByteAt(src: seq<byte>, i: nat): byte { if i < |src| then src[i] else 0 }

  /** Three bytes as one number of 24 bits. */
  function Word(src: seq<byte>, i: nat): (n: nat)
    ensures n < 16777216
  {
    65536 * ByteAt(src, 3 * i) + 256 * ByteAt(src, 3 * i + 1) + ByteAt(src, 3 * i + 2)
  }

  lemma FirstSextets(a: byte, b: byte, c: byte)
    ensures var n := 65536 * a + 256 * b + c;
            n / 262144 == a / 4 && n / 4096 % 64 == a % 4 * 16 + b / 16
  {
    var n := 65536 * a + 256 * b + c;
    assert a == 4 * (a / 4) + a % 4 && b == 16 * (b / 16) + b % 16;
    assert n == 262144 * (a / 4) + (65536 * (a % 4) + 256 * b + c);
    assert n / 4096 == 64 * (a / 4) + (a % 4 * 16 + b / 16) by {
      assert n == 4096 * (64 * (a / 4) + (a % 4 * 16 + b / 16)) + (256 * (b % 16) + c);
    }
  }

  lemma LastSextets(a: byte, b: byte, c: byte)
    ensures var n := 65536 * a + 256 * b + c;
            n / 64 % 64 == b % 16 * 4 + c / 64 && n % 64 == c % 64
  {
    var n := 65536 * a + 256 * b + c;
    assert b == 16 * (b / 16) + b % 16 && c == 64 * (c / 64) + c % 64;
    assert n / 64 == 64 * (16 * a + b / 16) + (b % 16 * 4 + c / 64) by {
      assert n == 64 * (64 * (16 * a + b / 16) + (b % 16 * 4 + c / 64)) + c % 64;
    }
    assert n == 64 * (1024 * a + 4 * b + c / 64) + c % 64;
  }

  /** 24 bits as four digits of 6 bits, the first ones first; digits without a bit of the text are padding. */
  function FourDigits(n: nat, bytes: nat): string
    requires n < 16777216
  {
    [SextetChar(n / 262144), SextetChar(n / 4096 % 64),
     if bytes > 1 then SextetChar(n / 64 % 64) else '=', if bytes > 2 then SextetChar(n % 64) else '=']
  }

  lemma GroupDigits(g: seq<byte>)
    requires 1 <= |g| <= 3
    ensures EncodeGroup(g) == FourDigits(Word(g, 0), |g|)
  {
    var a, b, c := ByteAt(g, 0), ByteAt(g, 1), ByteAt(g, 2);
    FirstSextets(a, b, c);
    LastSextets(a, b, c);
  }

  lemma FirstDigits(src: seq<byte>)
    requires src != []
    ensures HasDigits(Encode(src), 0, GroupAt(src, 0))
  {
    var g := src[..if |src| < 3 then |src| else 3];
    GroupDigits(g);
    assert Word(g, 0) == Word(src, 0);
    assert |src| <= 3 ==> g == src;
  }

  /** The digits of the i-th group of bytes. */
  function GroupAt(src: seq<byte>, i: nat): string
    requires 3 * i < |src|
  {
    FourDigits(Word(src, i), |src| - 3 * i)
  }

  lemma LaterWord(src: seq<byte>, i: nat)
    requires 3 * i < |src| && i > 0
    ensures GroupAt(src, i) == GroupAt(src[3..], i - 1)
  {
  }

  lemma LaterDigits(first: string, later: string, k: nat)
    requires |first| == 4 && k + 4 <= |later|
    ensures (first + later)[4 + k..4 + k + 4] == later[k..k + 4]
  {
  }

  /** The four digits stand at index k. */
  predicate HasDigits(e: string, k: nat, digits: string) { k + 4 <= |e| && e[k..k + 4] == digits }

  lemma LaterGroup(src: seq<byte>, k: nat, digits: string)
    requires |src| > 3 && HasDigits(Encode(src[3..]), k, digits)
    ensures HasDigits(Encode(src), k + 4, digits)
  {
    LaterDigits(EncodeGroup(src[..3]), Encode(src[3..]), k);
  }

  /** The encoding by section 4 of RFC 4648, group by group. */
  lemma {:induction false} EncodedDigits(src: seq<byte>, i: nat)
    requires 3 * i < |src|
    ensures HasDigits(Encode(src), 4 * i, GroupAt(src, i))
    decreases i
  {
    if i == 0 {
      FirstDigits(src);
    } else {
      EncodedDigits(src[3..], i - 1);
      EncodedLater(src, i);
    }
  }

  lemma EncodedLater(src: seq<byte>, i: nat)
    requires i > 0 && 3 * i < |src| && HasDigits(Encode(src[3..]), 4 * (i - 1), GroupAt(src[3..], i - 1))
    ensures HasDigits(Encode(src), 4 * i, GroupAt(src, i))
  {
    LaterWord(src, i);
    LaterGroup(src, 4 * (i - 1), GroupAt(src, i));
  }

  /** Some of the encodings listed in section 10 of RFC 4648. */
  lemma KnownEncodings()
    ensures Encode([]) == "" && Encode([0x66]) == "Zg==" && Encode([0x66, 0x6F]) == "Zm8="
    ensures Encode([0x66, 0x6F, 0x6F]) == "Zm9v" && Encode([0x66, 0x6F, 0x6F, 0x62]) == "Zm9vYg=="
  {
    assert [0x66, 0x6F, 0x6F, 0x62][..3] == [0x66, 0x6F, 0x6F] && [0x66, 0x6F, 0x6F, 0x62][3..] == [0x62];
  }

  /** Fills a buffer of the announced length with the quoted encoding. */
  method EncodeQuoted(src: seq<byte>) returns (res: array<char>)
    ensures fresh(res) && res.Length == EncodedLen(|src|) + 2
    ensures res[..] == "\"" + Encode(src) + "\""
  {
    res := new char[EncodedLen(|src|) + 2](_ => ' ');
    var text := Encode(src);
    EncodeLength(src);
    forall i | 0 <= i < |text| { res[1 + i] := text[i]; }
    res[0], res[res.Length - 1] := '"', '"';
  }

  /** The bytes decoded before a part of the text, followed by those of that part. */
  function After(done: seq<byte>, rest: Option<seq<byte>>): Option<seq<byte>> {
    match rest case None => None case Some(bs) => Some(done + bs)
  }

  lemma BreakSkipped(line: string, i: nat)
    requires i < |line|
    ensures WithoutBreaks(line[i..]) ==
              (if IsBreak(line[i]) then [] else [line[i]]) + WithoutBreaks(line[i + 1..])
  {
    assert line[i..][1..] == line[i + 1..];
  }

  /** A whole quantum at the front of the text: invalid, the last one, or three bytes and more text. */
  lemma QuantumFirst(q: string, rest: string)
    requires |q| == 4
    ensures match DecodeLast(q)
            case None => DecodeQuanta(q + rest) == None
            case Some(g) =>
              if |g| < 3 then DecodeQuanta(q + rest) == if rest == "" then Some(g) else None
              else DecodeQuanta(q + rest) == After(g, DecodeQuanta(rest))
  {
    assert (q + rest)[..4] == q && (q + rest)[4..] == rest;
    if rest == "" {
      assert q + rest == q;
      if DecodeLast(q).Some? { assert DecodeLast(q).value + [] == DecodeLast(q).value; }
    }
  }

  lemma AfterTwice(done: seq<byte>, g: seq<byte>, rest: Option<seq<byte>>)
    ensures After(done, After(g, rest)) == After(done + g, rest)
  {
    if rest.Some? {
      assert done + g + rest.value == done + (g + rest.value);
    }
  }

  lemma AfterNothing(rest: Option<seq<byte>>)
    ensures After([], rest) == rest
  {
    if rest.Some? {
      assert [] + rest.value == rest.value;
    }
  }

  /** Nothing but line breaks may follow a padded quantum. */
  method OnlyBreaks(line: string, start: nat) returns (ok: bool)
    requires start <= |line|
    ensures ok <==> WithoutBreaks(line[start..]) == ""
  {
    for i := start to |line|
      invariant WithoutBreaks(line[start..]) == WithoutBreaks(line[i..])
    {
      BreakSkipped(line, i);
      if !IsBreak(line[i]) {
        return false;
      }
    }
    return true;
  }

  /** Reading on from position i, with the characters of an incomplete quantum in q. */
  function Scan(line: string, i: nat, q: string): Option<seq<byte>>
    requires i <= |line| && |q| < 4
    decreases |line| - i
  {
    if i == |line| then if q == "" then Some([]) else None
    else if IsBreak(line[i]) then Scan(line, i + 1, q)
    else if |q| < 3 then Scan(line, i + 1, q + [line[i]])
    else
      match DecodeLast(q + [line[i]])
      case None => None
      case Some(g) =>
        if |g| == 3 then After(g, Scan(line, i + 1, ""))
        else if WithoutBreaks(line[i + 1..]) == "" then Some(g) else None
  }

  lemma {:induction false} ScanIsDecode(line: string, i: nat, q: string)
    requires i <= |line| && |q| < 4
    ensures Scan(line, i, q) == DecodeQuanta(q + WithoutBreaks(line[i..]))
    decreases |line| - i
  {
    if i == |line| {
      assert q + "" == q;
    } else {
      var rest := WithoutBreaks(line[i + 1..]);
      BreakSkipped(line, i);
      if IsBreak(line[i]) {
        ScanIsDecode(line, i + 1, q);
      } else {
        var more := q + [line[i]];
        assert q + ([line[i]] + rest) == more + rest;
        if |q| < 3 {
          ScanIsDecode(line, i + 1, more);
        } else {
          QuantumFirst(more, rest);
          ScanIsDecode(line, i + 1, "");
          assert "" + rest == rest;
        }
      }
    }
  }

  lemma WholeScan(line: string)
    ensures Scan(line, 0, "") == Decode(line)
  {
    ScanIsDecode(line, 0, "");
    assert line[0..] == line && "" + WithoutBreaks(line) == WithoutBreaks(line);
  }

  method WriteGroup(res: array<byte>, n: nat, g: seq<byte>)
    requires n + |g| <= res.Length
    modifies res
    ensures res[..n + |g|] == old(res[..n]) + g
  {
    forall k | 0 <= k < |g| { res[n + k] := g[k]; }
  }

  lemma RoomForGroup(length: nat, quanta: nat)
    requires 4 * quanta + 4 <= length
    ensures 3 * quanta + 3 <= DecodedLen(length)
  {
  }

  /** Reads the text character by character and writes each whole quantum into a buffer of
      DecodedLen, which is never overrun; the part that was written is the result. */
  method ScanInto(line: string) returns (r: Option<seq<byte>>)
    ensures r == Scan(line, 0, "")
  {
    var res := new byte[DecodedLen(|line|)](_ => 0);
    var n: nat, q := 0, "";
    ghost var quanta: nat := 0;
    AfterNothing(Scan(line, 0, ""));
    for i := 0 to |line|
      invariant |q| < 4 && 4 * quanta + |q| <= i && n == 3 * quanta <= res.Length == DecodedLen(|line|)
      invariant Scan(line, 0, "") == After(res[..n], Scan(line, i, q))
    {
      if IsBreak(line[i]) {
        continue;
      }
      if |q| < 3 {
        q := q + [line[i]];
        continue;
      }
      var group := DecodeLast(q + [line[i]]);
      if group.None? {
        return None;
      }
      RoomForGroup(|line|, quanta);
      AfterTwice(res[..n], group.value, Scan(line, i + 1, ""));
      WriteGroup(res, n, group.value);
      n, q := n + |group.value|, "";
      if |group.value| < 3 {
        var last := OnlyBreaks(line, i + 1);
        return if last then Some(res[..n]) else None;
      }
      quanta := quanta + 1;
    }
    assert res[..n] + [] == res[..n];
    return if q == "" then Some(res[..n]) else None;
  }

  /** What the buffer holds is the decoded text, and whatever was encoded comes back. */
  method DecodeBuffer(line: string) returns (r: Option<seq<byte>>)
    ensures r == Decode(line)
    ensures forall bs :: line == Encode(bs) ==> r == Some(bs)
    ensures r.Some? ==> |r.value| <= |line| / 4 * 3
  {
    r := ScanInto(line);
    WholeScan(line);
    DecodedLength(WithoutBreaks(line));
    forall bs | line == Encode(bs) ensures Decode(line) == Some(bs) { RoundTrip(bs); }
  }
}
