/** The data converters of the two backends: value vectors as newline-framed data, or as payloads. */
module Converters {
  import opened Wrappers
  import opened Text
  import opened Starlark
  import opened Codec
  import J = JsonText
  import Base64

  /** The Go JSON library behind the script codec. */
  datatype Library = Library(marshal: GoValue -> Result<string, Error>, unmarshal: (string, Kind) -> Result<Out, Error>)

  const DELIMITER: char := '\n'

  /** One value as one line: the Go library is tried whenever the script encoder fails. */
  function Line(lib: Library, v: GoValue): Result<string, Error> {
    match Encoded(v) case Ok(b) => Ok(b) case Err(_) => lib.marshal(v)
  }

  /** One line into one target: the Go library is tried whenever the script decoder fails. */
  function LineDecoded(lib: Library, line: string, kind: Kind): Result<Out, Error> {
    match Decoded(line, kind) case Ok(o) => Ok(o) case Err(_) => lib.unmarshal(line, kind)
  }

  /** The lines of a vector, or the first failure. */
  function VectorLines(lib: Library, values: seq<GoValue>): (r: Result<seq<string>, Error>)
    ensures r.Ok? ==> |r.value| == |values| && forall i :: 0 <= i < |values| ==> Line(lib, values[i]) == Ok(r.value[i])
    ensures r.Ok? <==> forall i :: 0 <= i < |values| ==> Line(lib, values[i]).Ok?
  {
    if values == [] then Ok([])
    else
      var n := |values| - 1;
      match VectorLines(lib, values[..n])
      case Err(e) => Err(e)
      case Ok(lines) =>
        match Line(lib, values[n])
        case Err(e) => Err(e)
        case Ok(line) => Ok(lines + [line])
  }

  /** Each line followed by the delimiter. */
  function Framed(lines: seq<string>): string {
    if lines == [] then "" else Framed(lines[..|lines| - 1]) + lines[|lines| - 1] + [DELIMITER]
  }

  /** The frames of received data: what lies between delimiters, without the empty rest after the last one. */
  function Frames(data: string): seq<string> {
    WithoutEmptyLast(Split(data, DELIMITER))
  }

  function WithoutEmptyLast(pieces: seq<string>): seq<string> {
    if pieces != [] && pieces[|pieces| - 1] == "" then pieces[..|pieces| - 1] else pieces
  }

  lemma WithoutEmptyLastCons(piece: string, pieces: seq<string>)
    requires pieces != []
    ensures WithoutEmptyLast([piece] + pieces) == [piece] + WithoutEmptyLast(pieces)
  {
  }

  /** Bytes as text, one character for each. */
  function RawText(bs: seq<Base64.byte>): (r: string)
    ensures |r| == |bs| && forall i :: 0 <= i < |bs| ==> r[i] as int == bs[i]
  {
    seq(|bs|, i requires 0 <= i < |bs| => bs[i] as char)
  }

  /** The text holds exactly these bytes. */
  predicate IsRaw(text: string, bs: seq<Base64.byte>) {
    |text| == |bs| && forall i :: 0 <= i < |bs| ==> text[i] as int == bs[i]
  }

  // ------------------------------------------------------------------------
  // Cadence: ToData and FromData
  // ------------------------------------------------------------------------

  predicate CadenceRaw(values: seq<GoValue>) { |values| == 1 && (values[0].GoBytes? || values[0].Bytes?) }

  function CadenceData(lib: Library, values: seq<GoValue>): Result<string, Error> {
    if CadenceRaw(values) then Ok(RawText(if values[0].GoBytes? then values[0].raw else values[0].bytes))
    else match VectorLines(lib, values) case Err(e) => Err(e) case Ok(lines) => Ok(Framed(lines))
  }

  method ToData(lib: Library, values: seq<GoValue>) returns (r: Result<string, Error>)
    ensures r == CadenceData(lib, values)
    ensures |values| == 1 && values[0].GoBytes? ==> r.Ok? && IsRaw(r.value, values[0].raw)
    ensures |values| == 1 && values[0].Bytes? ==> r.Ok? && IsRaw(r.value, values[0].bytes)
  {
    if |values| == 1 {
      match values[0] {
        case GoBytes(bs) => return Ok(RawText(bs));
        case Bytes(bs) => return Ok(RawText(bs));
        case _ =>
      }
    }
    var buf := "";
    assert values[..0] == [];
    for i := 0 to |values|
      invariant VectorLines(lib, values[..i]).Ok? && buf == Framed(VectorLines(lib, values[..i]).value)
    {
      VectorPrefix(lib, values, i);
      var b := Line(lib, values[i]);
      if b.Err? {
        return b;
      }
      buf := buf + b.value + [DELIMITER];
    }
    assert values[..|values|] == values;
    return Ok(buf);
  }

  /** The lines of a prefix, extended by one value; a failure is the failure of the whole. */
  lemma VectorPrefix(lib: Library, values: seq<GoValue>, i: nat)
    requires i < |values| && VectorLines(lib, values[..i]).Ok?
    ensures match Line(lib, values[i])
            case Ok(line) =>
              && VectorLines(lib, values[..i + 1]) == Ok(VectorLines(lib, values[..i]).value + [line])
              && Framed(VectorLines(lib, values[..i]).value + [line]) ==
                   Framed(VectorLines(lib, values[..i]).value) + line + [DELIMITER]
            case Err(e) => VectorLines(lib, values) == Err(e)
  {
    assert values[..i + 1][..i] == values[..i];
    match Line(lib, values[i])
    case Ok(line) =>
      var lines := VectorLines(lib, values[..i]).value + [line];
      assert lines[..i] == VectorLines(lib, values[..i]).value;
    case Err(e) => FailureIsFinal(lib, values, i + 1, e);
  }

  lemma {:induction false} FailureIsFinal(lib: Library, values: seq<GoValue>, i: nat, e: Error)
    requires i <= |values| && VectorLines(lib, values[..i]) == Err(e)
    ensures VectorLines(lib, values) == Err(e)
    decreases |values| - i
  {
    if i == |values| {
      assert values[..i] == values;
    } else {
      assert values[..i + 1][..i] == values[..i];
      FailureIsFinal(lib, values, i + 1, e);
    }
  }

  /** What a target holds: nothing yet, the raw data, or a decoded value. */
  datatype Filled = Untouched | Raw(data: string) | Parsed(o: Out)

  /** An output pointer: what it can hold, and what it holds. */
  datatype Slot = Slot(kind: Kind, got: Filled)

  datatype Status = Done | Failed(error: Error) | IndexPanic | EndOfPayloads

  datatype Delivery = Delivery(status: Status, got: seq<Filled>)

  function Kinds(slots: seq<Slot>): (r: seq<Kind>)
    ensures |r| == |slots|
  {
    seq(|slots|, i requires 0 <= i < |slots| => slots[i].kind)
  }

  /** Delivering frames to targets in order; a frame without a target indexes past the end. */
  function Deliver(lib: Library, frames: seq<string>, kinds: seq<Kind>): (r: Delivery)
    ensures |r.got| <= |kinds| && |r.got| <= |frames|
    ensures r.status.Done? ==> |r.got| == |frames|
  {
    if frames == [] then Delivery(Done, [])
    else if kinds == [] then Delivery(IndexPanic, [])
    else
      match LineDecoded(lib, frames[0], kinds[0])
      case Err(e) => Delivery(Failed(e), [])
      case Ok(o) =>
        var rest := Deliver(lib, frames[1..], kinds[1..]);
        Delivery(rest.status, [Parsed(o)] + rest.got)
  }

  predicate RawTarget(kinds: seq<Kind>) { |kinds| == 1 && (kinds[0].GoBytesOut? || kinds[0].BytesOut?) }

  function CadenceDelivery(lib: Library, data: string, kinds: seq<Kind>): (r: Delivery)
    ensures |r.got| <= |kinds|
  {
    if RawTarget(kinds) then Delivery(Done, [Raw(data)]) else Deliver(lib, Frames(data), kinds)
  }

  /** The targets after a delivery: the first ones filled, the others as they were. */
  predicate Received(before: seq<Slot>, after: seq<Slot>, got: seq<Filled>) {
    && |after| == |before| && |got| <= |before|
    && (forall i :: 0 <= i < |got| ==> after[i] == Slot(before[i].kind, got[i]))
    && (forall i :: |got| <= i < |before| ==> after[i] == before[i])
  }

  /** The position of the first delimiter, or the length. */
  function Break(s: string): (k: nat)
    ensures k <= |s| && DELIMITER !in s[..k] && (k < |s| ==> s[k] == DELIMITER)
  {
    if s == "" || s[0] == DELIMITER then 0
    else
      var k := 1 + Break(s[1..]);
      assert s[..k] == [s[0]] + s[1..][..k - 1];
      k
  }

  lemma FirstFrame(line: string, rest: string)
    requires DELIMITER !in line
    ensures Frames(line + [DELIMITER] + rest) == [line] + Frames(rest)
  {
    SplitFirst(line, rest, DELIMITER);
    WithoutEmptyLastCons(line, Split(rest, DELIMITER));
  }

  lemma OnlyFrame(line: string)
    requires DELIMITER !in line
    ensures Frames(line) == if line == "" then [] else [line]
  {
    SplitPiece(line, DELIMITER);
  }

  lemma FrameAt(s: string, k: nat)
    requires k < |s| && s[k] == DELIMITER && DELIMITER !in s[..k]
    ensures Frames(s) == [s[..k]] + Frames(s[k + 1..])
  {
    assert s == s[..k] + [DELIMITER] + s[k + 1..];
    FirstFrame(s[..k], s[k + 1..]);
  }

  /** The frames that remain after the first one. */
  function LaterFrames(s: string, k: nat): seq<string>
    requires k <= |s|
  {
    if k == |s| then [] else Frames(s[k + 1..])
  }

  /** Reading one frame off the data. */
  lemma FramesStep(s: string)
    requires s != ""
    ensures Frames(s) == [s[..Break(s)]] + LaterFrames(s, Break(s))
  {
    var k := Break(s);
    if k < |s| {
      FrameAt(s, k);
    } else {
      assert s[..k] == s;
      OnlyFrame(s);
    }
  }

  /** got was delivered already; what remains completes the whole delivery. */
  ghost predicate Continues(rest: Delivery, got: seq<Filled>, whole: Delivery) {
    whole == Delivery(rest.status, got + rest.got)
  }

  lemma ContinuesOne(rest: Delivery, f: Filled, got: seq<Filled>, whole: Delivery)
    requires Continues(Delivery(rest.status, [f] + rest.got), got, whole)
    ensures Continues(rest, got + [f], whole)
  {
    assert got + [f] + rest.got == got + ([f] + rest.got);
  }

  /** Before reading on from rest: got was delivered to the first i targets. */
  ghost predicate Reached(lib: Library, rest: string, eof: bool, kinds: seq<Kind>, i: nat, got: seq<Filled>, whole: Delivery)
    requires i <= |kinds|
  {
    Continues(if eof then Delivery(Done, []) else Deliver(lib, Frames(rest), kinds[i..]), got, whole)
  }

  /** Delivering the first of some frames. */
  lemma DeliverOne(lib: Library, frame: string, later: seq<string>, kinds: seq<Kind>, i: nat, got: seq<Filled>, whole: Delivery)
    requires i <= |kinds| && Continues(Deliver(lib, [frame] + later, kinds[i..]), got, whole)
    ensures if i == |kinds| then whole == Delivery(IndexPanic, got)
            else match LineDecoded(lib, frame, kinds[i])
              case Err(e) => whole == Delivery(Failed(e), got)
              case Ok(o) => Continues(Deliver(lib, later, kinds[i + 1..]), got + [Parsed(o)], whole)
  {
    assert ([frame] + later)[1..] == later;
    if i < |kinds| {
      assert kinds[i..][1..] == kinds[i + 1..];
      match LineDecoded(lib, frame, kinds[i])
      case Err(_) =>
      case Ok(o) => ContinuesOne(Deliver(lib, later, kinds[i + 1..]), Parsed(o), got, whole);
    }
  }

  lemma NothingLeft(lib: Library, kinds: seq<Kind>, i: nat, got: seq<Filled>, whole: Delivery)
    requires i <= |kinds| && Reached(lib, "", false, kinds, i, got, whole)
    ensures whole == Delivery(Done, got)
  {
    OnlyFrame("");
  }

  /** The data after the first frame. */
  function RestAfter(s: string): string {
    if Break(s) == |s| then "" else s[Break(s) + 1..]
  }

  /** What one turn of the loop over the data finds. */
  lemma OneTurn(lib: Library, rest: string, kinds: seq<Kind>, i: nat, got: seq<Filled>, whole: Delivery)
    requires i <= |kinds| && Reached(lib, rest, false, kinds, i, got, whole) && rest != ""
    ensures var k := Break(rest);
            if i == |kinds| then whole == Delivery(IndexPanic, got)
            else match LineDecoded(lib, rest[..k], kinds[i])
              case Err(e) => whole == Delivery(Failed(e), got)
              case Ok(o) =>
                Reached(lib, RestAfter(rest), k == |rest|, kinds, i + 1, got + [Parsed(o)], whole)
  {
    var k := Break(rest);
    FramesStep(rest);
    DeliverOne(lib, rest[..k], LaterFrames(rest, k), kinds, i, got, whole);
  }

  lemma ReceivedMore(before: seq<Slot>, now: seq<Slot>, got: seq<Filled>, f: Filled)
    requires Received(before, now, got) && |got| < |before|
    ensures now[|got|] == before[|got|]
    ensures Received(before, now[|got| := Slot(now[|got|].kind, f)], got + [f])
  {
  }

  /** Decodes one line into target i. */
  method Fill(lib: Library, line: string, to: array<Slot>, i: nat, ghost before: seq<Slot>, ghost got: seq<Filled>)
    returns (err: Option<Error>)
    requires i == |got| < to.Length && Received(before, to[..], got)
    modifies to
    ensures match LineDecoded(lib, line, before[i].kind)
            case Err(e) => err == Some(e) && Received(before, to[..], got)
            case Ok(o) => err.None? && Received(before, to[..], got + [Parsed(o)])
  {
    ReceivedMore(before, to[..], got, Untouched);
    var out := LineDecoded(lib, line, to[i].kind);
    if out.Err? {
      return Some(out.error);
    }
    ReceivedMore(before, to[..], got, Parsed(out.value));
    to[i] := Slot(to[i].kind, Parsed(out.value));
    return None;
  }

  /** One turn of the loop of FromData: the next frame goes into target i. */
  method DeliverFrame(lib: Library, line: string, to: array<Slot>, i: nat,
                      ghost rest: string, ghost kinds: seq<Kind>, ghost before: seq<Slot>, ghost got: seq<Filled>, ghost whole: Delivery)
    returns (end: Option<Status>, ghost got': seq<Filled>)
    requires rest != "" && line == rest[..Break(rest)] && i == |got| <= to.Length && kinds == Kinds(before)
    requires Received(before, to[..], got) && Reached(lib, rest, false, kinds, i, got, whole)
    modifies to
    ensures Received(before, to[..], got')
    ensures match end
            case Some(status) => whole == Delivery(status, got')
            case None => |got'| == i + 1 && Reached(lib, RestAfter(rest), Break(rest) == |rest|, kinds, i + 1, got', whole)
  {
    OneTurn(lib, rest, kinds, i, got, whole);
    got' := got;
    if i >= to.Length {
      return Some(IndexPanic), got;
    }
    var err := Fill(lib, line, to, i, before, got);
    if err.Some? {
      return Some(Failed(err.value)), got;
    }
    return None, got + [Parsed(LineDecoded(lib, line, kinds[i]).value)];
  }

  /** The loop of FromData. */
  method DeliverData(lib: Library, data: string, to: array<Slot>) returns (status: Status)
    modifies to
    ensures var d := Deliver(lib, Frames(data), Kinds(old(to[..])));
            status == d.status && Received(old(to[..]), to[..], d.got)
  {
    ghost var before, kinds := to[..], Kinds(to[..]);
    ghost var whole := Deliver(lib, Frames(data), kinds);
    ghost var got: seq<Filled> := [];
    var i, rest, eof := 0, data, false;
    assert kinds[0..] == kinds;
    while !eof
      invariant 0 <= i <= to.Length && |got| == i && Received(before, to[..], got)
      invariant Reached(lib, rest, eof, kinds, i, got, whole)
      decreases !eof, |rest|
    {
      var k := Break(rest);
      eof := k == |rest|;
      if eof && k == 0 {
        NothingLeft(lib, kinds, i, got, whole);
        return Done;
      }
      var end;
      end, got := DeliverFrame(lib, rest[..k], to, i, rest, kinds, before, got, whole);
      if end.Some? {
        return end.value;
      }
      rest := if eof then "" else rest[k + 1..];
      i := i + 1;
    }
    return Done;
  }

  method FromData(lib: Library, data: string, to: array<Slot>) returns (status: Status)
    modifies to
    ensures var d := CadenceDelivery(lib, data, Kinds(old(to[..])));
            status == d.status && Received(old(to[..]), to[..], d.got)
    ensures to.Length == 1 && (old(to[0]).kind.GoBytesOut? || old(to[0]).kind.BytesOut?) ==>
              status == Done && to[0] == Slot(old(to[0]).kind, Raw(data))
  {
    if to.Length == 1 && (to[0].kind.GoBytesOut? || to[0].kind.BytesOut?) {
      to[0] := Slot(to[0].kind, Raw(data));
      return Done;
    }
    status := DeliverData(lib, data, to);
  }

  /** A single byte value goes through Cadence as it is: the byte target receives exactly its bytes. */
  method SingleBytes(lib: Library, v: GoValue, bs: seq<Base64.byte>, kind: Kind) returns (got: Filled)
    requires v == GoBytes(bs) || v == Bytes(bs)
    requires kind.GoBytesOut? || kind.BytesOut?
    ensures got.Raw? && IsRaw(got.data, bs)
  {
    var data := ToData(lib, [v]);
    var to := new Slot[1](_ => Slot(kind, Untouched));
    var status := FromData(lib, data.value, to);
    got := to[0].got;
  }

  // ------------------------------------------------------------------------
  // Temporal: ToPayloads and FromPayloads
  // ------------------------------------------------------------------------

  predicate TemporalRaw(values: seq<GoValue>) { |values| == 1 && values[0].BytesPtr? }

  function Delimited(lines: seq<string>): (r: seq<string>)
    ensures |r| == |lines|
  {
    seq(|lines|, i requires 0 <= i < |lines| => lines[i] + [DELIMITER])
  }

  /** The data of each payload. */
  function TemporalPayloads(lib: Library, values: seq<GoValue>): Result<seq<string>, Error> {
    if TemporalRaw(values) then Ok([RawText(values[0].raw)])
    else match VectorLines(lib, values) case Err(e) => Err(e) case Ok(lines) => Ok(Delimited(lines))
  }

  method ToPayload(lib: Library, v: GoValue) returns (r: Result<string, Error>)
    ensures r == match Line(lib, v) case Ok(b) => Ok(b + [DELIMITER]) case Err(e) => Err(e)
  {
    var b := Line(lib, v);
    if b.Err? {
      return b;
    }
    return Ok(b.value + [DELIMITER]);
  }

  method ToPayloads(lib: Library, values: seq<GoValue>) returns (r: Result<seq<string>, Error>)
    ensures r == TemporalPayloads(lib, values)
    ensures |values| == 1 && values[0].BytesPtr? ==> r.Ok? && |r.value| == 1 && IsRaw(r.value[0], values[0].raw)
  {
    if |values| == 1 && values[0].BytesPtr? {
      return Ok([RawText(values[0].raw)]);
    }
    var payloads: seq<string> := [];
    assert values[..0] == [];
    for i := 0 to |values|
      invariant VectorLines(lib, values[..i]).Ok? && payloads == Delimited(VectorLines(lib, values[..i]).value)
    {
      VectorPrefix(lib, values, i);
      var payload := ToPayload(lib, values[i]);
      if payload.Err? {
        return Err(payload.error);
      }
      payloads := payloads + [payload.value];
    }
    assert values[..|values|] == values;
    return Ok(payloads);
  }

  /** A payload's first line, which is all that is read of it. */
  function FirstLine(data: string): string { data[..Break(data)] }

  /** Filling the targets in order; payloads beyond them are ignored. */
  function TemporalDelivery(lib: Library, payloads: seq<string>, kinds: seq<Kind>): (r: Delivery)
    ensures |r.got| <= |kinds|
  {
    if kinds == [] then Delivery(Done, [])
    else if payloads == [] then Delivery(EndOfPayloads, [])
    else
      match LineDecoded(lib, FirstLine(payloads[0]), kinds[0])
      case Err(e) => Delivery(Failed(e), [])
      case Ok(o) =>
        var rest := TemporalDelivery(lib, payloads[1..], kinds[1..]);
        Delivery(rest.status, [Parsed(o)] + rest.got)
  }

  lemma PayloadTurn(lib: Library, payloads: seq<string>, kinds: seq<Kind>, i: nat, got: seq<Filled>, whole: Delivery)
    requires i < |kinds| && i <= |payloads| && Continues(TemporalDelivery(lib, payloads[i..], kinds[i..]), got, whole)
    ensures if i == |payloads| then whole == Delivery(EndOfPayloads, got)
            else match LineDecoded(lib, FirstLine(payloads[i]), kinds[i])
              case Err(e) => whole == Delivery(Failed(e), got)
              case Ok(o) => Continues(TemporalDelivery(lib, payloads[i + 1..], kinds[i + 1..]), got + [Parsed(o)], whole)
  {
    assert kinds[i..][1..] == kinds[i + 1..];
    if i < |payloads| {
      assert payloads[i..][1..] == payloads[i + 1..];
      match LineDecoded(lib, FirstLine(payloads[i]), kinds[i])
      case Err(_) =>
      case Ok(o) => ContinuesOne(TemporalDelivery(lib, payloads[i + 1..], kinds[i + 1..]), Parsed(o), got, whole);
    }
  }

  /** Decodes the first line of a payload into target i. */
  method FromPayload(lib: Library, payload: string, to: array<Slot>, i: nat, ghost before: seq<Slot>, ghost got: seq<Filled>)
    returns (err: Option<Error>)
    requires i == |got| < to.Length && Received(before, to[..], got)
    modifies to
    ensures match LineDecoded(lib, FirstLine(payload), before[i].kind)
            case Err(e) => err == Some(e) && Received(before, to[..], got)
            case Ok(o) => err.None? && Received(before, to[..], got + [Parsed(o)])
  {
    var k := Break(payload);
    err := Fill(lib, payload[..k], to, i, before, got);
  }

  method FromPayloads(lib: Library, payloads: seq<string>, to: array<Slot>) returns (status: Status)
    modifies to
    ensures var d := TemporalDelivery(lib, payloads, Kinds(old(to[..])));
            status == d.status && Received(old(to[..]), to[..], d.got)
  {
    ghost var before, kinds := to[..], Kinds(to[..]);
    ghost var whole := TemporalDelivery(lib, payloads, kinds);
    ghost var got: seq<Filled> := [];
    assert kinds[0..] == kinds && payloads[0..] == payloads;
    for i := 0 to to.Length
      invariant i <= |payloads| && |got| == i && Received(before, to[..], got)
      invariant Continues(TemporalDelivery(lib, payloads[i..], kinds[i..]), got, whole)
    {
      PayloadTurn(lib, payloads, kinds, i, got, whole);
      if i >= |payloads| {
        return EndOfPayloads;
      }
      var err := FromPayload(lib, payloads[i], to, i, before, got);
      if err.Some? {
        return Failed(err.value);
      }
      got := got + [Parsed(LineDecoded(lib, FirstLine(payloads[i]), kinds[i]).value)];
    }
    return Done;
  }

  // ------------------------------------------------------------------------
  // Framing
  // ------------------------------------------------------------------------

  predicate AllLines(lines: seq<string>) {
    forall i :: 0 <= i < |lines| ==> DELIMITER !in lines[i]
  }

  lemma {:induction false} FramesOfFramed(lines: seq<string>, rest: string)
    requires AllLines(lines)
    ensures Frames(Framed(lines) + rest) == lines + Frames(rest)
  {
    if lines == [] {
      assert Framed(lines) + rest == rest;
    } else {
      var n := |lines| - 1;
      var tail := lines[n] + [DELIMITER] + rest;
      FramesOfFramed(lines[..n], tail);
      FirstFrame(lines[n], rest);
      assert Framed(lines) + rest == Framed(lines[..n]) + tail;
      assert lines == lines[..n] + [lines[n]];
    }
  }

  lemma FramedWhole(lines: seq<string>)
    requires AllLines(lines)
    ensures Frames(Framed(lines)) == lines
  {
    FramesOfFramed(lines, "");
    assert Framed(lines) + "" == Framed(lines);
    OnlyFrame("");
  }

  lemma Unended(before: string, last: string)
    ensures var data := before + last + [DELIMITER]; data != "" && data[..|data| - 1] == before + last
  {
  }

  lemma UnendedFrames(lines: seq<string>, last: string)
    requires AllLines(lines) && DELIMITER !in last
    ensures Frames(Framed(lines) + last) == WithoutEmptyLast(lines + [last])
  {
    FramesOfFramed(lines, last);
    OnlyFrame(last);
  }

  /** The data without its last delimiter. */
  lemma FramedUnended(lines: seq<string>)
    requires AllLines(lines) && lines != []
    ensures var data := Framed(lines); data != "" && Frames(data[..|data| - 1]) == WithoutEmptyLast(lines)
  {
    var first, last := lines[..|lines| - 1], lines[|lines| - 1];
    Unended(Framed(first), last);
    UnendedFrames(first, last);
    LastApart(lines);
  }

  lemma LastApart(lines: seq<string>)
    requires lines != []
    ensures lines[..|lines| - 1] + [lines[|lines| - 1]] == lines
  {
  }

  lemma NoEmptyLast(lines: seq<string>)
    requires lines != []
    ensures WithoutEmptyLast(lines) == lines <==> lines[|lines| - 1] != ""
  {
  }

  /** Framed lines come back as they were; without the last delimiter too, unless the last line is empty. */
  lemma FramingRoundTrip(lines: seq<string>)
    requires AllLines(lines)
    ensures Frames(Framed(lines)) == lines
    ensures lines != [] ==> var data := Framed(lines);
              data != "" && (Frames(data[..|data| - 1]) == lines <==> lines[|lines| - 1] != "")
  {
    FramedWhole(lines);
    if lines != [] {
      FramedUnended(lines);
      NoEmptyLast(lines);
    }
  }

  /** What the Go library writes is one line, as compact JSON is. */
  ghost predicate OneLine(lib: Library) {
    forall v: GoValue :: lib.marshal(v).Ok? ==> DELIMITER !in lib.marshal(v).value
  }

  lemma LinesHaveNoDelimiter(lib: Library, values: seq<GoValue>, lines: seq<string>)
    requires OneLine(lib) && VectorLines(lib, values) == Ok(lines)
    ensures AllLines(lines)
  {
    forall i | 0 <= i < |lines| ensures DELIMITER !in lines[i] {
      assert Line(lib, values[i]) == Ok(lines[i]);
      if Encoded(values[i]).Ok? {
        EncodedIsOneLine(values[i], lines[i]);
      }
    }
  }

  /** Cadence's decoder sees exactly the lines its encoder wrote, one per value; without the last
      delimiter too, unless the last line is empty. */
  lemma CadenceFraming(lib: Library, values: seq<GoValue>, data: string, lines: seq<string>, kinds: seq<Kind>)
    requires OneLine(lib)
    requires !(|values| == 1 && (values[0].GoBytes? || values[0].Bytes?))
    requires !(|kinds| == 1 && (kinds[0].GoBytesOut? || kinds[0].BytesOut?))
    requires CadenceData(lib, values) == Ok(data) && VectorLines(lib, values) == Ok(lines)
    ensures CadenceDelivery(lib, data, kinds) == Deliver(lib, lines, kinds)
    ensures values != [] && lines[|lines| - 1] != "" ==>
              data != "" && CadenceDelivery(lib, data[..|data| - 1], kinds) == Deliver(lib, lines, kinds)
  {
    LinesHaveNoDelimiter(lib, values, lines);
    FramingRoundTrip(lines);
  }

  function ParsedAll(outs: seq<Out>): (r: seq<Filled>)
    ensures |r| == |outs|
  {
    seq(|outs|, i requires 0 <= i < |outs| => Parsed(outs[i]))
  }

  lemma ParsedFirst(outs: seq<Out>)
    requires outs != []
    ensures ParsedAll(outs) == [Parsed(outs[0])] + ParsedAll(outs[1..])
  {
  }

  lemma {:induction false} DeliverAll(lib: Library, frames: seq<string>, kinds: seq<Kind>, outs: seq<Out>)
    requires |frames| == |outs| <= |kinds|
    requires forall i :: 0 <= i < |frames| ==> LineDecoded(lib, frames[i], kinds[i]) == Ok(outs[i])
    ensures Deliver(lib, frames, kinds) == Delivery(Done, ParsedAll(outs))
  {
    if frames != [] {
      var fs, ks, os := frames[1..], kinds[1..], outs[1..];
      forall i | 0 <= i < |fs| ensures LineDecoded(lib, fs[i], ks[i]) == Ok(os[i]) {
        assert LineDecoded(lib, frames[i + 1], kinds[i + 1]) == Ok(outs[i + 1]);
      }
      DeliverAll(lib, fs, ks, os);
      ParsedFirst(outs);
    }
  }

  /** The first frame that cannot be decoded ends the delivery with its failure; the targets before it
      have been filled. */
  lemma {:induction false} FirstFailure(lib: Library, frames: seq<string>, kinds: seq<Kind>, outs: seq<Out>, e: Error)
    requires |outs| < |frames| && |outs| < |kinds| && LineDecoded(lib, frames[|outs|], kinds[|outs|]) == Err(e)
    requires forall i :: 0 <= i < |outs| ==> LineDecoded(lib, frames[i], kinds[i]) == Ok(outs[i])
    ensures Deliver(lib, frames, kinds) == Delivery(Failed(e), ParsedAll(outs))
  {
    if outs != [] {
      var fs, ks, os := frames[1..], kinds[1..], outs[1..];
      forall i | 0 <= i < |os| ensures LineDecoded(lib, fs[i], ks[i]) == Ok(os[i]) {
        assert LineDecoded(lib, frames[i + 1], kinds[i + 1]) == Ok(outs[i + 1]);
      }
      assert fs[|os|] == frames[|outs|] && ks[|os|] == kinds[|outs|];
      FirstFailure(lib, fs, ks, os, e);
      ParsedFirst(outs);
    }
  }

  /** Payloads that run out end the delivery; the targets before have been filled. */
  lemma {:induction false} PayloadsRunOut(lib: Library, payloads: seq<string>, kinds: seq<Kind>, outs: seq<Out>)
    requires |payloads| == |outs| < |kinds|
    requires forall i :: 0 <= i < |outs| ==> LineDecoded(lib, FirstLine(payloads[i]), kinds[i]) == Ok(outs[i])
    ensures TemporalDelivery(lib, payloads, kinds) == Delivery(EndOfPayloads, ParsedAll(outs))
  {
    if outs != [] {
      var ps, ks, os := payloads[1..], kinds[1..], outs[1..];
      forall i | 0 <= i < |os| ensures LineDecoded(lib, FirstLine(ps[i]), ks[i]) == Ok(os[i]) {
        assert LineDecoded(lib, FirstLine(payloads[i + 1]), kinds[i + 1]) == Ok(outs[i + 1]);
      }
      PayloadsRunOut(lib, ps, ks, os);
      ParsedFirst(outs);
    }
  }

  /** Every target has a frame it can be filled from. */
  ghost predicate AllFill(lib: Library, frames: seq<string>, kinds: seq<Kind>) {
    |frames| >= |kinds| && forall i :: 0 <= i < |kinds| ==> LineDecoded(lib, frames[i], kinds[i]).Ok?
  }

  lemma AllFillStep(lib: Library, frames: seq<string>, kinds: seq<Kind>)
    requires frames != [] && kinds != []
    ensures AllFill(lib, frames, kinds) <==>
              LineDecoded(lib, frames[0], kinds[0]).Ok? && AllFill(lib, frames[1..], kinds[1..])
  {
    var fs, ks := frames[1..], kinds[1..];
    if LineDecoded(lib, frames[0], kinds[0]).Ok? && AllFill(lib, fs, ks) {
      forall i | 0 <= i < |kinds| ensures LineDecoded(lib, frames[i], kinds[i]).Ok? {
        if i > 0 { assert LineDecoded(lib, fs[i - 1], ks[i - 1]).Ok?; }
      }
    }
  }

  /** The decoder indexes past its targets exactly when there are more frames than targets and every
      target could be filled. */
  lemma {:induction false} PanicsExactly(lib: Library, frames: seq<string>, kinds: seq<Kind>)
    ensures Deliver(lib, frames, kinds).status.IndexPanic? <==> |frames| > |kinds| && AllFill(lib, frames, kinds)
  {
    if frames != [] && kinds != [] {
      PanicsExactly(lib, frames[1..], kinds[1..]);
      AllFillStep(lib, frames, kinds);
    }
  }

  // ------------------------------------------------------------------------
  // Vectors come back
  // ------------------------------------------------------------------------

  /** The nil form that a target of the given kind receives. */
  function NilOf(kind: Kind): Option<Out> {
    match kind
    case KeywordsOut => Some(OutKeywords(None))
    case TupleOut => Some(OutTuple(None))
    case GoBytesOut => Some(OutBytes([]))
    case ValueOut => Some(OutValue(NoneValue))
    case TypedOut(TNone) => Some(OutValue(NoneValue))
    case _ => None
  }

  /** What a value is restored to in a target of a kind that suits it. */
  function Restored(v: GoValue, kind: Kind): Option<Out> {
    match v
    case NilValue => NilOf(kind)
    case Keywords(None) => NilOf(kind)
    case Keywords(Some(ts)) =>
      if kind.KeywordsOut? && forall i :: 0 <= i < |ts| ==> Encodable(Tuple(ts[i]))
      then Some(OutKeywords(Some(NormalTuples(ts)))) else None
    case Bytes(bs) => if kind.BytesOut? || kind.GoBytesOut? then Some(OutBytes(bs)) else None
    case GoBytes(bs) => if kind.BytesOut? || kind.GoBytesOut? then Some(OutBytes(bs)) else None
    case Foreign(id) => if kind.ForeignOut? then Some(OutForeign(id)) else None
    case BytesPtr(_) => None
    case Script(s) =>
      if !Encodable(s) then None
      else if kind.ValueOut? || kind == TypedOut(TagOf(Normal(s))) then Some(OutValue(Normal(s)))
      else if kind.TupleOut? && (s.Tuple? || s.List?) then Some(OutTuple(Some(NormalElements(s.elems))))
      else if s.NoneValue? then NilOf(kind)
      else None
  }

  /** What the Go JSON library promises: a value is one line of text, a byte slice is a base64 string,
      and any other value is read back from its text. */
  ghost predicate GoJson(lib: Library) {
    && OneLine(lib)
    && (forall v: GoValue :: lib.marshal(v).Ok? ==> lib.marshal(v).value != "")
    && (forall bs :: lib.marshal(GoBytes(bs)).Ok? ==> lib.marshal(GoBytes(bs)) == Encoded(Bytes(bs)))
    && (forall id :: lib.marshal(Foreign(id)).Ok? ==>
          lib.unmarshal(lib.marshal(Foreign(id)).value, ForeignOut) == Ok(OutForeign(id)))
  }

  /** Only the values that the script codec refuses depend on the library. */
  ghost predicate Supported(lib: Library, v: GoValue) {
    v.Foreign? || v.GoBytes? ==> GoJson(lib)
  }

  /** The line can be framed, and delivers o to a target of the given kind. */
  ghost predicate Carries(lib: Library, line: string, kind: Kind, o: Out) {
    line != "" && DELIMITER !in line && LineDecoded(lib, line, kind) == Ok(o)
  }

  lemma WireIsALine(v: Value)
    ensures Wire(v) != "" && DELIMITER !in Wire(v)
  {
    J.PrintStart(ToJson(v));
    J.PrintNoControl(ToJson(v));
  }

  lemma NilCarried(lib: Library, kind: Kind, o: Out)
    requires NilOf(kind) == Some(o)
    ensures Carries(lib, "null", kind, o)
  {
    NilRoundTrip();
    J.RoundTrip(J.Null);
  }

  lemma BytesCarried(lib: Library, bs: seq<Base64.byte>, line: string, kind: Kind)
    requires Encoded(Bytes(bs)) == Ok(line) && (kind.BytesOut? || kind.GoBytesOut?)
    ensures Carries(lib, line, kind, OutBytes(bs))
  {
    BytesRoundTrip(bs, line);
    EncodedIsOneLine(Bytes(bs), line);
  }

  lemma KeywordsCarried(lib: Library, ts: seq<seq<Value>>, line: string)
    requires Encoded(Keywords(Some(ts))) == Ok(line)
    ensures Carries(lib, line, KeywordsOut, OutKeywords(Some(NormalTuples(ts))))
  {
    KeywordsRoundTrip(ts, line);
    J.PrintStart(KeywordsJson(ts));
    EncodedIsOneLine(Keywords(Some(ts)), line);
  }

  lemma ScriptCarried(lib: Library, s: Value, kind: Kind, o: Out)
    requires Encodable(s) && Restored(Script(s), kind) == Some(o)
    ensures Carries(lib, Wire(s), kind, o)
  {
    WireIsALine(s);
    DocumentRoundTrip(s);
    ValueOfLine(Wire(s), Normal(s));
    if s.List? || s.Tuple? {
      UnfoldElements(s.elems);
    }
  }

  lemma ForeignCarried(lib: Library, v: GoValue, line: string, kind: Kind, o: Out)
    requires GoJson(lib) && (v.Foreign? || v.GoBytes?) && Line(lib, v) == Ok(line) && Restored(v, kind) == Some(o)
    ensures Carries(lib, line, kind, o)
  {
    assert lib.marshal(v) == Ok(line);
    match v
    case GoBytes(bs) => BytesCarried(lib, bs, line, kind);
    case Foreign(id) => assert Decoded(line, kind) == Err(UnsupportedType);
  }

  /** The line of a value delivers what the value is restored to. */
  lemma ValueCarried(lib: Library, v: GoValue, line: string, kind: Kind, o: Out)
    requires Supported(lib, v) && Line(lib, v) == Ok(line) && Restored(v, kind) == Some(o)
    ensures Carries(lib, line, kind, o)
  {
    match v
    case NilValue => NilCarried(lib, kind, o);
    case Keywords(None) => NilCarried(lib, kind, o);
    case Keywords(Some(ts)) => KeywordsCarried(lib, ts, line);
    case Bytes(bs) => BytesCarried(lib, bs, line, kind);
    case Script(s) => ScriptCarried(lib, s, kind, o);
    case _ => ForeignCarried(lib, v, line, kind, o);
  }

  /** Each value suits its target and is restored to the given output. */
  ghost predicate AllRestored(lib: Library, values: seq<GoValue>, kinds: seq<Kind>, outs: seq<Out>) {
    && |values| == |kinds| == |outs|
    && forall i :: 0 <= i < |values| ==> Supported(lib, values[i]) && Restored(values[i], kinds[i]) == Some(outs[i])
  }

  lemma LinesCarry(lib: Library, values: seq<GoValue>, kinds: seq<Kind>, outs: seq<Out>, lines: seq<string>)
    requires AllRestored(lib, values, kinds, outs) && VectorLines(lib, values) == Ok(lines)
    ensures |lines| == |values| && forall i :: 0 <= i < |lines| ==> Carries(lib, lines[i], kinds[i], outs[i])
    ensures AllLines(lines) && Deliver(lib, lines, kinds) == Delivery(Done, ParsedAll(outs))
  {
    forall i | 0 <= i < |lines| ensures Carries(lib, lines[i], kinds[i], outs[i]) {
      ValueCarried(lib, values[i], lines[i], kinds[i], outs[i]);
    }
    DeliverAll(lib, lines, kinds, outs);
  }

  /** Any vector survives Cadence's framing, with or without the last delimiter: each target that
      suits its value receives what the value is restored to. */
  lemma VectorRoundTrip(lib: Library, values: seq<GoValue>, kinds: seq<Kind>, outs: seq<Out>, data: string)
    requires AllRestored(lib, values, kinds, outs) && CadenceData(lib, values) == Ok(data)
    requires !(|values| == 1 && (values[0].GoBytes? || values[0].Bytes?))
    requires !(|kinds| == 1 && (kinds[0].GoBytesOut? || kinds[0].BytesOut?))
    ensures CadenceDelivery(lib, data, kinds) == Delivery(Done, ParsedAll(outs))
    ensures values != [] ==> data != "" && CadenceDelivery(lib, data[..|data| - 1], kinds) == Delivery(Done, ParsedAll(outs))
  {
    var lines := VectorLines(lib, values).value;
    LinesCarry(lib, values, kinds, outs, lines);
    FramingRoundTrip(lines);
  }

  /** Any vector survives Temporal's payloads in the same way, a single byte string included. */
  lemma PayloadsRoundTrip(lib: Library, values: seq<GoValue>, kinds: seq<Kind>, outs: seq<Out>, payloads: seq<string>)
    requires AllRestored(lib, values, kinds, outs) && TemporalPayloads(lib, values) == Ok(payloads)
    ensures TemporalDelivery(lib, payloads, kinds) == Delivery(Done, ParsedAll(outs))
  {
    var lines := VectorLines(lib, values).value;
    LinesCarry(lib, values, kinds, outs, lines);
    DeliveriesAgree(lib, lines, kinds);
  }

  /** The vector that starts a workflow: archive, file, function, arguments, keyword arguments and
      environment; and the targets it is decoded into. */
  function StartVector(tar: seq<Base64.byte>, file: int, entry: int,
                       args: seq<Value>, kwargs: seq<seq<Value>>, env: map<string, Value>): seq<GoValue> {
    [GoBytes(tar), Foreign(file), Foreign(entry), Script(Tuple(args)), Keywords(Some(kwargs)), Script(Dict(env))]
  }

  const START_KINDS := [GoBytesOut, ForeignOut, ForeignOut, TupleOut, KeywordsOut, TypedOut(TDict)]

  function StartOuts(tar: seq<Base64.byte>, file: int, entry: int,
                     args: seq<Value>, kwargs: seq<seq<Value>>, env: map<string, Value>): seq<Out> {
    [OutBytes(tar), OutForeign(file), OutForeign(entry), OutTuple(Some(NormalElements(args))),
     OutKeywords(Some(NormalTuples(kwargs))), OutValue(Dict(NormalEntries(env)))]
  }

  /** A dictionary target takes every dictionary back but one with a registered codec name: the codec
      refuses to store the revived dataclass in it. */
  lemma DictTarget(m: map<string, Value>)
    ensures Decoded(Wire(Dict(m)), TypedOut(TDict)) ==
              if Revivable(m) then Err(DecodePanic) else Ok(OutValue(Dict(NormalEntries(m))))
  {
    DocumentRoundTrip(Dict(m));
    NormalDict(m);
  }

  lemma DictRestored(m: map<string, Value>)
    requires Encodable(Dict(m)) && !Revivable(m)
    ensures Restored(Script(Dict(m)), TypedOut(TDict)) == Some(OutValue(Dict(NormalEntries(m))))
  {
    NormalDict(m);
  }

  lemma StartRestored(lib: Library, values: seq<GoValue>, outs: seq<Out>)
    requires GoJson(lib) && |values| == 6 == |outs|
    requires forall i :: 0 <= i < 6 ==> Restored(values[i], START_KINDS[i]) == Some(outs[i])
    ensures AllRestored(lib, values, START_KINDS, outs)
  {
  }

  /** All of the vector arrives, unless the environment carries a registered codec name. */
  lemma StartVectorRoundTrip(lib: Library, tar: seq<Base64.byte>, file: int, entry: int,
                             args: seq<Value>, kwargs: seq<seq<Value>>, env: map<string, Value>, data: string)
    requires GoJson(lib) && Encodable(Tuple(args)) && Encodable(Dict(env)) && !Revivable(env)
    requires forall i :: 0 <= i < |kwargs| ==> Encodable(Tuple(kwargs[i]))
    requires CadenceData(lib, StartVector(tar, file, entry, args, kwargs, env)) == Ok(data)
    ensures CadenceDelivery(lib, data, START_KINDS) ==
            Delivery(Done, ParsedAll(StartOuts(tar, file, entry, args, kwargs, env)))
  {
    var values, outs := StartVector(tar, file, entry, args, kwargs, env), StartOuts(tar, file, entry, args, kwargs, env);
    DictRestored(env);
    assert Restored(values[3], TupleOut) == Some(outs[3]);
    assert Restored(values[4], KeywordsOut) == Some(outs[4]);
    StartRestored(lib, values, outs);
    VectorRoundTrip(lib, values, START_KINDS, outs, data);
  }

  function Delivered(r: Result<Out, Error>): Delivery {
    match r case Ok(o) => Delivery(Done, [Parsed(o)]) case Err(e) => Delivery(Failed(e), [])
  }

  lemma OneFrame(lib: Library, line: string, kind: Kind)
    ensures Deliver(lib, [line], [kind]) == Delivered(LineDecoded(lib, line, kind))
  {
    assert [line][1..] == [] && [kind][1..] == [];
    assert Deliver(lib, [], []) == Delivery(Done, []);
    match LineDecoded(lib, line, kind)
    case Ok(o) => assert [Parsed(o)] + [] == [Parsed(o)];
    case Err(_) =>
  }

  /** Whatever the script codec fails with, both decoders deliver the Go library's answer. */
  lemma FallbackDecodes(lib: Library, line: string, kind: Kind)
    requires Decoded(line, kind).Err? && '\n' !in line && line != ""
    ensures !RawTarget([kind]) ==> CadenceDelivery(lib, line + "\n", [kind]) == Delivered(lib.unmarshal(line, kind))
    ensures TemporalDelivery(lib, [line + "\n"], [kind]) == Delivered(lib.unmarshal(line, kind))
  {
    FirstFrame(line, "");
    OnlyFrame("");
    assert line + [DELIMITER] + "" == line + "\n";
    BreakAfter(line, "");
    assert [line][1..] == [] && [kind][1..] == [] && [line + "\n"][1..] == [];
    assert Frames(line + "\n") == [line];
    assert LineDecoded(lib, line, kind) == lib.unmarshal(line, kind);
    OneFrame(lib, line, kind);
  }

  /** Whatever the script codec fails with, both encoders write the Go library's text. */
  lemma FallbackEncodes(lib: Library, v: GoValue)
    requires Encoded(v).Err? && !CadenceRaw([v]) && !TemporalRaw([v])
    ensures match lib.marshal(v)
            case Ok(text) => CadenceData(lib, [v]) == Ok(text + "\n") && TemporalPayloads(lib, [v]) == Ok([text + "\n"])
            case Err(e) => CadenceData(lib, [v]) == Err(e) && TemporalPayloads(lib, [v]) == Err(e)
  {
    OneValue(lib, v);
  }

  lemma OneValue(lib: Library, v: GoValue)
    ensures match Line(lib, v)
            case Ok(text) => VectorLines(lib, [v]) == Ok([text]) && Framed([text]) == text + "\n" && Delimited([text]) == [text + "\n"]
            case Err(e) => VectorLines(lib, [v]) == Err(e)
  {
    assert [v][..0] == [] && VectorLines(lib, []) == Ok([]);
    if Line(lib, v).Ok? {
      var text := Line(lib, v).value;
      assert [] + [text] == [text];
      assert [text][..0] == [] && Framed([]) == "" && "" + text + [DELIMITER] == text + "\n";
    }
  }

  /** One value through ToPayload and FromPayload. */
  lemma PayloadRoundTrip(lib: Library, v: GoValue, kind: Kind, o: Out, line: string)
    requires Supported(lib, v) && Restored(v, kind) == Some(o) && Line(lib, v) == Ok(line)
    ensures LineDecoded(lib, FirstLine(line + [DELIMITER]), kind) == Ok(o)
  {
    ValueCarried(lib, v, line, kind, o);
    BreakAfter(line, "");
    assert line + [DELIMITER] + "" == line + [DELIMITER];
  }

  // ------------------------------------------------------------------------
  // The two backends agree
  // ------------------------------------------------------------------------

  function Concat(pieces: seq<string>): string {
    if pieces == [] then "" else Concat(pieces[..|pieces| - 1]) + pieces[|pieces| - 1]
  }

  lemma {:induction false} FramedIsConcat(lines: seq<string>)
    ensures Framed(lines) == Concat(Delimited(lines))
  {
    if lines != [] {
      var n := |lines| - 1;
      FramedIsConcat(lines[..n]);
      assert Delimited(lines)[..n] == Delimited(lines[..n]);
    }
  }

  /** Outside the raw-bytes shortcuts both encoders fail alike, and Cadence's data is the
      concatenation of the data of Temporal's payloads. */
  lemma EncodersAgree(lib: Library, values: seq<GoValue>)
    requires !CadenceRaw(values) && !TemporalRaw(values)
    ensures match (CadenceData(lib, values), TemporalPayloads(lib, values))
            case (Ok(data), Ok(payloads)) => |payloads| == |values| && data == Concat(payloads)
            case (Err(e), Err(f)) => e == f
            case _ => false
  {
    if VectorLines(lib, values).Ok? {
      FramedIsConcat(VectorLines(lib, values).value);
    }
  }

  lemma {:induction false} DeliveriesAgree(lib: Library, lines: seq<string>, kinds: seq<Kind>)
    requires |lines| == |kinds| && AllLines(lines)
    ensures Deliver(lib, lines, kinds) == TemporalDelivery(lib, Delimited(lines), kinds)
  {
    if lines != [] {
      BreakAfter(lines[0], "");
      assert lines[0] + [DELIMITER] + "" == Delimited(lines)[0];
      assert Delimited(lines)[1..] == Delimited(lines[1..]);
      DeliveriesAgree(lib, lines[1..], kinds[1..]);
    }
  }

  lemma BreakAfter(line: string, rest: string)
    requires DELIMITER !in line
    ensures FirstLine(line + [DELIMITER] + rest) == line
  {
    BreakIs(line, [DELIMITER] + rest);
    assert line + [DELIMITER] + rest == line + ([DELIMITER] + rest);
  }

  lemma {:induction false} BreakIs(line: string, rest: string)
    requires DELIMITER !in line && rest != "" && rest[0] == DELIMITER
    ensures Break(line + rest) == |line|
  {
    if line == "" {
      assert line + rest == rest;
    } else {
      assert (line + rest)[1..] == line[1..] + rest;
      BreakIs(line[1..], rest);
    }
  }

  /** Both decoders deliver the same results to equally many targets. */
  lemma DecodersAgree(lib: Library, values: seq<GoValue>, data: string, payloads: seq<string>, kinds: seq<Kind>)
    requires OneLine(lib) && !CadenceRaw(values) && !TemporalRaw(values) && !RawTarget(kinds) && |kinds| == |values|
    requires CadenceData(lib, values) == Ok(data) && TemporalPayloads(lib, values) == Ok(payloads)
    ensures CadenceDelivery(lib, data, kinds) == TemporalDelivery(lib, payloads, kinds)
  {
    var lines := VectorLines(lib, values).value;
    LinesHaveNoDelimiter(lib, values, lines);
    CadenceFraming(lib, values, data, lines, kinds);
    DeliveriesAgree(lib, lines, kinds);
  }
}
