/** The event-stream parser of src/providers/adapters/kiro.rs. Header names, strings and payloads stay bytes. */
module EventStream {
  import opened Base

  // ----- Headers -----

  datatype HeaderValue = Flag(flag: bool) | Small(small: int) | Text(text: bytes)

  datatype Header = Header(name: bytes, value: HeaderValue)

  type HeaderMap = map<bytes, HeaderValue>

  function SignedByte(b: byte): int { if b < 128 then b else b - 256 }

  function U16(b: bytes, at: nat): nat
    requires at + 2 <= |b|
  {
    b[at] as int * 0x100 + b[at + 1]
  }

  function U32(b: bytes, at: nat): nat
    requires at + 4 <= |b|
  {
    b[at] as int * 0x100_0000 + b[at + 1] as int * 0x1_0000 + b[at + 2] as int * 0x100 + b[at + 3]
  }

  datatype HeaderStep = Stop | Read(header: Header, length: nat)

  /** One turn of the header loop, on the bytes from the cursor on. */
  function ReadHeader(w: bytes): (s: HeaderStep)
    requires w != []
    ensures s.Read? ==> 2 <= s.length <= |w|
  {
    var end: nat := w[0] as int + 1;
    if end >= |w| then Stop
    else
      var name, v := w[1..end], end + 1;
      match w[end]
      case 0 => Read(Header(name, Flag(true)), v)
      case 1 => Read(Header(name, Flag(false)), v)
      case 2 => if v >= |w| then Stop else Read(Header(name, Small(SignedByte(w[v]))), v + 1)
      case 7 =>
        if v + 2 > |w| || v + 2 + U16(w, v) > |w| then Stop
        else Read(Header(name, Text(w[v + 2..v + 2 + U16(w, v)])), v + 2 + U16(w, v))
      case _ => Stop
  }

  function ParseHeaders(w: bytes, m: HeaderMap): HeaderMap
    decreases |w|
  {
    if w == [] then m
    else match ReadHeader(w)
      case Stop => m
      case Read(h, n) => ParseHeaders(w[n..], m[h.name := h.value])
  }

  lemma Shift(raw: bytes, i: nat, a: nat, b: nat)
    requires i <= |raw| && a <= b <= |raw| - i
    ensures raw[i..][a..b] == raw[i + a..i + b]
  {
  }

  /** The body of the header loop: from cursor i, what it reads and where it leaves the cursor. */
  method ReadHeaderAt(raw: bytes, start: nat) returns (s: HeaderStep)
    requires start < |raw|
    ensures s == ReadHeader(raw[start..])
  {
    var i := start;
    var nameLen: nat := raw[i];
    i := i + 1;
    if i + nameLen > |raw| { return Stop; }
    var name := raw[i..i + nameLen];
    Shift(raw, start, 1, 1 + nameLen);
    i := i + nameLen;
    if i >= |raw| { return Stop; }
    var typ := raw[i];
    i := i + 1;
    var value: HeaderValue;
    if typ == 0 || typ == 1 {
      value := Flag(typ == 0);
    } else if typ == 2 {
      if i >= |raw| { return Stop; }
      value := Small(SignedByte(raw[i]));
      i := i + 1;
    } else if typ == 7 {
      if i + 2 > |raw| { return Stop; }
      var len := U16(raw, i);
      i := i + 2;
      if i + len > |raw| { return Stop; }
      value := Text(raw[i..i + len]);
      Shift(raw, start, i - start, i - start + len);
      i := i + len;
    } else {
      return Stop;
    }
    s := Read(Header(name, value), i - start);
  }

  /** The header loop. The cursor never passes the end. */
  method ParseKiroHeaders(raw: bytes) returns (m: HeaderMap)
    ensures m == ParseHeaders(raw, map[])
  {
    m := map[];
    var i := 0;
    ghost var w := raw;
    while i < |raw|
      invariant 0 <= i <= |raw| && w == raw[i..]
      invariant ParseHeaders(w, m) == ParseHeaders(raw, map[])
    {
      var s := ReadHeaderAt(raw, i);
      ParseOne(w, m);
      if s.Stop? { return; }
      m := m[s.header.name := s.header.value];
      i := i + s.length;
      w := w[s.length..];
    }
  }

  lemma ParseOne(w: bytes, m: HeaderMap)
    requires w != []
    ensures
      var s := ReadHeader(w);
      ParseHeaders(w, m) == if s.Read? then ParseHeaders(w[s.length..], m[s.header.name := s.header.value]) else m
  {
  }

  // The wire layout, written from the documented format.

  predicate Encodable(h: Header) {
    && |h.name| < 0x100
    && (h.value.Small? ==> -128 <= h.value.small < 128)
    && (h.value.Text? ==> |h.value.text| < 0x1_0000)
  }

  function EncodeValue(v: HeaderValue): bytes
    requires v.Small? ==> -128 <= v.small < 128
    requires v.Text? ==> |v.text| < 0x1_0000
  {
    match v
    case Flag(flag) => [if flag then 0 else 1]
    case Small(n) => [2, if n < 0 then n + 256 else n]
    case Text(t) => [7, |t| / 0x100, |t| % 0x100] + t
  }

  function EncodeHeader(h: Header): bytes
    requires Encodable(h)
  {
    [|h.name|] + h.name + EncodeValue(h.value)
  }

  ghost predicate AllEncodable(hs: seq<Header>) {
    forall i :: 0 <= i < |hs| ==> Encodable(hs[i])
  }

  function EncodeHeaders(hs: seq<Header>): bytes
    requires AllEncodable(hs)
  {
    if hs == [] then [] else EncodeHeader(hs[0]) + EncodeHeaders(hs[1..])
  }

  /** The map in which every name has its last value. */
  function MapOf(hs: seq<Header>, m: HeaderMap): HeaderMap {
    if hs == [] then m else MapOf(hs[1..], m[hs[0].name := hs[0].value])
  }

  /** Where the parts of an encoded header lie. */
  lemma HeaderLayout(w: bytes, name: bytes, v: bytes, tail: bytes)
    requires |name| < 256 && w == [|name| as byte] + name + v + tail
    ensures |w| == 1 + |name| + |v| + |tail| && w[0] == |name| && w[1..1 + |name|] == name
    ensures forall j :: 0 <= j < |v| ==> w[1 + |name| + j] == v[j]
    ensures w[1 + |name|..1 + |name| + |v|] == v
  {
  }

  lemma ReadText(w: bytes, name: bytes, t: bytes, tail: bytes)
    requires |name| < 256 && |t| < 0x1_0000
    requires w == [|name| as byte] + name + ([7 as byte, |t| / 0x100, |t| % 0x100] + t) + tail
    ensures ReadHeader(w) == Read(Header(name, Text(t)), 4 + |name| + |t|)
  {
    var n, v := |name|, [7 as byte, |t| / 0x100, |t| % 0x100] + t;
    HeaderLayout(w, name, v, tail);
    assert w[1 + n] == v[0] && w[1 + n + 1] == v[1] && w[1 + n + 2] == v[2];
    assert U16(w, 2 + n) == |t|;
    TextLies(w, 1 + n, v, t);
  }

  lemma TextLies(w: bytes, at: nat, v: bytes, t: bytes)
    requires |v| == 3 + |t| && v[3..] == t && at + |v| <= |w| && w[at..at + |v|] == v
    ensures w[at + 3..at + 3 + |t|] == t
  {
    assert w[at + 3..at + 3 + |t|] == w[at..at + |v|][3..];
  }

  lemma ReadFlag(w: bytes, name: bytes, flag: bool, tail: bytes)
    requires |name| < 256 && w == [|name| as byte] + name + [if flag then 0 else 1 as byte] + tail
    ensures ReadHeader(w) == Read(Header(name, Flag(flag)), 2 + |name|)
  {
    HeaderLayout(w, name, [if flag then 0 else 1 as byte], tail);
    assert w[1 + |name| + 0] == if flag then 0 else 1;
  }

  lemma ReadSmall(w: bytes, name: bytes, small: int, tail: bytes)
    requires |name| < 256 && -128 <= small < 128
    requires w == [|name| as byte] + name + [2 as byte, if small < 0 then small + 256 else small] + tail
    ensures ReadHeader(w) == Read(Header(name, Small(small)), 3 + |name|)
  {
    var v: bytes := [2, if small < 0 then small + 256 else small];
    HeaderLayout(w, name, v, tail);
    assert w[1 + |name| + 0] == v[0] && w[1 + |name| + 1] == v[1];
  }

  lemma ReadEncodedValue(w: bytes, h: Header, tail: bytes)
    requires Encodable(h)
    requires w == [|h.name| as byte] + h.name + EncodeValue(h.value) + tail
    ensures ReadHeader(w) == Read(h, 1 + |h.name| + |EncodeValue(h.value)|)
  {
    match h.value
    case Flag(flag) => ReadFlag(w, h.name, flag, tail);
    case Small(small) => ReadSmall(w, h.name, small, tail);
    case Text(t) => ReadText(w, h.name, t, tail);
  }

  lemma ReadEncoded(h: Header, tail: bytes)
    requires Encodable(h)
    ensures ReadHeader(EncodeHeader(h) + tail) == Read(h, |EncodeHeader(h)|)
  {
    ReadEncodedValue(EncodeHeader(h) + tail, h, tail);
  }

  ghost predicate NoHeader(rest: bytes) {
    rest == [] || ReadHeader(rest).Stop?
  }

  /** Parsing undoes encoding: every encodable header list comes back as its map, whatever unreadable bytes follow. */
  lemma {:induction false} HeadersRoundTrip(hs: seq<Header>, rest: bytes, m: HeaderMap)
    requires AllEncodable(hs) && NoHeader(rest)
    ensures ParseHeaders(EncodeHeaders(hs) + rest, m) == MapOf(hs, m)
    decreases |hs|
  {
    if hs == [] {
      assert EncodeHeaders(hs) + rest == rest;
    } else {
      var e, tail := EncodeHeader(hs[0]), EncodeHeaders(hs[1..]) + rest;
      Assoc(e, EncodeHeaders(hs[1..]), rest);
      ReadEncoded(hs[0], tail);
      ParseOne(e + tail, m);
      assert (e + tail)[|e|..] == tail;
      HeadersRoundTrip(hs[1..], rest, m[hs[0].name := hs[0].value]);
    }
  }

  lemma EncodeRead(w: bytes)
    requires w != [] && ReadHeader(w).Read?
    ensures
      var Read(h, n) := ReadHeader(w);
      Encodable(h) && EncodeHeader(h) == w[..n]
  {
    var Read(h, n) := ReadHeader(w);
    var end: nat := w[0] as int + 1;
    assert w[..n] == [w[0]] + w[1..end] + w[end..n];
    match h.value
    case Flag(_) => assert w[end..n] == [w[end]];
    case Small(_) => assert w[end..n] == [w[end], w[end + 1]];
    case Text(t) =>
      assert w[end..n] == [w[end], w[end + 1], w[end + 2]] + w[end + 3..n];
      assert |t| / 0x100 == w[end + 1] && |t| % 0x100 == w[end + 2];
  }

  lemma EncodeCons(h: Header, tail: seq<Header>, rest: bytes)
    requires Encodable(h) && AllEncodable(tail)
    ensures AllEncodable([h] + tail)
    ensures EncodeHeaders([h] + tail) + rest == EncodeHeader(h) + (EncodeHeaders(tail) + rest)
  {
  }

  lemma {:induction false} ReadableHeaders(w: bytes) returns (hs: seq<Header>, rest: bytes)
    ensures AllEncodable(hs) && EncodeHeaders(hs) + rest == w && NoHeader(rest)
    decreases |w|
  {
    hs, rest := [], w;
    if !NoHeader(w) {
      var Read(h, n) := ReadHeader(w);
      EncodeRead(w);
      var tail;
      tail, rest := ReadableHeaders(w[n..]);
      hs := [h] + tail;
      EncodeCons(h, tail, rest);
      CutJoins(w, n);
    }
  }

  /** On any bytes at all, the parser reads exactly the longest run of well-formed headers and ignores the rest. */
  lemma HeadersLongestPrefix(w: bytes, m: HeaderMap) returns (hs: seq<Header>, rest: bytes)
    ensures AllEncodable(hs) && EncodeHeaders(hs) + rest == w && NoHeader(rest)
    ensures ParseHeaders(w, m) == MapOf(hs, m)
  {
    hs, rest := ReadableHeaders(w);
    HeadersRoundTrip(hs, rest, m);
  }

  // ----- Frames -----

  datatype KiroEvent = KiroEvent(eventType: Option<bytes>, messageType: Option<bytes>, payload: bytes)

  const EVENT_TYPE: bytes := Ascii(":event-type")
  const MESSAGE_TYPE: bytes := Ascii(":message-type")

  function TextOf(m: HeaderMap, name: bytes): Option<bytes> {
    if name in m && m[name].Text? then Some(m[name].text) else None
  }

  /** The length test of the loop: the frame is complete and its headers leave room for the prelude. */
  predicate Complete(buf: bytes) {
    && 12 <= |buf|
    && 16 <= U32(buf, 0) <= |buf|
    && U32(buf, 4) + 12 <= U32(buf, 0)
  }

  /** The room that the slices below the test need: the trailing checksum too. */
  predicate Roomy(buf: bytes)
    requires 12 <= |buf|
  {
    U32(buf, 4) + 16 <= U32(buf, 0)
  }

  /** A whole frame that leaves room for its checksum. */
  predicate WellFormed(frame: bytes) {
    Complete(frame) && Roomy(frame) && U32(frame, 0) == |frame|
  }

  /** A frame's own bytes, and the two parts that matter. */
  datatype Frame = Frame(raw: bytes, headers: bytes, payload: bytes)

  function FrameOf(raw: bytes): Frame
    requires WellFormed(raw)
  {
    Frame(raw, raw[12..12 + U32(raw, 4)], raw[12 + U32(raw, 4)..|raw| - 4])
  }

  /** What a frame means. */
  function Decode(f: Frame): KiroEvent {
    var m := ParseHeaders(f.headers, map[]);
    KiroEvent(TextOf(m, EVENT_TYPE), TextOf(m, MESSAGE_TYPE), f.payload)
  }

  function Decoded(frames: seq<Frame>): (events: seq<KiroEvent>)
    ensures |events| == |frames|
  {
    seq(|frames|, i requires 0 <= i < |frames| => Decode(frames[i]))
  }

  function Raw(frames: seq<Frame>): bytes {
    if frames == [] then [] else frames[0].raw + Raw(frames[1..])
  }

  datatype Step = Wait | Panic | Take(frame: Frame)

  /** One turn of the frame loop. `Panic` is a slice whose start lies beyond its end. */
  function Next(buf: bytes): (s: Step)
    ensures s.Take? ==> s.frame.raw <= buf && 16 <= |s.frame.raw|
  {
    if !Complete(buf) then Wait
    else if !Roomy(buf) then Panic
    else
      var total, headers := U32(buf, 0), U32(buf, 4);
      Take(Frame(buf[..total], buf[12..12 + headers], buf[12 + headers..total - 4]))
  }

  /** The frames taken, the bytes left in the buffer, and whether the parser panicked at those bytes. */
  datatype Drained = Drained(frames: seq<Frame>, rest: bytes, panicked: bool) {
    function After(earlier: seq<Frame>): Drained {
      Drained(earlier + frames, rest, panicked)
    }
  }

  function Drain(buf: bytes): Drained
    decreases |buf|
  {
    match Next(buf)
    case Wait => Drained([], buf, false)
    case Panic => Drained([], buf, true)
    case Take(frame) => Drain(buf[|frame.raw|..]).After([frame])
  }

  lemma AfterNothing(d: Drained)
    ensures d.After([]) == d
  {
  }

  lemma AfterTwice(d: Drained, a: seq<Frame>, b: seq<Frame>)
    ensures d.After(b).After(a) == d.After(a + b)
  {
  }

  class FrameBuffer {
    var buf: bytes

    constructor ()
      ensures buf == []
    {
      buf := [];
    }

    method ExtendFromSlice(chunk: bytes)
      modifies this
      ensures buf == old(buf) + chunk
    {
      buf := buf + chunk;
    }

    /** The body of the frame loop, up to the slices that may panic. */
    method NextFrame() returns (s: Step)
      ensures s == Next(buf)
    {
      if |buf| < 12 { return Wait; }
      var totalLen := U32(buf, 0);
      var headersLen := U32(buf, 4);
      if totalLen < 16 || headersLen + 12 > totalLen || |buf| < totalLen { return Wait; }
      var payloadStart, payloadEnd := 12 + headersLen, totalLen - 4;
      if payloadStart > payloadEnd { return Panic; }
      s := Take(Frame(buf[..totalLen], buf[12..12 + headersLen], buf[payloadStart..payloadEnd]));
    }

    method ParseKiroEvents() returns (events: seq<KiroEvent>, panicked: bool)
      modifies this
      ensures
        var d := Drain(old(buf));
        events == Decoded(d.frames) && buf == d.rest && panicked == d.panicked
    {
      events := [];
      ghost var frames: seq<Frame>, whole := [], Drain(buf);
      AfterNothing(whole);
      var s := NextFrame();
      while s.Take?
        invariant s == Next(buf) && Drain(buf).After(frames) == whole && events == Decoded(frames)
        decreases |buf|
      {
        var headers := ParseKiroHeaders(s.frame.headers);
        events := events + [KiroEvent(TextOf(headers, EVENT_TYPE), TextOf(headers, MESSAGE_TYPE), s.frame.payload)];
        TakeOne(buf, frames);
        frames := frames + [s.frame];
        buf := buf[|s.frame.raw|..];
        s := NextFrame();
      }
      AfterStop(frames, buf);
      panicked := s.Panic?;
    }
  }

  /** A buffer with the history of its stream: what arrived, and the frames taken from it. */
  class StreamReader {
    var buffer: FrameBuffer
    ghost var arrived: bytes
    ghost var taken: seq<Frame>

    ghost predicate Valid()
      reads this, buffer
    {
      Drain(arrived) == Drained(taken, buffer.buf, false)
    }

    constructor ()
      ensures Valid() && arrived == [] && taken == [] && fresh(buffer)
    {
      buffer := new FrameBuffer();
      arrived, taken := [], [];
    }

    /** The two steps that every arriving chunk takes. */
    method Receive(chunk: bytes) returns (events: seq<KiroEvent>, panicked: bool)
      requires Valid()
      modifies this, buffer
      ensures buffer == old(buffer) && arrived == old(arrived) + chunk
      ensures panicked == Drain(arrived).panicked && (!panicked ==> Valid())
      ensures taken == Drain(arrived).frames && old(taken) <= taken
      ensures Decoded(taken) == Decoded(old(taken)) + events
    {
      ghost var now := Drain(buffer.buf + chunk);
      DrainAppend(arrived, chunk);
      buffer.ExtendFromSlice(chunk);
      events, panicked := buffer.ParseKiroEvents();
      DecodedAppend(taken, now.frames);
      arrived, taken := arrived + chunk, taken + now.frames;
    }
  }

  lemma DecodedAppend(a: seq<Frame>, b: seq<Frame>)
    ensures Decoded(a + b) == Decoded(a) + Decoded(b)
  {
  }

  lemma AfterStop(earlier: seq<Frame>, buf: bytes)
    requires !Next(buf).Take?
    ensures Drain(buf).After(earlier) == Drained(earlier, buf, Next(buf).Panic?)
  {
  }

  lemma TakeOne(buf: bytes, frames: seq<Frame>)
    requires Next(buf).Take?
    ensures
      var f := Next(buf).frame;
      && Drain(buf).After(frames) == Drain(buf[|f.raw|..]).After(frames + [f])
      && Decoded(frames + [f]) == Decoded(frames) + [Decode(f)]
  {
    AfterTwice(Drain(buf[|Next(buf).frame.raw|..]), frames, [Next(buf).frame]);
  }

  // ----- Chunking -----

  lemma NextStable(buf: bytes, more: bytes)
    requires Next(buf) != Wait
    ensures Next(buf + more) == Next(buf)
  {
  }

  /** What a later arrival makes of a drained buffer. */
  function Resume(d: Drained, more: bytes): Drained {
    if d.panicked then d.(rest := d.rest + more) else Drain(d.rest + more).After(d.frames)
  }

  lemma ResumeAfter(d: Drained, earlier: seq<Frame>, more: bytes)
    ensures Resume(d.After(earlier), more) == Resume(d, more).After(earlier)
  {
  }

  /** Parsing what is there and then what comes is parsing it all at once. */
  lemma {:induction false} DrainAppend(buf: bytes, more: bytes)
    ensures Drain(buf + more) == Resume(Drain(buf), more)
    decreases |buf|
  {
    var step := Next(buf);
    if step == Wait {
      AfterNothing(Drain(buf + more));
    } else {
      NextStable(buf, more);
      if step.Take? {
        var n := |step.frame.raw|;
        assert (buf + more)[n..] == buf[n..] + more;
        DrainAppend(buf[n..], more);
        ResumeAfter(Drain(buf[n..]), [step.frame], more);
      }
    }
  }

  /** Each chunk is appended and the buffer drained; after a panic nothing more is taken. */
  function Feed(d: Drained, chunks: seq<bytes>): Drained
    decreases |chunks|
  {
    if chunks == [] then d else Feed(Resume(d, chunks[0]), chunks[1..])
  }

  const START := Drained([], [], false)

  lemma {:induction false} FeedIsDrain(seen: bytes, chunks: seq<bytes>)
    ensures Feed(Drain(seen), chunks) == Drain(seen + Flatten(chunks))
    decreases |chunks|
  {
    if chunks == [] {
      assert seen + Flatten(chunks) == seen;
    } else {
      DrainAppend(seen, chunks[0]);
      FeedIsDrain(seen + chunks[0], chunks[1..]);
      Assoc(seen, chunks[0], Flatten(chunks[1..]));
    }
  }

  /** The network's chunking does not show: on any bytes, well-formed or not, cut in any way, the same frames are
      decoded, the same bytes are left, and the parser panics on the same streams. */
  lemma ChunkInvariance(chunks: seq<bytes>)
    ensures Feed(START, chunks) == Drain(Flatten(chunks))
  {
    FeedIsDrain([], chunks);
    assert [] + Flatten(chunks) == Flatten(chunks);
  }

  /** What was taken stays taken, and a panic stays a panic, whatever comes later. */
  lemma DrainMonotone(buf: bytes, more: bytes)
    ensures Drain(buf).panicked ==> Drain(buf + more).panicked
    ensures Drain(buf).frames <= Drain(buf + more).frames
  {
    DrainAppend(buf, more);
  }

  // ----- What is consumed, and when the parser panics -----

  ghost predicate StartsWithFrame(buf: bytes) {
    exists n :: 0 <= n <= |buf| && WellFormed(buf[..n])
  }

  lemma DrainStops(buf: bytes)
    ensures !StartsWithFrame(Drain(buf).rest)
    ensures Drain(buf).panicked <==> Complete(Drain(buf).rest) && !Roomy(Drain(buf).rest)
    decreases |buf|
  {
  }

  lemma {:induction false} DrainConserves(buf: bytes)
    ensures Raw(Drain(buf).frames) + Drain(buf).rest == buf
    decreases |buf|
  {
    if Next(buf).Take? {
      var f := Next(buf).frame;
      DrainConserves(buf[|f.raw|..]);
      RawCons(f, Drain(buf[|f.raw|..]).frames, Drain(buf[|f.raw|..]).rest);
      assert f.raw + buf[|f.raw|..] == buf;
    }
  }

  /** What a taken frame is: a whole frame with room for its checksum, cut into its own parts. */
  ghost predicate Whole(f: Frame) {
    WellFormed(f.raw) && f == FrameOf(f.raw)
  }

  lemma TakenIsWhole(buf: bytes)
    requires Next(buf).Take?
    ensures Whole(Next(buf).frame)
  {
    var f, total := Next(buf).frame, U32(buf, 0);
    assert f.raw == buf[..total];
    assert U32(f.raw, 0) == U32(buf, 0) && U32(f.raw, 4) == U32(buf, 4);
  }

  lemma {:induction false} TakenAreWhole(buf: bytes)
    ensures forall f <- Drain(buf).frames :: Whole(f)
    decreases |buf|
  {
    if Next(buf).Take? {
      TakenIsWhole(buf);
      TakenAreWhole(buf[|Next(buf).frame.raw|..]);
    }
  }

  /** Every stream is whole frames that are taken, then a rest that starts with none. */
  lemma Consumption(buf: bytes)
    ensures Raw(Drain(buf).frames) + Drain(buf).rest == buf
    ensures forall f <- Drain(buf).frames :: Whole(f) && |f.raw| >= 16
    ensures !StartsWithFrame(Drain(buf).rest)
  {
    DrainConserves(buf);
    DrainStops(buf);
    TakenAreWhole(buf);
  }

  function RawsOf(frames: seq<Frame>): (raws: seq<bytes>)
    ensures |raws| == |frames|
  {
    seq(|frames|, i requires 0 <= i < |frames| => frames[i].raw)
  }

  lemma {:induction false} RawIsFlat(frames: seq<Frame>)
    ensures Flatten(RawsOf(frames)) == Raw(frames)
  {
    if frames != [] {
      RawIsFlat(frames[1..]);
      assert RawsOf(frames)[1..] == RawsOf(frames[1..]);
    }
  }

  /** The stream is whole frames, and then a complete one whose headers reach into its last four bytes. */
  ghost predicate Overlaps(buf: bytes, raws: seq<bytes>, rest: bytes) {
    && (forall i :: 0 <= i < |raws| ==> WellFormed(raws[i]))
    && Flatten(raws) + rest == buf && Complete(rest) && !Roomy(rest)
  }

  /** The parser panics on exactly the streams that have that form, and takes the whole frames before it does. */
  lemma PanicsExactly(buf: bytes)
    ensures Drain(buf).panicked <==> exists raws, rest :: Overlaps(buf, raws, rest)
    ensures forall raws, rest :: Overlaps(buf, raws, rest) ==> Drain(buf) == Drained(FramesOf(raws), rest, true)
  {
    forall raws, rest | Overlaps(buf, raws, rest)
      ensures Drain(buf) == Drained(FramesOf(raws), rest, true)
    {
      FramesComeOut(raws, rest);
    }
    if Drain(buf).panicked {
      Consumption(buf);
      DrainStops(buf);
      RawIsFlat(Drain(buf).frames);
      var raws := RawsOf(Drain(buf).frames);
      forall i | 0 <= i < |raws|
        ensures WellFormed(raws[i])
      {
        assert Drain(buf).frames[i] in Drain(buf).frames;
      }
      assert Overlaps(buf, raws, Drain(buf).rest);
    }
  }

  lemma RawCons(first: Frame, tail: seq<Frame>, rest: bytes)
    ensures Raw([first] + tail) + rest == first.raw + (Raw(tail) + rest)
  {
  }

  /** The frames whose raw bytes these are. */
  function FramesOf(raws: seq<bytes>): (frames: seq<Frame>)
    requires forall i :: 0 <= i < |raws| ==> WellFormed(raws[i])
    ensures |frames| == |raws|
  {
    if raws == [] then [] else [FrameOf(raws[0])] + FramesOf(raws[1..])
  }

  /** That decomposition is the only one: whole frames come out as sent before anything else that is not one, whether
      the rest is unfinished, and waits, or complete and too tight, and panics. */
  lemma {:induction false} FramesComeOut(raws: seq<bytes>, rest: bytes)
    requires forall i :: 0 <= i < |raws| ==> WellFormed(raws[i])
    requires !(Complete(rest) && Roomy(rest))
    ensures Drain(Flatten(raws) + rest) == Drained(FramesOf(raws), rest, Complete(rest))
    decreases |raws|
  {
    if raws == [] {
      assert Flatten(raws) + rest == rest;
    } else {
      var f, tail := raws[0], Flatten(raws[1..]) + rest;
      assert Flatten(raws) + rest == f + tail;
      assert Next(f) == Take(FrameOf(f)) by { assert f[..|f|] == f; }
      NextStable(f, tail);
      assert (f + tail)[|f|..] == tail;
      FramesComeOut(raws[1..], rest);
    }
  }

  /** The guard alone is not enough: sixteen bytes that announce one header byte pass it, and panic. */
  lemma GuardTooWeak()
    ensures
      var buf := [0, 0, 0, 16, 0, 0, 0, 1, 0, 0, 0, 0, 0, 0, 0, 0];
      Complete(buf) && Drain(buf) == Drained([], buf, true)
  {
  }

  // ----- Round trip of frames -----

  function U32Bytes(n: nat): bytes
    requires n < 0x1_0000_0000
  {
    [n / 0x100_0000, n / 0x1_0000 % 0x100, n / 0x100 % 0x100, n % 0x100]
  }

  lemma U32RoundTrip(n: nat)
    requires n < 0x1_0000_0000
    ensures U32(U32Bytes(n), 0) == n
  {
    assert n / 0x1_0000 == n / 0x100_0000 * 0x100 + n / 0x1_0000 % 0x100;
    assert n / 0x100 == n / 0x1_0000 * 0x100 + n / 0x100 % 0x100;
  }

  /** A message to send: its headers and payload, and whatever the two checksums are. */
  datatype Message = Message(preludeCrc: bytes, headers: seq<Header>, payload: bytes, messageCrc: bytes)

  ghost predicate Sendable(f: Message) {
    && |f.preludeCrc| == 4 && |f.messageCrc| == 4 && AllEncodable(f.headers)
    && 16 + |EncodeHeaders(f.headers)| + |f.payload| < 0x1_0000_0000
  }

  ghost function EncodeMessage(f: Message): bytes
    requires Sendable(f)
  {
    var hs := EncodeHeaders(f.headers);
    U32Bytes(16 + |hs| + |f.payload|) + U32Bytes(|hs|) + f.preludeCrc + hs + f.payload + f.messageCrc
  }

  /** The last value that the headers give a name. */
  function LastNamed(hs: seq<Header>, name: bytes): Option<HeaderValue> {
    if hs == [] then None
    else if hs[|hs| - 1].name == name then Some(hs[|hs| - 1].value)
    else LastNamed(hs[..|hs| - 1], name)
  }

  function LastText(hs: seq<Header>, name: bytes): Option<bytes> {
    match LastNamed(hs, name)
    case Some(Text(t)) => Some(t)
    case _ => None
  }

  function EventOf(f: Message): KiroEvent {
    KiroEvent(LastText(f.headers, EVENT_TYPE), LastText(f.headers, MESSAGE_TYPE), f.payload)
  }

  lemma {:induction false} MapOfSnoc(hs: seq<Header>, h: Header, m: HeaderMap)
    ensures MapOf(hs + [h], m) == MapOf(hs, m)[h.name := h.value]
    decreases |hs|
  {
    if hs == [] {
      assert (hs + [h])[1..] == [];
    } else {
      MapOfSnoc(hs[1..], h, m[hs[0].name := hs[0].value]);
      assert (hs + [h])[1..] == hs[1..] + [h];
    }
  }

  lemma {:induction false} MapOfLast(hs: seq<Header>, name: bytes)
    ensures LastNamed(hs, name) == if name in MapOf(hs, map[]) then Some(MapOf(hs, map[])[name]) else None
    decreases |hs|
  {
    if hs != [] {
      var n := |hs| - 1;
      MapOfLast(hs[..n], name);
      MapOfSnoc(hs[..n], hs[n], map[]);
      assert hs[..n] + [hs[n]] == hs;
    }
  }

  lemma U32At(b: bytes, at: nat, n: nat)
    requires n < 0x1_0000_0000 && OccursAt(b, U32Bytes(n), at)
    ensures U32(b, at) == n
  {
    U32RoundTrip(n);
    var w := b[at..at + 4];
    assert w[0] == b[at] && w[1] == b[at + 1] && w[2] == b[at + 2] && w[3] == b[at + 3];
  }

  lemma Layout(a: bytes, b: bytes, crc: bytes, hs: bytes, payload: bytes, end: bytes)
    requires |a| == |b| == |crc| == |end| == 4
    ensures
      var e := a + b + crc + hs + payload + end;
      && OccursAt(e, a, 0) && OccursAt(e, b, 4)
      && e[12..12 + |hs|] == hs && e[12 + |hs|..|e| - 4] == payload
  {
  }

  lemma MessageLayout(f: Message)
    requires Sendable(f)
    ensures
      var hs, e := EncodeHeaders(f.headers), EncodeMessage(f);
      && |e| == U32(e, 0) == 16 + |hs| + |f.payload| && U32(e, 4) == |hs|
      && e[12..12 + |hs|] == hs && e[12 + |hs|..|e| - 4] == f.payload
  {
    var hs, e := EncodeHeaders(f.headers), EncodeMessage(f);
    var total := 16 + |hs| + |f.payload|;
    Layout(U32Bytes(total), U32Bytes(|hs|), f.preludeCrc, hs, f.payload, f.messageCrc);
    U32At(e, 0, total);
    U32At(e, 4, |hs|);
  }

  lemma HeadersDecode(hs: seq<Header>)
    requires AllEncodable(hs)
    ensures ParseHeaders(EncodeHeaders(hs), map[]) == MapOf(hs, map[])
  {
    HeadersRoundTrip(hs, [], map[]);
    assert EncodeHeaders(hs) + [] == EncodeHeaders(hs);
  }

  lemma EventOfHeaders(f: Message, frame: Frame)
    requires AllEncodable(f.headers)
    requires frame.headers == EncodeHeaders(f.headers) && frame.payload == f.payload
    ensures Decode(frame) == EventOf(f)
  {
    HeadersDecode(f.headers);
    MapOfLast(f.headers, EVENT_TYPE);
    MapOfLast(f.headers, MESSAGE_TYPE);
  }

  lemma MessageDecodes(f: Message)
    requires Sendable(f)
    ensures WellFormed(EncodeMessage(f)) && Decode(FrameOf(EncodeMessage(f))) == EventOf(f)
  {
    MessageLayout(f);
    DecodesTo(EncodeMessage(f), EncodeHeaders(f.headers), f.payload);
    EventOfHeaders(f, FrameOf(EncodeMessage(f)));
  }

  lemma DecodesTo(raw: bytes, headers: bytes, payload: bytes)
    requires |raw| == 16 + |headers| + |payload|
    requires U32(raw, 0) == |raw| && U32(raw, 4) == |headers|
    requires raw[12..12 + |headers|] == headers && raw[12 + |headers|..|raw| - 4] == payload
    ensures WellFormed(raw) && FrameOf(raw) == Frame(raw, headers, payload)
  {
  }

  ghost function Encoded(fs: seq<Message>): seq<bytes>
    requires forall i :: 0 <= i < |fs| ==> Sendable(fs[i])
  {
    if fs == [] then [] else [EncodeMessage(fs[0])] + Encoded(fs[1..])
  }

  function Events(fs: seq<Message>): seq<KiroEvent> {
    if fs == [] then [] else [EventOf(fs[0])] + Events(fs[1..])
  }

  lemma DecodedCons(f: Frame, tail: seq<Frame>)
    ensures Decoded([f] + tail) == [Decode(f)] + Decoded(tail)
  {
  }

  lemma {:induction false} EncodedDecodes(fs: seq<Message>)
    requires forall i :: 0 <= i < |fs| ==> Sendable(fs[i])
    ensures
      var raws := Encoded(fs);
      && (forall i :: 0 <= i < |raws| ==> WellFormed(raws[i]))
      && Decoded(FramesOf(raws)) == Events(fs)
    decreases |fs|
  {
    if fs != [] {
      var first, tail := EncodeMessage(fs[0]), Encoded(fs[1..]);
      MessageDecodes(fs[0]);
      EncodedDecodes(fs[1..]);
      assert ([first] + tail)[1..] == tail;
      DecodedCons(FrameOf(first), FramesOf(tail));
    }
  }

  /** Parsing the concatenated encodings of any messages, cut into any chunks, gives back their events, in order,
      and leaves an empty buffer. */
  lemma MessagesRoundTrip(fs: seq<Message>, chunks: seq<bytes>)
    requires forall i :: 0 <= i < |fs| ==> Sendable(fs[i])
    requires Flatten(chunks) == Flatten(Encoded(fs))
    ensures
      var d := Feed(START, chunks);
      Decoded(d.frames) == Events(fs) && d.rest == [] && !d.panicked
  {
    EncodedDecodes(fs);
    FramesComeOut(Encoded(fs), []);
    assert Flatten(chunks) + [] == Flatten(chunks);
    ChunkInvariance(chunks);
  }

  /**
   * A frame that announces fewer than sixteen bytes, or headers that its length has no room for, is never taken:
   * whatever arrives after it, no further frame comes out and all of it stays in the buffer.
   */
  lemma BadLengthBlocks(buf: bytes, more: bytes)
    requires |buf| >= 8 && (U32(buf, 0) < 16 || U32(buf, 4) + 12 > U32(buf, 0))
    ensures Drain(buf + more) == Drained([], buf + more, false)
  {
    SamePrelude(buf, more);
  }

  lemma SamePrelude(buf: bytes, more: bytes)
    requires |buf| >= 8
    ensures U32(buf + more, 0) == U32(buf, 0) && U32(buf + more, 4) == U32(buf, 4)
  {
  }
}
