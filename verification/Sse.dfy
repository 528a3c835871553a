/** The event splitter that the OpenAI, Anthropic, Google, Responses and generic adapters share: section 9.2 of the
    WHATWG HTML standard, with LF as the only line end that separates events. */
module Sse {
  import opened Base

  const LF: byte := 10
  const CR: byte := 13

  predicate BoundaryAt(buf: bytes, i: nat) {
    i + 2 <= |buf| && buf[i] == LF && buf[i + 1] == LF
  }

  /** The position of the first pair of line feeds. */
  method FindSseBoundary(buf: bytes) returns (pos: Option<nat>)
    ensures pos == Boundary(buf)
  {
    var i := 0;
    while i + 2 <= |buf|
      invariant forall k :: 0 <= k < i ==> !BoundaryAt(buf, k)
    {
      if BoundaryAt(buf, i) {
        BoundaryIs(buf, i);
        return Some(i);
      }
      i := i + 1;
    }
    NoBoundaryIs(buf);
    pos := None;
  }

  function Boundary(buf: bytes): (pos: Option<nat>)
    ensures pos.Some? ==> BoundaryAt(buf, pos.value)
  {
    if |buf| < 2 then None
    else if BoundaryAt(buf, 0) then Some(0)
    else match Boundary(buf[1..])
      case None => None
      case Some(p) => Some(p + 1)
  }

  lemma {:induction false} BoundaryIs(buf: bytes, p: nat)
    requires BoundaryAt(buf, p) && forall k :: 0 <= k < p ==> !BoundaryAt(buf, k)
    ensures Boundary(buf) == Some(p)
    decreases p
  {
    if p > 0 {
      assert !BoundaryAt(buf, 0);
      forall k | 0 <= k < p - 1
        ensures !BoundaryAt(buf[1..], k)
      {
        assert !BoundaryAt(buf, k + 1);
      }
      BoundaryIs(buf[1..], p - 1);
    }
  }

  lemma {:induction false} NoBoundaryIs(buf: bytes)
    requires forall k :: 0 <= k < |buf| ==> !BoundaryAt(buf, k)
    ensures Boundary(buf) == None
    decreases |buf|
  {
  }

  lemma {:induction false} BoundaryIsFirst(buf: bytes, k: nat)
    requires BoundaryAt(buf, k)
    ensures Boundary(buf).Some? && Boundary(buf).value <= k
    decreases k
  {
    if k > 0 && !BoundaryAt(buf, 0) {
      assert BoundaryAt(buf[1..], k - 1);
      BoundaryIsFirst(buf[1..], k - 1);
    }
  }

  datatype Parts = Parts(events: seq<bytes>, tail: bytes) {
    function After(earlier: seq<bytes>): Parts {
      Parts(earlier + events, tail)
    }
  }

  function Split(buf: bytes): Parts
    decreases |buf|
  {
    match Boundary(buf)
    case None => Parts([], buf)
    case Some(p) => Split(buf[p + 2..]).After([buf[..p]])
  }

  lemma AfterNothing(d: Parts)
    ensures d.After([]) == d
  {
  }

  lemma AfterTwice(d: Parts, a: seq<bytes>, b: seq<bytes>)
    ensures d.After(b).After(a) == d.After(a + b)
  {
  }

  class SseBuffer {
    var buf: bytes

    constructor ()
      ensures buf == []
    {
      buf := [];
    }

    /** One arriving chunk: it is appended, and every whole event is drained with its delimiter. */
    method Receive(chunk: bytes) returns (events: seq<bytes>)
      modifies this
      ensures Parts(events, buf) == Split(old(buf) + chunk)
    {
      buf := buf + chunk;
      events := [];
      ghost var whole := Split(buf);
      AfterNothing(whole);
      var pos := FindSseBoundary(buf);
      while pos.Some?
        invariant pos == Boundary(buf) && Split(buf).After(events) == whole
        decreases |buf|
      {
        var raw := buf[..pos.value];
        AfterTwice(Split(buf[pos.value + 2..]), events, [raw]);
        buf := buf[pos.value..];
        buf := buf[2..];
        events := events + [raw];
        pos := FindSseBoundary(buf);
      }
    }
  }

  // ----- Chunking -----

  function Resume(d: Parts, more: bytes): Parts {
    Split(d.tail + more).After(d.events)
  }

  lemma BoundaryStable(buf: bytes, more: bytes)
    requires Boundary(buf).Some?
    ensures Boundary(buf + more) == Boundary(buf)
  {
    var p := Boundary(buf).value;
    assert BoundaryAt(buf + more, p);
    BoundaryIsFirst(buf + more, p);
    var q := Boundary(buf + more).value;
    assert BoundaryAt(buf, q);
    BoundaryIsFirst(buf, q);
  }

  lemma {:induction false} SplitAppend(buf: bytes, more: bytes)
    ensures Split(buf + more) == Resume(Split(buf), more)
    decreases |buf|
  {
    match Boundary(buf)
    case None =>
      AfterNothing(Split(buf + more));
    case Some(p) =>
      BoundaryStable(buf, more);
      var rest := buf[p + 2..];
      assert (buf + more)[p + 2..] == rest + more;
      assert (buf + more)[..p] == buf[..p];
      SplitAppend(rest, more);
      AfterTwice(Split(Split(rest).tail + more), [buf[..p]], Split(rest).events);
  }

  function Feed(d: Parts, chunks: seq<bytes>): Parts
    decreases |chunks|
  {
    if chunks == [] then d else Feed(Resume(d, chunks[0]), chunks[1..])
  }

  lemma {:induction false} FeedIsSplit(seen: bytes, chunks: seq<bytes>)
    ensures Feed(Split(seen), chunks) == Split(seen + Flatten(chunks))
    decreases |chunks|
  {
    if chunks == [] {
      assert seen + Flatten(chunks) == seen;
    } else {
      SplitAppend(seen, chunks[0]);
      FeedIsSplit(seen + chunks[0], chunks[1..]);
      Assoc(seen, chunks[0], Flatten(chunks[1..]));
    }
  }

  /**
   * However the network cuts the bytes, even inside a delimiter, the same events come out and the same
   * tail is left.
   */
  lemma ChunkInvariance(chunks: seq<bytes>)
    ensures Feed(Parts([], []), chunks) == Split(Flatten(chunks))
  {
    FeedIsSplit([], chunks);
    assert [] + Flatten(chunks) == Flatten(chunks);
  }

  // ----- Splitting and joining are inverse -----

  const DELIMITER: bytes := [LF, LF]

  function Join(d: Parts): bytes
    decreases |d.events|
  {
    if d.events == [] then d.tail else d.events[0] + DELIMITER + Join(Parts(d.events[1..], d.tail))
  }

  /** An event that holds no delimiter and does not run into the one that follows it. */
  predicate Clean(event: bytes) {
    Boundary(event) == None && (event != [] ==> event[|event| - 1] != LF)
  }

  ghost predicate CleanParts(d: Parts) {
    (forall i :: 0 <= i < |d.events| ==> Clean(d.events[i])) && Boundary(d.tail) == None
  }

  lemma CleanDelimited(event: bytes, more: bytes)
    ensures Clean(event) <==> Boundary(event + DELIMITER + more) == Some(|event|)
  {
    var w, n := event + DELIMITER + more, |event|;
    assert BoundaryAt(w, n);
    BoundaryIsFirst(w, n);
    var p := Boundary(w).value;
    if Clean(event) && p < n {
      assert event[n - 1] != LF && w[n - 1] == event[n - 1];
      assert BoundaryAt(event, p);
      BoundaryIsFirst(event, p);
    }
    if !Clean(event) {
      if Boundary(event).Some? {
        BoundaryIsFirst(w, Boundary(event).value);
      } else {
        assert BoundaryAt(w, n - 1);
        BoundaryIsFirst(w, n - 1);
      }
    }
  }

  lemma JoinCons(event: bytes, d: Parts)
    ensures Join(d.After([event])) == event + DELIMITER + Join(d)
  {
  }

  /** The events, each followed by its delimiter, and the tail rebuild the input; the parts are clean. */
  lemma {:induction false} JoinSplit(buf: bytes)
    ensures Join(Split(buf)) == buf
    ensures CleanParts(Split(buf))
    decreases |buf|
  {
    if Boundary(buf).Some? {
      var p := Boundary(buf).value;
      var event, rest := buf[..p], buf[p + 2..];
      assert buf == event + DELIMITER + rest;
      CleanDelimited(event, rest);
      JoinSplit(rest);
      JoinCons(event, Split(rest));
    }
  }

  /** Any clean events and tail come back from their joined bytes: there is no other way to cut the input. */
  lemma {:induction false} SplitJoin(d: Parts)
    requires CleanParts(d)
    ensures Split(Join(d)) == d
    decreases |d.events|
  {
    if d.events != [] {
      var event, d' := d.events[0], Parts(d.events[1..], d.tail);
      var w := Join(d);
      CleanDelimited(event, Join(d'));
      assert w[..|event|] == event && w[|event| + 2..] == Join(d');
      assert forall i :: 0 <= i < |d'.events| ==> d'.events[i] == d.events[i + 1];
      SplitJoin(d');
      assert [event] + d'.events == d.events;
    }
  }

  // ----- The payloads of the events -----

  const PREFIX: bytes := Ascii("data: ")
  const DONE: bytes := Ascii("[DONE]")

  function FirstLf(b: bytes): (n: nat)
    ensures n <= |b| && (n < |b| ==> b[n] == LF)
    ensures forall k :: 0 <= k < n ==> b[k] != LF
  {
    if b == [] || b[0] == LF then 0 else 1 + FirstLf(b[1..])
  }

  function StripCr(line: bytes): bytes {
    if line != [] && line[|line| - 1] == CR then line[..|line| - 1] else line
  }

  /** `str::lines`: a line ends at LF or at CR LF, and the last line end is optional. */
  function Lines(b: bytes): seq<bytes>
    decreases |b|
  {
    var n := FirstLf(b);
    if b == [] then [] else if n == |b| then [b] else [StripCr(b[..n])] + Lines(b[n + 1..])
  }

  /** What a line hands to the JSON parser. */
  function Data(line: bytes): seq<bytes> {
    if PREFIX <= line && line[|PREFIX|..] != DONE then [line[|PREFIX|..]] else []
  }

  function DataOf(lines: seq<bytes>): seq<bytes> {
    if lines == [] then [] else Data(lines[0]) + DataOf(lines[1..])
  }

  function Payloads(events: seq<bytes>): seq<bytes> {
    if events == [] then [] else DataOf(Lines(events[0])) + Payloads(events[1..])
  }

  lemma DataStep(data: seq<bytes>, rest: seq<bytes>)
    requires rest != []
    ensures data + DataOf(rest) == data + Data(rest[0]) + DataOf(rest[1..])
  {
    Assoc(data, Data(rest[0]), DataOf(rest[1..]));
  }

  lemma DataFound(data: seq<bytes>, line: bytes)
    ensures data + Data(line) == if PREFIX <= line && line[|PREFIX|..] != DONE then data + [line[|PREFIX|..]] else data
  {
  }

  method EventData(event: bytes) returns (data: seq<bytes>)
    ensures data == DataOf(Lines(event))
  {
    data := [];
    var lines := Lines(event);
    ghost var rest := lines;
    for i := 0 to |lines|
      invariant rest == lines[i..] && data + DataOf(rest) == DataOf(lines)
    {
      var line := lines[i];
      DataStep(data, rest);
      DataFound(data, line);
      rest := rest[1..];
      if !(PREFIX <= line) { continue; }
      if line[|PREFIX|..] == DONE { continue; }
      data := data + [line[|PREFIX|..]];
    }
  }

  /** A payload that a `data:` line can carry to the JSON parser. */
  predicate Plain(p: bytes) {
    LF !in p && p != DONE
  }

  ghost predicate AllPlain(ps: seq<bytes>) {
    forall i :: 0 <= i < |ps| ==> Plain(ps[i])
  }

  lemma {:induction false} LinesHaveNoLf(b: bytes)
    ensures forall i :: 0 <= i < |Lines(b)| ==> LF !in Lines(b)[i]
    decreases |b|
  {
    if b != [] && FirstLf(b) < |b| { LinesHaveNoLf(b[FirstLf(b) + 1..]); }
  }

  lemma {:induction false} DataIsPlain(lines: seq<bytes>)
    requires forall i :: 0 <= i < |lines| ==> LF !in lines[i]
    ensures AllPlain(DataOf(lines))
    decreases |lines|
  {
    if lines != [] { DataIsPlain(lines[1..]); }
  }

  lemma {:induction false} PayloadsArePlain(events: seq<bytes>)
    ensures AllPlain(Payloads(events))
    decreases |events|
  {
    if events != [] {
      LinesHaveNoLf(events[0]);
      DataIsPlain(Lines(events[0]));
      PayloadsArePlain(events[1..]);
    }
  }

  /** How an upstream sends payloads. */
  function Sent(ps: seq<bytes>): seq<bytes> {
    if ps == [] then [] else [PREFIX + ps[0]] + Sent(ps[1..])
  }

  lemma PrefixHasNoLf(p: bytes)
    requires LF !in p
    ensures LF !in PREFIX + p
  {
  }

  lemma SingleLine(line: bytes)
    requires line != [] && LF !in line
    ensures Clean(line) && Lines(line) == [line] && DataOf([line]) == Data(line)
  {
  }

  lemma SentPlain(p: bytes)
    requires Plain(p)
    ensures Clean(PREFIX + p) && DataOf(Lines(PREFIX + p)) == [p]
  {
    PrefixHasNoLf(p);
    SingleLine(PREFIX + p);
    assert (PREFIX + p)[|PREFIX|..] == p;
  }

  lemma {:induction false} SentPayloads(ps: seq<bytes>)
    requires AllPlain(ps)
    ensures CleanParts(Parts(Sent(ps), [])) && Payloads(Sent(ps)) == ps
    decreases |ps|
  {
    if ps != [] {
      SentPlain(ps[0]);
      SentPayloads(ps[1..]);
      assert Sent(ps)[1..] == Sent(ps[1..]);
      assert [ps[0]] + ps[1..] == ps;
    }
  }

  /** From end to end: payloads sent as `data:` events, in any chunks, reach the JSON parser unchanged and in order
      exactly when none holds a line feed or is the closing marker. */
  lemma PayloadsArrive(ps: seq<bytes>, chunks: seq<bytes>)
    requires Flatten(chunks) == Join(Parts(Sent(ps), []))
    ensures Payloads(Feed(Parts([], []), chunks).events) == ps <==> AllPlain(ps)
  {
    ChunkInvariance(chunks);
    PayloadsArePlain(Split(Flatten(chunks)).events);
    if AllPlain(ps) {
      SentPayloads(ps);
      SplitJoin(Parts(Sent(ps), []));
    }
  }
}
