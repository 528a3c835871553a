/**
 * Server-sent events of several lines, as providers write them (Anthropic puts a line that names the event
 * before the one with its data), and what comes of them from end to end. The lines are those of Rust's
 * `str::lines`, which the adapters use.
 */
module SseEvents {
  import opened Base
  import opened Sse

  datatype LineEnd = Lf | CrLf {
    function Bytes(): bytes { if Lf? then [10] else [13, 10] }
  }

  /** A line as it may be sent: without a line feed, and without a carriage return that a line end would swallow. */
  predicate OneLine(l: bytes) {
    10 !in l && (l != [] ==> l[|l| - 1] != 13)
  }

  /** Lines, each with a line end of either kind. */
  function Written(ls: seq<bytes>, ends: seq<LineEnd>): bytes
    requires |ls| == |ends|
  {
    if ls == [] then [] else ls[0] + ends[0].Bytes() + Written(ls[1..], ends[1..])
  }

  lemma {:induction false} FirstLfAt(l: bytes, rest: bytes)
    requires LF !in l
    ensures FirstLf(l + [LF] + rest) == |l|
  {
    if l != [] {
      FirstLfAt(l[1..], rest);
      assert (l + [LF] + rest)[1..] == l[1..] + [LF] + rest;
    }
  }

  lemma LinesCons(l: bytes, rest: bytes)
    requires LF !in l
    ensures Lines(l + [LF] + rest) == [StripCr(l)] + Lines(rest)
  {
    FirstLfAt(l, rest);
    var w := l + [LF] + rest;
    assert w[..|l|] == l && w[|l| + 1..] == rest;
  }

  lemma LineRead(l: bytes, end: LineEnd, rest: bytes)
    requires OneLine(l)
    ensures Lines(l + end.Bytes() + rest) == [l] + Lines(rest)
  {
    match end
    case Lf => LinesCons(l, rest);
    case CrLf => CrLfRead(l, rest);
  }

  lemma CrLfRead(l: bytes, rest: bytes)
    requires OneLine(l)
    ensures Lines(l + [13, 10] + rest) == [l] + Lines(rest)
  {
    LinesCons(l + [CR], rest);
    OneByOne(l, 13, 10, rest);
    assert StripCr(l + [CR]) == l;
  }

  lemma OneByOne<T>(l: seq<T>, a: T, b: T, rest: seq<T>)
    ensures l + [a, b] + rest == l + [a] + [b] + rest
  {
  }

  /** Any lines come back from their text, whatever their line ends, with or without one after the last. */
  lemma {:induction false} LinesComeBack(ls: seq<bytes>, ends: seq<LineEnd>, last: bytes)
    requires |ls| == |ends| && LF !in last && forall l <- ls :: OneLine(l)
    ensures Lines(Written(ls, ends) + last) == ls + if last == [] then [] else [last]
    decreases |ls|
  {
    if ls == [] {
      assert Written(ls, ends) + last == last;
      NoLfNoCut(last);
    } else {
      var rest := Written(ls[1..], ends[1..]) + last;
      LinesComeBack(ls[1..], ends[1..], last);
      assert ls[0] in ls;
      LineRead(ls[0], ends[0], rest);
      Assoc(ls[0] + ends[0].Bytes(), Written(ls[1..], ends[1..]), last);
      assert [ls[0]] + ls[1..] == ls;
    }
  }

  lemma NoLfNoCut(last: bytes)
    requires LF !in last
    ensures Lines(last) == if last == [] then [] else [last]
  {
  }

  /** What a line says: a payload for the JSON parser, the closing marker, or anything else. */
  datatype Line = Carries(payload: bytes) | Closes | Says(text: bytes) {
    function Wire(): bytes {
      match this
      case Carries(p) => Ascii("data: ") + p
      case Closes => Ascii("data: [DONE]")
      case Says(t) => t
    }

    /** It is one line, not an empty one, and means what it says. */
    ghost predicate Proper() {
      && OneLine(Wire()) && Wire() != []
      && (Carries? ==> payload != Ascii("[DONE]"))
      && (Says? ==> !(Ascii("data: ") <= text))
    }
  }

  function Carried(lines: seq<Line>): seq<bytes> {
    if lines == [] then [] else (if lines[0].Carries? then [lines[0].payload] else []) + Carried(lines[1..])
  }

  function Wires(lines: seq<Line>): (ls: seq<bytes>)
    ensures |ls| == |lines|
  {
    seq(|lines|, i requires 0 <= i < |lines| => lines[i].Wire())
  }

  lemma WiresAreLines(lines: seq<Line>)
    requires forall l <- lines :: l.Proper()
    ensures forall l <- Wires(lines) :: OneLine(l) && l != []
  {
    forall l | l in Wires(lines)
      ensures OneLine(l) && l != []
    {
      var i :| 0 <= i < |lines| && Wires(lines)[i] == l;
      assert lines[i] in lines;
    }
  }

  lemma DataOfLine(l: Line)
    requires l.Proper()
    ensures Data(l.Wire()) == if l.Carries? then [l.payload] else []
  {
    if l.Carries? {
      assert (PREFIX + l.payload)[|PREFIX|..] == l.payload;
    } else if l.Closes? {
      assert l.Wire() == PREFIX + DONE;
      assert (PREFIX + DONE)[|PREFIX|..] == DONE;
    }
  }

  lemma {:induction false} DataOfWires(lines: seq<Line>)
    requires forall l <- lines :: l.Proper()
    ensures DataOf(Wires(lines)) == Carried(lines)
  {
    if lines != [] {
      assert lines[0] in lines;
      DataOfLine(lines[0]);
      DataOfWires(lines[1..]);
      assert Wires(lines)[1..] == Wires(lines[1..]);
    }
  }

  /** An event as an upstream writes it: lines with their ends, and a last line without one. */
  datatype Event = Event(lines: seq<Line>, ends: seq<LineEnd>, last: Line) {
    ghost predicate Proper() {
      |lines| == |ends| && last.Proper() && forall l <- lines :: l.Proper()
    }

    function Bytes(): bytes
      requires |lines| == |ends|
    {
      Written(Wires(lines), ends) + last.Wire()
    }

    function Payloads(): seq<bytes> {
      Carried(lines) + if last.Carries? then [last.payload] else []
    }
  }

  lemma {:induction false} CarriedSnoc(lines: seq<Line>, last: Line)
    ensures Carried(lines + [last]) == Carried(lines) + if last.Carries? then [last.payload] else []
  {
    if lines == [] {
      assert (lines + [last])[1..] == [];
    } else {
      CarriedSnoc(lines[1..], last);
      assert (lines + [last])[1..] == lines[1..] + [last];
    }
  }

  /** An event hands over exactly the payloads of its data lines, in order, whatever other lines stand among them. */
  lemma EventHandsOver(e: Event)
    requires e.Proper()
    ensures DataOf(Lines(e.Bytes())) == e.Payloads()
  {
    var all := e.lines + [e.last];
    WiresAreLines(e.lines);
    LinesComeBack(Wires(e.lines), e.ends, e.last.Wire());
    assert Wires(all) == Wires(e.lines) + [e.last.Wire()];
    DataOfWires(all);
    CarriedSnoc(e.lines, e.last);
  }

  // ----- from end to end -----

  /** Text that starts with no line feed and has no two together. */
  predicate Open(rest: bytes) {
    rest != [] && rest[0] != LF && Boundary(rest) == None
  }

  lemma NoneFound(rest: bytes, k: nat)
    requires Boundary(rest) == None
    ensures !BoundaryAt(rest, k)
  {
    if BoundaryAt(rest, k) { BoundaryIsFirst(rest, k); }
  }

  lemma OpenCons(l: bytes, end: LineEnd, rest: bytes)
    requires OneLine(l) && l != [] && Open(rest)
    ensures Open(l + end.Bytes() + rest)
  {
    var w, n := l + end.Bytes() + rest, |l| + |end.Bytes()|;
    assert w[0] == l[0] && l[0] in l;
    forall k | 0 <= k < |w|
      ensures !BoundaryAt(w, k)
    {
      if k < |l| {
        assert w[k] == l[k] && l[k] in l;
      } else if k < n {
        assert w[n] == rest[0];
      } else {
        NoneFound(rest, k - n);
        assert w[k] == rest[k - n] && (k + 1 < |w| ==> w[k + 1] == rest[k + 1 - n]);
      }
    }
    NoBoundaryIs(w);
  }

  lemma OpenLine(l: bytes)
    requires OneLine(l) && l != []
    ensures Open(l)
  {
    forall k | 0 <= k < |l|
      ensures !BoundaryAt(l, k)
    {
      assert l[k] in l;
    }
    NoBoundaryIs(l);
    assert l[0] in l;
  }

  lemma {:induction false} WrittenOpen(ls: seq<bytes>, ends: seq<LineEnd>, last: bytes)
    requires |ls| == |ends| && forall l <- ls + [last] :: OneLine(l) && l != []
    ensures Open(Written(ls, ends) + last)
    decreases |ls|
  {
    assert last == (ls + [last])[|ls|];
    if ls == [] {
      assert Written(ls, ends) + last == last;
      OpenLine(last);
    } else {
      var rest := Written(ls[1..], ends[1..]) + last;
      assert ls[0] == (ls + [last])[0];
      assert forall l <- ls[1..] + [last] :: l in ls + [last];
      WrittenOpen(ls[1..], ends[1..], last);
      OpenCons(ls[0], ends[0], rest);
      Assoc(ls[0] + ends[0].Bytes(), Written(ls[1..], ends[1..]), last);
    }
  }

  lemma {:induction false} WrittenEnds(ls: seq<bytes>, ends: seq<LineEnd>, last: bytes)
    requires |ls| == |ends| && last != []
    ensures var w := Written(ls, ends) + last; w != [] && w[|w| - 1] == last[|last| - 1]
  {
  }

  lemma EventIsClean(e: Event)
    requires e.Proper()
    ensures Clean(e.Bytes())
  {
    WiresAreLines(e.lines);
    WrittenOpen(Wires(e.lines), e.ends, e.last.Wire());
    WrittenEnds(Wires(e.lines), e.ends, e.last.Wire());
    assert e.last.Wire()[|e.last.Wire()| - 1] in e.last.Wire();
  }

  ghost predicate AllProper(es: seq<Event>) {
    forall e <- es :: e.Proper()
  }

  ghost function Streamed(es: seq<Event>): seq<bytes>
    requires AllProper(es)
  {
    if es == [] then [] else assert es[0] in es; [es[0].Bytes()] + Streamed(es[1..])
  }

  function AllPayloads(es: seq<Event>): seq<bytes> {
    if es == [] then [] else es[0].Payloads() + AllPayloads(es[1..])
  }

  lemma {:induction false} StreamedPayloads(es: seq<Event>)
    requires AllProper(es)
    ensures CleanParts(Parts(Streamed(es), [])) && Payloads(Streamed(es)) == AllPayloads(es)
  {
    if es != [] {
      assert es[0] in es;
      EventIsClean(es[0]);
      EventHandsOver(es[0]);
      StreamedPayloads(es[1..]);
      assert Streamed(es)[1..] == Streamed(es[1..]);
    }
  }

  /**
   * From end to end: a stream of events of any lines, data lines or not, with either line end, in any
   * chunks, hands the JSON parser exactly the payloads of the data lines, in order.
   */
  lemma EventsArrive(es: seq<Event>, chunks: seq<bytes>)
    requires AllProper(es) && Flatten(chunks) == Join(Parts(Streamed(es), []))
    ensures Payloads(Feed(Parts([], []), chunks).events) == AllPayloads(es)
    ensures Feed(Parts([], []), chunks).tail == []
  {
    ChunkInvariance(chunks);
    StreamedPayloads(es);
    SplitJoin(Parts(Streamed(es), []));
  }

  /**
   * The standard also lets a blank line be written with CR LF. A stream whose every line ends like that is
   * never cut: no event comes out of it, in any chunks, and all of it stays in the buffer.
   */
  lemma CrLfStreamWaits(chunks: seq<bytes>)
    requires var b := Flatten(chunks); forall i :: 0 <= i < |b| && b[i] == LF ==> i > 0 && b[i - 1] == CR
    ensures Feed(Parts([], []), chunks) == Parts([], Flatten(chunks))
  {
    ChunkInvariance(chunks);
    NoBoundaryIs(Flatten(chunks));
  }
}
