/** What src/providers/adapters/kiro.rs makes of the events: the reply of `complete` and the deltas of `stream`. */
module Kiro {
  import opened Base
  import opened EventStream

  const U32_RANGE: nat := 0x1_0000_0000

  /** A member of a JSON object read as an unsigned number: missing, present and a number, or present and not. */
  datatype Count = Missing | Number(n: nat) | Other {
    function OrElse(c: Count): Count { if Missing? then c else this }
    function AsU32(): nat { if Number? then n % U32_RANGE else 0 }
  }

  datatype TokenUsage = TokenUsage(uncachedInputTokens: Count, inputTokens: Count, outputTokens: Count)

  /** JSON parsing is not part of the model: what a payload holds is given by two functions of its bytes. */
  datatype Json = Json(content: bytes -> Option<string>, tokenUsage: bytes -> Option<TokenUsage>)

  datatype Usage = Usage(inputTokens: nat, outputTokens: nat)

  const NO_USAGE := Usage(0, 0)

  function LowerBytes(b: bytes): bytes {
    seq(|b|, i requires 0 <= i < |b| => if 65 <= b[i] <= 90 then b[i] + 32 else b[i])
  }

  ghost predicate Mentions(ev: KiroEvent, word: string) {
    ev.eventType.Some? && Contains(LowerBytes(ev.eventType.value), Ascii(word))
  }

  ghost predicate IsException(ev: KiroEvent) {
    ev.messageType == Some(Ascii("exception"))
  }

  /** The text an event adds: none for exceptions, whatever else they say. */
  ghost function Delta(j: Json, ev: KiroEvent): Option<string> {
    if !IsException(ev) && Mentions(ev, "assistantresponse") then j.content(ev.payload) else None
  }

  /** The usage an event reports, if it does: one that adds text reports none. */
  ghost function Report(j: Json, ev: KiroEvent): Option<Usage> {
    if IsException(ev) || Delta(j, ev).Some? || !Mentions(ev, "metadata") then None
    else match j.tokenUsage(ev.payload)
      case None => None
      case Some(t) => Some(Usage(t.uncachedInputTokens.OrElse(t.inputTokens).AsU32(), t.outputTokens.AsU32()))
  }

  class Accumulator {
    const json: Json
    var content: string
    var usage: Usage
    ghost var seen: seq<KiroEvent>

    ghost predicate Valid()
      reads this
    {
      content == TextOfAll(json, seen) && usage == LastReport(json, seen)
    }

    constructor (j: Json)
      ensures Valid() && json == j && seen == []
    {
      json := j;
      content := "";
      usage := NO_USAGE;
      seen := [];
    }

    method ApplyKiroEvent(ev: KiroEvent) returns (delta: Option<string>)
      modifies this
      ensures delta == Delta(json, ev)
      ensures content == old(content) + if delta.Some? then delta.value else ""
      ensures usage == if Report(json, ev).Some? then Report(json, ev).value else old(usage)
      ensures seen == old(seen) + [ev] && (old(Valid()) ==> Valid())
    {
      seen := seen + [ev];
      Grow(json, old(seen), ev);
      if ev.messageType == Some(Ascii("exception")) { return None; }
      var et := if ev.eventType.Some? then LowerBytes(ev.eventType.value) else [];
      NothingToFind(et, ev);
      var assistant := FindIn(et, Ascii("assistantresponse"));
      if assistant {
        var text := json.content(ev.payload);
        if text.Some? {
          content := content + text.value;
          return text;
        }
      }
      var metadata := FindIn(et, Ascii("metadata"));
      if metadata {
        var t := json.tokenUsage(ev.payload);
        if t.Some? {
          usage := Usage(t.value.uncachedInputTokens.OrElse(t.value.inputTokens).AsU32(), t.value.outputTokens.AsU32());
        }
      }
      delta := None;
    }

    /** The events of one chunk, in order, and the deltas that come of them. */
    method ApplyEach(events: seq<KiroEvent>) returns (deltas: seq<string>)
      requires Valid()
      modifies this
      ensures Valid() && seen == old(seen) + events
      ensures content == old(content) + Flatten(deltas)
    {
      deltas := [];
      for k := 0 to |events|
        invariant Valid() && seen == old(seen) + events[..k]
        invariant content == old(content) + Flatten(deltas)
      {
        var delta := ApplyKiroEvent(events[k]);
        if delta.Some? {
          FlattenSnoc(deltas, delta.value);
          deltas := deltas + [delta.value];
        }
      }
    }
  }

  lemma NothingToFind(et: bytes, ev: KiroEvent)
    requires et == if ev.eventType.Some? then LowerBytes(ev.eventType.value) else []
    ensures Contains(et, Ascii("assistantresponse")) == Mentions(ev, "assistantresponse")
    ensures Contains(et, Ascii("metadata")) == Mentions(ev, "metadata")
  {
  }

  // ----- What a run of events says, by definition -----

  ghost function TextOfAll(j: Json, evs: seq<KiroEvent>): string {
    if evs == [] then ""
    else
      var d := Delta(j, evs[|evs| - 1]);
      TextOfAll(j, evs[..|evs| - 1]) + if d.Some? then d.value else ""
  }

  ghost function LastReport(j: Json, evs: seq<KiroEvent>): Usage {
    if evs == [] then NO_USAGE
    else
      var r := Report(j, evs[|evs| - 1]);
      if r.Some? then r.value else LastReport(j, evs[..|evs| - 1])
  }

  lemma Grow(j: Json, evs: seq<KiroEvent>, ev: KiroEvent)
    ensures TextOfAll(j, evs + [ev]) == TextOfAll(j, evs) + if Delta(j, ev).Some? then Delta(j, ev).value else ""
    ensures LastReport(j, evs + [ev]) == if Report(j, ev).Some? then Report(j, ev).value else LastReport(j, evs)
  {
  }

  lemma {:induction false} TextExtends(j: Json, a: seq<KiroEvent>, b: seq<KiroEvent>)
    ensures TextOfAll(j, a) <= TextOfAll(j, a + b)
    decreases |b|
  {
    if b == [] {
      assert a + b == a;
    } else {
      var n := |b| - 1;
      TextExtends(j, a, b[..n]);
      Grow(j, a + b[..n], b[n]);
      assert a + b == a + b[..n] + [b[n]];
    }
  }

  /** The events of a stream that arrives at once. */
  ghost function EventsOf(stream: bytes): seq<KiroEvent> {
    Decoded(Drain(stream).frames)
  }

  /** A stream that panics has taken, before the chunk at which it does, a beginning of what it decodes. */
  lemma Beginning(j: Json, before: seq<Frame>, arrived: bytes, more: bytes)
    requires before <= Drain(arrived).frames && Drain(arrived).panicked
    ensures Drain(arrived + more).panicked
    ensures TextOfAll(j, Decoded(before)) <= TextOfAll(j, EventsOf(arrived + more))
  {
    DrainMonotone(arrived, more);
    var late := Drain(arrived + more).frames[|before|..];
    assert before + late == Drain(arrived + more).frames;
    DecodedAppend(before, late);
    TextExtends(j, Decoded(before), Decoded(late));
  }

  /** The drain loop of `complete`. Its reply, and whether it panics, depend only on the bytes that arrive. */
  method Complete(j: Json, chunks: seq<bytes>) returns (content: string, usage: Usage, panicked: bool)
    ensures panicked == Drain(Flatten(chunks)).panicked
    ensures !panicked ==>
      content == TextOfAll(j, EventsOf(Flatten(chunks))) && usage == LastReport(j, EventsOf(Flatten(chunks)))
  {
    var reader := new StreamReader();
    var acc := new Accumulator(j);
    for i := 0 to |chunks|
      invariant reader.Valid() && acc.Valid() && acc.json == j && fresh(reader) && fresh(reader.buffer) && fresh(acc)
      invariant reader.arrived == Flatten(chunks[..i]) && acc.seen == Decoded(reader.taken)
    {
      FlattenCut(chunks, i);
      var events, crashed := reader.Receive(chunks[i]);
      if crashed {
        DrainMonotone(reader.arrived, Flatten(chunks[i + 1..]));
        return "", NO_USAGE, true;
      }
      var _ := acc.ApplyEach(events);
    }
    assert chunks[..|chunks|] == chunks;
    content, usage, panicked := acc.content, acc.usage, false;
  }

  /** The drain loop of `stream`. The deltas it yields join to the text that `complete` returns for the same bytes,
      and its closing usage is the same, or none when no event came; if it panics, it has yielded a beginning. */
  method Stream(j: Json, chunks: seq<bytes>) returns (deltas: seq<string>, usage: Option<Usage>, panicked: bool)
    ensures panicked == Drain(Flatten(chunks)).panicked
    ensures Flatten(deltas) <= TextOfAll(j, EventsOf(Flatten(chunks)))
    ensures !panicked ==> Flatten(deltas) == TextOfAll(j, EventsOf(Flatten(chunks)))
    ensures !panicked ==> usage == ClosingUsage(j, EventsOf(Flatten(chunks)))
  {
    var reader := new StreamReader();
    var acc := new Accumulator(j);
    var touched := false;
    deltas := [];
    ghost var stream := Flatten(chunks);
    for i := 0 to |chunks|
      invariant reader.Valid() && acc.Valid() && acc.json == j && fresh(reader) && fresh(reader.buffer) && fresh(acc)
      invariant reader.arrived == Flatten(chunks[..i]) && acc.seen == Decoded(reader.taken)
      invariant acc.content == Flatten(deltas) && touched == (|acc.seen| > 0)
    {
      FlattenCut(chunks, i);
      ghost var before := reader.taken;
      var events, crashed := reader.Receive(chunks[i]);
      if crashed {
        Beginning(j, before, reader.arrived, Flatten(chunks[i + 1..]));
        assert stream == reader.arrived + Flatten(chunks[i + 1..]);
        return deltas, None, true;
      }
      var more := acc.ApplyEach(events);
      FlattenAppend(deltas, more);
      deltas := deltas + more;
      touched := touched || |events| > 0;
    }
    assert chunks[..|chunks|] == chunks;
    usage := if touched then Some(acc.usage) else None;
    panicked := false;
  }

  ghost function ClosingUsage(j: Json, evs: seq<KiroEvent>): Option<Usage> {
    if |evs| > 0 then Some(LastReport(j, evs)) else None
  }
}
