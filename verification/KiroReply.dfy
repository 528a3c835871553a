/** From the messages that a Kiro upstream encodes to the reply that src/providers/adapters/kiro.rs makes of them. */
module KiroReply {
  import opened Base
  import opened EventStream
  import opened Kiro

  function AsCount(c: Count): nat {
    match c
    case Number(n) => n % 4_294_967_296
    case _ => 0
  }

  /**
   * What a metadata event reports: as input the uncached tokens, or all input tokens when that member is
   * missing, and the output tokens; each in 32 bits, and zero when it is no number.
   */
  lemma ReportExactly(j: Json, ev: KiroEvent, t: TokenUsage)
    requires ev.messageType != Some(Ascii("exception")) && j.tokenUsage(ev.payload) == Some(t)
    requires ev.eventType.Some? && Contains(LowerBytes(ev.eventType.value), Ascii("metadata"))
    requires Delta(j, ev).None?
    ensures Report(j, ev) == Some(Usage(
              if t.uncachedInputTokens.Missing? then AsCount(t.inputTokens) else AsCount(t.uncachedInputTokens),
              AsCount(t.outputTokens)))
  {
  }

  /** What a message adds to the reply, by its own headers. */
  ghost function SaidBy(j: Json, f: Message): string {
    var kind := LastText(f.headers, Ascii(":event-type"));
    if LastText(f.headers, Ascii(":message-type")) == Some(Ascii("exception")) || kind.None?
       || !Contains(LowerBytes(kind.value), Ascii("assistantresponse"))
    then ""
    else
      match j.content(f.payload)
      case Some(text) => text
      case None => ""
  }

  ghost function Added(j: Json, ev: KiroEvent): string {
    if Delta(j, ev).Some? then Delta(j, ev).value else ""
  }

  lemma SaidIsAdded(j: Json, f: Message)
    ensures SaidBy(j, f) == Added(j, EventOf(f))
  {
  }

  ghost function Said(j: Json, fs: seq<Message>): string {
    if fs == [] then "" else Said(j, fs[..|fs| - 1]) + SaidBy(j, fs[|fs| - 1])
  }

  lemma {:induction false} EventsSnoc(fs: seq<Message>, f: Message)
    ensures Events(fs + [f]) == Events(fs) + [EventOf(f)]
  {
    if fs == [] {
      assert (fs + [f])[1..] == [];
    } else {
      EventsSnoc(fs[1..], f);
      assert (fs + [f])[1..] == fs[1..] + [f];
    }
  }

  lemma TextSnoc(j: Json, evs: seq<KiroEvent>, ev: KiroEvent)
    ensures TextOfAll(j, evs + [ev]) == TextOfAll(j, evs) + Added(j, ev)
  {
    Grow(j, evs, ev);
  }

  lemma {:induction false} SaidIsText(j: Json, fs: seq<Message>)
    ensures TextOfAll(j, Events(fs)) == Said(j, fs)
  {
    if fs != [] {
      var last, rest := fs[|fs| - 1], fs[..|fs| - 1];
      SaidIsText(j, rest);
      SaidIsAdded(j, last);
      EventsSnoc(rest, last);
      TextSnoc(j, Events(rest), EventOf(last));
      assert fs == rest + [last];
    }
  }

  /**
   * From end to end: whatever messages an upstream encodes, and however they are cut into chunks, the reply is
   * what the messages named as assistant responses say, in order.
   */
  lemma ReplyArrives(j: Json, fs: seq<Message>, chunks: seq<bytes>)
    requires forall i :: 0 <= i < |fs| ==> Sendable(fs[i])
    requires Flatten(chunks) == Flatten(Encoded(fs))
    ensures !Drain(Flatten(chunks)).panicked
    ensures TextOfAll(j, EventsOf(Flatten(chunks))) == Said(j, fs)
    ensures ClosingUsage(j, EventsOf(Flatten(chunks))).None? <==> fs == []
  {
    MessagesRoundTrip(fs, chunks);
    EventsCounted(fs);
    ChunkInvariance(chunks);
    SaidIsText(j, fs);
  }

  lemma {:induction false} EventsCounted(fs: seq<Message>)
    ensures |Events(fs)| == |fs|
  {
    if fs != [] { EventsCounted(fs[1..]); }
  }

  /** The usage of a reply is that of the last event that reports one, and nothing when none does. */
  lemma {:induction false} LastReportDecides(j: Json, evs: seq<KiroEvent>, k: nat)
    requires forall i :: k <= i < |evs| ==> Report(j, evs[i]).None?
    ensures k == 0 ==> LastReport(j, evs) == Usage(0, 0)
    ensures 0 < k <= |evs| && Report(j, evs[k - 1]).Some? ==> LastReport(j, evs) == Report(j, evs[k - 1]).value
  {
    if k < |evs| { LastReportDecides(j, evs[..|evs| - 1], k); }
  }

  /** Event names are compared in lower case: the upstream's own spelling is one that is meant. */
  lemma NamesInLowerCase(s: string)
    requires forall i :: 0 <= i < |s| ==> s[i] as int < 128
    ensures LowerBytes(Ascii(s)) == Ascii(Lower(s))
  {
  }
}
