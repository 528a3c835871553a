/**
 * From an inbound chat request to canonical messages, src/schema/inbound.rs: system messages are
 * joined and taken out, every other message keeps its place, and its JSON content becomes a list of
 * blocks. How a JSON value is shown, and how tool arguments are parsed, are parameters.
 */
module Schema {
  import opened Base

  datatype Json =
    | Null
    | Bool(flag: bool)
    | Num(literal: string)
    | Str(text: string)
    | Arr(items: seq<Json>)
    | Obj(fields: map<string, Json>)

  datatype Codec = Codec(show: Json -> string, parse: string -> Option<Json>)
  {
    /** No value is shown as nothing, null is shown as its name, and parsing undoes showing. */
    ghost predicate Correct() {
      show(Null) == "null" && forall v :: show(v) != "" && parse(show(v)) == Some(v)
    }
  }

  function Get(v: Json, name: string): Option<Json> {
    if v.Obj? && name in v.fields then Some(v.fields[name]) else None
  }

  function GetStr(v: Json, name: string): Option<string> {
    match Get(v, name)
    case Some(Str(s)) => Some(s)
    case _ => None
  }

  // ----- canonical messages -----

  datatype Media = Url(url: string) | Base64(data: string)

  datatype Block =
    | Text(text: string)
    | Image(mediaType: string, media: Media)
    | Audio(mediaType: string, data: string)
    | Video(mediaType: string, media: Media)
    | ToolUse(id: string, name: string, input: Json)
    | ToolResult(toolUseId: string, content: seq<Block>)

  datatype Role = System | User | Assistant | Tool

  datatype ToolCall = ToolCall(id: string, name: string, arguments: Json)

  datatype Message = Message(
    role: Role, content: seq<Block>, name: Option<string>, toolCallId: Option<string>, toolCalls: Option<seq<ToolCall>>)

  function BlockText(b: Block): string {
    if b.Text? then b.text else ""
  }

  /** A message's own text: that of its text blocks, in order. */
  function TextOf(blocks: seq<Block>): string {
    if blocks == [] then "" else BlockText(blocks[0]) + TextOf(blocks[1..])
  }

  // ----- inbound messages -----

  datatype InboundCall = InboundCall(id: string, name: string, arguments: string)

  datatype Inbound = Inbound(
    role: string, content: Json, name: Option<string>, toolCallId: Option<string>, toolCalls: Option<seq<InboundCall>>)

  function MapAll<T, U>(s: seq<T>, f: T -> U): (r: seq<U>)
    ensures |r| == |s|
  {
    seq(|s|, i requires 0 <= i < |s| => f(s[i]))
  }

  function Somes<T>(s: seq<Option<T>>): seq<T> {
    if s == [] then [] else (if s[0].Some? then [s[0].value] else []) + Somes(s[1..])
  }

  function Until(s: string, stop: char): string {
    if s == "" || s[0] == stop then "" else [s[0]] + Until(s[1..], stop)
  }

  function SourceStr(v: Json, name: string): Option<string> {
    var source := Get(v, "source");
    if source.None? then None else GetStr(source.value, name)
  }

  function ImageOfUrl(v: Json): Option<Block> {
    var holder := Get(v, "image_url");
    if holder.None? then None
    else
      match GetStr(holder.value, "url")
      case None => None
      case Some(url) => Some(Image(if "data:" <= url then Until(url, ';') else "image/*", Url(url)))
  }

  function ContentToBlocks(c: Codec, v: Json): seq<Block>
    decreases v, 1
  {
    match v
    case Str(s) => [Text(s)]
    case Arr(items) => Somes(seq(|items|, i requires 0 <= i < |items| => BlockFromValue(c, items[i])))
    case _ => [Text(c.show(v))]
  }

  function BlockFromValue(c: Codec, v: Json): Option<Block>
    decreases v, 0
  {
    match GetStr(v, "type")
    case None => None
    case Some(kind) =>
      if kind == "text" then
        match GetStr(v, "text") { case None => None case Some(s) => Some(Text(s)) }
      else if kind == "image_url" then
        ImageOfUrl(v)
      else if kind == "image" then
        var m, d := SourceStr(v, "media_type"), SourceStr(v, "data");
        if m.Some? && d.Some? then Some(Image(m.value, Base64(d.value))) else None
      else if kind == "audio" then
        var m, d := SourceStr(v, "media_type"), SourceStr(v, "data");
        if m.Some? && d.Some? then Some(Audio(m.value, d.value)) else None
      else if kind == "tool_use" then
        var id, name, input := GetStr(v, "id"), GetStr(v, "name"), Get(v, "input");
        if id.Some? && name.Some? then Some(ToolUse(id.value, name.value, if input.Some? then input.value else Null))
        else None
      else if kind == "tool_result" then
        var id := GetStr(v, "tool_use_id");
        if id.None? then None
        else Some(ToolResult(id.value, if "content" in v.fields then ContentToBlocks(c, v.fields["content"]) else []))
      else
        None
  }

  /** The text of a system message: every part's "text", whatever its type. */
  function ContentToText(v: Json): string {
    match v
    case Str(s) => s
    case Arr(items) => AllText(items)
    case _ => ""
  }

  function AllText(items: seq<Json>): string {
    if items == [] then "" else PartText(items[0]) + AllText(items[1..])
  }

  function PartText(p: Json): string {
    match GetStr(p, "text")
    case None => ""
    case Some(s) => s
  }

  function RoleOf(role: string): Role {
    if role == "user" then User
    else if role == "assistant" then Assistant
    else if role == "tool" then Tool
    else if role == "system" then System
    else User
  }

  function ToCanonical(c: Codec, m: Inbound): Message {
    Message(RoleOf(m.role), ContentToBlocks(c, m.content), m.name, m.toolCallId,
            if m.toolCalls.None? then None
            else Some(MapAll(m.toolCalls.value, (call: InboundCall) => CallToCanonical(c, call))))
  }

  function CallToCanonical(c: Codec, call: InboundCall): ToolCall {
    var parsed := c.parse(call.arguments);
    ToolCall(call.id, call.name, if parsed.Some? then parsed.value else Null)
  }

  // ----- taking the system messages out -----

  predicate Speaks(m: Inbound) {
    m.role != "system"
  }

  function Places<T>(s: seq<T>, p: T -> bool): seq<nat> {
    if s == [] then []
    else
      var n := |s| - 1;
      if p(s[n]) then Places(s[..n], p) + [n] else Places(s[..n], p)
  }

  /** The indices, in order, of the messages that are not system messages. */
  function Kept(messages: seq<Inbound>): seq<nat> {
    Places(messages, Speaks)
  }

  /** The texts of the system messages, one to a line; nothing when there is none. */
  function SystemText(messages: seq<Inbound>): Option<string> {
    if messages == [] then None
    else
      var n := |messages| - 1;
      var before := SystemText(messages[..n]);
      if messages[n].role != "system" then before
      else
        var text := ContentToText(messages[n].content);
        Some(if before.Some? then before.value + "\n" + text else text)
  }

  method ExtractSystem(c: Codec, messages: seq<Inbound>) returns (system: Option<string>, out: seq<Message>)
    ensures system == SystemText(messages)
    ensures |out| == |Kept(messages)|
    ensures forall k :: 0 <= k < |out| ==>
              Kept(messages)[k] < |messages| && out[k] == ToCanonical(c, messages[Kept(messages)[k]])
  {
    system, out := None, [];
    for i := 0 to |messages|
      invariant system == SystemText(messages[..i]) && |out| == |Kept(messages[..i])|
      invariant forall k :: 0 <= k < |out| ==>
                  Kept(messages[..i])[k] < i && out[k] == ToCanonical(c, messages[Kept(messages[..i])[k]])
    {
      assert messages[..i + 1][..i] == messages[..i];
      var msg := messages[i];
      if msg.role == "system" {
        var text := ContentToText(msg.content);
        system := Some(if system.Some? then system.value + "\n" + text else text);
      } else {
        out := out + [ToCanonical(c, msg)];
      }
    }
    assert messages[..|messages|] == messages;
  }

  /** The places at which a property holds: each once, in order, and no other. */
  lemma {:induction false} PlacesExactly<T>(s: seq<T>, p: T -> bool)
    ensures forall j, k :: 0 <= j < k < |Places(s, p)| ==> Places(s, p)[j] < Places(s, p)[k]
    ensures forall k :: 0 <= k < |Places(s, p)| ==> Places(s, p)[k] < |s| && p(s[Places(s, p)[k]])
    ensures forall i :: 0 <= i < |s| && p(s[i]) ==> i in Places(s, p)
  {
    if s != [] {
      var n := |s| - 1;
      PlacesExactly(s[..n], p);
      forall i | 0 <= i < n && p(s[i])
        ensures i in Places(s[..n], p)
      {
        assert s[..n][i] == s[i];
      }
    }
  }

  /**
   * What is kept is every message that is not a system message, each once and in order; and no kept
   * message has the system role.
   */
  lemma KeptExactly(c: Codec, messages: seq<Inbound>)
    ensures var kept := Kept(messages);
            (forall j, k :: 0 <= j < k < |kept| ==> kept[j] < kept[k])
            && (forall k :: 0 <= k < |kept| ==>
                  kept[k] < |messages| && messages[kept[k]].role != "system"
                  && ToCanonical(c, messages[kept[k]]).role != System)
            && forall i :: 0 <= i < |messages| && messages[i].role != "system" ==> i in kept
  {
    PlacesExactly(messages, Speaks);
    forall k | 0 <= k < |Kept(messages)|
      ensures ToCanonical(c, messages[Kept(messages)[k]]).role != System
    {
      RoleKept(c, messages[Kept(messages)[k]]);
    }
  }

  lemma RoleKept(c: Codec, m: Inbound)
    ensures ToCanonical(c, m).role == System <==> m.role == "system"
  {
  }

  // ----- text survives -----

  /** The text a reader of the inbound content finds: a string, or the parts marked as text. */
  function InboundText(v: Json): string {
    match v
    case Str(s) => s
    case Arr(items) => AllMarked(items)
    case _ => ""
  }

  /** The two forms of content that hold text; null and the others hold none. */
  predicate HoldsText(v: Json) {
    v.Str? || v.Arr?
  }

  function AllMarked(items: seq<Json>): string {
    if items == [] then "" else MarkedText(items[0]) + AllMarked(items[1..])
  }

  function MarkedText(p: Json): string {
    if GetStr(p, "type") == Some("text") then PartText(p) else ""
  }

  lemma BlockKeepsText(c: Codec, v: Json)
    ensures MarkedText(v) == (match BlockFromValue(c, v) case None => "" case Some(b) => BlockText(b))
  {
  }

  function Candidates(c: Codec, items: seq<Json>): seq<Option<Block>> {
    seq(|items|, i requires 0 <= i < |items| => BlockFromValue(c, items[i]))
  }

  lemma SomesText(first: Option<Block>, rest: seq<Option<Block>>)
    ensures TextOf(Somes([first] + rest))
            == (match first case None => "" case Some(b) => BlockText(b)) + TextOf(Somes(rest))
  {
    assert ([first] + rest)[1..] == rest;
    if first.None? {
      assert [] + Somes(rest) == Somes(rest);
      assert Somes([first] + rest) == Somes(rest);
    } else {
      var s := [first.value] + Somes(rest);
      assert Somes([first] + rest) == s;
      assert s[1..] == Somes(rest);
    }
  }

  lemma {:induction false} BlocksKeepText(c: Codec, items: seq<Json>)
    ensures TextOf(Somes(Candidates(c, items))) == AllMarked(items)
  {
    if items != [] {
      BlockKeepsText(c, items[0]);
      BlocksKeepText(c, items[1..]);
      SomesText(BlockFromValue(c, items[0]), Candidates(c, items[1..]));
      assert Candidates(c, items) == [BlockFromValue(c, items[0])] + Candidates(c, items[1..]);
    }
  }

  lemma TextOfOne(s: string)
    ensures TextOf([Text(s)]) == s
  {
    assert [Text(s)][1..] == [];
  }

  /**
   * The canonical message has exactly the text of the inbound content if and only if that is a string or
   * a list: any other value, null among them, is shown as JSON and becomes text.
   */
  lemma CanonicalKeepsText(c: Codec, v: Json)
    requires c.Correct()
    ensures TextOf(ContentToBlocks(c, v)) == InboundText(v) <==> HoldsText(v)
    ensures !HoldsText(v) ==> TextOf(ContentToBlocks(c, v)) == c.show(v)
  {
    if v.Arr? {
      BlocksKeepText(c, v.items);
      assert ContentToBlocks(c, v) == Somes(Candidates(c, v.items));
    } else if v.Str? {
      TextOfOne(v.text);
    } else {
      TextOfOne(c.show(v));
    }
  }

  // ----- what text is -----

  /** A list of parts in the form of the protocol. */
  function TextParts(texts: seq<string>): seq<Json> {
    if texts == [] then []
    else [Obj(map["type" := Str("text"), "text" := Str(texts[0])])] + TextParts(texts[1..])
  }

  lemma PartSays(text: string)
    ensures var part := Obj(map["type" := Str("text"), "text" := Str(text)]);
            PartText(part) == MarkedText(part) == text
  {
  }

  /** Text parts say their texts, one after the other, in a system message and in any other. */
  lemma {:induction false} TextPartsSay(texts: seq<string>)
    ensures ContentToText(Arr(TextParts(texts))) == Flatten(texts)
    ensures InboundText(Arr(TextParts(texts))) == Flatten(texts)
  {
    if texts != [] {
      PartSays(texts[0]);
      TextPartsSay(texts[1..]);
      var first := Obj(map["type" := Str("text"), "text" := Str(texts[0])]);
      assert ([first] + TextParts(texts[1..]))[1..] == TextParts(texts[1..]);
    }
  }

  /** The texts of the system messages, in the order of the request. */
  function SystemTexts(messages: seq<Inbound>): seq<string> {
    if messages == [] then []
    else (if messages[0].role == "system" then [ContentToText(messages[0].content)] else [])
         + SystemTexts(messages[1..])
  }

  function OneToALine(texts: seq<string>): string
    requires texts != []
  {
    if |texts| == 1 then texts[0] else texts[0] + "\n" + OneToALine(texts[1..])
  }

  lemma {:induction false} LineAdded(texts: seq<string>, last: string)
    requires texts != []
    ensures OneToALine(texts + [last]) == OneToALine(texts) + "\n" + last
  {
    if |texts| > 1 {
      LineAdded(texts[1..], last);
      assert (texts + [last])[1..] == texts[1..] + [last];
      Assoc(texts[0] + "\n", OneToALine(texts[1..]), "\n" + last);
      Assoc(texts[0] + "\n", OneToALine(texts[1..]), "\n");
      Assoc(OneToALine(texts), "\n", last);
      Assoc(OneToALine(texts[1..]), "\n", last);
    } else {
      assert (texts + [last])[1..] == [last];
    }
  }

  lemma {:induction false} SystemTextsSnoc(messages: seq<Inbound>, m: Inbound)
    ensures SystemTexts(messages + [m])
            == SystemTexts(messages) + if m.role == "system" then [ContentToText(m.content)] else []
  {
    if messages == [] {
      assert (messages + [m])[1..] == [];
    } else {
      SystemTextsSnoc(messages[1..], m);
      assert (messages + [m])[1..] == messages[1..] + [m];
    }
  }

  /** What is taken out is every system text, in order, one to a line; nothing exactly when there is none. */
  lemma {:induction false} SystemTextExactly(messages: seq<Inbound>)
    ensures SystemText(messages)
            == if SystemTexts(messages) == [] then None else Some(OneToALine(SystemTexts(messages)))
  {
    if messages != [] {
      var n := |messages| - 1;
      SystemTextExactly(messages[..n]);
      SystemTextsSnoc(messages[..n], messages[n]);
      assert messages[..n] + [messages[n]] == messages;
      var before, text := SystemTexts(messages[..n]), ContentToText(messages[n].content);
      if messages[n].role != "system" {
        assert before + [] == before;
      } else if before == [] {
        assert before + [text] == [text] && OneToALine([text]) == text;
      } else {
        LineAdded(before, text);
      }
    }
  }
}
