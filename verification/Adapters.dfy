/**
 * How the adapters write canonical messages into provider bodies: src/providers/adapters/openai.rs,
 * generic.rs, responses.rs, google.rs and anthropic.rs. The text of a message is read back from a
 * body with the readers of the inbound schema, which know nothing of the adapters.
 */
module Adapters {
  import opened Base
  import opened Schema

  function RoleName(r: Role): string {
    match r
    case System => "system"
    case User => "user"
    case Assistant => "assistant"
    case Tool => "tool"
  }

  function TextPart(text: string): Json {
    Obj(map["type" := Str("text"), "text" := Str(text)])
  }

  function PartsOf(blocks: seq<Block>, part: Block -> Option<Json>): seq<Json> {
    if blocks == [] then []
    else (if part(blocks[0]).Some? then [part(blocks[0]).value] else []) + PartsOf(blocks[1..], part)
  }

  function ContentOf(message: Json): Json {
    var content := Get(message, "content");
    if content.Some? then content.value else Null
  }

  // ----- OpenAI -----

  function DataUrl(mediaType: string, data: string): string {
    "data:" + mediaType + ";base64," + data
  }

  function OpenAiPart(b: Block): Option<Json> {
    match b
    case Text(text) => Some(TextPart(text))
    case Image(mediaType, media) =>
      var url := match media { case Url(u) => u case Base64(data) => DataUrl(mediaType, data) };
      Some(Obj(map["type" := Str("image_url"), "image_url" := Obj(map["url" := Str(url)])]))
    case _ => None
  }

  predicate OnlyText(blocks: seq<Block>) {
    forall b <- blocks :: b.Text?
  }

  function OpenAiContent(blocks: seq<Block>): Json {
    if OnlyText(blocks) then Str(TextOf(blocks)) else Arr(PartsOf(blocks, OpenAiPart))
  }

  function CallJson(c: Codec, call: ToolCall): Json {
    Obj(map["id" := Str(call.id), "type" := Str("function"),
            "function" := Obj(map["name" := Str(call.name), "arguments" := Str(c.show(call.arguments))])])
  }

  function CallsJson(c: Codec, calls: seq<ToolCall>): seq<Json> {
    if calls == [] then [] else [CallJson(c, calls[0])] + CallsJson(c, calls[1..])
  }

  function Optional(name: string, v: Option<Json>): map<string, Json> {
    if v.Some? then map[name := v.value] else map[]
  }

  function AsStr(s: Option<string>): Option<Json> {
    if s.Some? then Some(Str(s.value)) else None
  }

  function OpenAiMessage(c: Codec, m: Message): Json {
    Obj(map["role" := Str(RoleName(m.role)), "content" := OpenAiContent(m.content)]
        + Optional("name", AsStr(m.name))
        + Optional("tool_call_id", AsStr(m.toolCallId))
        + Optional("tool_calls", if m.toolCalls.Some? then Some(Arr(CallsJson(c, m.toolCalls.value))) else None))
  }

  // ----- Generic and Responses -----

  /** One string per message: the text blocks, and nothing else. */
  function FlatMessage(m: Message): Json {
    Obj(map["role" := Str(RoleName(m.role)), "content" := Str(TextOf(m.content))])
  }

  function SystemMessage(text: string): Json {
    Obj(map["role" := Str("system"), "content" := Str(text)])
  }

  // ----- Google -----

  function GooglePart(b: Block): Option<Json> {
    match b
    case Text(text) => Some(Obj(map["text" := Str(text)]))
    case Image(mediaType, Base64(data)) =>
      Some(Obj(map["inline_data" := Obj(map["mime_type" := Str(mediaType), "data" := Str(data)])]))
    case _ => None
  }

  function GoogleContent(m: Message): Json {
    var role := Str(if m.role.Assistant? then "model" else "user");
    Obj(map["role" := role, "parts" := Arr(PartsOf(m.content, GooglePart))])
  }

  /** System messages are skipped. */
  function GoogleContents(messages: seq<Message>): seq<Json> {
    if messages == [] then []
    else
      var n := |messages| - 1;
      GoogleContents(messages[..n]) + if messages[n].role.System? then [] else [GoogleContent(messages[n])]
  }

  function GoogleText(content: Json): string {
    match Get(content, "parts")
    case Some(Arr(parts)) => AllText(parts)
    case _ => ""
  }

  // ----- Anthropic -----

  function AnthropicPart(b: Block): Option<Json> {
    match b
    case Text(text) => Some(TextPart(text))
    case Image(mediaType, media) =>
      var source := match media {
        case Url(url) => Obj(map["type" := Str("url"), "url" := Str(url)])
        case Base64(data) => Obj(map["type" := Str("base64"), "media_type" := Str(mediaType), "data" := Str(data)])
      };
      Some(Obj(map["type" := Str("image"), "source" := source]))
    case _ => None
  }

  function AnthropicTextPart(b: Block): Option<Json> {
    if b.Text? then Some(TextPart(b.text)) else None
  }

  function TextStrings(blocks: seq<Block>): seq<Json> {
    if blocks == [] then []
    else (if blocks[0].Text? then [Str(blocks[0].text)] else []) + TextStrings(blocks[1..])
  }

  /** A tool message keeps only its tool results. */
  function AnthropicResultPart(b: Block): Option<Json> {
    match b
    case ToolResult(id, content) =>
      Some(Obj(map["type" := Str("tool_result"), "tool_use_id" := Str(id), "content" := Arr(TextStrings(content))]))
    case _ => None
  }

  function UsePart(call: ToolCall): Json {
    Obj(map["type" := Str("tool_use"), "id" := Str(call.id), "name" := Str(call.name), "input" := call.arguments])
  }

  function UseParts(calls: seq<ToolCall>): seq<Json> {
    if calls == [] then [] else [UsePart(calls[0])] + UseParts(calls[1..])
  }

  function Calls(m: Message): seq<ToolCall> {
    if m.toolCalls.Some? then m.toolCalls.value else []
  }

  function AnthropicParts(m: Message): seq<Json> {
    match m.role
    case User => PartsOf(m.content, AnthropicPart)
    case Assistant => PartsOf(m.content, AnthropicTextPart) + UseParts(Calls(m))
    case Tool => PartsOf(m.content, AnthropicResultPart)
    case System => []
  }

  function AnthropicMessage(m: Message): Json {
    Obj(map["role" := Str(if m.role.Assistant? then "assistant" else "user"), "content" := Arr(AnthropicParts(m))])
  }

  // ----- the text is kept -----

  lemma {:induction false} MarkedPartsKeep(blocks: seq<Block>, part: Block -> Option<Json>)
    requires forall b :: BlockText(b) == if part(b).Some? then MarkedText(part(b).value) else ""
    ensures AllMarked(PartsOf(blocks, part)) == TextOf(blocks)
  {
    if blocks != [] {
      MarkedPartsKeep(blocks[1..], part);
      var rest := PartsOf(blocks[1..], part);
      if part(blocks[0]).Some? {
        assert ([part(blocks[0]).value] + rest)[1..] == rest;
      } else {
        assert [] + rest == rest;
      }
    }
  }

  lemma {:induction false} PartsKeep(blocks: seq<Block>, part: Block -> Option<Json>)
    requires forall b :: BlockText(b) == if part(b).Some? then PartText(part(b).value) else ""
    ensures AllText(PartsOf(blocks, part)) == TextOf(blocks)
  {
    if blocks != [] {
      PartsKeep(blocks[1..], part);
      var rest := PartsOf(blocks[1..], part);
      if part(blocks[0]).Some? {
        assert ([part(blocks[0]).value] + rest)[1..] == rest;
      } else {
        assert [] + rest == rest;
      }
    }
  }

  lemma OpenAiPartKeeps(b: Block)
    ensures BlockText(b) == if OpenAiPart(b).Some? then MarkedText(OpenAiPart(b).value) else ""
  {
  }

  lemma AnthropicPartKeeps(b: Block)
    ensures BlockText(b) == if AnthropicPart(b).Some? then MarkedText(AnthropicPart(b).value) else ""
    ensures BlockText(b) == if AnthropicTextPart(b).Some? then MarkedText(AnthropicTextPart(b).value) else ""
  {
  }

  lemma GooglePartKeeps(b: Block)
    ensures BlockText(b) == if GooglePart(b).Some? then PartText(GooglePart(b).value) else ""
  {
  }

  lemma OpenAiContentKeeps(c: Codec, blocks: seq<Block>)
    ensures InboundText(OpenAiContent(blocks)) == TextOf(blocks)
  {
    forall b
      ensures BlockText(b) == if OpenAiPart(b).Some? then MarkedText(OpenAiPart(b).value) else ""
    {
      OpenAiPartKeeps(b);
    }
    MarkedPartsKeep(blocks, OpenAiPart);
  }

  /** OpenAI, Generic, Responses and Google bodies carry a message's own text, whatever its role and blocks. */
  lemma BodiesKeepText(c: Codec, m: Message)
    ensures InboundText(ContentOf(OpenAiMessage(c, m))) == TextOf(m.content)
    ensures InboundText(ContentOf(FlatMessage(m))) == TextOf(m.content)
    ensures GoogleText(GoogleContent(m)) == TextOf(m.content)
  {
    OpenAiContentKeeps(c, m.content);
    OpenAiFields(c, m);
    forall b
      ensures BlockText(b) == if GooglePart(b).Some? then PartText(GooglePart(b).value) else ""
    {
      GooglePartKeeps(b);
    }
    PartsKeep(m.content, GooglePart);
    GoogleReads(m);
  }

  lemma OpenAiFields(c: Codec, m: Message)
    ensures Get(OpenAiMessage(c, m), "content") == Some(OpenAiContent(m.content))
    ensures Get(OpenAiMessage(c, m), "tool_calls")
            == if m.toolCalls.Some? then Some(Arr(CallsJson(c, m.toolCalls.value))) else None
  {
  }

  lemma GoogleReads(m: Message)
    ensures GoogleText(GoogleContent(m)) == AllText(PartsOf(m.content, GooglePart))
  {
  }

  lemma {:induction false} MarkedAppend(a: seq<Json>, b: seq<Json>)
    ensures AllMarked(a + b) == AllMarked(a) + AllMarked(b)
  {
    if a == [] {
      assert a + b == b;
    } else {
      MarkedAppend(a[1..], b);
      assert (a + b)[0] == a[0] && (a + b)[1..] == a[1..] + b;
      Assoc(MarkedText(a[0]), AllMarked(a[1..]), AllMarked(b));
    }
  }

  lemma {:induction false} UsesHaveNoText(calls: seq<ToolCall>)
    ensures AllMarked(UseParts(calls)) == ""
  {
    if calls != [] {
      UsesHaveNoText(calls[1..]);
      UseIsNotText(calls[0]);
      assert ([UsePart(calls[0])] + UseParts(calls[1..]))[1..] == UseParts(calls[1..]);
    }
  }

  lemma UseIsNotText(call: ToolCall)
    ensures MarkedText(UsePart(call)) == ""
  {
  }

  lemma {:induction false} ResultsHaveNoText(blocks: seq<Block>)
    ensures AllMarked(PartsOf(blocks, AnthropicResultPart)) == ""
  {
    if blocks != [] {
      ResultsHaveNoText(blocks[1..]);
      var rest := PartsOf(blocks[1..], AnthropicResultPart);
      if blocks[0].ToolResult? {
        ResultIsNotText(blocks[0]);
        assert ([AnthropicResultPart(blocks[0]).value] + rest)[1..] == rest;
      } else {
        assert [] + rest == rest;
      }
    }
  }

  lemma ResultIsNotText(b: Block)
    requires b.ToolResult?
    ensures MarkedText(AnthropicResultPart(b).value) == ""
  {
  }

  /** What text an Anthropic message carries: all of it for users and assistants, none for tools. */
  lemma AnthropicTextIs(m: Message)
    ensures AllMarked(AnthropicParts(m)) == if m.role.User? || m.role.Assistant? then TextOf(m.content) else ""
  {
    forall b
      ensures BlockText(b) == if AnthropicPart(b).Some? then MarkedText(AnthropicPart(b).value) else ""
      ensures BlockText(b) == if AnthropicTextPart(b).Some? then MarkedText(AnthropicTextPart(b).value) else ""
    {
      AnthropicPartKeeps(b);
    }
    MarkedPartsKeep(m.content, AnthropicPart);
    MarkedPartsKeep(m.content, AnthropicTextPart);
    MarkedAppend(PartsOf(m.content, AnthropicTextPart), UseParts(Calls(m)));
    UsesHaveNoText(Calls(m));
    ResultsHaveNoText(m.content);
  }

  /**
   * An Anthropic body keeps a message's text exactly when its role is user or assistant, or there is
   * no text to keep: the text blocks of a tool message are dropped.
   */
  lemma AnthropicKeepsText(c: Codec, m: Message)
    ensures InboundText(ContentOf(AnthropicMessage(m))) == TextOf(m.content)
            <==> m.role.User? || m.role.Assistant? || TextOf(m.content) == ""
  {
    AnthropicTextIs(m);
    assert ContentOf(AnthropicMessage(m)) == Arr(AnthropicParts(m));
  }

  /** The ordinary form of a tool answer, a plain string, reaches Anthropic as an empty list. */
  lemma ToolStringLost(c: Codec, m: Inbound)
    requires m.role == "tool" && m.content.Str?
    ensures ContentOf(AnthropicMessage(ToCanonical(c, m))) == Arr([])
    ensures TextOf(ToCanonical(c, m).content) == m.content.text
  {
    var blocks := ToCanonical(c, m).content;
    assert blocks == [Text(m.content.text)];
    assert blocks[1..] == [];
    assert PartsOf(blocks, AnthropicResultPart) == [];
    assert ContentOf(AnthropicMessage(ToCanonical(c, m))) == Arr(AnthropicParts(ToCanonical(c, m)));
  }

  // ----- tool calls are kept -----

  /** A provider's tool call, read as an inbound one. */
  function ReadCall(c: Codec, j: Json): Option<ToolCall> {
    var holder := Get(j, "function");
    if holder.None? then None
    else
      var id, name, arguments := GetStr(j, "id"), GetStr(holder.value, "name"), GetStr(holder.value, "arguments");
      if id.None? || name.None? || arguments.None? then None
      else Some(CallToCanonical(c, InboundCall(id.value, name.value, arguments.value)))
  }

  lemma CallRoundTrip(c: Codec, call: ToolCall)
    requires c.parse(c.show(call.arguments)) == Some(call.arguments)
    ensures ReadCall(c, CallJson(c, call)) == Some(call)
  {
  }

  /** The tool calls of an OpenAI message, read back, are the message's own, in order. */
  lemma {:induction false} OpenAiKeepsCalls(c: Codec, calls: seq<ToolCall>)
    requires forall call <- calls :: c.parse(c.show(call.arguments)) == Some(call.arguments)
    ensures |CallsJson(c, calls)| == |calls|
    ensures forall i :: 0 <= i < |calls| ==> ReadCall(c, CallsJson(c, calls)[i]) == Some(calls[i])
  {
    if calls != [] {
      CallRoundTrip(c, calls[0]);
      OpenAiKeepsCalls(c, calls[1..]);
      forall i | 0 <= i < |calls|
        ensures ReadCall(c, CallsJson(c, calls)[i]) == Some(calls[i])
      {
        if i > 0 { assert CallsJson(c, calls)[i] == CallsJson(c, calls[1..])[i - 1]; }
      }
    }
  }

  function TextBlocks(blocks: seq<Block>): seq<Block> {
    if blocks == [] then [] else (if blocks[0].Text? then [blocks[0]] else []) + TextBlocks(blocks[1..])
  }

  function UseBlocks(calls: seq<ToolCall>): seq<Block> {
    if calls == [] then [] else [ToolUse(calls[0].id, calls[0].name, calls[0].arguments)] + UseBlocks(calls[1..])
  }

  lemma SomesCons<T>(first: Option<T>, rest: seq<Option<T>>)
    ensures Somes([first] + rest) == (if first.Some? then [first.value] else []) + Somes(rest)
  {
  }

  lemma {:induction false} SomesAppend<T>(a: seq<Option<T>>, b: seq<Option<T>>)
    ensures Somes(a + b) == Somes(a) + Somes(b)
  {
    if a == [] {
      assert a + b == b;
    } else {
      SomesAppend(a[1..], b);
      assert a + b == [a[0]] + (a[1..] + b);
      SomesCons(a[0], a[1..] + b);
    }
  }

  lemma TextPartIsBlock(c: Codec, text: string)
    ensures BlockFromValue(c, TextPart(text)) == Some(Text(text))
  {
  }

  lemma UsePartIsBlock(c: Codec, call: ToolCall)
    ensures BlockFromValue(c, UsePart(call)) == Some(ToolUse(call.id, call.name, call.arguments))
  {
  }

  lemma CandidatesCons(c: Codec, part: Json, rest: seq<Json>)
    ensures Candidates(c, [part] + rest) == [BlockFromValue(c, part)] + Candidates(c, rest)
  {
  }

  lemma {:induction false} TextPartsAreBlocks(c: Codec, blocks: seq<Block>)
    ensures Somes(Candidates(c, PartsOf(blocks, AnthropicTextPart))) == TextBlocks(blocks)
  {
    if blocks != [] {
      TextPartsAreBlocks(c, blocks[1..]);
      var rest := PartsOf(blocks[1..], AnthropicTextPart);
      if blocks[0].Text? {
        var part := TextPart(blocks[0].text);
        TextPartIsBlock(c, blocks[0].text);
        CandidatesCons(c, part, rest);
        SomesCons(BlockFromValue(c, part), Candidates(c, rest));
      } else {
        assert [] + rest == rest;
      }
    }
  }

  lemma {:induction false} UsePartsAreBlocks(c: Codec, calls: seq<ToolCall>)
    ensures Somes(Candidates(c, UseParts(calls))) == UseBlocks(calls)
  {
    if calls != [] {
      UsePartsAreBlocks(c, calls[1..]);
      UsePartIsBlock(c, calls[0]);
      SomesCons(BlockFromValue(c, UsePart(calls[0])), Candidates(c, UseParts(calls[1..])));
      assert Candidates(c, UseParts(calls))
          == [BlockFromValue(c, UsePart(calls[0]))] + Candidates(c, UseParts(calls[1..]));
    }
  }

  lemma BlocksOfTwo(c: Codec, a: seq<Json>, b: seq<Json>)
    ensures ContentToBlocks(c, Arr(a + b)) == Somes(Candidates(c, a)) + Somes(Candidates(c, b))
  {
    SomesAppend(Candidates(c, a), Candidates(c, b));
    assert Candidates(c, a + b) == Candidates(c, a) + Candidates(c, b);
    assert ContentToBlocks(c, Arr(a + b)) == Somes(Candidates(c, a + b));
  }

  /** An assistant message, read back from the Anthropic body, is its text blocks and then its tool calls. */
  lemma AssistantComesBack(c: Codec, m: Message)
    requires m.role.Assistant?
    ensures ContentToBlocks(c, ContentOf(AnthropicMessage(m))) == TextBlocks(m.content) + UseBlocks(Calls(m))
  {
    var texts, uses := PartsOf(m.content, AnthropicTextPart), UseParts(Calls(m));
    TextPartsAreBlocks(c, m.content);
    UsePartsAreBlocks(c, Calls(m));
    BlocksOfTwo(c, texts, uses);
    assert ContentOf(AnthropicMessage(m)) == Arr(texts + uses);
  }

  // ----- which providers receive a message's tool calls -----

  function AsRead(calls: seq<ToolCall>): seq<Option<ToolCall>> {
    seq(|calls|, i requires 0 <= i < |calls| => Some(calls[i]))
  }

  /** The calls in a message of the chat-completions form. */
  function ChatCalls(c: Codec, message: Json): seq<Option<ToolCall>> {
    match Get(message, "tool_calls")
    case Some(Arr(items)) => seq(|items|, i requires 0 <= i < |items| => ReadCall(c, items[i]))
    case _ => []
  }

  /** The calls in a Gemini content: its parts with a function call. */
  function GoogleCalls(parts: seq<Json>): seq<Json> {
    if parts == [] then []
    else
      (if Get(parts[0], "functionCall").Some? then [Get(parts[0], "functionCall").value] else [])
      + GoogleCalls(parts[1..])
  }

  function GeminiCalls(content: Json): seq<Json> {
    match Get(content, "parts")
    case Some(Arr(parts)) => GoogleCalls(parts)
    case _ => []
  }

  /** The calls among blocks, as an Anthropic message has them. */
  function UsesOf(blocks: seq<Block>): seq<ToolCall> {
    if blocks == [] then []
    else
      (if blocks[0].ToolUse? then [ToolCall(blocks[0].id, blocks[0].name, blocks[0].input)] else [])
      + UsesOf(blocks[1..])
  }

  lemma {:induction false} UsesAppend(a: seq<Block>, b: seq<Block>)
    ensures UsesOf(a + b) == UsesOf(a) + UsesOf(b)
  {
    if a == [] {
      assert a + b == b;
    } else {
      UsesAppend(a[1..], b);
      assert (a + b)[0] == a[0] && (a + b)[1..] == a[1..] + b;
      Assoc(if a[0].ToolUse? then [ToolCall(a[0].id, a[0].name, a[0].input)] else [], UsesOf(a[1..]), UsesOf(b));
    }
  }

  lemma {:induction false} TextsHaveNoUses(blocks: seq<Block>)
    ensures UsesOf(TextBlocks(blocks)) == []
  {
    if blocks != [] {
      TextsHaveNoUses(blocks[1..]);
      if blocks[0].Text? {
        assert ([blocks[0]] + TextBlocks(blocks[1..]))[1..] == TextBlocks(blocks[1..]);
      } else {
        assert [] + TextBlocks(blocks[1..]) == TextBlocks(blocks[1..]);
      }
    }
  }

  lemma {:induction false} UsesOfUses(calls: seq<ToolCall>)
    ensures UsesOf(UseBlocks(calls)) == calls
  {
    if calls != [] {
      UsesOfUses(calls[1..]);
      assert UseBlocks(calls)[1..] == UseBlocks(calls[1..]);
      assert calls == [calls[0]] + calls[1..];
    }
  }

  lemma UseIsMarked(c: Codec, p: Json)
    ensures BlockFromValue(c, p).Some? && BlockFromValue(c, p).value.ToolUse? ==> GetStr(p, "type") == Some("tool_use")
  {
  }

  lemma {:induction false} NoUses(c: Codec, parts: seq<Json>)
    requires forall p <- parts :: GetStr(p, "type") != Some("tool_use")
    ensures UsesOf(Somes(Candidates(c, parts))) == []
  {
    if parts != [] {
      var first, rest := BlockFromValue(c, parts[0]), Candidates(c, parts[1..]);
      assert parts[0] in parts;
      UseIsMarked(c, parts[0]);
      NoUses(c, parts[1..]);
      SomesCons(first, rest);
      assert Candidates(c, parts) == [first] + rest;
      UsesAppend(if first.Some? then [first.value] else [], Somes(rest));
      if first.Some? { assert [first.value][1..] == []; }
    }
  }

  lemma PartTypes(b: Block)
    ensures AnthropicPart(b).Some? ==> GetStr(AnthropicPart(b).value, "type") != Some("tool_use")
    ensures AnthropicResultPart(b).Some? ==> GetStr(AnthropicResultPart(b).value, "type") != Some("tool_use")
  {
  }

  lemma {:induction false} PartsAreNoUses(blocks: seq<Block>, part: Block -> Option<Json>)
    requires forall b :: part(b).Some? ==> GetStr(part(b).value, "type") != Some("tool_use")
    ensures forall p <- PartsOf(blocks, part) :: GetStr(p, "type") != Some("tool_use")
  {
    if blocks != [] { PartsAreNoUses(blocks[1..], part); }
  }

  lemma AnthropicUses(c: Codec, m: Message)
    ensures UsesOf(ContentToBlocks(c, ContentOf(AnthropicMessage(m)))) == if m.role.Assistant? then Calls(m) else []
  {
    AnthropicContent(m);
    if m.role.Assistant? {
      AssistantComesBack(c, m);
      UsesAppend(TextBlocks(m.content), UseBlocks(Calls(m)));
      TextsHaveNoUses(m.content);
      UsesOfUses(Calls(m));
    } else {
      forall b
        ensures AnthropicPart(b).Some? ==> GetStr(AnthropicPart(b).value, "type") != Some("tool_use")
        ensures AnthropicResultPart(b).Some? ==> GetStr(AnthropicResultPart(b).value, "type") != Some("tool_use")
      {
        PartTypes(b);
      }
      PartsAreNoUses(m.content, AnthropicPart);
      PartsAreNoUses(m.content, AnthropicResultPart);
      NoUses(c, AnthropicParts(m));
      assert ContentToBlocks(c, Arr(AnthropicParts(m))) == Somes(Candidates(c, AnthropicParts(m)));
    }
  }

  lemma GooglePartsHaveNoCalls(b: Block)
    ensures GooglePart(b).Some? ==> Get(GooglePart(b).value, "functionCall").None?
  {
  }

  lemma {:induction false} NoGoogleCalls(blocks: seq<Block>)
    ensures GoogleCalls(PartsOf(blocks, GooglePart)) == []
  {
    if blocks != [] {
      GooglePartsHaveNoCalls(blocks[0]);
      NoGoogleCalls(blocks[1..]);
      var rest := PartsOf(blocks[1..], GooglePart);
      if GooglePart(blocks[0]).Some? {
        assert ([GooglePart(blocks[0]).value] + rest)[1..] == rest;
      } else {
        assert [] + rest == rest;
      }
    }
  }

  /** All the calls of a message: those that stand among its blocks, and those beside them. */
  function AllCalls(m: Message): seq<ToolCall> {
    UsesOf(m.content) + Calls(m)
  }

  lemma AsReadExactly(calls: seq<ToolCall>, more: seq<ToolCall>)
    ensures AsRead(calls) == AsRead(more + calls) <==> more == []
    ensures calls == more + calls <==> more == []
    ensures AsRead(more + calls) == [] <==> more == [] && calls == []
  {
    assert |AsRead(calls)| == |calls| && |AsRead(more + calls)| == |more| + |calls|;
    if more == [] { assert more + calls == calls; }
  }

  /**
   * A call that stands among the blocks reaches no provider. Those beside them reach OpenAI always,
   * Anthropic if the assistant made them, and Generic, Responses and Google never: exactly then all the
   * calls of a message can be read back.
   */
  lemma CallsArrive(c: Codec, m: Message)
    requires c.Correct()
    ensures ChatCalls(c, OpenAiMessage(c, m)) == AsRead(AllCalls(m)) <==> UsesOf(m.content) == []
    ensures UsesOf(ContentToBlocks(c, ContentOf(AnthropicMessage(m)))) == AllCalls(m)
            <==> UsesOf(m.content) == [] && (m.role.Assistant? || Calls(m) == [])
    ensures ChatCalls(c, FlatMessage(m)) == AsRead(AllCalls(m)) <==> AllCalls(m) == []
    ensures |GeminiCalls(GoogleContent(m))| == |AllCalls(m)| <==> AllCalls(m) == []
  {
    OpenAiHasCalls(c, m);
    AnthropicUses(c, m);
    GeminiHasNoCalls(m);
    FlatHasNoCalls(c, m);
    AsReadExactly(Calls(m), UsesOf(m.content));
  }

  /** An assistant's call that is written as a block: it is read, and no provider receives it. */
  lemma BlockCallLost(c: Codec, m: Inbound, id: string, name: string, input: Json)
    requires c.Correct() && m.role == "assistant" && m.toolCalls.None?
    requires m.content == Arr([UsePart(ToolCall(id, name, input))])
    ensures
      var cm := ToCanonical(c, m);
      && AllCalls(cm) == [ToolCall(id, name, input)]
      && ChatCalls(c, OpenAiMessage(c, cm)) == [] && ChatCalls(c, FlatMessage(cm)) == []
      && GeminiCalls(GoogleContent(cm)) == [] && UsesOf(ContentToBlocks(c, ContentOf(AnthropicMessage(cm)))) == []
  {
    var cm, call := ToCanonical(c, m), ToolCall(id, name, input);
    OneUse(c, call);
    assert AllCalls(cm) == [call] + [];
    OpenAiHasCalls(c, cm);
    AnthropicUses(c, cm);
    GeminiHasNoCalls(cm);
    FlatHasNoCalls(c, cm);
  }

  lemma OneUse(c: Codec, call: ToolCall)
    ensures UsesOf(ContentToBlocks(c, Arr([UsePart(call)]))) == [call]
  {
    UsePartsAreBlocks(c, [call]);
    assert [call][1..] == [] && UseParts([call]) == [UsePart(call)];
    assert ContentToBlocks(c, Arr([UsePart(call)])) == Somes(Candidates(c, [UsePart(call)]));
    UsesOfUses([call]);
  }

  lemma OpenAiHasCalls(c: Codec, m: Message)
    requires c.Correct()
    ensures ChatCalls(c, OpenAiMessage(c, m)) == AsRead(Calls(m))
  {
    OpenAiFields(c, m);
    OpenAiKeepsCalls(c, Calls(m));
  }

  lemma GeminiHasNoCalls(m: Message)
    ensures GeminiCalls(GoogleContent(m)) == []
  {
    NoGoogleCalls(m.content);
    assert Get(GoogleContent(m), "parts") == Some(Arr(PartsOf(m.content, GooglePart)));
  }

  lemma FlatHasNoCalls(c: Codec, m: Message)
    ensures ChatCalls(c, FlatMessage(m)) == []
  {
    assert |"tool_calls"| != |"role"| && |"tool_calls"| != |"content"|;
  }

  // ----- calls, results and images from the inbound message -----

  /** The arguments of a call as JSON; what does not parse becomes null. */
  function ArgumentsOf(c: Codec, call: InboundCall): Json {
    match c.parse(call.arguments)
    case Some(v) => v
    case None => Null
  }

  /** The call in the chat-completions form. */
  ghost predicate CallWritten(c: Codec, item: Json, call: InboundCall) {
    && GetStr(item, "id") == Some(call.id) && Get(item, "function").Some?
    && var function_ := Get(item, "function").value;
       && GetStr(function_, "name") == Some(call.name)
       && GetStr(function_, "arguments").Some?
       && c.parse(GetStr(function_, "arguments").value) == Some(ArgumentsOf(c, call))
  }

  lemma OneCallWritten(c: Codec, call: InboundCall)
    requires c.Correct()
    ensures CallWritten(c, CallJson(c, CallToCanonical(c, call)), call)
  {
  }

  lemma {:induction false} CallsJsonAt(c: Codec, calls: seq<ToolCall>, i: nat)
    requires i < |calls|
    ensures |CallsJson(c, calls)| == |calls| && CallsJson(c, calls)[i] == CallJson(c, calls[i])
  {
    if i > 0 {
      CallsJsonAt(c, calls[1..], i - 1);
    } else if |calls| > 1 {
      CallsJsonAt(c, calls[1..], 0);
    }
  }

  /** The calls beside an inbound message reach OpenAI with their own ids, names and arguments, in order. */
  lemma InboundCallsWritten(c: Codec, m: Inbound, i: nat)
    requires c.Correct() && m.toolCalls.Some? && i < |m.toolCalls.value|
    ensures
      var written := Get(OpenAiMessage(c, ToCanonical(c, m)), "tool_calls");
      && written.Some? && written.value.Arr? && |written.value.items| == |m.toolCalls.value|
      && CallWritten(c, written.value.items[i], m.toolCalls.value[i])
  {
    OpenAiFields(c, ToCanonical(c, m));
    CallsJsonAt(c, ToCanonical(c, m).toolCalls.value, i);
    OneCallWritten(c, m.toolCalls.value[i]);
  }

  /** An inline image read back from an Anthropic user message is that image. */
  lemma ImageComesBack(c: Codec, mediaType: string, data: string)
    ensures AnthropicPart(Image(mediaType, Base64(data))).Some?
    ensures BlockFromValue(c, AnthropicPart(Image(mediaType, Base64(data))).value)
            == Some(Image(mediaType, Base64(data)))
  {
  }

  /** Google is given inline images with their type, and no others; Anthropic the URL of one that is not inline. */
  lemma ImagesElsewhere(mediaType: string, url: string, data: string)
    ensures GooglePart(Image(mediaType, Url(url))) == None
    ensures GooglePart(Image(mediaType, Base64(data))).Some?
    ensures
      var inline := Get(GooglePart(Image(mediaType, Base64(data))).value, "inline_data");
      inline.Some? && GetStr(inline.value, "mime_type") == Some(mediaType) && GetStr(inline.value, "data") == Some(data)
    ensures AnthropicPart(Image(mediaType, Url(url))).Some?
    ensures
      var source := Get(AnthropicPart(Image(mediaType, Url(url))).value, "source");
      source.Some? && GetStr(source.value, "type") == Some("url") && GetStr(source.value, "url") == Some(url)
  {
  }

  /** OpenAI is given the URL of an image as it came, or a data URL that names the type and holds the data. */
  lemma ImageUrls(c: Codec, mediaType: string, url: string, data: string)
    ensures BlockFromValue(c, OpenAiPart(Image(mediaType, Url(url))).value)
            == Some(Image(if "data:" <= url then Until(url, ';') else "image/*", Url(url)))
    ensures BlockFromValue(c, OpenAiPart(Image(mediaType, Base64(data))).value).Some?
    ensures BlockFromValue(c, OpenAiPart(Image(mediaType, Base64(data))).value).value.media
            == Url("data:" + mediaType + ";base64," + data)
  {
  }

  /** A tool result that is written as a block reaches Anthropic with the id of its call. */
  lemma ResultComesBack(c: Codec, id: string, content: seq<Block>)
    ensures AnthropicResultPart(ToolResult(id, content)).Some?
    ensures var part := AnthropicResultPart(ToolResult(id, content)).value;
            GetStr(part, "type") == Some("tool_result") && GetStr(part, "tool_use_id") == Some(id)
            && Get(part, "content") == Some(Arr(TextStrings(content)))
    ensures Flatten(Strings(TextStrings(content))) == TextOf(content)
  {
    ResultTexts(content);
  }

  /** From the inbound message: a tool message with one such block becomes one result with that id. */
  lemma InboundResultArrives(c: Codec, m: Inbound, id: string, content: Json)
    requires m.role == "tool"
    requires m.content == Arr([Obj(map["type" := Str("tool_result"), "tool_use_id" := Str(id), "content" := content])])
    ensures
      AnthropicParts(ToCanonical(c, m)) == [AnthropicResultPart(ToolResult(id, ContentToBlocks(c, content))).value]
  {
    var part := Obj(map["type" := Str("tool_result"), "tool_use_id" := Str(id), "content" := content]);
    var block := ToolResult(id, ContentToBlocks(c, content));
    ResultRead(c, id, content);
    assert ContentToBlocks(c, Arr([part])) == Somes(Candidates(c, [part]));
    assert Candidates(c, [part]) == [Some(block)] + [];
    SomesCons(Some(block), []);
    OneResult(block);
  }

  lemma ResultRead(c: Codec, id: string, content: Json)
    ensures BlockFromValue(c, Obj(map["type" := Str("tool_result"), "tool_use_id" := Str(id), "content" := content]))
            == Some(ToolResult(id, ContentToBlocks(c, content)))
  {
  }

  lemma OneResult(block: Block)
    requires block.ToolResult?
    ensures PartsOf([block], AnthropicResultPart) == [AnthropicResultPart(block).value]
  {
    assert [block][1..] == [];
  }

  lemma {:induction false} ResultTexts(content: seq<Block>)
    ensures Flatten(Strings(TextStrings(content))) == TextOf(content)
  {
    if content != [] {
      ResultTexts(content[1..]);
      var rest := TextStrings(content[1..]);
      if content[0].Text? {
        assert ([Str(content[0].text)] + rest)[1..] == rest;
        assert ([content[0].text] + Strings(rest))[1..] == Strings(rest);
      } else {
        assert [] + rest == rest;
      }
    }
  }

  function Strings(items: seq<Json>): seq<string> {
    if items == [] then [] else (if items[0].Str? then [items[0].text] else []) + Strings(items[1..])
  }

  /** The message that leads is the system's, with its whole text. */
  lemma SystemLeads(text: string)
    ensures |Lead(Some(text))| == 1 && Lead(None) == []
    ensures GetStr(Lead(Some(text))[0], "role") == Some("system")
    ensures GetStr(Lead(Some(text))[0], "content") == Some(text)
  {
  }

  // ----- whole bodies -----

  function Lead(system: Option<string>): seq<Json> {
    if system.Some? then [SystemMessage(system.value)] else []
  }

  method OpenAiMessages(c: Codec, system: Option<string>, messages: seq<Message>) returns (out: seq<Json>)
    ensures |out| == |Lead(system)| + |messages| && Lead(system) <= out
    ensures forall i :: 0 <= i < |messages| ==>
              out[|Lead(system)| + i] == OpenAiMessage(c, messages[i])
  {
    out := [];
    if system.Some? {
      out := out + [SystemMessage(system.value)];
    }
    for k := 0 to |messages|
      invariant |out| == |Lead(system)| + k && Lead(system) <= out
      invariant forall i :: 0 <= i < k ==>
                  out[|Lead(system)| + i] == OpenAiMessage(c, messages[i])
    {
      out := out + [OpenAiMessage(c, messages[k])];
    }
  }

  /** The message list of the Generic adapter and the input list of the Responses adapter. */
  method FlatMessages(system: Option<string>, messages: seq<Message>) returns (out: seq<Json>)
    ensures |out| == |Lead(system)| + |messages| && Lead(system) <= out
    ensures forall i :: 0 <= i < |messages| ==>
              out[|Lead(system)| + i] == FlatMessage(messages[i])
  {
    out := [];
    if system.Some? {
      out := out + [SystemMessage(system.value)];
    }
    for k := 0 to |messages|
      invariant |out| == |Lead(system)| + k && Lead(system) <= out
      invariant forall i :: 0 <= i < k ==>
                  out[|Lead(system)| + i] == FlatMessage(messages[i])
    {
      out := out + [FlatMessage(messages[k])];
    }
  }

  method GoogleBody(messages: seq<Message>) returns (contents: seq<Json>)
    ensures contents == GoogleContents(messages)
  {
    contents := [];
    for k := 0 to |messages|
      invariant contents == GoogleContents(messages[..k])
    {
      assert messages[..k + 1][..k] == messages[..k];
      if messages[k].role.System? { continue; }
      contents := contents + [GoogleContent(messages[k])];
    }
    assert messages[..|messages|] == messages;
  }

  /** Without system messages Google's list has one entry for each message, in order. */
  lemma {:induction false} GoogleSkipsNothing(messages: seq<Message>)
    requires forall m <- messages :: !m.role.System?
    ensures |GoogleContents(messages)| == |messages|
    ensures forall i :: 0 <= i < |messages| ==> GoogleContents(messages)[i] == GoogleContent(messages[i])
  {
    if messages != [] {
      var n := |messages| - 1;
      assert messages[n] in messages;
      GoogleSkipsNothing(messages[..n]);
      assert GoogleContents(messages) == GoogleContents(messages[..n]) + [GoogleContent(messages[n])];
    }
  }

  /**
   * Where a message's text is found unchanged: at OpenAI, Generic, Responses and Google if and only if the
   * content is a string or a list; at Anthropic likewise, except that a tool message carries no text.
   */
  ghost predicate TextArrives(m: Inbound, openAi: Json, flat: Json, google: Json, anthropic: Json) {
    var text := InboundText(m.content);
    && (InboundText(ContentOf(openAi)) == text <==> HoldsText(m.content))
    && (InboundText(ContentOf(flat)) == text <==> HoldsText(m.content))
    && (GoogleText(google) == text <==> HoldsText(m.content))
    && (InboundText(ContentOf(anthropic)) == text <==> if m.role == "tool" then text == "" else HoldsText(m.content))
  }

  /**
   * Who each provider is told is speaking: the chat forms name assistants and tools as they are, Google calls
   * an assistant a model, Google and Anthropic know no tool; whoever else speaks is a user.
   */
  ghost predicate RoleArrives(m: Inbound, openAi: Json, flat: Json, google: Json, anthropic: Json) {
    var chat := if m.role == "assistant" || m.role == "tool" then m.role else "user";
    && GetStr(openAi, "role") == Some(chat) && GetStr(flat, "role") == Some(chat)
    && GetStr(google, "role") == Some(if m.role == "assistant" then "model" else "user")
    && GetStr(anthropic, "role") == Some(if m.role == "assistant" then "assistant" else "user")
  }

  /** What OpenAI alone is told: the name of the speaker, and the call that a tool answers. */
  ghost predicate LinksArrive(m: Inbound, openAi: Json) {
    GetStr(openAi, "name") == m.name && GetStr(openAi, "tool_call_id") == m.toolCallId
  }

  ghost predicate Arrives(m: Inbound, openAi: Json, flat: Json, google: Json, anthropic: Json) {
    && TextArrives(m, openAi, flat, google, anthropic)
    && RoleArrives(m, openAi, flat, google, anthropic)
    && LinksArrive(m, openAi)
  }

  lemma RoleNamed(role: string)
    requires role != "system"
    ensures RoleName(RoleOf(role)) == if role == "assistant" || role == "tool" then role else "user"
    ensures RoleOf(role).Assistant? <==> role == "assistant"
  {
  }

  lemma FlatRole(m: Message)
    ensures GetStr(FlatMessage(m), "role") == Some(RoleName(m.role))
  {
  }

  lemma GoogleRole(m: Message)
    ensures GetStr(GoogleContent(m), "role") == Some(if m.role.Assistant? then "model" else "user")
  {
  }

  lemma AnthropicRole(m: Message)
    ensures GetStr(AnthropicMessage(m), "role") == Some(if m.role.Assistant? then "assistant" else "user")
  {
  }

  lemma OpenAiRole(c: Codec, m: Message)
    ensures GetStr(OpenAiMessage(c, m), "role") == Some(RoleName(m.role))
  {
  }

  lemma MessageRoleArrives(c: Codec, m: Inbound)
    requires m.role != "system"
    ensures var cm := ToCanonical(c, m);
            RoleArrives(m, OpenAiMessage(c, cm), FlatMessage(cm), GoogleContent(cm), AnthropicMessage(cm))
  {
    RoleNamed(m.role);
    var cm := ToCanonical(c, m);
    OpenAiRole(c, cm);
    FlatRole(cm);
    GoogleRole(cm);
    AnthropicRole(cm);
  }

  lemma OpenAiLinks(c: Codec, m: Message)
    ensures GetStr(OpenAiMessage(c, m), "name") == m.name
    ensures GetStr(OpenAiMessage(c, m), "tool_call_id") == m.toolCallId
  {
  }

  lemma MessageLinksArrive(c: Codec, m: Inbound)
    ensures LinksArrive(m, OpenAiMessage(c, ToCanonical(c, m)))
  {
    OpenAiLinks(c, ToCanonical(c, m));
  }

  lemma MessageTextArrives(c: Codec, m: Inbound)
    requires c.Correct() && m.role != "system"
    ensures var cm := ToCanonical(c, m);
            TextArrives(m, OpenAiMessage(c, cm), FlatMessage(cm), GoogleContent(cm), AnthropicMessage(cm))
  {
    var cm := ToCanonical(c, m);
    CanonicalKeepsText(c, m.content);
    BodiesKeepText(c, cm);
    AnthropicKeepsText(c, cm);
    AnthropicTextIs(cm);
    AnthropicContent(cm);
  }

  lemma AnthropicContent(m: Message)
    ensures ContentOf(AnthropicMessage(m)) == Arr(AnthropicParts(m))
  {
  }

  /** The ordinary assistant turn with tool calls and null content: every provider receives the word "null". */
  lemma NullBecomesText(c: Codec, m: Inbound)
    requires c.Correct() && m.role == "assistant" && m.content == Null
    ensures var cm := ToCanonical(c, m);
            cm.content == [Text("null")]
            && InboundText(ContentOf(OpenAiMessage(c, cm))) == "null"
            && InboundText(ContentOf(FlatMessage(cm))) == "null"
            && GoogleText(GoogleContent(cm)) == "null" && InboundText(ContentOf(AnthropicMessage(cm))) == "null"
  {
    var cm := ToCanonical(c, m);
    TextOfOne("null");
    BodiesKeepText(c, cm);
    AnthropicTextIs(cm);
    AnthropicContent(cm);
  }

  /** The canonical messages of a request: those that are not system messages, in order. */
  ghost predicate CanonicalOf(c: Codec, messages: seq<Inbound>, out: seq<Message>) {
    && |out| == |Kept(messages)|
    && forall k :: 0 <= k < |out| ==>
         Kept(messages)[k] < |messages| && out[k] == ToCanonical(c, messages[Kept(messages)[k]])
  }

  lemma KeptMessage(c: Codec, messages: seq<Inbound>, out: seq<Message>, k: nat)
    requires c.Correct() && CanonicalOf(c, messages, out) && k < |out|
    ensures Kept(messages)[k] < |messages| && !out[k].role.System?
    ensures Arrives(messages[Kept(messages)[k]], OpenAiMessage(c, out[k]), FlatMessage(out[k]),
                    GoogleContent(out[k]), AnthropicMessage(out[k]))
  {
    KeptExactly(c, messages);
    MessageTextArrives(c, messages[Kept(messages)[k]]);
    MessageRoleArrives(c, messages[Kept(messages)[k]]);
    MessageLinksArrive(c, messages[Kept(messages)[k]]);
  }

  lemma NoSystemMessage(c: Codec, messages: seq<Inbound>, out: seq<Message>)
    requires c.Correct() && CanonicalOf(c, messages, out)
    ensures forall m <- out :: !m.role.System?
  {
    forall k | 0 <= k < |out|
      ensures !out[k].role.System?
    {
      KeptMessage(c, messages, out, k);
    }
  }

  /**
   * From a whole request to the bodies: the system text leads the OpenAI, Generic and Responses lists
   * (Google and Anthropic take it beside theirs), and the k-th message that is not a system message is
   * in the k-th place after it in every list, with its text wherever that arrives.
   */
  method RequestBodies(c: Codec, messages: seq<Inbound>)
    returns (system: Option<string>, openAi: seq<Json>, flat: seq<Json>, google: seq<Json>, anthropic: seq<Json>)
    requires c.Correct()
    ensures system == SystemText(messages) && Lead(system) <= openAi && Lead(system) <= flat
    ensures |openAi| == |flat| == |Lead(system)| + |Kept(messages)| && |google| == |anthropic| == |Kept(messages)|
    ensures forall k :: 0 <= k < |google| ==>
              Kept(messages)[k] < |messages|
              && Arrives(messages[Kept(messages)[k]], openAi[|Lead(system)| + k], flat[|Lead(system)| + k],
                         google[k], anthropic[k])
  {
    var out;
    system, out := ExtractSystem(c, messages);
    openAi := OpenAiMessages(c, system, out);
    flat := FlatMessages(system, out);
    google := GoogleBody(out);
    anthropic := seq(|out|, i requires 0 <= i < |out| => AnthropicMessage(out[i]));
    NoSystemMessage(c, messages, out);
    GoogleSkipsNothing(out);
    forall k {:trigger google[k]} | 0 <= k < |out|
      ensures Kept(messages)[k] < |messages|
      ensures Arrives(messages[Kept(messages)[k]], openAi[|Lead(system)| + k], flat[|Lead(system)| + k],
                      google[k], anthropic[k])
    {
      KeptMessage(c, messages, out, k);
    }
  }
}
