/** From content blocks to one decision: the non-streaming decoder over JSON blocks, the streaming
    decoder over assembled blocks, and what makes them agree. */
module ProviderDecision {
  import opened Basics
  import opened Json
  import opened ProviderTypes
  import Utf8

  const MAXIMUM_FINAL_TEXT_BYTES: nat := 64 * 1024
  const MAXIMUM_TOOL_ARGUMENT_BYTES: nat := 256 * 1024

  datatype Response = Final(text: string) | ToolCall(toolId: string, arguments: Json)

  datatype Call = Call(toolId: string, arguments: Json)

  /** What decoding depends on: the tool names offered, JSON parsing, and the length of a value
      written back as JSON. */
  datatype Vocabulary = Vocabulary(
    toolNames: map<string, string>,
    parse: string -> Option<Json>,
    serializedLength: Json -> nat)

  datatype StreamBlock = Text(text: string) | Tool(name: string, partialInput: string) | Unsupported

  /** Text and tool call gathered so far. */
  datatype Parts = Parts(text: string, call: Option<Call>)

  const NO_PARTS := Parts("", None)

  // ----- From parts to a decision ------------------------------------------------------------

  function NormalizedFinishReason(stopReason: string, response: Response): Result<string, ProviderError> {
    if stopReason == "tool_use" && response.ToolCall? then
      Ok("tool_call")
    else if stopReason in {"end_turn", "stop_sequence", "refusal"} && response.Final? then
      Ok(if stopReason == "end_turn" then "stop" else stopReason)
    else
      Err(INVALID_RESPONSE)
  }

  function DecisionFromParts(parts: Parts, stopReason: string): (r: Result<Response, ProviderError>)
    ensures r.Ok? <==>
            if parts.call.Some? then Blank(parts.text) && stopReason == "tool_use"
            else !Blank(parts.text) && stopReason in {"end_turn", "stop_sequence", "refusal"}
    ensures r.Ok? ==>
              && (parts.call.Some? ==> r.value == ToolCall(parts.call.value.toolId, parts.call.value.arguments))
              && (parts.call.None? ==> r.value == Final(parts.text))
              && NormalizedFinishReason(stopReason, r.value).Ok?
  {
    if Blank(parts.text) && parts.call.None? then
      Err(INVALID_RESPONSE)
    else if parts.call.Some? && !Blank(parts.text) then
      Err(INVALID_RESPONSE)
    else
      var response := if parts.call.None? then Final(parts.text)
                      else ToolCall(parts.call.value.toolId, parts.call.value.arguments);
      if NormalizedFinishReason(stopReason, response).Ok? then Ok(response) else Err(INVALID_RESPONSE)
  }

  // ----- One block -----------------------------------------------------------------------------

  function AddText(parts: Parts, value: string): Option<Parts> {
    if Utf8.Len(parts.text) + Utf8.Len(value) > MAXIMUM_FINAL_TEXT_BYTES then None
    else Some(parts.(text := parts.text + value))
  }

  /** `decode_tool_call`. */
  function JsonCall(v: Vocabulary, block: Json): Option<Call> {
    var name := AsStr(Get(block, "name"));
    var input := Get(block, "input");
    if name.None? || name.value !in v.toolNames then None
    else if input.None? || !input.value.Object? then None
    else if v.serializedLength(input.value) > MAXIMUM_TOOL_ARGUMENT_BYTES then None
    else Some(Call(v.toolNames[name.value], input.value))
  }

  function JsonPart(v: Vocabulary, parts: Parts, block: Json): Option<Parts> {
    var kind := AsStr(Get(block, "type"));
    if kind == Some("text") then
      var value := AsStr(Get(block, "text"));
      if value.None? then None else AddText(parts, value.value)
    else if kind == Some("tool_use") then
      var call := JsonCall(v, block);
      if parts.call.Some? || call.None? then None else Some(parts.(call := call))
    else
      None
  }

  function StreamCall(v: Vocabulary, name: string, partialInput: string): Option<Call> {
    var arguments := v.parse(partialInput);
    if name !in v.toolNames || arguments.None? || !arguments.value.Object? then None
    else Some(Call(v.toolNames[name], arguments.value))
  }

  function StreamPart(v: Vocabulary, parts: Parts, block: StreamBlock): Option<Parts> {
    match block
    case Text(value) => AddText(parts, value)
    case Tool(name, partialInput) =>
      var call := StreamCall(v, name, partialInput);
      if parts.call.Some? || call.None? then None else Some(parts.(call := call))
    case Unsupported => None
  }

  // ----- All blocks ------------------------------------------------------------------------------

  function JsonParts(v: Vocabulary, parts: Parts, content: seq<Json>): Option<Parts>
    decreases |content|
  {
    if content == [] then
      Some(parts)
    else
      var next := JsonPart(v, parts, content[0]);
      if next.None? then None else JsonParts(v, next.value, content[1..])
  }

  function StreamParts(v: Vocabulary, parts: Parts, blocks: seq<StreamBlock>): Option<Parts>
    decreases |blocks|
  {
    if blocks == [] then
      Some(parts)
    else
      var next := StreamPart(v, parts, blocks[0]);
      if next.None? then None else StreamParts(v, next.value, blocks[1..])
  }

  function Decide(parts: Option<Parts>, stopReason: string): Result<Response, ProviderError> {
    if parts.None? then Err(INVALID_RESPONSE) else DecisionFromParts(parts.value, stopReason)
  }

  /** `decode_decision`. */
  method DecodeDecision(v: Vocabulary, content: seq<Json>, stopReason: string)
    returns (r: Result<Response, ProviderError>)
    ensures r == Decide(JsonParts(v, NO_PARTS, content), stopReason)
  {
    hide JsonPart, JsonCall, DecisionFromParts;
    var parts := NO_PARTS;
    var i := 0;
    while i < |content|
      invariant 0 <= i <= |content|
      invariant JsonParts(v, NO_PARTS, content) == JsonParts(v, parts, content[i..])
    {
      var next := JsonPart(v, parts, content[i]);
      assert content[i..][1..] == content[i + 1..];
      if next.None? {
        return Err(INVALID_RESPONSE);
      }
      parts := next.value;
      i := i + 1;
    }
    r := DecisionFromParts(parts, stopReason);
  }

  // ----- Blocks in index order ---------------------------------------------------------------

  predicate IsLeast(s: set<nat>, k: nat) {
    k in s && forall j :: j in s ==> k <= j
  }

  lemma {:induction false} LeastExists(s: set<nat>)
    requires s != {}
    ensures exists k :: IsLeast(s, k)
  {
    var x :| x in s;
    var rest := s - {x};
    if rest == {} {
      assert s == {x};
      assert IsLeast(s, x);
    } else {
      LeastExists(rest);
      var k :| IsLeast(rest, k);
      assert s == rest + {x};
      assert IsLeast(s, if k <= x then k else x);
    }
  }

  ghost function Least(s: set<nat>): (k: nat)
    requires s != {}
    ensures IsLeast(s, k)
  {
    LeastExists(s);
    var k :| IsLeast(s, k);
    k
  }

  /** The values of a `BTreeMap`, in key order. */
  ghost function Ordered(blocks: map<nat, StreamBlock>): seq<StreamBlock>
    decreases |blocks|
  {
    if blocks == map[] then
      []
    else
      var k := Least(blocks.Keys);
      assert (blocks - {k}).Keys == blocks.Keys - {k};
      [blocks[k]] + Ordered(blocks - {k})
  }

  /** `decode_stream_decision`: visits the blocks in key order. */
  method DecodeStreamDecision(v: Vocabulary, blocks: map<nat, StreamBlock>, stopReason: string)
    returns (r: Result<Response, ProviderError>)
    ensures r == Decide(StreamParts(v, NO_PARTS, Ordered(blocks)), stopReason)
  {
    hide StreamPart, DecisionFromParts;
    var parts := NO_PARTS;
    var rest := blocks;
    while rest != map[]
      invariant StreamParts(v, NO_PARTS, Ordered(blocks)) == StreamParts(v, parts, Ordered(rest))
      decreases |rest|
    {
      LeastExists(rest.Keys);
      var k :| k in rest.Keys && IsLeast(rest.Keys, k);
      assert k == Least(rest.Keys);
      var next := StreamPart(v, parts, rest[k]);
      assert Ordered(rest)[1..] == Ordered(rest - {k});
      assert (rest - {k}).Keys == rest.Keys - {k};
      if next.None? {
        return Err(INVALID_RESPONSE);
      }
      parts := next.value;
      rest := rest - {k};
    }
    r := DecisionFromParts(parts, stopReason);
  }

  // ----- What is accepted --------------------------------------------------------------------

  predicate Supported(v: Vocabulary, block: StreamBlock) {
    match block
    case Text(_) => true
    case Tool(name, partialInput) => StreamCall(v, name, partialInput).Some?
    case Unsupported => false
  }

  function AllText(blocks: seq<StreamBlock>): string {
    if blocks == [] then ""
    else (if blocks[0].Text? then blocks[0].text else "") + AllText(blocks[1..])
  }

  function AllCalls(v: Vocabulary, blocks: seq<StreamBlock>): seq<Call> {
    if blocks == [] then []
    else (if blocks[0].Tool? && Supported(v, blocks[0])
          then [StreamCall(v, blocks[0].name, blocks[0].partialInput).value] else [])
         + AllCalls(v, blocks[1..])
  }

  function CallSeq(call: Option<Call>): seq<Call> {
    if call.None? then [] else [call.value]
  }

  /** The incremental bounds are the bounds on the whole: parts are gathered exactly when every
      block is supported, all text together fits and at most one tool is called, and then they are
      all the text and that call. */
  lemma {:induction false} StreamPartsIff(v: Vocabulary, parts: Parts, blocks: seq<StreamBlock>)
    requires Utf8.Len(parts.text) <= MAXIMUM_FINAL_TEXT_BYTES
    ensures var text := parts.text + AllText(blocks);
            var calls := CallSeq(parts.call) + AllCalls(v, blocks);
            var r := StreamParts(v, parts, blocks);
            && (r.Some? <==> (forall b :: b in blocks ==> Supported(v, b))
                             && Utf8.Len(text) <= MAXIMUM_FINAL_TEXT_BYTES && |calls| <= 1)
            && (r.Some? ==> r.value.text == text && CallSeq(r.value.call) == calls)
    decreases |blocks|
  {
    hide StreamCall;
    if blocks == [] {
      assert parts.text + "" == parts.text;
      assert CallSeq(parts.call) + [] == CallSeq(parts.call);
    } else {
      StreamPartStep(v, parts, blocks);
      var next := StreamPart(v, parts, blocks[0]);
      if next.Some? {
        StreamPartsIff(v, next.value, blocks[1..]);
        assert forall b :: b in blocks <==> b == blocks[0] || b in blocks[1..];
      } else {
        assert blocks[0] in blocks;
      }
    }
  }

  lemma StreamPartStep(v: Vocabulary, parts: Parts, blocks: seq<StreamBlock>)
    requires blocks != [] && Utf8.Len(parts.text) <= MAXIMUM_FINAL_TEXT_BYTES
    ensures var text := parts.text + AllText(blocks);
            var calls := CallSeq(parts.call) + AllCalls(v, blocks);
            var next := StreamPart(v, parts, blocks[0]);
            && (next.Some? ==> Supported(v, blocks[0])
                               && Utf8.Len(next.value.text) <= MAXIMUM_FINAL_TEXT_BYTES
                               && next.value.text + AllText(blocks[1..]) == text
                               && CallSeq(next.value.call) + AllCalls(v, blocks[1..]) == calls)
            && (next.None? ==> !Supported(v, blocks[0]) || Utf8.Len(text) > MAXIMUM_FINAL_TEXT_BYTES
                               || |calls| > 1)
  {
    hide StreamCall, AddText, Utf8.Encode;
    var rest := AllText(blocks[1..]);
    match blocks[0] {
      case Text(t) =>
        AddTextIff(parts, t, rest);
        assert AllCalls(v, blocks) == [] + AllCalls(v, blocks[1..]) == AllCalls(v, blocks[1..]);
      case Tool(_, _) =>
        assert AllText(blocks) == "" + rest == rest;
      case Unsupported =>
    }
  }

  lemma AddTextIff(parts: Parts, t: string, rest: string)
    ensures parts.text + (t + rest) == (parts.text + t) + rest
    ensures var next := AddText(parts, t);
            && (next.Some? ==> next.value == parts.(text := parts.text + t)
                               && Utf8.Len(next.value.text) <= MAXIMUM_FINAL_TEXT_BYTES)
            && (next.None? ==> Utf8.Len(parts.text + (t + rest)) > MAXIMUM_FINAL_TEXT_BYTES)
  {
    hide Utf8.Encode;
    Utf8.EncodeAppend(parts.text, t);
    Utf8.EncodeAppend(parts.text + t, rest);
    assert parts.text + (t + rest) == (parts.text + t) + rest;
  }

  /** The streaming decision accepts exactly: supported blocks, bounded text, and either one call
      with blank text and stop reason `tool_use`, or no call, visible text and a final stop
      reason. */
  lemma StreamDecisionIff(v: Vocabulary, blocks: seq<StreamBlock>, stopReason: string)
    ensures var text := AllText(blocks);
            var calls := AllCalls(v, blocks);
            var r := Decide(StreamParts(v, NO_PARTS, blocks), stopReason);
            && (r.Ok? <==>
                && (forall b :: b in blocks ==> Supported(v, b))
                && Utf8.Len(text) <= MAXIMUM_FINAL_TEXT_BYTES
                && |calls| <= 1
                && Blank(text) == (|calls| == 1)
                && (if |calls| == 1 then stopReason == "tool_use"
                    else stopReason in {"end_turn", "stop_sequence", "refusal"}))
            && (r.Ok? ==> r.value == if calls == [] then Final(text)
                                     else ToolCall(calls[0].toolId, calls[0].arguments))
  {
    hide StreamParts, AllText, AllCalls, Supported, Blank;
    assert Utf8.Len("") == 0;
    StreamPartsIff(v, NO_PARTS, blocks);
    assert "" + AllText(blocks) == AllText(blocks);
    assert [] + AllCalls(v, blocks) == AllCalls(v, blocks);
    assert NO_PARTS.text == "" && CallSeq(NO_PARTS.call) == [];
  }

  // ----- Streaming against non-streaming ------------------------------------------------------

  /** A JSON content block carrying what an assembled block carries. */
  ghost predicate Renders(v: Vocabulary, block: StreamBlock, j: Json) {
    var kind := AsStr(Get(j, "type"));
    match block
    case Text(text) => kind == Some("text") && AsStr(Get(j, "text")) == Some(text)
    case Tool(name, partialInput) =>
      && kind == Some("tool_use")
      && AsStr(Get(j, "name")) == Some(name)
      && (var arguments := v.parse(partialInput);
          if arguments.Some? && arguments.value.Object? then Get(j, "input") == arguments
          else !(Get(j, "input").Some? && Get(j, "input").value.Object?))
    case Unsupported => kind != Some("text") && kind != Some("tool_use")
  }

  predicate Small(v: Vocabulary, call: Option<Call>) {
    call.None? || v.serializedLength(call.value.arguments) <= MAXIMUM_TOOL_ARGUMENT_BYTES
  }

  lemma RenderedPart(v: Vocabulary, parts: Parts, block: StreamBlock, j: Json)
    requires Renders(v, block, j)
    ensures var s := StreamPart(v, parts, block);
            JsonPart(v, parts, j)
            == if s.Some? && (block.Tool? ==> Small(v, s.value.call)) then s else None
  {
  }

  /** Once a call is gathered it stays. */
  lemma {:induction false} CallSticks(v: Vocabulary, parts: Parts, blocks: seq<StreamBlock>)
    requires parts.call.Some?
    ensures var r := StreamParts(v, parts, blocks); r.Some? ==> r.value.call == parts.call
    decreases |blocks|
  {
    hide AddText, StreamCall;
    if blocks != [] {
      var next := StreamPart(v, parts, blocks[0]);
      AddTextKeepsCall(v, parts, blocks[0]);
      if next.Some? {
        CallSticks(v, next.value, blocks[1..]);
      }
    }
  }

  lemma AddTextKeepsCall(v: Vocabulary, parts: Parts, block: StreamBlock)
    ensures var next := StreamPart(v, parts, block);
            next.Some? && !block.Tool? ==> next.value.call == parts.call
  {
  }

  lemma {:induction false} PartsAgree(v: Vocabulary, parts: Parts, blocks: seq<StreamBlock>, content: seq<Json>)
    requires |blocks| == |content| && Small(v, parts.call)
    requires forall i :: 0 <= i < |blocks| ==> Renders(v, blocks[i], content[i])
    ensures var s := StreamParts(v, parts, blocks);
            JsonParts(v, parts, content) == if s.Some? && Small(v, s.value.call) then s else None
    decreases |blocks|
  {
    hide StreamPart, JsonPart, Renders, Small;
    if blocks != [] {
      RenderedPart(v, parts, blocks[0], content[0]);
      AddTextKeepsCall(v, parts, blocks[0]);
      var s := StreamPart(v, parts, blocks[0]);
      if s.Some? {
        if Small(v, s.value.call) {
          assert forall i :: 0 <= i < |blocks[1..]| ==> Renders(v, blocks[1..][i], content[1..][i]) by {
            assert forall i :: 0 <= i < |blocks[1..]| ==> blocks[1..][i] == blocks[i + 1] && content[1..][i] == content[i + 1];
          }
          PartsAgree(v, s.value, blocks[1..], content[1..]);
        } else {
          SmallNone(v);
          CallSticks(v, s.value, blocks[1..]);
        }
      }
    }
  }

  lemma SmallNone(v: Vocabulary)
    ensures Small(v, None)
  {
  }

  /** The streaming decision equals the non-streaming one on the same blocks, except exactly when
      the streaming one accepts a tool call whose arguments, written back as JSON, pass the
      argument bound: the streaming check bounds the received fragments instead. */
  lemma StreamAgreesIff(v: Vocabulary, blocks: seq<StreamBlock>, content: seq<Json>, stopReason: string)
    requires |blocks| == |content|
    requires forall i :: 0 <= i < |blocks| ==> Renders(v, blocks[i], content[i])
    ensures var streamed := Decide(StreamParts(v, NO_PARTS, blocks), stopReason);
            var whole := Decide(JsonParts(v, NO_PARTS, content), stopReason);
            && (streamed == whole
                <==> !(streamed.Ok? && streamed.value.ToolCall?
                       && v.serializedLength(streamed.value.arguments) > MAXIMUM_TOOL_ARGUMENT_BYTES))
            && (streamed != whole ==> whole == Err(INVALID_RESPONSE))
  {
    hide StreamParts, JsonParts, Renders, Blank;
    PartsAgree(v, NO_PARTS, blocks, content);
  }

  /** A call whose fragments are short but whose arguments grow past the bound when written back is
      accepted from a stream and refused from a whole response. */
  lemma OversizedCallDiffers(v: Vocabulary, name: string, fragments: string, j: Json)
    requires name in v.toolNames && Renders(v, Tool(name, fragments), j)
    requires Utf8.Len(fragments) <= MAXIMUM_TOOL_ARGUMENT_BYTES
    requires v.parse(fragments).Some? && v.parse(fragments).value.Object?
    requires v.serializedLength(v.parse(fragments).value) > MAXIMUM_TOOL_ARGUMENT_BYTES
    ensures Decide(StreamParts(v, NO_PARTS, [Tool(name, fragments)]), "tool_use")
         == Ok(ToolCall(v.toolNames[name], v.parse(fragments).value))
    ensures Decide(JsonParts(v, NO_PARTS, [j]), "tool_use") == Err(INVALID_RESPONSE)
  {
  }
}
