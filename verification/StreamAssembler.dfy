/** The event-driven assembler of a streamed Anthropic message: the state every event changes, the
    same state as a value, and what holds over every run of events. */
module StreamAssembler {
  import opened Basics
  import opened Json
  import opened ProviderCost
  import opened ProviderDecision
  import opened ProviderTypes
  import Utf8

  datatype Env = Env(
    vocabulary: Vocabulary,
    modelId: string,
    maximumOutputTokens: U64,
    contextTokens: U64,
    pricing: Pricing,
    headerRequestId: Option<string>)

  datatype Usage = Usage(inputTokens: U64, outputTokens: U64, totalTokens: U64, costMicrounits: U64)

  datatype Output = Output(response: Response, finishReason: string, usage: Usage, requestId: Option<string>)

  // ----- Events --------------------------------------------------------------------------------

  datatype Delta = TextDelta(text: Option<string>) | InputDelta(partial: Option<string>) | OtherDelta

  datatype Event =
    | MessageStart(id: string, inputTokens: U64, outputTokens: U64)
    | BlockStart(index: U64, block: StreamBlock)
    | BlockDelta(index: U64, delta: Delta)
    | BlockStop(index: U64)
    | MessageDelta(reason: Option<string>, output: U64)
    | MessageStop
    | ErrorEvent(kind: string)
    | Ignored
    | Malformed

  /** `validate_message_identity`. */
  predicate ValidIdentity(env: Env, id: string, message: Json) {
    && ValidLabel(id, 512)
    && AsStr(Get(message, "type")) == Some("message")
    && AsStr(Get(message, "role")) == Some("assistant")
    && StrOr(AsStr(Get(message, "model")), "") == env.modelId
  }

  function ReadMessageStart(env: Env, event: Json): Event {
    var message := Get(event, "message");
    if message.None? then Malformed else
    var id := AsStr(Get(message.value, "id"));
    var usage := Get(message.value, "usage");
    if id.None? || !ValidIdentity(env, id.value, message.value) then Malformed else
    if Get(message.value, "content") != Some(Array([])) || usage.None? then Malformed else
    var input := AsU64(Get(usage.value, "input_tokens"));
    var output := AsU64(Get(usage.value, "output_tokens"));
    if input.None? || output.None? then Malformed else
    if U64Or(AsU64(Get(usage.value, "cache_creation_input_tokens")), 0) != 0
       || U64Or(AsU64(Get(usage.value, "cache_read_input_tokens")), 0) != 0 then Malformed else
    MessageStart(id.value, input.value, output.value)
  }

  function ReadBlock(block: Json): Option<StreamBlock> {
    var kind := AsStr(Get(block, "type"));
    if kind == Some("text") then
      Some(Text(StrOr(AsStr(Get(block, "text")), "")))
    else if kind == Some("tool_use") then
      var name := AsStr(Get(block, "name"));
      if name.None? || Get(block, "input") != Some(Object([])) then None
      else Some(Tool(name.value, ""))
    else
      Some(Unsupported)
  }

  function ReadBlockStart(event: Json): Event {
    var index := AsU64(Get(event, "index"));
    var block := Get(event, "content_block");
    if index.None? || block.None? || ReadBlock(block.value).None? then Malformed
    else BlockStart(index.value, ReadBlock(block.value).value)
  }

  function ReadDelta(delta: Json): Delta {
    var kind := AsStr(Get(delta, "type"));
    if kind == Some("text_delta") then TextDelta(AsStr(Get(delta, "text")))
    else if kind == Some("input_json_delta") then InputDelta(AsStr(Get(delta, "partial_json")))
    else OtherDelta
  }

  function ReadBlockDelta(event: Json): Event {
    var index := AsU64(Get(event, "index"));
    var delta := Get(event, "delta");
    if index.None? || delta.None? then Malformed else BlockDelta(index.value, ReadDelta(delta.value))
  }

  function ReadBlockStop(event: Json): Event {
    var index := AsU64(Get(event, "index"));
    if index.None? then Malformed else BlockStop(index.value)
  }

  function ReadMessageDelta(event: Json): Event {
    var delta := Get(event, "delta");
    var usage := Get(event, "usage");
    var output := if usage.None? then None else AsU64(Get(usage.value, "output_tokens"));
    if delta.None? || !delta.value.Object? || output.None? then Malformed
    else MessageDelta(AsStr(Get(delta.value, "stop_reason")), output.value)
  }

  function ReadError(event: Json): Event {
    var error := Get(event, "error");
    ErrorEvent(if error.None? then "unknown_error"
               else StrOr(AsStr(Get(error.value, "type")), "unknown_error"))
  }

  function ReadEvent(env: Env, event: Json): Event {
    var kind := AsStr(Get(event, "type"));
    if kind.None? then Malformed
    else if kind.value == "message_start" then ReadMessageStart(env, event)
    else if kind.value == "content_block_start" then ReadBlockStart(event)
    else if kind.value == "content_block_delta" then ReadBlockDelta(event)
    else if kind.value == "content_block_stop" then ReadBlockStop(event)
    else if kind.value == "message_delta" then ReadMessageDelta(event)
    else if kind.value == "message_stop" then MessageStop
    else if kind.value == "error" then ReadError(event)
    else Ignored
  }

  // ----- The state as a value ------------------------------------------------------------------

  datatype State = State(
    messageId: Option<string>,
    inputTokens: Option<U64>,
    outputTokens: Option<U64>,
    stopReason: Option<string>,
    blocks: map<nat, StreamBlock>,
    stopped: set<nat>,
    textBytes: nat,
    messageStopped: bool)

  const INITIAL := State(None, None, None, None, map[], {}, 0, false)

  /** What an accepted event yields: the next state, text reported as progress, and the output of
      the terminal event. */
  datatype Stepped = Stepped(state: State, emitted: string, output: Option<Output>)

  predicate Live(s: State) {
    s.messageId.Some? && !s.messageStopped
  }

  function Quiet(s: State): Result<Stepped, ProviderError> {
    Ok(Stepped(s, "", None))
  }

  const REFUSED: Result<Stepped, ProviderError> := Err(INVALID_RESPONSE)

  function TextSize(block: StreamBlock): nat {
    if block.Text? then Utf8.Len(block.text) else 0
  }

  function StartBlock(s: State, index: U64, block: StreamBlock): Result<Stepped, ProviderError> {
    if !Live(s) || index in s.blocks
       || (block.Text? && s.textBytes + TextSize(block) > MAXIMUM_FINAL_TEXT_BYTES) then REFUSED
    else Quiet(s.(blocks := s.blocks[index := block], textBytes := s.textBytes + TextSize(block)))
  }

  function ApplyDelta(s: State, index: U64, delta: Delta): Result<Stepped, ProviderError> {
    if !Live(s) || index in s.stopped || index !in s.blocks then
      REFUSED
    else
      match s.blocks[index]
      case Text(text) =>
        if !delta.TextDelta? || delta.text.None?
           || s.textBytes + Utf8.Len(delta.text.value) > MAXIMUM_FINAL_TEXT_BYTES then REFUSED
        else Ok(Stepped(
                  s.(blocks := s.blocks[index := Text(text + delta.text.value)],
                     textBytes := s.textBytes + Utf8.Len(delta.text.value)),
                  delta.text.value, None))
      case Tool(name, partial) =>
        if !delta.InputDelta? || delta.partial.None?
           || Utf8.Len(partial) + Utf8.Len(delta.partial.value) > MAXIMUM_TOOL_ARGUMENT_BYTES then REFUSED
        else Quiet(s.(blocks := s.blocks[index := Tool(name, partial + delta.partial.value)]))
      case Unsupported =>
        Quiet(s)
  }

  function ChangeMessage(s: State, reason: Option<string>, output: U64): Result<Stepped, ProviderError> {
    if !Live(s)
       || (reason.Some? && s.stopReason.Some? && s.stopReason != reason)
       || (s.outputTokens.Some? && output < s.outputTokens.value) then REFUSED
    else Quiet(s.(stopReason := if reason.Some? then reason else s.stopReason, outputTokens := Some(output)))
  }

  /** `validate_usage` for a message without cache usage. */
  predicate ValidUsage(env: Env, input: U64, output: U64) {
    input <= env.contextTokens && output <= env.maximumOutputTokens && CheckedAdd(input, output).Some?
  }

  function MakeOutput(env: Env, s: State, response: Response): Result<Output, ProviderError> {
    var input, output := U64Or(s.inputTokens, 0), U64Or(s.outputTokens, 0);
    var finish := NormalizedFinishReason(StrOr(s.stopReason, ""), response);
    if !ValidUsage(env, input, output) || finish.Err? then
      Err(INVALID_RESPONSE)
    else
      Ok(Output(
           response, finish.value,
           Usage(input, output, SaturatingAdd(input, output), TokenCost(input, output, env.pricing)),
           if env.headerRequestId.Some? && ValidLabel(env.headerRequestId.value, 512)
           then env.headerRequestId else s.messageId))
  }

  ghost function StopMessage(env: Env, s: State): Result<Stepped, ProviderError> {
    if !Live(s) || |s.blocks| != |s.stopped| || s.stopReason.None? then REFUSED else
    var response := Decide(StreamParts(env.vocabulary, NO_PARTS, Ordered(s.blocks)), s.stopReason.value);
    if response.Err? then REFUSED else
    var output := MakeOutput(env, s, response.value);
    if output.Err? then REFUSED else Ok(Stepped(s.(messageStopped := true), "", Some(output.value)))
  }

  ghost function Step(env: Env, s: State, e: Event): Result<Stepped, ProviderError> {
    match e
    case MessageStart(id, input, output) =>
      if s.messageId.Some? then REFUSED
      else Quiet(s.(messageId := Some(id), inputTokens := Some(input), outputTokens := Some(output)))
    case BlockStart(index, block) => StartBlock(s, index, block)
    case BlockDelta(index, delta) => ApplyDelta(s, index, delta)
    case BlockStop(index) =>
      if !Live(s) || index !in s.blocks || index in s.stopped then REFUSED
      else Quiet(s.(stopped := s.stopped + {index}))
    case MessageDelta(reason, output) => ChangeMessage(s, reason, output)
    case MessageStop => StopMessage(env, s)
    case ErrorEvent(kind) => Err(StreamKindError(kind))
    case Ignored => Quiet(s)
    case Malformed => REFUSED
  }

  // ----- The state as the source changes it ----------------------------------------------------

  /** After a refused event the caller abandons the stream, so only accepted events say what the
      fields hold afterwards. */
  class AnthropicStreamState {
    var messageId: Option<string>
    var inputTokens: Option<U64>
    var outputTokens: Option<U64>
    var stopReason: Option<string>
    var blocks: map<nat, StreamBlock>
    var stoppedBlocks: set<nat>
    var textBytes: nat
    var messageStopped: bool

    function View(): State
      reads this
    {
      State(messageId, inputTokens, outputTokens, stopReason, blocks, stoppedBlocks, textBytes, messageStopped)
    }

    constructor ()
      ensures View() == INITIAL
    {
      messageId := None;
      inputTokens := None;
      outputTokens := None;
      stopReason := None;
      blocks := map[];
      stoppedBlocks := {};
      textBytes := 0;
      messageStopped := false;
    }

    /** The outcome and the fields are those of the value-level step. */
    ghost predicate Refines(spec: Result<Stepped, ProviderError>,
                            r: Result<Option<Output>, ProviderError>, emitted: string)
      reads this
    {
      match spec
      case Ok(stepped) => r == Ok(stepped.output) && View() == stepped.state && emitted == stepped.emitted
      case Err(error) => r == Err(error)
    }

    method OnMessageStart(env: Env, event: Json) returns (r: Result<Option<Output>, ProviderError>)
      modifies this
      ensures Refines(Step(env, old(View()), ReadMessageStart(env, event)), r, "")
    {
      hide ValidIdentity, Get, StartBlock, ApplyDelta, ChangeMessage, StopMessage;
      if messageId.Some? {
        return Err(INVALID_RESPONSE);
      }
      var message := Get(event, "message");
      if message.None? {
        return Err(INVALID_RESPONSE);
      }
      var id := AsStr(Get(message.value, "id"));
      if id.None? || !ValidIdentity(env, id.value, message.value) {
        return Err(INVALID_RESPONSE);
      }
      if Get(message.value, "content") != Some(Array([])) {
        return Err(INVALID_RESPONSE);
      }
      var usage := Get(message.value, "usage");
      if usage.None? {
        return Err(INVALID_RESPONSE);
      }
      messageId := id;
      inputTokens := AsU64(Get(usage.value, "input_tokens"));
      outputTokens := AsU64(Get(usage.value, "output_tokens"));
      if inputTokens.None? || outputTokens.None? {
        return Err(INVALID_RESPONSE);
      }
      if U64Or(AsU64(Get(usage.value, "cache_creation_input_tokens")), 0) != 0
         || U64Or(AsU64(Get(usage.value, "cache_read_input_tokens")), 0) != 0 {
        return Err(INVALID_RESPONSE);
      }
      r := Ok(None);
    }

    method OnBlockStart(env: Env, event: Json) returns (r: Result<Option<Output>, ProviderError>)
      modifies this
      ensures Refines(Step(env, old(View()), ReadBlockStart(event)), r, "")
    {
      hide Get, Utf8.Len, ApplyDelta, ChangeMessage, StopMessage;
      if messageId.None? || messageStopped {
        return Err(INVALID_RESPONSE);
      }
      var index := AsU64(Get(event, "index"));
      if index.None? || index.value in blocks {
        return Err(INVALID_RESPONSE);
      }
      var body := Get(event, "content_block");
      if body.None? {
        return Err(INVALID_RESPONSE);
      }
      var kind := AsStr(Get(body.value, "type"));
      var block := Unsupported;
      if kind == Some("text") {
        var text := StrOr(AsStr(Get(body.value, "text")), "");
        if textBytes + Utf8.Len(text) > MAXIMUM_FINAL_TEXT_BYTES {
          return Err(INVALID_RESPONSE);
        }
        textBytes := textBytes + Utf8.Len(text);
        block := Text(text);
      } else if kind == Some("tool_use") {
        var name := AsStr(Get(body.value, "name"));
        if name.None? || Get(body.value, "input") != Some(Object([])) {
          return Err(INVALID_RESPONSE);
        }
        block := Tool(name.value, "");
      }
      blocks := blocks[index.value := block];
      r := Ok(None);
    }

    method OnBlockDelta(env: Env, event: Json)
      returns (r: Result<Option<Output>, ProviderError>, emitted: string)
      modifies this
      ensures Refines(Step(env, old(View()), ReadBlockDelta(event)), r, emitted)
    {
      hide Get, Utf8.Len;
      emitted := "";
      if messageId.None? || messageStopped {
        return Err(INVALID_RESPONSE), "";
      }
      var index := AsU64(Get(event, "index"));
      if index.None? || index.value in stoppedBlocks {
        return Err(INVALID_RESPONSE), "";
      }
      var delta := Get(event, "delta");
      if delta.None? || index.value !in blocks {
        return Err(INVALID_RESPONSE), "";
      }
      match blocks[index.value] {
        case Text(text) => r, emitted := OnTextDelta(index.value, text, ReadDelta(delta.value));
        case Tool(name, partial) => r := OnInputDelta(index.value, name, partial, ReadDelta(delta.value));
        case Unsupported => r := Ok(None);
      }
    }

    method OnTextDelta(index: U64, text: string, delta: Delta)
      returns (r: Result<Option<Output>, ProviderError>, emitted: string)
      requires Live(View()) && index in blocks && index !in stoppedBlocks && blocks[index] == Text(text)
      modifies this
      ensures Refines(ApplyDelta(old(View()), index, delta), r, emitted)
    {
      emitted := "";
      if !delta.TextDelta? || delta.text.None? {
        return Err(INVALID_RESPONSE), "";
      }
      var value := delta.text.value;
      if textBytes + Utf8.Len(value) > MAXIMUM_FINAL_TEXT_BYTES {
        return Err(INVALID_RESPONSE), "";
      }
      assert value == "" ==> text + value == text && blocks[index := Text(text)] == blocks;
      if value != "" {
        blocks := blocks[index := Text(text + value)];
        textBytes := textBytes + Utf8.Len(value);
        emitted := value;
      }
      r := Ok(None);
    }

    method OnInputDelta(index: U64, name: string, partial: string, delta: Delta)
      returns (r: Result<Option<Output>, ProviderError>)
      requires Live(View()) && index in blocks && index !in stoppedBlocks && blocks[index] == Tool(name, partial)
      modifies this
      ensures Refines(ApplyDelta(old(View()), index, delta), r, "")
    {
      if !delta.InputDelta? || delta.partial.None? {
        return Err(INVALID_RESPONSE);
      }
      var value := delta.partial.value;
      if Utf8.Len(partial) + Utf8.Len(value) > MAXIMUM_TOOL_ARGUMENT_BYTES {
        return Err(INVALID_RESPONSE);
      }
      blocks := blocks[index := Tool(name, partial + value)];
      r := Ok(None);
    }

    method OnBlockStop(env: Env, event: Json) returns (r: Result<Option<Output>, ProviderError>)
      modifies this
      ensures Refines(Step(env, old(View()), ReadBlockStop(event)), r, "")
    {
      hide Get;
      if messageId.None? || messageStopped {
        return Err(INVALID_RESPONSE);
      }
      var index := AsU64(Get(event, "index"));
      if index.None? || index.value !in blocks || index.value in stoppedBlocks {
        return Err(INVALID_RESPONSE);
      }
      stoppedBlocks := stoppedBlocks + {index.value};
      r := Ok(None);
    }

    method OnMessageDelta(env: Env, event: Json) returns (r: Result<Option<Output>, ProviderError>)
      modifies this
      ensures Refines(Step(env, old(View()), ReadMessageDelta(event)), r, "")
    {
      hide Get, StartBlock, ApplyDelta, StopMessage;
      if messageId.None? || messageStopped {
        return Err(INVALID_RESPONSE);
      }
      var delta := Get(event, "delta");
      if delta.None? || !delta.value.Object? {
        return Err(INVALID_RESPONSE);
      }
      var reason := AsStr(Get(delta.value, "stop_reason"));
      if reason.Some? {
        if stopReason.Some? && stopReason != reason {
          return Err(INVALID_RESPONSE);
        }
        stopReason := reason;
      }
      var usage := Get(event, "usage");
      var output := if usage.None? then None else AsU64(Get(usage.value, "output_tokens"));
      if output.None? || (outputTokens.Some? && output.value < outputTokens.value) {
        return Err(INVALID_RESPONSE);
      }
      outputTokens := output;
      r := Ok(None);
    }

    method OnMessageStop(env: Env) returns (r: Result<Option<Output>, ProviderError>)
      modifies this
      ensures Refines(StopMessage(env, old(View())), r, "")
    {
      hide StreamParts, Ordered, MakeOutput;
      if messageId.None? || messageStopped || |blocks| != |stoppedBlocks| || stopReason.None? {
        return Err(INVALID_RESPONSE);
      }
      var before := View();
      messageStopped := true;
      var response := DecodeStreamDecision(env.vocabulary, blocks, stopReason.value);
      if response.Err? {
        return Err(INVALID_RESPONSE);
      }
      var output := MakeOutput(env, before, response.value);
      if output.Err? {
        return Err(INVALID_RESPONSE);
      }
      r := Ok(Some(output.value));
    }

    /** `decode_stream_event`: one event's data, parsed and applied. */
    method DecodeStreamEvent(env: Env, data: string)
      returns (r: Result<Option<Output>, ProviderError>, emitted: string)
      modifies this
      ensures var event := env.vocabulary.parse(data);
              if event.None? then r == Err(INVALID_RESPONSE)
              else Refines(Step(env, old(View()), ReadEvent(env, event.value)), r, emitted)
    {
      hide ReadMessageStart, ReadBlockStart, ReadBlockDelta, ReadBlockStop, ReadMessageDelta, ReadError, Get,
           StopMessage, StartBlock, ApplyDelta, ChangeMessage;
      emitted := "";
      var event := env.vocabulary.parse(data);
      if event.None? {
        return Err(INVALID_RESPONSE), "";
      }
      var kind := AsStr(Get(event.value, "type"));
      if kind.None? {
        return Err(INVALID_RESPONSE), "";
      }
      if kind.value == "message_start" {
        r := OnMessageStart(env, event.value);
      } else if kind.value == "content_block_start" {
        r := OnBlockStart(env, event.value);
      } else if kind.value == "content_block_delta" {
        r, emitted := OnBlockDelta(env, event.value);
      } else if kind.value == "content_block_stop" {
        r := OnBlockStop(env, event.value);
      } else if kind.value == "message_delta" {
        r := OnMessageDelta(env, event.value);
      } else if kind.value == "message_stop" {
        r := OnMessageStop(env);
      } else if kind.value == "error" {
        var error := ReadError(event.value);
        ReadErrorIsError(event.value);
        r := Err(StreamKindError(error.kind));
      } else {
        r := Ok(None);
      }
    }
  }

  lemma ReadErrorIsError(event: Json)
    ensures ReadError(event).ErrorEvent?
  {
  }
}
