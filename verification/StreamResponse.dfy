/** The loop that reads a streamed response: chunks into the decoder, decoded events into the
    assembler, stopping at the first output or refusal. */
module StreamResponse {
  import opened Basics
  import opened ProviderTypes
  import opened Utf8
  import Sse = SseDecoder
  import opened StreamAssembler

  /** Events applied so far: still going, or ended with the response's outcome. */
  datatype Progress = Going(state: State) | Ended(result: Result<Output, ProviderError>)

  ghost function ApplyOne(env: Env, s: State, data: string): Progress {
    var event := env.vocabulary.parse(data);
    if event.None? then Ended(Err(INVALID_RESPONSE)) else
    match Step(env, s, ReadEvent(env, event.value))
    case Err(error) => Ended(Err(error))
    case Ok(stepped) => if stepped.output.Some? then Ended(Ok(stepped.output.value)) else Going(stepped.state)
  }

  ghost function ApplyAll(env: Env, s: State, datas: seq<string>): Progress
    decreases |datas|
  {
    if datas == [] then Going(s) else
    var first := ApplyOne(env, s, datas[0]);
    if first.Ended? then first else ApplyAll(env, first.state, datas[1..])
  }

  ghost function Conclude(env: Env, s: State, last: Result<seq<string>, ProviderError>): Result<Output, ProviderError> {
    if last.Err? then Err(last.error) else
    var p := ApplyAll(env, s, last.value);
    if p.Ended? then p.result else Err(STREAM_ENDED)
  }

  /** The outcome of a response that arrives in these chunks. */
  ghost function Respond(env: Env, d: Sse.State, s: State, chunks: seq<Bytes>): Result<Output, ProviderError>
    decreases |chunks|
  {
    if chunks == [] then Conclude(env, s, Sse.FinishStep(d)) else
    var pushed := Sse.PushStep(d, chunks[0]);
    if !pushed.ok then Err(INVALID_RESPONSE) else
    var p := ApplyAll(env, s, pushed.events);
    if p.Ended? then p.result else Respond(env, pushed.state, p.state, chunks[1..])
  }

  /** Nothing is read of a response that declares more bytes than the bound. */
  predicate Admitted(declared: Option<nat>) {
    declared.Some? ==> declared.value <= Sse.MAXIMUM_RESPONSE_BYTES
  }

  ghost function Outcome(env: Env, declared: Option<nat>, chunks: seq<Bytes>): Result<Output, ProviderError> {
    if Admitted(declared) then Respond(env, Sse.INITIAL, INITIAL, chunks) else Err(INVALID_RESPONSE)
  }

  // ----- The loop as the source writes it ----------------------------------------------------

  method ApplyEvents(env: Env, state: AnthropicStreamState, datas: seq<string>)
    returns (ended: Option<Result<Output, ProviderError>>)
    modifies state
    ensures var p := ApplyAll(env, old(state.View()), datas);
            && (p.Ended? ==> ended == Some(p.result))
            && (p.Going? ==> ended.None? && state.View() == p.state)
  {
    hide Step, ReadEvent;
    var i := 0;
    while i < |datas|
      invariant 0 <= i <= |datas|
      invariant ApplyAll(env, old(state.View()), datas) == ApplyAll(env, state.View(), datas[i..])
    {
      ghost var before := state.View();
      var r, emitted := state.DecodeStreamEvent(env, datas[i]);
      assert datas[i..][1..] == datas[i + 1..];
      if r.Err? {
        return Some(Err(r.error));
      }
      if r.value.Some? {
        return Some(Ok(r.value.value));
      }
      i := i + 1;
    }
    ended := None;
  }

  method DecodeStreamResponse(env: Env, declared: Option<nat>, chunks: seq<Bytes>)
    returns (r: Result<Output, ProviderError>)
    ensures r == Outcome(env, declared, chunks)
  {
    hide Sse.PushStep, Sse.FinishStep, ApplyAll;
    if !Admitted(declared) {
      return Err(INVALID_RESPONSE);
    }
    var decoder := new Sse.Decoder();
    var state := new AnthropicStreamState();
    var i := 0;
    while i < |chunks|
      invariant 0 <= i <= |chunks|
      invariant decoder.Valid()
      invariant fresh(decoder) && fresh(state)
      invariant Outcome(env, declared, chunks) == Respond(env, decoder.Abstract(), state.View(), chunks[i..])
    {
      assert chunks[i..][1..] == chunks[i + 1..];
      var events := decoder.Push(chunks[i]);
      if events.Err? {
        return Err(INVALID_RESPONSE);
      }
      var ended := ApplyEvents(env, state, events.value);
      if ended.Some? {
        return ended.value;
      }
      i := i + 1;
    }
    var last := decoder.Finish();
    if last.Err? {
      return Err(last.error);
    }
    var ended := ApplyEvents(env, state, last.value);
    r := if ended.Some? then ended.value else Err(STREAM_ENDED);
  }

  // ----- What depends on the chunks ------------------------------------------------------------

  lemma {:induction false} ApplyAllAppend(env: Env, s: State, a: seq<string>, b: seq<string>)
    ensures var p := ApplyAll(env, s, a);
            ApplyAll(env, s, a + b) == if p.Ended? then p else ApplyAll(env, p.state, b)
    decreases |a|
  {
    hide ApplyOne;
    if a == [] {
      assert a + b == b;
    } else {
      assert (a + b)[1..] == a[1..] + b;
      var first := ApplyOne(env, s, a[0]);
      if first.Going? {
        ApplyAllAppend(env, first.state, a[1..], b);
      }
    }
  }

  /** When no complete line is bad, any chunks give the outcome of all events, then of the end. */
  lemma {:induction false} RespondFed(env: Env, d: Sse.State, s: State, chunks: seq<Bytes>)
    requires Sse.Live(d) && d.observed + |Concat(chunks)| <= Sse.MAXIMUM_RESPONSE_BYTES
    requires !Sse.Feed(d.data, d.rest + Concat(chunks)).failed
    ensures var f := Sse.Feed(d.data, d.rest + Concat(chunks));
            var p := ApplyAll(env, s, f.events);
            Respond(env, d, s, chunks)
            == if p.Ended? then p.result
               else Conclude(env, p.state, Sse.FinishStep(Sse.State(f.rest, f.data, d.observed + |Concat(chunks)|)))
    decreases |chunks|
  {
    hide Sse.Feed, ApplyOne, Sse.FinishStep, Conclude;
    if chunks == [] {
      assert d.rest + [] == d.rest;
      Sse.FeedNoLf(d.data, d.rest);
    } else {
      var tail := Concat(chunks[1..]);
      Sse.FeedAppend(d.data, d.rest + chunks[0], tail);
      assert d.rest + (chunks[0] + tail) == (d.rest + chunks[0]) + tail;
      var f := Sse.Feed(d.data, d.rest + chunks[0]);
      var pushed := Sse.PushStep(d, chunks[0]);
      var p := ApplyAll(env, s, pushed.events);
      ApplyAllAppend(env, s, f.events, Sse.Feed(f.data, f.rest + tail).events);
      if p.Going? {
        RespondFed(env, pushed.state, p.state, chunks[1..]);
      }
    }
  }

  /** The bytes that can be looked at before the byte bound refuses the response. */
  function Readable(bytes: Bytes, room: nat): Bytes {
    bytes[..Min(|bytes|, room)]
  }

  /** When a line is bad or the bound is passed, chunks give either that refusal or the end reached by
      the events before it. */
  lemma {:induction false} RespondRefused(env: Env, d: Sse.State, s: State, chunks: seq<Bytes>)
    requires Sse.Live(d)
    requires var all := Concat(chunks);
             || d.observed + |all| > Sse.MAXIMUM_RESPONSE_BYTES
             || Sse.Feed(d.data, d.rest + Readable(all, Sse.MAXIMUM_RESPONSE_BYTES - d.observed)).failed
    ensures var readable := Readable(Concat(chunks), Sse.MAXIMUM_RESPONSE_BYTES - d.observed);
            var p := ApplyAll(env, s, Sse.Feed(d.data, d.rest + readable).events);
            var r := Respond(env, d, s, chunks);
            r == Err(INVALID_RESPONSE) || (p.Ended? && r == p.result)
    decreases |chunks|
  {
    hide Sse.Feed, ApplyOne, Sse.FinishStep, Conclude;
    var room := Sse.MAXIMUM_RESPONSE_BYTES - d.observed;
    if chunks == [] {
      assert d.rest + Readable([], room) == d.rest;
      Sse.FeedNoLf(d.data, d.rest);
      assert false;
    } else {
      var pushed := Sse.PushStep(d, chunks[0]);
      if pushed.ok {
        var tail := Readable(Concat(chunks[1..]), room - |chunks[0]|);
        var f := Sse.Feed(d.data, d.rest + chunks[0]);
        assert d.rest + Readable(Concat(chunks), room) == (d.rest + chunks[0]) + tail;
        Sse.FeedAppend(d.data, d.rest + chunks[0], tail);
        var p := ApplyAll(env, s, pushed.events);
        ApplyAllAppend(env, s, f.events, Sse.Feed(f.data, f.rest + tail).events);
        if p.Going? {
          RespondRefused(env, pushed.state, p.state, chunks[1..]);
        }
      }
    }
  }

  /** A bad line can be cut off from everything before it. */
  lemma {:induction false} CutBeforeFailure(data: string, bytes: Bytes) returns (k: nat)
    requires Sse.Feed(data, bytes).failed
    ensures k <= |bytes| && !Sse.Feed(data, bytes[..k]).failed
    ensures Sse.Feed(data, bytes[..k]).events == Sse.Feed(data, bytes).events
    decreases |bytes|
  {
    hide Sse.LineStep, Sse.Feed;
    var i := Sse.FirstLf(bytes);
    if i == |bytes| {
      Sse.FeedNoLf(data, bytes);
      assert false;
    } else {
      Sse.FeedCons(data, bytes, i);
      var effect := Sse.LineStep(data, bytes[..i]);
      if effect.None? {
        k := 0;
        Sse.FeedNoLf(data, bytes[..0]);
      } else {
        var j := CutBeforeFailure(effect.value.data, bytes[i + 1..]);
        k := i + 1 + j;
        Sse.FirstLfUnique(bytes[..k], i);
        Sse.FeedCons(data, bytes[..k], i);
        assert bytes[..k][..i] == bytes[..i];
        assert bytes[..k][i + 1..] == bytes[i + 1..][..j];
      }
    }
  }

  ghost predicate CutsOf(bytes: Bytes, chunks: seq<Bytes>) {
    Concat(chunks) == bytes
  }

  /** The response is refused when it arrives in one piece: it passes the byte bound, or a complete
      line within the bound carries data that is not UTF-8. */
  ghost predicate RefusedWhole(bytes: Bytes) {
    || |bytes| > Sse.MAXIMUM_RESPONSE_BYTES
    || Sse.Feed("", Readable(bytes, Sse.MAXIMUM_RESPONSE_BYTES)).failed
  }

  /** What the events before the bad line, or within the bound, come to. */
  ghost function ReadablePart(env: Env, bytes: Bytes): Progress {
    ApplyAll(env, INITIAL, Sse.Feed("", Readable(bytes, Sse.MAXIMUM_RESPONSE_BYTES)).events)
  }

  /** The outcome of a response is the same however it is cut, except exactly when it is read at all and
      refused in one piece while the events before the reason for that already end it otherwise than by a
      malformed-response refusal. */
  lemma OutcomeIndependentIff(env: Env, declared: Option<nat>, bytes: Bytes)
    ensures (forall chunks | CutsOf(bytes, chunks) :: Outcome(env, declared, chunks) == Outcome(env, declared, [bytes]))
            <==> var p := ReadablePart(env, bytes);
                 !(Admitted(declared) && RefusedWhole(bytes) && p.Ended? && p.result != Err(INVALID_RESPONSE))
  {
    hide Sse.Feed, ApplyAll, Respond, Admitted;
    var p := ReadablePart(env, bytes);
    ConcatOne(bytes);
    if !Admitted(declared) {
    } else if !RefusedWhole(bytes) {
      assert [] + bytes == bytes && Readable(bytes, Sse.MAXIMUM_RESPONSE_BYTES) == bytes;
      RespondFed(env, Sse.INITIAL, INITIAL, [bytes]);
      forall chunks | CutsOf(bytes, chunks)
        ensures Outcome(env, declared, chunks) == Outcome(env, declared, [bytes])
      {
        RespondFed(env, Sse.INITIAL, INITIAL, chunks);
      }
    } else if p.Ended? && p.result != Err(INVALID_RESPONSE) {
      var chunks := OutcomeBothWays(env, declared, bytes);
      assert CutsOf(bytes, chunks);
    } else {
      var readable := Readable(bytes, Sse.MAXIMUM_RESPONSE_BYTES);
      assert [] + readable == readable;
      forall chunks | CutsOf(bytes, chunks)
        ensures Outcome(env, declared, chunks) == Err(INVALID_RESPONSE)
      {
        RespondRefused(env, Sse.INITIAL, INITIAL, chunks);
      }
      assert CutsOf(bytes, [bytes]);
    }
  }

  lemma ConcatOne(bytes: Bytes)
    ensures Concat([bytes]) == bytes
  {
  }

  /** Every such response has a cutting that is answered, and is refused in one piece. */
  lemma OutcomeBothWays(env: Env, declared: Option<nat>, bytes: Bytes) returns (chunks: seq<Bytes>)
    requires Admitted(declared) && RefusedWhole(bytes) && ReadablePart(env, bytes).Ended?
    ensures Concat(chunks) == bytes
    ensures Outcome(env, declared, [bytes]) == Err(INVALID_RESPONSE)
    ensures Outcome(env, declared, chunks) == ReadablePart(env, bytes).result
  {
    hide Sse.Feed, ApplyAll;
    var readable := Readable(bytes, Sse.MAXIMUM_RESPONSE_BYTES);
    var k := |readable|;
    if Sse.Feed("", readable).failed {
      k := CutBeforeFailure("", readable);
    }
    assert readable[..k] == bytes[..k];
    chunks := [bytes[..k], bytes[k..]];
    assert Concat(chunks) == bytes by {
      assert chunks[1..] == [bytes[k..]];
      ConcatOne(bytes[k..]);
    }
    assert [] + bytes[..k] == bytes[..k];
    if |bytes| <= Sse.MAXIMUM_RESPONSE_BYTES {
      assert [] + bytes == bytes == readable;
    } else {
      assert readable[..|readable|] == readable;
    }
  }
}
