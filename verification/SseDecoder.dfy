/** The incremental server-sent-event decoder of the Anthropic adapter: bytes to lines to event
    data, with a compacting buffer and a bound on the whole response. */
module SseDecoder {
  import opened Basics
  import opened ProviderTypes
  import opened Utf8

  const MAXIMUM_RESPONSE_BYTES: nat := 8 * 1024 * 1024
  const COMPACTION_THRESHOLD: nat := 64 * 1024
  const LF: Byte := 0x0A
  const CR: Byte := 0x0D
  const SPACE: Byte := 0x20
  const DATA_FIELD: Bytes := [0x64, 0x61, 0x74, 0x61, 0x3A]

  // ----- One line --------------------------------------------------------------------------

  function StripCr(line: Bytes): Bytes {
    if line != [] && line[|line| - 1] == CR then line[..|line| - 1] else line
  }

  function StripSpace(value: Bytes): Bytes {
    if value != [] && value[0] == SPACE then value[1..] else value
  }

  /** A further `data:` value joined onto the accumulated event data. */
  function AppendValue(data: string, value: string): string {
    if data == "" then value else data + "\n" + value
  }

  datatype LineEffect = LineEffect(data: string, events: seq<string>)

  /** What one line does to the accumulated data; `None` for data that is not UTF-8. */
  function LineStep(data: string, line: Bytes): Option<LineEffect> {
    var line := StripCr(line);
    if line == [] then
      Some(if data == "" then LineEffect("", []) else LineEffect("", [data]))
    else if !(DATA_FIELD <= line) then
      Some(LineEffect(data, []))
    else
      var value := Decode(StripSpace(line[|DATA_FIELD|..]));
      if value.None? then None else Some(LineEffect(AppendValue(data, value.value), []))
  }

  // ----- Many lines ------------------------------------------------------------------------

  function FirstLf(bytes: Bytes): (i: nat)
    ensures i <= |bytes|
    ensures forall k :: 0 <= k < i ==> bytes[k] != LF
    ensures i < |bytes| ==> bytes[i] == LF
  {
    if bytes == [] || bytes[0] == LF then 0 else 1 + FirstLf(bytes[1..])
  }

  lemma {:induction false} FirstLfUnique(bytes: Bytes, i: nat)
    requires i <= |bytes|
    requires forall k :: 0 <= k < i ==> bytes[k] != LF
    requires i < |bytes| ==> bytes[i] == LF
    ensures FirstLf(bytes) == i
  {
  }

  /** The effect of feeding bytes: accumulated data, events in order, the unterminated rest, and
      whether a line failed. A failed feed keeps the events of the lines before the bad one. */
  datatype Fed = Fed(data: string, events: seq<string>, rest: Bytes, failed: bool)

  function Prepend(events: seq<string>, f: Fed): Fed {
    f.(events := events + f.events)
  }

  function Feed(data: string, bytes: Bytes): (f: Fed)
    ensures !f.failed ==> LF !in f.rest
    decreases |bytes|
  {
    var i := FirstLf(bytes);
    if i == |bytes| then
      Fed(data, [], bytes, false)
    else
      var effect := LineStep(data, bytes[..i]);
      if effect.None? then
        Fed("", [], [], true)
      else
        Prepend(effect.value.events, Feed(effect.value.data, bytes[i + 1..]))
  }

  /** The first line fed on its own. */
  lemma FeedCons(data: string, bytes: Bytes, i: nat)
    requires i < |bytes| && FirstLf(bytes) == i
    ensures var effect := LineStep(data, bytes[..i]);
            Feed(data, bytes)
            == if effect.None? then Fed("", [], [], true)
               else Prepend(effect.value.events, Feed(effect.value.data, bytes[i + 1..]))
  {
    hide LineStep, Prepend, FirstLf;
  }

  lemma PrependTwice(x: seq<string>, y: seq<string>, f: Fed)
    ensures Prepend(x, Prepend(y, f)) == Prepend(x + y, f)
  {
  }

  lemma PrependNothing(f: Fed)
    ensures Prepend([], f) == f
  {
  }

  /** Feeding in two parts is feeding the whole; a failure in the first part is the failure of the
      whole, with the same events before it. */
  lemma {:induction false} FeedAppend(data: string, a: Bytes, b: Bytes)
    ensures var f := Feed(data, a);
            Feed(data, a + b) == if f.failed then f else Prepend(f.events, Feed(f.data, f.rest + b))
    decreases |a|
  {
    hide Feed, LineStep, Prepend;
    var i := FirstLf(a);
    if i == |a| {
      FeedNoLf(data, a);
      PrependNothing(Feed(data, a + b));
    } else {
      FirstLfUnique(a + b, i);
      FeedCons(data, a, i);
      FeedCons(data, a + b, i);
      assert (a + b)[..i] == a[..i];
      assert (a + b)[i + 1..] == a[i + 1..] + b;
      var effect := LineStep(data, a[..i]);
      if effect.Some? {
        FeedAppend(effect.value.data, a[i + 1..], b);
        PrependParts(effect.value.events, Feed(effect.value.data, a[i + 1..]));
        var inner := Feed(effect.value.data, a[i + 1..]);
        PrependTwice(effect.value.events, inner.events, Feed(inner.data, inner.rest + b));
      }
    }
  }

  lemma PrependParts(x: seq<string>, f: Fed)
    ensures Prepend(x, f) == Fed(f.data, x + f.events, f.rest, f.failed)
  {
  }

  /** The first line of a slice of the buffer, fed on its own. */
  lemma FeedLine(data: string, buffer: Bytes, from: nat, end: nat)
    requires from <= end < |buffer| && FirstLf(buffer[from..]) == end - from
    ensures var effect := LineStep(data, buffer[from..end]);
            Feed(data, buffer[from..])
            == if effect.None? then Fed("", [], [], true)
               else Prepend(effect.value.events, Feed(effect.value.data, buffer[end + 1..]))
  {
    hide LineStep, Feed;
    FeedCons(data, buffer[from..], end - from);
    assert buffer[from..][..end - from] == buffer[from..end];
    assert buffer[from..][end - from + 1..] == buffer[end + 1..];
  }

  lemma FeedNoLf(data: string, bytes: Bytes)
    requires LF !in bytes
    ensures Feed(data, bytes) == Fed(data, [], bytes, false)
  {
  }

  // ----- The decoder as a value ------------------------------------------------------------

  datatype State = State(rest: Bytes, data: string, observed: U64)

  const INITIAL := State([], "", 0)

  ghost predicate Live(s: State) {
    LF !in s.rest && s.observed <= MAXIMUM_RESPONSE_BYTES
  }

  datatype Pushed = Pushed(state: State, events: seq<string>, ok: bool)

  function Observe(s: State, chunk: Bytes): U64 {
    SaturatingAdd(s.observed, Min(|chunk|, U64_MAX))
  }

  function PushStep(s: State, chunk: Bytes): (p: Pushed)
    ensures p.ok ==> Live(p.state)
  {
    var observed := Observe(s, chunk);
    if observed > MAXIMUM_RESPONSE_BYTES then
      Pushed(s.(observed := observed), [], false)
    else
      var f := Feed(s.data, s.rest + chunk);
      Pushed(State(f.rest, f.data, observed), f.events, !f.failed)
  }

  function FinishStep(s: State): Result<seq<string>, ProviderError> {
    var last := if s.rest == [] then Some(LineEffect(s.data, [])) else LineStep(s.data, s.rest);
    if last.None? then
      Err(INVALID_RESPONSE)
    else
      Ok(last.value.events + if last.value.data == "" then [] else [last.value.data])
  }

  function After(events: seq<string>, r: Result<seq<string>, ProviderError>)
    : Result<seq<string>, ProviderError>
  {
    if r.Ok? then Ok(events + r.value) else r
  }

  /** Pushing chunks one after another and finishing. */
  function DecodeChunks(s: State, chunks: seq<Bytes>): Result<seq<string>, ProviderError>
    decreases |chunks|
  {
    if chunks == [] then
      FinishStep(s)
    else
      var p := PushStep(s, chunks[0]);
      if p.ok then After(p.events, DecodeChunks(p.state, chunks[1..])) else Err(INVALID_RESPONSE)
  }

  /** One push of everything, then finishing. */
  function DecodeWhole(s: State, bytes: Bytes): Result<seq<string>, ProviderError> {
    var p := PushStep(s, bytes);
    if p.ok then After(p.events, FinishStep(p.state)) else Err(INVALID_RESPONSE)
  }

  lemma WholeAfterPush(s: State, a: Bytes, b: Bytes)
    requires Live(s)
    ensures var p := PushStep(s, a);
            DecodeWhole(s, a + b)
            == if p.ok then After(p.events, DecodeWhole(p.state, b)) else Err(INVALID_RESPONSE)
  {
    hide Feed, FinishStep;
    FeedAppend(s.data, s.rest + a, b);
    assert s.rest + (a + b) == (s.rest + a) + b;
    var p := PushStep(s, a);
    if p.ok {
      var q := PushStep(p.state, b);
      if q.ok {
        var final := FinishStep(q.state);
        if final.Ok? {
          assert (p.events + q.events) + final.value == p.events + (q.events + final.value);
        }
      }
    }
  }

  lemma {:induction false} ChunksAreWhole(s: State, chunks: seq<Bytes>)
    requires Live(s)
    ensures DecodeChunks(s, chunks) == DecodeWhole(s, Concat(chunks))
    decreases |chunks|
  {
    hide Feed, FinishStep;
    if chunks == [] {
      assert s.rest + [] == s.rest;
      FeedNoLf(s.data, s.rest);
      assert PushStep(s, []) == Pushed(s, [], true);
      if FinishStep(s).Ok? {
        assert [] + FinishStep(s).value == FinishStep(s).value;
      }
    } else {
      WholeAfterPush(s, chunks[0], Concat(chunks[1..]));
      var p := PushStep(s, chunks[0]);
      if p.ok {
        ChunksAreWhole(p.state, chunks[1..]);
      }
    }
  }

  /** However a byte string is cut, decoding it yields the events, or the failure, of decoding it
      in one piece. */
  lemma ChunkingIndependent(chunks: seq<Bytes>)
    ensures DecodeChunks(INITIAL, chunks) == DecodeChunks(INITIAL, [Concat(chunks)])
  {
    ChunksAreWhole(INITIAL, chunks);
    ChunksAreWhole(INITIAL, [Concat(chunks)]);
    assert Concat([Concat(chunks)]) == Concat(chunks) + Concat([Concat(chunks)][1..]);
  }

  // ----- The decoder as the source writes it -------------------------------------------------

  method FindNewline(bytes: Bytes, from: nat) returns (at: Option<nat>)
    requires from <= |bytes|
    ensures at.None? ==> FirstLf(bytes[from..]) == |bytes| - from
    ensures at.Some? ==> from <= at.value < |bytes| && FirstLf(bytes[from..]) == at.value - from
  {
    var i := from;
    while i < |bytes|
      invariant from <= i <= |bytes|
      invariant forall k :: from <= k < i ==> bytes[k] != LF
    {
      if bytes[i] == LF {
        FirstLfUnique(bytes[from..], i - from);
        return Some(i);
      }
      i := i + 1;
    }
    FirstLfUnique(bytes[from..], |bytes| - from);
    at := None;
  }

  class Decoder {
    var buffer: Bytes
    var cursor: nat
    var data: string
    var observedBytes: U64

    ghost predicate Valid()
      reads this
    {
      cursor <= |buffer|
    }

    /** What the compacted part of the buffer never reaches. */
    ghost function Abstract(): State
      requires Valid()
      reads this
    {
      State(buffer[cursor..], data, observedBytes)
    }

    constructor ()
      ensures Valid() && Abstract() == INITIAL
    {
      buffer := [];
      cursor := 0;
      data := "";
      observedBytes := 0;
    }

    method ConsumeLine(line: Bytes, events: seq<string>) returns (r: Result<seq<string>, ProviderError>)
      modifies this`data
      ensures var effect := LineStep(old(data), line);
              if effect.Some? then r == Ok(events + effect.value.events) && data == effect.value.data
              else r == Err(INVALID_RESPONSE)
    {
      hide Decode;
      assert events + [] == events;
      var line := StripCr(line);
      if line == [] {
        if data != "" {
          r := Ok(events + [data]);
          data := "";
        } else {
          r := Ok(events);
        }
        return;
      }
      if !(DATA_FIELD <= line) {
        return Ok(events);
      }
      var value := Decode(StripSpace(line[|DATA_FIELD|..]));
      if value.None? {
        return Err(INVALID_RESPONSE);
      }
      if data != "" {
        data := data + "\n";
      }
      data := data + value.value;
      r := Ok(events);
    }

    /** Consumes every complete line past the cursor. */
    method DrainLines() returns (r: Result<seq<string>, ProviderError>)
      requires Valid()
      modifies this`cursor, this`data
      ensures Valid()
      ensures var f := Feed(old(data), old(buffer[cursor..]));
              && (f.failed ==> r == Err(INVALID_RESPONSE))
              && (!f.failed ==> r == Ok(f.events) && data == f.data && buffer[cursor..] == f.rest)
    {
      hide LineStep, Feed, Prepend, FirstLf;
      ghost var whole := Feed(data, buffer[cursor..]);
      var events: seq<string> := [];
      PrependNothing(whole);
      var at := FindNewline(buffer, cursor);
      while at.Some?
        invariant cursor <= |buffer|
        invariant at.Some? ==> cursor <= at.value < |buffer|
        invariant at.Some? ==> FirstLf(buffer[cursor..]) == at.value - cursor
        invariant at.None? ==> FirstLf(buffer[cursor..]) == |buffer| - cursor
        invariant whole == Prepend(events, Feed(data, buffer[cursor..]))
        decreases |buffer| - cursor
      {
        var end := at.value;
        FeedLine(data, buffer, cursor, end);
        ghost var effect := LineStep(data, buffer[cursor..end]);
        PrependParts(events, Feed(data, buffer[cursor..]));
        if effect.Some? {
          PrependTwice(events, effect.value.events, Feed(effect.value.data, buffer[end + 1..]));
        }
        var line := buffer[cursor..end];
        cursor := end + 1;
        var consumed := ConsumeLine(line, events);
        if consumed.Err? {
          return consumed;
        }
        events := consumed.value;
        at := FindNewline(buffer, cursor);
      }
      assert LF !in buffer[cursor..];
      FeedNoLf(data, buffer[cursor..]);
      PrependParts(events, Feed(data, buffer[cursor..]));
      assert events + [] == events;
      r := Ok(events);
    }

    /** A push refines `PushStep` whether or not it compacts, and leaves less than the compaction
        threshold of consumed bytes behind. */
    method Push(chunk: Bytes) returns (r: Result<seq<string>, ProviderError>)
      requires Valid()
      modifies this
      ensures Valid()
      ensures var p := PushStep(old(Abstract()), chunk);
              && (p.ok ==> r == Ok(p.events) && Abstract() == p.state)
              && (!p.ok ==> r == Err(INVALID_RESPONSE))
      ensures r.Ok? ==> cursor < COMPACTION_THRESHOLD
    {
      hide Feed;
      observedBytes := SaturatingAdd(observedBytes, Min(|chunk|, U64_MAX));
      if observedBytes > MAXIMUM_RESPONSE_BYTES {
        return Err(INVALID_RESPONSE);
      }
      buffer := buffer + chunk;
      assert buffer[cursor..] == old(buffer[cursor..]) + chunk;
      r := DrainLines();
      if r.Ok? && cursor >= COMPACTION_THRESHOLD {
        buffer := buffer[cursor..];
        cursor := 0;
      }
    }

    method Finish() returns (r: Result<seq<string>, ProviderError>)
      requires Valid()
      modifies this
      ensures r == FinishStep(old(Abstract()))
    {
      hide LineStep;
      ghost var last := LineStep(data, buffer[cursor..]);
      assert last.Some? ==> [] + last.value.events == last.value.events;
      var events: seq<string> := [];
      if cursor < |buffer| {
        var consumed := ConsumeLine(buffer[cursor..], events);
        if consumed.Err? {
          return consumed;
        }
        events := consumed.value;
      }
      assert events + [] == events;
      if data != "" {
        events := events + [data];
        data := "";
      }
      r := Ok(events);
    }
  }

  // ----- Framing and decoding back -----------------------------------------------------------

  function SplitLines(e: string): (lines: seq<string>)
    ensures lines != []
    ensures forall l :: l in lines ==> '\n' !in l
  {
    if e == "" then
      [""]
    else
      var rest := SplitLines(e[1..]);
      if e[0] == '\n' then [""] + rest else [[e[0]] + rest[0]] + rest[1..]
  }

  function FrameLine(l: string): Bytes {
    DATA_FIELD + [SPACE] + Encode(l) + [LF]
  }

  function FrameLines(lines: seq<string>): Bytes {
    if lines == [] then [] else FrameLine(lines[0]) + FrameLines(lines[1..])
  }

  /** An event written in the server-sent-event format: one `data:` line per line of it, then a
      blank line. */
  function Frame(e: string): Bytes {
    FrameLines(SplitLines(e)) + [LF]
  }

  function Chomp(l: string): string {
    if l != "" && l[|l| - 1] == '\r' then l[..|l| - 1] else l
  }

  /** The accumulated data after a list of framed lines. */
  function Joined(data: string, lines: seq<string>): string
    decreases |lines|
  {
    if lines == [] then data else Joined(AppendValue(data, Chomp(lines[0])), lines[1..])
  }

  lemma {:induction false} EncodeHasNoLf(l: string)
    requires '\n' !in l
    ensures LF !in Encode(l)
  {
    if l != "" {
      EncodeHasNoLf(l[1..]);
      assert LF !in CharBytes(l[0]);
    }
  }

  lemma {:induction false} EncodeLast(l: string)
    requires l != ""
    ensures Encode(l)[|Encode(l)| - 1] == CR <==> l[|l| - 1] == '\r'
    ensures l[|l| - 1] == '\r' ==> Encode(l)[..|Encode(l)| - 1] == Encode(l[..|l| - 1])
  {
    PrefixStep(l, |l| - 1);
    assert l[..|l|] == l;
    assert CharBytes('\r') == [CR];
  }

  lemma StripFramed(l: string)
    ensures StripCr(DATA_FIELD + [SPACE] + Encode(l)) == DATA_FIELD + [SPACE] + Encode(Chomp(l))
  {
    var line := DATA_FIELD + [SPACE] + Encode(l);
    if l == "" {
      assert line == DATA_FIELD + [SPACE];
    } else {
      EncodeLast(l);
      assert line[|line| - 1] == Encode(l)[|Encode(l)| - 1];
      assert line[..|line| - 1] == DATA_FIELD + [SPACE] + Encode(l)[..|Encode(l)| - 1];
    }
  }

  lemma FramedLineStep(data: string, l: string)
    ensures LineStep(data, DATA_FIELD + [SPACE] + Encode(l))
         == Some(LineEffect(AppendValue(data, Chomp(l)), []))
  {
    hide Decode, Encode, StripCr;
    StripFramed(l);
    var line := DATA_FIELD + [SPACE] + Encode(Chomp(l));
    assert line[|DATA_FIELD|..] == [SPACE] + Encode(Chomp(l));
    assert StripSpace(line[|DATA_FIELD|..]) == Encode(Chomp(l));
    DecodeEncode(Chomp(l));
  }

  lemma FeedFramedLine(data: string, l: string, rest: Bytes)
    requires '\n' !in l
    ensures Feed(data, FrameLine(l) + rest) == Feed(AppendValue(data, Chomp(l)), rest)
  {
    EncodeHasNoLf(l);
    var line := DATA_FIELD + [SPACE] + Encode(l);
    var bytes := FrameLine(l) + rest;
    FirstLfUnique(bytes, |line|);
    assert bytes[..|line|] == line;
    assert bytes[|line| + 1..] == rest;
    FramedLineStep(data, l);
  }

  lemma {:induction false} FeedFramedLines(data: string, lines: seq<string>, rest: Bytes)
    requires forall l :: l in lines ==> '\n' !in l
    ensures Feed(data, FrameLines(lines) + rest) == Feed(Joined(data, lines), rest)
    decreases |lines|
  {
    if lines == [] {
      assert FrameLines(lines) + rest == rest;
    } else {
      assert FrameLines(lines) + rest == FrameLine(lines[0]) + (FrameLines(lines[1..]) + rest);
      FeedFramedLine(data, lines[0], FrameLines(lines[1..]) + rest);
      FeedFramedLines(AppendValue(data, Chomp(lines[0])), lines[1..], rest);
    }
  }

  lemma FeedFrame(e: string, rest: Bytes)
    ensures var data := Joined("", SplitLines(e));
            Feed("", Frame(e) + rest) == Prepend(if data == "" then [] else [data], Feed("", rest))
  {
    var data := Joined("", SplitLines(e));
    assert Frame(e) + rest == FrameLines(SplitLines(e)) + ([LF] + rest);
    FeedFramedLines("", SplitLines(e), [LF] + rest);
    FirstLfUnique([LF] + rest, 0);
    assert ([LF] + rest)[1..] == rest;
  }

  /** The events that survive the format: not empty, not starting with a newline (an empty first
      line is indistinguishable from no data), and no line ending in a carriage return. */
  predicate Framable(e: string) {
    && e != ""
    && e[0] != '\n'
    && forall l :: l in SplitLines(e) ==> Chomp(l) == l
  }

  function TotalLength(lines: seq<string>): nat {
    if lines == [] then 0 else |lines[0]| + 1 + TotalLength(lines[1..])
  }

  /** Lines after the first, each with the newline before it. */
  function Glue(lines: seq<string>): string {
    if lines == [] then "" else "\n" + lines[0] + Glue(lines[1..])
  }

  lemma {:induction false} SplitGlue(e: string)
    ensures SplitLines(e)[0] + Glue(SplitLines(e)[1..]) == e
  {
    if e != "" {
      var rest := SplitLines(e[1..]);
      var lines := SplitLines(e);
      SplitGlue(e[1..]);
      assert e == [e[0]] + e[1..];
      if e[0] == '\n' {
        assert lines[0] == "" && lines[1..] == rest;
        assert Glue(rest) == "\n" + rest[0] + Glue(rest[1..]) == "\n" + e[1..];
      } else {
        assert lines[0] == [e[0]] + rest[0] && lines[1..] == rest[1..];
        assert lines[0] + Glue(lines[1..]) == [e[0]] + e[1..];
      }
    }
  }

  lemma {:induction false} SplitLength(e: string)
    ensures TotalLength(SplitLines(e)) == |e| + 1
  {
    if e != "" {
      SplitLength(e[1..]);
      var rest := SplitLines(e[1..]);
      assert SplitLines(e)[1..] == if e[0] == '\n' then rest else rest[1..];
    }
  }

  lemma {:induction false} JoinedLength(data: string, lines: seq<string>)
    ensures |Joined(data, lines)| <= |data| + TotalLength(lines)
    ensures data == "" && lines != [] ==> |Joined(data, lines)| <= TotalLength(lines) - 1
    decreases |lines|
  {
    if lines != [] {
      JoinedLength(AppendValue(data, Chomp(lines[0])), lines[1..]);
    }
  }

  lemma {:induction false} JoinedShorter(data: string, lines: seq<string>, l: string)
    requires l in lines && Chomp(l) != l
    ensures |Joined(data, lines)| < |data| + TotalLength(lines)
    decreases |lines|
  {
    var next := AppendValue(data, Chomp(lines[0]));
    if l == lines[0] {
      JoinedLength(next, lines[1..]);
    } else {
      assert l in lines[1..];
      JoinedShorter(next, lines[1..], l);
    }
  }

  lemma {:induction false} JoinedGlue(data: string, lines: seq<string>)
    requires data != "" && forall l :: l in lines ==> Chomp(l) == l
    ensures Joined(data, lines) == data + Glue(lines)
    decreases |lines|
  {
    hide Chomp;
    if lines != [] {
      var next := data + "\n" + lines[0];
      assert Chomp(lines[0]) == lines[0];
      assert Joined(data, lines) == Joined(next, lines[1..]);
      JoinedGlue(next, lines[1..]);
      var rest := Glue(lines[1..]);
      assert Glue(lines) == "\n" + lines[0] + rest;
      assert data + "\n" + lines[0] + rest == data + ("\n" + lines[0] + rest);
    }
  }

  lemma SplitFirst(e: string)
    requires e != ""
    ensures SplitLines(e)[0] == "" <==> e[0] == '\n'
  {
  }

  lemma JoinedIff(e: string)
    requires e != ""
    ensures Joined("", SplitLines(e)) == e <==> Framable(e)
  {
    hide SplitLines, Glue, Chomp;
    var lines := SplitLines(e);
    var first := Chomp(lines[0]);
    SplitGlue(e);
    SplitLength(e);
    SplitFirst(e);
    assert Joined("", lines) == Joined(first, lines[1..]);
    assert TotalLength(lines) == |lines[0]| + 1 + TotalLength(lines[1..]);
    if Framable(e) {
      assert forall l :: l in lines[1..] ==> l in lines;
      JoinedGlue(first, lines[1..]);
    } else if e[0] == '\n' {
      ChompShorter(lines[0]);
      JoinedLength(first, lines[1..]);
    } else {
      var l :| l in lines && Chomp(l) != l;
      ChompShorter(lines[0]);
      if l == lines[0] {
        JoinedLength(first, lines[1..]);
      } else {
        assert l in lines[1..];
        JoinedShorter(first, lines[1..], l);
      }
    }
  }

  lemma ChompShorter(l: string)
    ensures |Chomp(l)| <= |l|
    ensures Chomp(l) != l ==> |Chomp(l)| < |l|
  {
  }

  /** Round trip of one event, with the exact condition under which it holds. */
  lemma FrameRoundTripIff(e: string)
    ensures Feed("", Frame(e)) == Fed("", [e], [], false) <==> Framable(e)
  {
    hide Feed, Frame, SplitLines, Joined;
    FeedFrame(e, []);
    assert Frame(e) + [] == Frame(e);
    FeedNoLf("", []);
    var data := Joined("", SplitLines(e));
    assert Feed("", Frame(e)).events == if data == "" then [] else [data];
    if e != "" {
      JoinedIff(e);
    }
  }

  /** Neither a carriage return at the end of a line nor a leading empty line survives. */
  lemma FrameLoses()
    ensures Feed("", Frame("a\r")) != Fed("", ["a\r"], [], false)
    ensures Feed("", Frame("\na")) != Fed("", ["\na"], [], false)
  {
    hide Feed, Frame;
    FrameRoundTripIff("a\r");
    FrameRoundTripIff("\na");
    assert "a\r"[1..] == "\r" && "\r"[1..] == "";
    assert ['\r'] + "" == "\r" && ['a'] + "\r" == "a\r";
    assert SplitLines("\r") == [['\r'] + ""] + [""][1..] == ["\r"];
    assert SplitLines("a\r") == [['a'] + "\r"] + ["\r"][1..] == ["a\r"];
    assert "a\r" in SplitLines("a\r");
  }

  function Frames(es: seq<string>): Bytes {
    if es == [] then [] else Frame(es[0]) + Frames(es[1..])
  }

  lemma FramableJoined(e: string)
    requires Framable(e)
    ensures e != "" && Joined("", SplitLines(e)) == e
  {
    hide SplitLines, Joined;
    JoinedIff(e);
  }

  lemma {:induction false} FeedFrames(es: seq<string>)
    requires forall e :: e in es ==> Framable(e)
    ensures Feed("", Frames(es)) == Fed("", es, [], false)
    decreases |es|
  {
    hide Feed, Frame, SplitLines, Joined, Framable;
    if es == [] {
      FeedNoLf("", []);
    } else {
      FeedFrame(es[0], Frames(es[1..]));
      FramableJoined(es[0]);
      FeedFrames(es[1..]);
      assert [es[0]] + es[1..] == es;
    }
  }

  /** A server that frames any list of framable events, sent in any chunks, is decoded back to that
      list. */
  lemma FramedStreamDecodes(es: seq<string>, chunks: seq<Bytes>)
    requires forall e :: e in es ==> Framable(e)
    requires Concat(chunks) == Frames(es) && |Frames(es)| <= MAXIMUM_RESPONSE_BYTES
    ensures DecodeChunks(INITIAL, chunks) == Ok(es)
  {
    hide Feed, Frames, Framable, DecodeChunks;
    ChunksAreWhole(INITIAL, chunks);
    FeedFrames(es);
    assert [] + Frames(es) == Frames(es);
    assert es + [] == es;
  }
}
