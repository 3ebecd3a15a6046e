/** What holds over every run of stream events: the assembled blocks are the blocks the events
    spell, index by index; byte counts and bounds; which runs are accepted; and the streamed
    answer against the non-streaming decoder. */
module StreamRuns {
  import opened Basics
  import opened Json
  import opened ProviderDecision
  import opened ProviderTypes
  import opened StreamAssembler
  import Utf8

  /** The state after a history of accepted events without an output, if it is one. */
  ghost function Reach(env: Env, h: seq<Event>): Option<State> {
    if h == [] then
      Some(INITIAL)
    else
      var before := Reach(env, h[..|h| - 1]);
      if before.None? then None else
      var r := Step(env, before.value, h[|h| - 1]);
      if r.Ok? && r.value.output.None? then Some(r.value.state) else None
  }

  /** All text reported as progress along a history. */
  ghost function Emitted(env: Env, h: seq<Event>): string {
    if h == [] then
      ""
    else
      var before := Reach(env, h[..|h| - 1]);
      var last := if before.None? then REFUSED else Step(env, before.value, h[|h| - 1]);
      Emitted(env, h[..|h| - 1]) + if last.Ok? then last.value.emitted else ""
  }

  // ----- What a history says about one block --------------------------------------------------

  function Opened(h: seq<Event>): set<nat> {
    set k | 0 <= k < |h| && h[k].BlockStart? :: h[k].index
  }

  function Closed(h: seq<Event>): set<nat> {
    set k | 0 <= k < |h| && h[k].BlockStop? :: h[k].index
  }

  /** The block an index was last opened with. */
  function Opening(h: seq<Event>, i: nat): Option<StreamBlock> {
    if h == [] then None
    else if h[|h| - 1].BlockStart? && h[|h| - 1].index == i then Some(h[|h| - 1].block)
    else Opening(h[..|h| - 1], i)
  }

  function TextFragment(e: Event, i: nat): string {
    if e.BlockDelta? && e.index == i && e.delta.TextDelta? && e.delta.text.Some? then e.delta.text.value else ""
  }

  function InputFragment(e: Event, i: nat): string {
    if e.BlockDelta? && e.index == i && e.delta.InputDelta? && e.delta.partial.Some? then e.delta.partial.value else ""
  }

  /** All text fragments of an index, joined. */
  function TextOf(h: seq<Event>, i: nat): string {
    if h == [] then "" else TextOf(h[..|h| - 1], i) + TextFragment(h[|h| - 1], i)
  }

  function InputOf(h: seq<Event>, i: nat): string {
    if h == [] then "" else InputOf(h[..|h| - 1], i) + InputFragment(h[|h| - 1], i)
  }

  /** The block an index spells: its opening with its fragments appended. */
  function BlockOf(h: seq<Event>, i: nat): StreamBlock {
    match Opening(h, i)
    case Some(Text(text)) => Text(text + TextOf(h, i))
    case Some(Tool(name, partial)) => Tool(name, partial + InputOf(h, i))
    case _ => Unsupported
  }

  /** Text bytes that arrived in block openings rather than in deltas. */
  function OpeningBytes(h: seq<Event>): nat {
    if h == [] then 0
    else OpeningBytes(h[..|h| - 1]) + if h[|h| - 1].BlockStart? then TextSize(h[|h| - 1].block) else 0
  }

  // ----- Bytes of all blocks ---------------------------------------------------------------------

  ghost function BlockBytes(blocks: map<nat, StreamBlock>): nat
    decreases |blocks|
  {
    if blocks == map[] then
      0
    else
      var k := Least(blocks.Keys);
      assert (blocks - {k}).Keys == blocks.Keys - {k};
      TextSize(blocks[k]) + BlockBytes(blocks - {k})
  }

  lemma {:induction false} BlockBytesRemove(blocks: map<nat, StreamBlock>, i: nat)
    requires i in blocks
    ensures BlockBytes(blocks) == TextSize(blocks[i]) + BlockBytes(blocks - {i})
    decreases |blocks|
  {
    hide TextSize;
    var k := Least(blocks.Keys);
    if i != k {
      var less := blocks - {k};
      assert less.Keys == blocks.Keys - {k};
      BlockBytesRemove(less, i);
      var both := blocks - {i};
      assert both.Keys == blocks.Keys - {i};
      BlockBytesRemove(both, k);
      assert less - {i} == both - {k};
    }
  }

  lemma BlockBytesUpdate(blocks: map<nat, StreamBlock>, i: nat, block: StreamBlock)
    ensures BlockBytes(blocks[i := block])
         == BlockBytes(blocks) + TextSize(block) - if i in blocks then TextSize(blocks[i]) else 0
  {
    hide TextSize, BlockBytes;
    var updated := blocks[i := block];
    BlockBytesRemove(updated, i);
    if i in blocks {
      BlockBytesRemove(blocks, i);
    }
    assert updated - {i} == blocks - {i};
    assert i !in blocks ==> blocks - {i} == blocks;
  }

  /** The text of all blocks in index order has as many bytes as the blocks together. */
  lemma {:induction false} OrderedTextBytes(blocks: map<nat, StreamBlock>)
    ensures Utf8.Len(AllText(Ordered(blocks))) == BlockBytes(blocks)
    decreases |blocks|
  {
    if blocks != map[] {
      var k := Least(blocks.Keys);
      assert (blocks - {k}).Keys == blocks.Keys - {k};
      OrderedTextBytes(blocks - {k});
      var text := if blocks[k].Text? then blocks[k].text else "";
      Utf8.EncodeAppend(text, AllText(Ordered(blocks - {k})));
      assert Ordered(blocks)[1..] == Ordered(blocks - {k});
    }
  }

  // ----- The invariant of every reachable state -----------------------------------------------

  ghost predicate SpeltBy(s: State, h: seq<Event>) {
    && s.blocks.Keys == Opened(h)
    && s.stopped == Closed(h)
    && (forall i :: i in s.blocks ==> s.blocks[i] == BlockOf(h, i) && Opening(h, i).Some?)
    && (forall i: nat :: i !in s.blocks ==> TextOf(h, i) == "" && InputOf(h, i) == "" && Opening(h, i).None?)
  }

  lemma SetsSnoc(h: seq<Event>, e: Event)
    ensures Opened(h + [e]) == Opened(h) + OpenedBy(e)
    ensures Closed(h + [e]) == Closed(h) + ClosedBy(e)
  {
    var g := h + [e];
    assert forall k :: 0 <= k < |h| ==> g[k] == h[k];
    assert g[|h|] == e;
    assert Opened(g) == Opened(h) + OpenedBy(e) by {
      forall i | i in Opened(h)
        ensures i in Opened(g)
      {
        var k :| 0 <= k < |h| && h[k].BlockStart? && h[k].index == i;
        assert g[k].BlockStart? && g[k].index == i;
      }
    }
    assert Closed(g) == Closed(h) + ClosedBy(e) by {
      forall i | i in Closed(h)
        ensures i in Closed(g)
      {
        var k :| 0 <= k < |h| && h[k].BlockStop? && h[k].index == i;
        assert g[k].BlockStop? && g[k].index == i;
      }
    }
  }

  lemma HistorySnoc(h: seq<Event>, e: Event, i: nat)
    ensures var g := h + [e];
            && TextOf(g, i) == TextOf(h, i) + TextFragment(e, i)
            && InputOf(g, i) == InputOf(h, i) + InputFragment(e, i)
            && Opening(g, i) == if e.BlockStart? && e.index == i then Some(e.block) else Opening(h, i)
  {
  }

  lemma HistorySnocAll(h: seq<Event>, e: Event)
    ensures forall i: nat :: Opening(h + [e], i) == if e.BlockStart? && e.index == i then Some(e.block) else Opening(h, i)
    ensures forall i: nat :: TextFragment(e, i) == "" ==> TextOf(h + [e], i) == TextOf(h, i)
    ensures forall i: nat :: InputFragment(e, i) == "" ==> InputOf(h + [e], i) == InputOf(h, i)
  {
  }

  function OpenedBy(e: Event): set<nat> {
    if e.BlockStart? then {e.index} else {}
  }

  function ClosedBy(e: Event): set<nat> {
    if e.BlockStop? then {e.index} else {}
  }

  /** An accepted event that is neither an opening nor a fragment leaves every block alone. */
  lemma SpeltUnchanged(s: State, t: State, h: seq<Event>, e: Event)
    requires SpeltBy(s, h) && t.blocks == s.blocks
    requires !e.BlockStart? && !e.BlockDelta?
    requires t.stopped == s.stopped + ClosedBy(e)
    ensures SpeltBy(t, h + [e])
  {
    hide Opening, TextOf, InputOf, Opened, Closed;
    SetsSnoc(h, e);
    HistorySnocAll(h, e);
  }

  lemma SpeltStart(s: State, h: seq<Event>, index: U64, block: StreamBlock)
    requires SpeltBy(s, h) && index !in s.blocks
    requires block.Tool? ==> block.partialInput == ""
    ensures SpeltBy(s.(blocks := s.blocks[index := block], textBytes := s.textBytes + TextSize(block)),
                    h + [BlockStart(index, block)])
  {
    hide Opening, TextOf, InputOf, Opened, Closed, TextSize;
    var e := BlockStart(index, block);
    SetsSnoc(h, e);
    HistorySnocAll(h, e);
    assert block.Text? ==> block.text + "" == block.text;
    assert block.Tool? ==> block.partialInput + "" == block.partialInput;
  }

  /** One block replaced by what its new fragment makes of it. */
  lemma SpeltDelta(s: State, t: State, h: seq<Event>, index: U64, delta: Delta)
    requires SpeltBy(s, h) && index in s.blocks && t.stopped == s.stopped
    requires t.blocks == s.blocks[index := BlockOf(h + [BlockDelta(index, delta)], index)]
    ensures SpeltBy(t, h + [BlockDelta(index, delta)])
  {
    hide Opening, TextOf, InputOf, Opened, Closed;
    var e := BlockDelta(index, delta);
    SetsSnoc(h, e);
    HistorySnocAll(h, e);
  }

  lemma DeltaBlock(s: State, h: seq<Event>, index: U64, delta: Delta)
    requires SpeltBy(s, h) && index in s.blocks && ApplyDelta(s, index, delta).Ok?
    ensures var t := ApplyDelta(s, index, delta).value.state;
            t.blocks == s.blocks[index := BlockOf(h + [BlockDelta(index, delta)], index)]
  {
    hide Opening, TextOf, InputOf, Opened, Closed, Utf8.Len;
    var e := BlockDelta(index, delta);
    HistorySnoc(h, e, index);
    match Opening(h, index).value {
      case Text(text) =>
        assert text + (TextOf(h, index) + TextFragment(e, index)) == (text + TextOf(h, index)) + TextFragment(e, index);
      case Tool(name, partial) =>
        assert partial + (InputOf(h, index) + InputFragment(e, index)) == (partial + InputOf(h, index)) + InputFragment(e, index);
      case Unsupported =>
        assert s.blocks[index := Unsupported] == s.blocks;
    }
  }

  /** Tool blocks read from an event start with no input. */
  ghost predicate Wire(e: Event) {
    e.BlockStart? && e.block.Tool? ==> e.block.partialInput == ""
  }

  lemma ReadEventIsWire(env: Env, event: Json)
    ensures Wire(ReadEvent(env, event))
  {
  }

  ghost predicate Wired(h: seq<Event>) {
    forall k :: 0 <= k < |h| ==> Wire(h[k])
  }

  lemma {:induction false} Spelt(env: Env, h: seq<Event>)
    requires Wired(h) && Reach(env, h).Some?
    ensures SpeltBy(Reach(env, h).value, h)
  {
    hide BlockOf, Opening, TextOf, InputOf, Opened, Closed, StartBlock, ApplyDelta, ChangeMessage, StopMessage;
    if h == [] {
      SpeltEmpty();
    } else {
      var before, e := h[..|h| - 1], h[|h| - 1];
      Spelt(env, before);
      assert h == before + [e];
      SpeltStep(env, Reach(env, before).value, before, e);
    }
  }

  lemma SpeltEmpty()
    ensures SpeltBy(INITIAL, [])
  {
  }

  lemma SpeltStep(env: Env, s: State, h: seq<Event>, e: Event)
    requires SpeltBy(s, h) && Wire(e)
    requires Step(env, s, e).Ok? && Step(env, s, e).value.output.None?
    ensures SpeltBy(Step(env, s, e).value.state, h + [e])
  {
    hide SpeltBy, TextSize, Utf8.Len, StreamParts, Ordered, MakeOutput;
    var t := Step(env, s, e).value.state;
    match e {
      case BlockStart(index, block) => SpeltStart(s, h, index, block);
      case BlockDelta(index, delta) =>
        DeltaBlock(s, h, index, delta);
        SpeltDelta(s, t, h, index, delta);
      case _ =>
        SpeltUnchanged(s, t, h, e);
    }
  }

  // ----- Counters and bounds --------------------------------------------------------------------

  ghost function DeltaBytes(h: seq<Event>): nat {
    if h == [] then 0
    else
      var before, e := h[..|h| - 1], h[|h| - 1];
      DeltaBytes(before)
      + if e.BlockDelta? && Opening(before, e.index).Some? && Opening(before, e.index).value.Text?
        then Utf8.Len(TextFragment(e, e.index)) else 0
  }

  /** Text bytes received so far for text blocks. */
  ghost function TextTotal(h: seq<Event>): nat {
    OpeningBytes(h) + DeltaBytes(h)
  }

  predicate Started(h: seq<Event>) {
    h != [] && (Started(h[..|h| - 1]) || h[|h| - 1].MessageStart?)
  }

  /** The stop reason last announced. */
  function Reason(h: seq<Event>): Option<string> {
    if h == [] then None
    else if h[|h| - 1].MessageDelta? && h[|h| - 1].reason.Some? then h[|h| - 1].reason
    else Reason(h[..|h| - 1])
  }

  /** The identity and input-token count the message was started with. */
  function Announced(h: seq<Event>): Option<(string, U64)> {
    if h == [] then None
    else if h[|h| - 1].MessageStart? then Some((h[|h| - 1].id, h[|h| - 1].inputTokens))
    else Announced(h[..|h| - 1])
  }

  /** The output-token count last reported. */
  function Reported(h: seq<Event>): Option<U64> {
    if h == [] then None
    else match h[|h| - 1]
      case MessageStart(_, _, output) => Some(output)
      case MessageDelta(_, output) => Some(output)
      case _ => Reported(h[..|h| - 1])
  }

  /** The rest of a reachable state, read off its history. */
  ghost predicate CountedBy(env: Env, s: State, h: seq<Event>) {
    && s.textBytes == BlockBytes(s.blocks) == TextTotal(h)
    && s.textBytes <= MAXIMUM_FINAL_TEXT_BYTES
    && Utf8.Len(Emitted(env, h)) == DeltaBytes(h)
    && s.stopped <= s.blocks.Keys
    && (s.messageId.Some? <==> Started(h))
    && (if Started(h) then Announced(h).Some? && s.messageId == Some(Announced(h).value.0) && s.inputTokens == Some(Announced(h).value.1)
        else s.inputTokens == None)
    && s.stopReason == Reason(h)
    && s.outputTokens == Reported(h)
    && s.outputTokens.Some? == Started(h)
    && !s.messageStopped
    && (!Started(h) ==> s.blocks == map[])
  }

  lemma CountersSnoc(h: seq<Event>, e: Event)
    ensures var g := h + [e];
            && OpeningBytes(g) == OpeningBytes(h) + (if e.BlockStart? then TextSize(e.block) else 0)
            && DeltaBytes(g) == DeltaBytes(h)
                 + (if e.BlockDelta? && Opening(h, e.index).Some? && Opening(h, e.index).value.Text?
                    then Utf8.Len(TextFragment(e, e.index)) else 0)
            && Started(g) == (Started(h) || e.MessageStart?)
            && Announced(g) == (if e.MessageStart? then Some((e.id, e.inputTokens)) else Announced(h))
            && Reason(g) == (if e.MessageDelta? && e.reason.Some? then e.reason else Reason(h))
            && Reported(g) == (match e
                               case MessageStart(_, _, output) => Some(output)
                               case MessageDelta(_, output) => Some(output)
                               case _ => Reported(h))
  {
  }

  lemma EmittedSnoc(env: Env, h: seq<Event>, e: Event, s: State)
    requires Reach(env, h) == Some(s) && Step(env, s, e).Ok?
    ensures Utf8.Len(Emitted(env, h + [e])) == Utf8.Len(Emitted(env, h)) + Utf8.Len(Step(env, s, e).value.emitted)
  {
    hide Step, Reach;
    assert (h + [e])[..|h|] == h;
    Utf8.EncodeAppend(Emitted(env, h), Step(env, s, e).value.emitted);
  }

  lemma CountedStart(env: Env, s: State, h: seq<Event>, index: U64, block: StreamBlock)
    requires Reach(env, h) == Some(s) && CountedBy(env, s, h)
    requires StartBlock(s, index, block).Ok?
    ensures CountedBy(env, StartBlock(s, index, block).value.state, h + [BlockStart(index, block)])
  {
    hide BlockBytes, OpeningBytes, DeltaBytes, Started, Announced, Reason, Reported, Emitted, Reach, TextSize, Utf8.Encode;
    var e := BlockStart(index, block);
    CountersSnoc(h, e);
    EmittedSnoc(env, h, e, s);
    EncodeEmpty();
    BlockBytesUpdate(s.blocks, index, block);
    TextSizeZero(block);
  }

  lemma EncodeEmpty()
    ensures Utf8.Encode("") == []
  {
  }

  lemma TextSizeZero(block: StreamBlock)
    ensures !block.Text? ==> TextSize(block) == 0
    ensures block.Text? ==> TextSize(block) == Utf8.Len(block.text)
  {
  }

  lemma CountedDelta(env: Env, s: State, h: seq<Event>, index: U64, delta: Delta)
    requires Reach(env, h) == Some(s) && CountedBy(env, s, h) && SpeltBy(s, h)
    requires ApplyDelta(s, index, delta).Ok?
    ensures CountedBy(env, ApplyDelta(s, index, delta).value.state, h + [BlockDelta(index, delta)])
  {
    hide BlockBytes, OpeningBytes, DeltaBytes, Started, Announced, Reason, Reported, Emitted, Reach, TextSize, Opening,
         Utf8.Encode;
    var e := BlockDelta(index, delta);
    CountersSnoc(h, e);
    EmittedSnoc(env, h, e, s);
    EncodeEmpty();
    var block := s.blocks[index];
    assert block == BlockOf(h, index) && Opening(h, index).Some?;
    var next := ApplyDelta(s, index, delta).value.state;
    TextSizeZero(block);
    match block {
      case Text(text) =>
        Utf8.EncodeAppend(text, delta.text.value);
        TextSizeZero(next.blocks[index]);
        BlockBytesUpdate(s.blocks, index, next.blocks[index]);
      case Tool(_, _) =>
        TextSizeZero(next.blocks[index]);
        BlockBytesUpdate(s.blocks, index, next.blocks[index]);
      case Unsupported =>
    }
  }

  lemma CountedOther(env: Env, s: State, h: seq<Event>, e: Event)
    requires Reach(env, h) == Some(s) && CountedBy(env, s, h)
    requires !e.BlockStart? && !e.BlockDelta? && Step(env, s, e).Ok? && Step(env, s, e).value.output.None?
    ensures CountedBy(env, Step(env, s, e).value.state, h + [e])
  {
    hide BlockBytes, OpeningBytes, DeltaBytes, Started, Announced, Reason, Reported, Emitted, Reach, TextSize, Opening,
         Utf8.Encode, StreamParts, Ordered, MakeOutput;
    CountersSnoc(h, e);
    EmittedSnoc(env, h, e, s);
    EncodeEmpty();
  }

  /** Every reachable state is what its history spells and counts: in particular the text bytes are
      the summed length of all text blocks, are the opening texts plus everything reported as
      progress, and stay within the bound; closed blocks were opened. */
  lemma {:induction false} ReachableInvariant(env: Env, h: seq<Event>)
    requires Wired(h) && Reach(env, h).Some?
    ensures SpeltBy(Reach(env, h).value, h)
    ensures CountedBy(env, Reach(env, h).value, h)
  {
    hide SpeltBy, CountedBy, Step;
    Spelt(env, h);
    if h == [] {
      CountedEmpty(env);
    } else {
      var before, e := h[..|h| - 1], h[|h| - 1];
      ReachableInvariant(env, before);
      assert h == before + [e];
      CountedStep(env, Reach(env, before).value, before, e);
    }
  }

  lemma CountedEmpty(env: Env)
    ensures CountedBy(env, INITIAL, [])
  {
  }

  lemma CountedStep(env: Env, s: State, h: seq<Event>, e: Event)
    requires Reach(env, h) == Some(s) && CountedBy(env, s, h) && SpeltBy(s, h)
    requires Step(env, s, e).Ok? && Step(env, s, e).value.output.None?
    ensures CountedBy(env, Step(env, s, e).value.state, h + [e])
  {
    hide SpeltBy, CountedBy, Reach, StartBlock, ApplyDelta, ChangeMessage, StopMessage;
    match e {
      case BlockStart(index, block) => CountedStart(env, s, h, index, block);
      case BlockDelta(index, delta) => CountedDelta(env, s, h, index, delta);
      case _ => CountedOther(env, s, h, e);
    }
  }

  // ----- Which histories are accepted ------------------------------------------------------------

  ghost predicate AdmissibleDelta(h: seq<Event>, index: nat, delta: Delta)
    requires Opening(h, index).Some?
  {
    match Opening(h, index).value
    case Text(_) =>
      && delta.TextDelta? && delta.text.Some?
      && TextTotal(h) + Utf8.Len(delta.text.value) <= MAXIMUM_FINAL_TEXT_BYTES
    case Tool(_, partial) =>
      && delta.InputDelta? && delta.partial.Some?
      && Utf8.Len(partial + InputOf(h, index)) + Utf8.Len(delta.partial.value) <= MAXIMUM_TOOL_ARGUMENT_BYTES
    case Unsupported => true
  }

  /** The grammar of a stream, in terms of what came before: a message starts once; a block is
      opened once, takes only fragments of its own kind while open and is closed once; the stop
      reason never changes and the token count never falls; text and arguments stay in bound. */
  ghost predicate Admissible(h: seq<Event>, e: Event) {
    match e
    case MessageStart(_, _, _) => !Started(h)
    case BlockStart(index, block) =>
      && Started(h) && index !in Opened(h)
      && (block.Text? ==> TextTotal(h) + TextSize(block) <= MAXIMUM_FINAL_TEXT_BYTES)
    case BlockDelta(index, delta) =>
      && Started(h) && index in Opened(h) && index !in Closed(h)
      && Opening(h, index).Some? && AdmissibleDelta(h, index, delta)
    case BlockStop(index) => Started(h) && index in Opened(h) && index !in Closed(h)
    case MessageDelta(reason, output) =>
      && Started(h)
      && (reason.Some? && Reason(h).Some? ==> reason == Reason(h))
      && (Reported(h).Some? ==> Reported(h).value <= output)
    case Ignored => true
    case _ => false
  }

  ghost predicate WellFormed(h: seq<Event>) {
    forall p :: 0 <= p < |h| ==> Admissible(h[..p], h[p])
  }

  lemma AcceptedIff(env: Env, s: State, h: seq<Event>, e: Event)
    requires SpeltBy(s, h) && CountedBy(env, s, h)
    ensures Admissible(h, e) <==> Step(env, s, e).Ok? && Step(env, s, e).value.output.None?
  {
    hide BlockBytes, Opened, Closed, Opening, InputOf, TextOf, OpeningBytes, DeltaBytes, Started, Announced, Reason, Reported,
         Emitted, TextSize, Utf8.Len, StreamParts, Ordered, MakeOutput;
    if e.BlockDelta? && e.index in s.blocks {
      assert s.blocks[e.index] == BlockOf(h, e.index);
    }
  }

  /** A history is accepted exactly when every event is admissible after the ones before it. */
  lemma {:induction false} WellFormedIff(env: Env, h: seq<Event>)
    requires Wired(h)
    ensures Reach(env, h).Some? <==> WellFormed(h)
  {
    hide Step, Admissible, SpeltBy, CountedBy;
    if h != [] {
      var before, e := h[..|h| - 1], h[|h| - 1];
      WellFormedIff(env, before);
      assert forall p :: 0 <= p <= |before| ==> before[..p] == h[..p];
      if Reach(env, before).Some? {
        ReachableInvariant(env, before);
        AcceptedIff(env, Reach(env, before).value, before, e);
        assert h[..|h| - 1] == before;
      } else {
        var p :| 0 <= p < |before| && !Admissible(before[..p], before[p]);
        assert before[p] == h[p];
      }
    }
  }

  // ----- The answer ------------------------------------------------------------------------------

  /** The blocks a history spells. */
  function Assembled(h: seq<Event>): map<nat, StreamBlock> {
    map i | i in Opened(h) :: BlockOf(h, i)
  }

  /** The tokens the message started with and last reported, as usage. */
  ghost predicate UsageWithin(env: Env, s: State) {
    ValidUsage(env, U64Or(s.inputTokens, 0), U64Or(s.outputTokens, 0))
  }

  lemma SubsetCardinality(a: set<nat>, b: set<nat>)
    requires a <= b
    ensures |a| == |b| <==> a == b
  {
    if a != b {
      assert b == a + (b - a);
      assert |b| == |a| + |b - a|;
      var x :| x in b - a;
    }
  }

  lemma MapCardinality(m: map<nat, StreamBlock>)
    ensures |m| == |m.Keys|
  {
  }

  /** `message_stop` yields an output exactly when a message was started, every opened block is
      closed, a stop reason was given, the assembled blocks are an acceptable decision and the usage
      is within its bounds. */
  lemma StopIff(env: Env, h: seq<Event>)
    requires Wired(h) && WellFormed(h)
    ensures Reach(env, h).Some?
    ensures var s := Reach(env, h).value;
            var r := Step(env, s, MessageStop);
            var decision := Decide(StreamParts(env.vocabulary, NO_PARTS, Ordered(Assembled(h))), StrOr(Reason(h), ""));
            && (r.Ok? <==> Started(h) && Opened(h) == Closed(h) && Reason(h).Some? && decision.Ok?
                           && UsageWithin(env, s))
            && (r.Ok? ==> r.value.output.Some? && r.value.output.value.response == decision.value
                          && r.value.state == s.(messageStopped := true))
  {
    hide Reach, WellFormed, Ordered, StreamParts, DecisionFromParts, BlockOf, Opened, Closed, Started, Reason;
    WellFormedIff(env, h);
    ReachableInvariant(env, h);
    var s := Reach(env, h).value;
    assert SpeltBy(s, h);
    assert s.blocks == Assembled(h);
    MapCardinality(s.blocks);
    SubsetCardinality(s.stopped, s.blocks.Keys);
    DecidedFinish(Decide(StreamParts(env.vocabulary, NO_PARTS, Ordered(s.blocks)), StrOr(s.stopReason, "")),
                  StreamParts(env.vocabulary, NO_PARTS, Ordered(s.blocks)), StrOr(s.stopReason, ""));
  }

  lemma DecidedFinish(decision: Result<Response, ProviderError>, parts: Option<Parts>, reason: string)
    requires decision == Decide(parts, reason)
    ensures decision.Ok? ==> NormalizedFinishReason(reason, decision.value).Ok?
  {
  }

  /** The streamed answer of a complete well-formed run against `decode_decision` on the same
      blocks listed in index order: they accept the same runs with the same response, unless the
      streamed one accepts a tool call whose arguments exceed the bound when written back as
      JSON. */
  lemma StreamedEqualsWhole(env: Env, h: seq<Event>, content: seq<Json>)
    requires Wired(h) && WellFormed(h)
    requires Started(h) && Opened(h) == Closed(h) && Reason(h).Some?
    requires Reach(env, h).Some? ==> UsageWithin(env, Reach(env, h).value)
    requires |content| == |Ordered(Assembled(h))|
    requires forall i :: 0 <= i < |content| ==> Renders(env.vocabulary, Ordered(Assembled(h))[i], content[i])
    ensures Reach(env, h).Some?
    ensures var r := Step(env, Reach(env, h).value, MessageStop);
            var whole := Decide(JsonParts(env.vocabulary, NO_PARTS, content), Reason(h).value);
            && (whole.Ok? ==> r.Ok? && r.value.output.Some? && r.value.output.value.response == whole.value)
            && (r.Ok? && whole.Err? ==>
                  && r.value.output.Some? && r.value.output.value.response.ToolCall?
                  && env.vocabulary.serializedLength(r.value.output.value.response.arguments)
                     > MAXIMUM_TOOL_ARGUMENT_BYTES)
  {
    hide Reach, WellFormed, Ordered, StreamParts, JsonParts, Assembled, Decide, Step, UsageWithin, Renders;
    StopIff(env, h);
    StreamAgreesIff(env.vocabulary, Ordered(Assembled(h)), content, Reason(h).value);
  }

  /** An output appears at most once: after it every event is refused or changes nothing and
      yields nothing. */
  lemma NothingAfterOutput(env: Env, s: State, stop: Stepped, later: seq<Event>)
    requires Step(env, s, MessageStop) == Ok(stop)
    ensures forall e :: e in later ==>
              var r := Step(env, stop.state, e); r.Ok? ==> r.value == Stepped(stop.state, "", None)
  {
  }

  /** Output tokens never decrease along a run. */
  lemma {:induction false} OutputTokensMonotone(env: Env, h: seq<Event>, p: nat)
    requires Wired(h) && Reach(env, h).Some? && p <= |h|
    ensures Reach(env, h[..p]).Some?
    ensures var early, late := Reach(env, h[..p]).value, Reach(env, h).value;
            early.outputTokens.Some? ==> late.outputTokens.Some? && early.outputTokens.value <= late.outputTokens.value
  {
    hide Step, SpeltBy, CountedBy;
    if p == |h| {
      assert h[..p] == h;
    } else {
      var before := h[..|h| - 1];
      OutputTokensMonotone(env, before, p);
      assert before[..p] == h[..p];
      ReachableInvariant(env, before);
      TokensStep(env, Reach(env, before).value, before, h[|h| - 1]);
    }
  }

  lemma TokensStep(env: Env, s: State, h: seq<Event>, e: Event)
    requires CountedBy(env, s, h) && Step(env, s, e).Ok?
    ensures var late := Step(env, s, e).value.state;
            s.outputTokens.Some? ==> late.outputTokens.Some? && s.outputTokens.value <= late.outputTokens.value
  {
    hide StreamParts, Ordered, MakeOutput, TextSize, Utf8.Len, BlockBytes, OpeningBytes, DeltaBytes, Started, Announced, Reason,
         Reported, Emitted;
  }

  /** The text bound of `decode_stream_decision` is never what refuses a reachable state: at every
      text block the gathered text still fits. */
  lemma TextBoundUnreachable(env: Env, h: seq<Event>, k: nat)
    requires Wired(h) && Reach(env, h).Some?
    requires k < |Ordered(Reach(env, h).value.blocks)|
    ensures var blocks := Ordered(Reach(env, h).value.blocks);
            var parts := StreamParts(env.vocabulary, NO_PARTS, blocks[..k]);
            parts.Some? && blocks[k].Text? ==> AddText(parts.value, blocks[k].text).Some?
  {
    hide Reach, StreamParts, Ordered, AllCalls, Supported;
    var blocks := Ordered(Reach(env, h).value.blocks);
    ReachableInvariant(env, h);
    OrderedTextBytes(Reach(env, h).value.blocks);
    var parts := StreamParts(env.vocabulary, NO_PARTS, blocks[..k]);
    if parts.Some? && blocks[k].Text? {
      EncodeEmpty();
      StreamPartsIff(env.vocabulary, NO_PARTS, blocks[..k]);
      assert "" + AllText(blocks[..k]) == AllText(blocks[..k]);
      AllTextSplit(blocks, k);
      var before, text, after := AllText(blocks[..k]), blocks[k].text, AllText(blocks[k + 1..]);
      Utf8.EncodeAppend(before, text);
      Utf8.EncodeAppend(before + text, after);
    }
  }

  lemma {:induction false} AllTextSplit(blocks: seq<StreamBlock>, k: nat)
    requires k < |blocks| && blocks[k].Text?
    ensures AllText(blocks) == AllText(blocks[..k]) + blocks[k].text + AllText(blocks[k + 1..])
  {
    if k == 0 {
      assert blocks[..0] == [];
    } else {
      AllTextSplit(blocks[1..], k - 1);
      assert blocks[..k][1..] == blocks[1..][..k - 1];
      assert blocks[1..][k..] == blocks[k + 1..];
      var first := if blocks[0].Text? then blocks[0].text else "";
      assert AllText(blocks[..k]) == first + AllText(blocks[1..][..k - 1]);
    }
  }
}
