/** The durable progress sink: provider text deltas buffered, cut at character boundaries, bounded
    in bytes and events, and recorded in order. */
module ProgressSink {
  import opened Basics
  import opened Utf8

  const MAXIMUM_PROGRESS_BYTES: nat := 64 * 1024
  const MAXIMUM_PROGRESS_EVENTS: nat := 256
  const MAXIMUM_DELTA_BYTES: nat := 4 * 1024
  const FLUSH_BYTES: nat := 256

  /** One recorded delta with its evidence. */
  datatype Record = Record(sequence: nat, delta: string, cumulative: nat)

  datatype State = State(pending: string, sequence: nat, cumulative: nat, disabled: bool, recorded: seq<Record>)

  const INITIAL := State("", 0, 0, false, [])

  function Disable(s: State): State {
    s.(pending := "", disabled := true)
  }

  function Room(s: State): nat {
    Min(MAXIMUM_PROGRESS_BYTES - Min(s.cumulative, MAXIMUM_PROGRESS_BYTES), MAXIMUM_DELTA_BYTES)
  }

  function Take(s: State): State {
    var delta := Fit(s.pending, Room(s));
    var cumulative := s.cumulative + Len(delta);
    State(s.pending[|delta|..], s.sequence + 1, cumulative, s.disabled,
          s.recorded + [Record(s.sequence, delta, cumulative)])
  }

  /** The loop of `flush`. `elapsed` says whether the flush interval has passed, `accepts` whether
      the store records a given sequence number. */
  function Drain(s: State, force: bool, elapsed: bool, accepts: nat -> bool): State
    decreases |s.pending|
  {
    if s.disabled || s.pending == "" then s
    else if !force && Len(s.pending) < FLUSH_BYTES && !elapsed then s
    else if s.sequence >= MAXIMUM_PROGRESS_EVENTS || s.cumulative >= MAXIMUM_PROGRESS_BYTES then Disable(s)
    else if Fit(s.pending, Room(s)) == "" || !accepts(s.sequence) then Disable(s)
    else if !force && Len(Take(s).pending) < FLUSH_BYTES then Take(s)
    else Drain(Take(s), force, false, accepts)
  }

  /** The two critical sections. `emit` is an offer and then, unless it returned early, a flush; the
      lock is free in between. */
  datatype Op =
    | Offer(delta: string, cancelled: bool)
    | Flush(force: bool, cancelled: bool, elapsed: bool, accepts: nat -> bool)

  function Buffer(s: State, delta: string): State {
    var retained := s.cumulative + Len(s.pending);
    var room := MAXIMUM_PROGRESS_BYTES - Min(retained, MAXIMUM_PROGRESS_BYTES);
    s.(pending := s.pending + Fit(delta, room))
  }

  function Apply(s: State, op: Op): State {
    match op
    case Flush(force, cancelled, elapsed, accepts) =>
      if cancelled then Disable(s) else Drain(s, force, elapsed, accepts)
    case Offer(delta, cancelled) =>
      if delta == "" || cancelled || s.disabled then s else Buffer(s, delta)
  }

  function Run(ops: seq<Op>): State {
    if ops == [] then INITIAL else Apply(Run(ops[..|ops| - 1]), ops[|ops| - 1])
  }

  /** The deltas offered while not cancelled, empty ones aside. */
  function Offered(ops: seq<Op>): seq<string> {
    if ops == [] then [] else
    var op := ops[|ops| - 1];
    Offered(ops[..|ops| - 1]) + if op.Offer? && !op.cancelled && op.delta != "" then [op.delta] else []
  }

  // ----- The reference: what fits, delta by delta ------------------------------------------------

  /** What is kept of each delta, joined: the longest whole-character prefix that still fits in the
      byte bound. It depends on the deltas alone, not on when they are flushed. */
  function Kept(deltas: seq<string>): (r: string)
    ensures Len(r) <= MAXIMUM_PROGRESS_BYTES
  {
    if deltas == [] then
      ""
    else
      var before := Kept(deltas[..|deltas| - 1]);
      var part := Fit(deltas[|deltas| - 1], MAXIMUM_PROGRESS_BYTES - Len(before));
      EncodeAppend(before, part);
      before + part
  }

  function RecordedText(recorded: seq<Record>): string {
    if recorded == [] then "" else RecordedText(recorded[..|recorded| - 1]) + recorded[|recorded| - 1].delta
  }

  /** The evidence the store demands of a progress log: consecutive sequence numbers from zero,
      bounded non-empty deltas, and an exact running byte count. */
  ghost predicate Evidence(recorded: seq<Record>) {
    && |recorded| <= MAXIMUM_PROGRESS_EVENTS
    && Len(RecordedText(recorded)) <= MAXIMUM_PROGRESS_BYTES
    && forall i :: 0 <= i < |recorded| ==>
         && recorded[i].sequence == i
         && recorded[i].delta != ""
         && Len(recorded[i].delta) <= MAXIMUM_DELTA_BYTES
         && recorded[i].cumulative == Len(RecordedText(recorded[..i + 1]))
  }

  ghost predicate Consistent(s: State, deltas: seq<string>) {
    && Evidence(s.recorded)
    && s.sequence == |s.recorded|
    && s.cumulative == Len(RecordedText(s.recorded))
    && s.cumulative + Len(s.pending) <= MAXIMUM_PROGRESS_BYTES
    && (s.disabled ==> s.pending == "")
    && (if s.disabled then RecordedText(s.recorded) <= Kept(deltas)
        else RecordedText(s.recorded) + s.pending == Kept(deltas))
  }

  lemma RecordedSnoc(recorded: seq<Record>, r: Record)
    ensures RecordedText(recorded + [r]) == RecordedText(recorded) + r.delta
  {
  }

  lemma EvidenceSnoc(recorded: seq<Record>, r: Record)
    requires Evidence(recorded) && |recorded| < MAXIMUM_PROGRESS_EVENTS
    requires r.sequence == |recorded| && r.delta != "" && Len(r.delta) <= MAXIMUM_DELTA_BYTES
    requires r.cumulative == Len(RecordedText(recorded)) + Len(r.delta) <= MAXIMUM_PROGRESS_BYTES
    ensures Evidence(recorded + [r])
  {
    hide Encode, RecordedText;
    var all := recorded + [r];
    RecordedSnoc(recorded, r);
    EncodeAppend(RecordedText(recorded), r.delta);
    assert all[..|all|] == all;
    forall i | 0 <= i < |recorded|
      ensures all[..i + 1] == recorded[..i + 1] && all[i] == recorded[i]
    {
    }
  }

  /** A consistent state that is not empty always has a character to record: the byte-bound and the
      zero-length branches of `flush` are never taken. */
  lemma SomethingFits(s: State, deltas: seq<string>)
    requires Consistent(s, deltas) && s.pending != ""
    ensures s.cumulative < MAXIMUM_PROGRESS_BYTES
    ensures Fit(s.pending, Room(s)) != ""
  {
  }

  lemma TakeConsistent(s: State, deltas: seq<string>)
    requires Consistent(s, deltas) && !s.disabled && s.pending != "" && s.sequence < MAXIMUM_PROGRESS_EVENTS
    ensures Consistent(Take(s), deltas)
    ensures |Take(s).pending| < |s.pending|
  {
    hide Encode, Evidence, Kept, Fit, RecordedText;
    SomethingFits(s, deltas);
    var delta := Fit(s.pending, Room(s));
    var rest := s.pending[|delta|..];
    assert s.pending == delta + rest;
    EncodeAppend(delta, rest);
    var r := Record(s.sequence, delta, s.cumulative + Len(delta));
    RecordedSnoc(s.recorded, r);
    EncodeAppend(RecordedText(s.recorded), delta);
    EvidenceSnoc(s.recorded, r);
    assert (RecordedText(s.recorded) + delta) + rest == RecordedText(s.recorded) + s.pending;
  }

  lemma DisableConsistent(s: State, deltas: seq<string>)
    requires Consistent(s, deltas)
    ensures Consistent(Disable(s), deltas)
  {
  }

  lemma {:induction false} DrainConsistent(s: State, deltas: seq<string>, force: bool, elapsed: bool, accepts: nat -> bool)
    requires Consistent(s, deltas)
    ensures Consistent(Drain(s, force, elapsed, accepts), deltas)
    decreases |s.pending|
  {
    hide Consistent, Take, Len, Room, Fit;
    DisableConsistent(s, deltas);
    if !s.disabled && s.pending != "" && s.sequence < MAXIMUM_PROGRESS_EVENTS {
      TakeConsistent(s, deltas);
      DrainConsistent(Take(s), deltas, force, false, accepts);
    }
  }

  lemma KeptSnoc(deltas: seq<string>, delta: string)
    ensures Kept(deltas + [delta]) == Kept(deltas) + Fit(delta, MAXIMUM_PROGRESS_BYTES - Len(Kept(deltas)))
  {
    hide Encode, Fit;
    assert (deltas + [delta])[..|deltas|] == deltas;
  }

  lemma BufferConsistent(s: State, deltas: seq<string>, delta: string)
    requires Consistent(s, deltas) && !s.disabled
    ensures Consistent(Buffer(s, delta), deltas + [delta])
  {
    hide Encode, Evidence, Kept, Fit, RecordedText;
    KeptSnoc(deltas, delta);
    EncodeAppend(RecordedText(s.recorded), s.pending);
    var part := Fit(delta, MAXIMUM_PROGRESS_BYTES - Len(Kept(deltas)));
    EncodeAppend(s.pending, part);
    assert RecordedText(s.recorded) + (s.pending + part) == (RecordedText(s.recorded) + s.pending) + part;
  }

  /** A further delta leaves a disabled sink consistent. */
  lemma IgnoredConsistent(s: State, deltas: seq<string>, delta: string)
    requires Consistent(s, deltas) && s.disabled
    ensures Consistent(s, deltas + [delta])
  {
  }

  /** Over every interleaving of offers and flushes: consecutive sequence numbers, non-empty bounded
      deltas, exact cumulative bytes; what is recorded and pending is exactly what fits of the
      offered deltas until the sink is disabled, and a prefix of it afterwards. */
  lemma {:induction false} RunConsistent(ops: seq<Op>)
    ensures Consistent(Run(ops), Offered(ops))
  {
    hide Consistent, Drain, Buffer, Disable;
    if ops == [] {
      InitialConsistent();
    } else {
      var s, deltas, op := Run(ops[..|ops| - 1]), Offered(ops[..|ops| - 1]), ops[|ops| - 1];
      RunConsistent(ops[..|ops| - 1]);
      match op {
        case Flush(force, cancelled, elapsed, accepts) =>
          DisableConsistent(s, deltas);
          DrainConsistent(s, deltas, force, elapsed, accepts);
          assert deltas + [] == deltas;
        case Offer(delta, cancelled) =>
          if cancelled || delta == "" {
            assert deltas + [] == deltas;
          } else if s.disabled {
            IgnoredConsistent(s, deltas, delta);
          } else {
            BufferConsistent(s, deltas, delta);
          }
      }
    }
  }

  lemma InitialConsistent()
    ensures Consistent(INITIAL, [])
  {
  }

  // ----- What the reference keeps ------------------------------------------------------------------

  /** Nothing is lost while everything offered fits. */
  lemma {:induction false} KeptAll(deltas: seq<string>)
    requires Len(Concat(deltas)) <= MAXIMUM_PROGRESS_BYTES
    ensures Kept(deltas) == Concat(deltas)
  {
    hide Encode, Fit;
    if deltas != [] {
      var before, last := deltas[..|deltas| - 1], deltas[|deltas| - 1];
      assert deltas == before + [last];
      ConcatSnoc(before, last);
      EncodeAppend(Concat(before), last);
      KeptAll(before);
      FitAll(last, MAXIMUM_PROGRESS_BYTES - Len(Kept(before)));
    }
  }

  /** Once the deltas pass the bound, each later one is empty or starts with a character longer than
      the room their longest fitting prefix leaves. */
  ghost predicate BlockedAfterCut(deltas: seq<string>) {
    forall q :: 0 <= q < |deltas| && Len(Concat(deltas[..q])) > MAXIMUM_PROGRESS_BYTES ==> Blocked(deltas[q], Spare(deltas))
  }

  /** The bytes left free by the longest prefix of all deltas that fits. */
  function Spare(deltas: seq<string>): nat {
    MAXIMUM_PROGRESS_BYTES - Len(Fit(Concat(deltas), MAXIMUM_PROGRESS_BYTES))
  }

  predicate Blocked(delta: string, room: nat) {
    delta == "" || |CharBytes(delta[0])| > room
  }

  lemma {:induction false} PrefixLonger(deltas: seq<string>, q: nat)
    requires q <= |deltas|
    ensures Len(Concat(deltas[..q])) <= Len(Concat(deltas))
  {
    hide Encode, Concat;
    assert deltas == deltas[..q] + deltas[q..];
    ConcatAppend(deltas[..q], deltas[q..]);
    EncodeAppend(Concat(deltas[..q]), Concat(deltas[q..]));
  }

  lemma BlockedSnoc(before: seq<string>, last: string)
    ensures BlockedAfterCut(before + [last]) <==>
            Len(Concat(before)) <= MAXIMUM_PROGRESS_BYTES
            || (BlockedAfterCut(before) && Blocked(last, Spare(before)))
  {
    hide Encode, Concat, Fit, Blocked;
    var deltas, n := before + [last], |before|;
    assert deltas[..n] == before;
    assert forall q :: 0 <= q < n ==> deltas[..q] == before[..q] && deltas[q] == before[q];
    if Len(Concat(before)) > MAXIMUM_PROGRESS_BYTES {
      ConcatSnoc(before, last);
      FitOver(Concat(before), last, MAXIMUM_PROGRESS_BYTES);
    } else {
      forall q | 0 <= q < n ensures Len(Concat(deltas[..q])) <= MAXIMUM_PROGRESS_BYTES { PrefixLonger(before, q); }
    }
  }

  lemma CutCharacter(s: string, room: nat)
    requires Len(s) > room
    ensures |Fit(s, room)| < |s| && |CharBytes(s[|Fit(s, room)|])| > room - Len(Fit(s, room))
  {
    hide Encode;
    var p := Fit(s, room);
    assert s[..|s|] == s && s[..|p|] == p;
    if |p| < |s| { PrefixStep(s, |p|); }
  }

  /** A fact about the sink alone: what it keeps is a prefix of what it was offered exactly when every
      delta after the bound was passed is blocked; then it is the longest prefix that fits. */
  lemma {:induction false} KeptPrefixIff(deltas: seq<string>)
    ensures Kept(deltas) <= Concat(deltas) <==> BlockedAfterCut(deltas)
    ensures BlockedAfterCut(deltas) ==> Kept(deltas) == Fit(Concat(deltas), MAXIMUM_PROGRESS_BYTES)
  {
    hide Encode, Fit, Concat, Blocked, BlockedAfterCut, Kept;
    if deltas == [] {
      KeptNothing();
    } else {
      var before, last := deltas[..|deltas| - 1], deltas[|deltas| - 1];
      assert deltas == before + [last];
      ConcatSnoc(before, last);
      KeptSnoc(before, last);
      KeptPrefixIff(before);
      BlockedSnoc(before, last);
      if Len(Concat(before)) <= MAXIMUM_PROGRESS_BYTES {
        KeptAll(before);
        FitSplit(Concat(before), last, MAXIMUM_PROGRESS_BYTES);
      } else if BlockedAfterCut(before) {
        FitOver(Concat(before), last, MAXIMUM_PROGRESS_BYTES);
        CutCharacter(Concat(before), MAXIMUM_PROGRESS_BYTES);
        StuckStep(Kept(before), Concat(before), last, Spare(before));
      } else {
        KeptShorter(before);
        HolesRemain(Kept(before), Concat(before), Fit(last, MAXIMUM_PROGRESS_BYTES - Len(Kept(before))), last);
      }
    }
  }

  lemma KeptNothing()
    ensures Kept([]) == "" == Concat([]) && BlockedAfterCut([]) && Fit("", MAXIMUM_PROGRESS_BYTES) == ""
  {
  }

  lemma HolesRemain(kept: string, all: string, part: string, last: string)
    requires |kept| <= |all| && !(kept <= all)
    ensures !(kept + part <= all + last)
  {
    var i :| 0 <= i < |kept| && kept[i] != all[i];
    assert (kept + part)[i] != (all + last)[i];
  }

  lemma {:induction false} KeptShorter(deltas: seq<string>)
    ensures |Kept(deltas)| <= |Concat(deltas)|
  {
    hide Encode, Fit;
    if deltas != [] {
      var before, last := deltas[..|deltas| - 1], deltas[|deltas| - 1];
      assert deltas == before + [last];
      ConcatSnoc(before, last);
      KeptShorter(before);
    }
  }

  /** Before a character that does not fit, only a blocked delta leaves a prefix. */
  lemma StuckStep(kept: string, all: string, last: string, room: nat)
    requires kept < all && |CharBytes(all[|kept|])| > room
    ensures kept + Fit(last, room) <= all + last <==> Blocked(last, room)
    ensures Blocked(last, room) ==> kept + Fit(last, room) == kept
  {
    hide Encode;
    var part := Fit(last, room);
    if part != "" {
      assert (kept + part)[|kept|] == part[0] == last[0];
      assert (all + last)[|kept|] == all[|kept|];
    }
  }

  // ----- Disabling -----------------------------------------------------------------------------------

  /** A disabled sink stays disabled and records nothing more. */
  lemma {:induction false} DisabledForever(s: State, ops: seq<Op>)
    requires s.disabled && s.pending == ""
    ensures ApplyEach(s, ops) == s
    decreases |ops|
  {
    if ops != [] {
      assert Apply(s, ops[0]) == s;
      DisabledForever(s, ops[1..]);
    }
  }

  function ApplyEach(s: State, ops: seq<Op>): State
    decreases |ops|
  {
    if ops == [] then s else ApplyEach(Apply(s, ops[0]), ops[1..])
  }

  /** A forced flush leaves nothing pending; with a store that accepts, it disables the sink only
      once the event bound is used up. */
  lemma {:induction false} ForcedDrain(s: State, deltas: seq<string>, elapsed: bool, accepts: nat -> bool)
    requires Consistent(s, deltas)
    ensures var t := Drain(s, true, elapsed, accepts);
            && t.pending == ""
            && (t.disabled && !s.disabled && (forall n: nat :: accepts(n)) ==> t.sequence == MAXIMUM_PROGRESS_EVENTS)
    decreases |s.pending|
  {
    hide Consistent, Fit, Len, Room;
    ConsistentParts(s, deltas);
    if !s.disabled && s.pending != "" {
      SomethingFits(s, deltas);
      if s.sequence < MAXIMUM_PROGRESS_EVENTS {
        TakeConsistent(s, deltas);
        ForcedDrain(Take(s), deltas, false, accepts);
      }
    }
  }

  /** After the closing forced flush, an enabled sink has recorded exactly what fits of the offered
      deltas, whatever the timing of the flushes before it; and the store accepting everything, only
      running out of events can have disabled it in that flush. */
  lemma FinalProgress(ops: seq<Op>, elapsed: bool, accepts: nat -> bool)
    ensures var before, after := Run(ops), Run(ops + [Flush(true, false, elapsed, accepts)]);
            && (!after.disabled ==> RecordedText(after.recorded) == Kept(Offered(ops)))
            && (!before.disabled && after.disabled && (forall n: nat :: accepts(n)) ==>
                  |after.recorded| == MAXIMUM_PROGRESS_EVENTS)
  {
    hide Drain, RecordedText, Kept, Evidence;
    var all := ops + [Flush(true, false, elapsed, accepts)];
    assert all[..|ops|] == ops;
    RunConsistent(ops);
    RunConsistent(all);
    ForcedDrain(Run(ops), Offered(ops), elapsed, accepts);
    assert Offered(ops) + [] == Offered(ops);
    var t := Run(all);
    assert RecordedText(t.recorded) + "" == RecordedText(t.recorded);
  }

  lemma ConsistentParts(s: State, deltas: seq<string>)
    requires Consistent(s, deltas)
    ensures s.disabled ==> s.pending == ""
    ensures s.sequence <= MAXIMUM_PROGRESS_EVENTS
  {
  }

  // ----- The sink as the source writes it ---------------------------------------------------------

  /** A record as stored: the delta's bytes. */
  datatype Stored = Stored(sequence: nat, delta: Bytes, cumulative: nat)

  class DurableProviderProgressSink {
    var pending: Bytes
    var progressSequence: nat
    var cumulativeBytes: nat
    var disabled: bool
    var recorded: seq<Stored>
    ghost var model: State

    /** The bytes held are the encodings of the modelled text. */
    ghost predicate Valid()
      reads this
    {
      && pending == Encode(model.pending)
      && progressSequence == model.sequence
      && cumulativeBytes == model.cumulative
      && disabled == model.disabled
      && |recorded| == |model.recorded|
      && forall i :: 0 <= i < |recorded| ==>
           recorded[i] == Stored(model.recorded[i].sequence, Encode(model.recorded[i].delta), model.recorded[i].cumulative)
    }

    constructor ()
      ensures Valid() && model == INITIAL
    {
      pending := [];
      progressSequence := 0;
      cumulativeBytes := 0;
      disabled := false;
      recorded := [];
      model := INITIAL;
    }

    method DisableSink()
      requires Valid()
      modifies this
      ensures Valid() && model == Disable(old(model))
    {
      pending := [];
      disabled := true;
      model := Disable(model);
    }

    method RecordNext(end: nat)
      requires Valid() && 0 < end <= |pending|
      requires end == Len(Fit(model.pending, Room(model)))
      requires pending[..end] == Encode(Fit(model.pending, Room(model)))
      modifies this
      ensures Valid() && model == Take(old(model))
    {
      hide Fit, Encode, Room;
      ghost var delta := Fit(model.pending, Room(model));
      var bytes := pending[..end];
      assert model.pending == delta + model.pending[|delta|..];
      EncodeAppend(delta, model.pending[|delta|..]);
      pending := pending[end..];
      cumulativeBytes := cumulativeBytes + end;
      recorded := recorded + [Stored(progressSequence, bytes, cumulativeBytes)];
      progressSequence := progressSequence + 1;
      model := Take(model);
    }

    method FlushPending(force: bool, cancelled: bool, elapsed: bool, accepts: nat -> bool)
      requires Valid()
      modifies this
      ensures Valid() && model == Apply(old(model), Flush(force, cancelled, elapsed, accepts))
    {
      hide Fit, Encode, Take;
      if cancelled {
        DisableSink();
        return;
      }
      var due := elapsed;
      ghost var goal := Drain(model, force, elapsed, accepts);
      while true
        invariant Valid()
        invariant Drain(model, force, due, accepts) == goal
        decreases |model.pending|
      {
        if disabled || pending == [] {
          EmptyText(model.pending);
          return;
        }
        EmptyText(model.pending);
        if !force && |pending| < FLUSH_BYTES && !due {
          return;
        }
        if progressSequence >= MAXIMUM_PROGRESS_EVENTS || cumulativeBytes >= MAXIMUM_PROGRESS_BYTES {
          DisableSink();
          return;
        }
        var maximum := Min(MAXIMUM_PROGRESS_BYTES - cumulativeBytes, MAXIMUM_DELTA_BYTES);
        var end := PrefixLength(pending, maximum, model.pending);
        EmptyText(Fit(model.pending, Room(model)));
        if end == 0 || !accepts(progressSequence) {
          DisableSink();
          return;
        }
        TakeShrinks(model);
        RecordNext(end);
        due := false;
        if !force && |pending| < FLUSH_BYTES {
          return;
        }
      }
    }

    /** The first critical section of `emit`. */
    method BufferDelta(delta: Bytes, ghost text: string, cancelled: bool) returns (taken: bool)
      requires Valid() && delta == Encode(text)
      modifies this
      ensures Valid() && model == Apply(old(model), Offer(text, cancelled))
      ensures taken <==> text != "" && !cancelled && !old(model).disabled
    {
      hide Fit, Encode, Drain;
      EmptyText(text);
      if delta == [] || cancelled || disabled {
        return false;
      }
      var retained := cumulativeBytes + |pending|;
      var remaining := MAXIMUM_PROGRESS_BYTES - Min(retained, MAXIMUM_PROGRESS_BYTES);
      var end := PrefixLength(delta, remaining, text);
      EncodeAppend(model.pending, Fit(text, remaining));
      pending := pending + delta[..end];
      model := Buffer(model, text);
      return true;
    }

    /** `emit` with nothing between its two critical sections. */
    method EmitDelta(delta: Bytes, ghost text: string, cancelled: bool, cancelledLater: bool, elapsed: bool,
                     accepts: nat -> bool)
      requires Valid() && delta == Encode(text)
      modifies this
      ensures var offered := Apply(old(model), Offer(text, cancelled));
              && Valid()
              && model == if text == "" || cancelled || old(model).disabled then old(model)
                          else Apply(offered, Flush(false, cancelledLater, elapsed, accepts))
    {
      hide Drain, Buffer;
      var taken := BufferDelta(delta, text, cancelled);
      if taken {
        FlushPending(false, cancelledLater, elapsed, accepts);
      }
    }
  }

  lemma EmptyText(s: string)
    ensures Encode(s) == [] <==> s == ""
  {
  }

  lemma TakeShrinks(s: State)
    requires s.pending != "" && Fit(s.pending, Room(s)) != ""
    ensures |Take(s).pending| < |s.pending|
  {
  }
}
