/** The streaming adapter feeding the progress sink: what a run emits is what the sink keeps. */
module StreamProgress {
  import opened Basics
  import opened StreamAssembler
  import opened StreamRuns
  import Sink = ProgressSink
  import Utf8

  /** The non-empty deltas the adapter emits along a history, one by one. */
  ghost function Deltas(env: Env, h: seq<Event>): seq<string> {
    if h == [] then
      []
    else
      var before := Reach(env, h[..|h| - 1]);
      var last := if before.None? then REFUSED else Step(env, before.value, h[|h| - 1]);
      Deltas(env, h[..|h| - 1]) + if last.Ok? && last.value.emitted != "" then [last.value.emitted] else []
  }

  lemma {:induction false} DeltasJoin(env: Env, h: seq<Event>)
    ensures Concat(Deltas(env, h)) == Emitted(env, h)
  {
    hide Step, Reach, Concat;
    if h == [] {
      ConcatNone();
    } else {
      var front := h[..|h| - 1];
      var before := Reach(env, front);
      var last := if before.None? then REFUSED else Step(env, before.value, h[|h| - 1]);
      DeltasJoin(env, front);
      assert Deltas(env, front) + [] == Deltas(env, front);
      assert Emitted(env, front) + "" == Emitted(env, front);
      if last.Ok? {
        ConcatSnoc(Deltas(env, front), last.value.emitted);
      }
    }
  }

  lemma ConcatNone()
    ensures Concat<char>([]) == []
  {
  }

  /** The adapter's text bound is the sink's byte bound: the sink cuts nothing a run emits. */
  lemma NothingCut(env: Env, h: seq<Event>)
    requires Wired(h) && Reach(env, h).Some?
    ensures Sink.Kept(Deltas(env, h)) == Emitted(env, h)
  {
    hide Sink.Kept, Utf8.Encode, Reach, Emitted, Deltas, Concat;
    ReachableInvariant(env, h);
    DeltasJoin(env, h);
    Sink.KeptAll(Deltas(env, h));
  }

  lemma NothingCutEarlier(env: Env, h: seq<Event>, offered: seq<string>)
    requires Wired(h) && Reach(env, h).Some? && offered <= Deltas(env, h)
    ensures Sink.Kept(offered) == Concat(offered) <= Emitted(env, h)
  {
    hide Sink.Kept, Utf8.Encode, Reach, Emitted, Deltas, Concat;
    ReachableInvariant(env, h);
    DeltasJoin(env, h);
    var rest := Deltas(env, h)[|offered|..];
    assert Deltas(env, h) == offered + rest;
    ConcatAppend(offered, rest);
    Utf8.EncodeAppend(Concat(offered), Concat(rest));
    Sink.KeptAll(offered);
  }

  /** For every accepted run, offered to the sink as far as a cancellation lets it, and every interleaving of
      the offers with flushes: what is recorded is at any moment a prefix of the emitted text, and after the
      closing flush of an enabled sink it is all that was offered, which for a run offered whole is all of
      the text. */
  lemma EverythingRecorded(env: Env, h: seq<Event>, ops: seq<Sink.Op>, elapsed: bool, accepts: nat -> bool)
    requires Wired(h) && Reach(env, h).Some?
    requires Sink.Offered(ops) <= Deltas(env, h)
    ensures var now, closed := Sink.Run(ops), Sink.Run(ops + [Sink.Flush(true, false, elapsed, accepts)]);
            && Sink.RecordedText(now.recorded) <= Emitted(env, h)
            && (!now.disabled ==> Sink.RecordedText(now.recorded) + now.pending == Concat(Sink.Offered(ops)))
            && (!closed.disabled ==> Sink.RecordedText(closed.recorded) == Concat(Sink.Offered(ops)))
    ensures Sink.Offered(ops) == Deltas(env, h) ==> Concat(Sink.Offered(ops)) == Emitted(env, h)
  {
    hide Sink.Run, Sink.RecordedText, Sink.Kept, Sink.Evidence, Sink.Offered, Emitted, Deltas, Reach, Concat;
    NothingCutEarlier(env, h, Sink.Offered(ops));
    DeltasJoin(env, h);
    Sink.RunConsistent(ops);
    Sink.FinalProgress(ops, elapsed, accepts);
  }
}
