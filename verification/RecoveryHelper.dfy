/** The recovery helper kept beside a transaction record: when a transaction that may still need it is
    sure to have it. */
module RecoveryHelper {
  import opened Basics
  import opened TransactionPhases
  import opened DurableFiles
  import opened DurableTransactions

  ghost predicate AllRetirable(f: Directory) {
    forall r :: MayLoad(f, r) ==> IsRetirable(r.phase)
  }

  /** A transaction that may still need its helper has it, whatever a crash leaves. */
  ghost predicate HelperKept(f: Directory, id: Identity) {
    AllRetirable(f) || PayloadDurable(f, HelperName, id.helperDigest)
  }

  /** `retire` looks only at the record it is handed. Without the final directory sync, removing the
      helper is safe exactly when no record that a crash could leave still needs it; with it,
      exactly when the record on disk does not. */
  lemma RetireSafeIff(kind: Kind, f: Directory, id: Identity, base: Phase, r: Record, fail: nat)
    requires Sound(kind, f, id, base) && CanRetire(kind, f, r) && fail > 0
    ensures LoadTransaction(kind, f).Some?
    ensures var kept := HelperKept(Next(kind, f, Retire(r, fail)), id);
            && (fail == 1 ==> (kept <==> AllRetirable(f)))
            && (fail > 1 ==> (kept <==> IsRetirable(LoadTransaction(kind, f).value.phase)))
  {
    hide Intact, CanRetire, PayloadDurable, MayLoad, Remove, SyncDirectory, Load, Valid;
    RemovedHelper(f, id);
    SoundLoads(kind, f, id, base);
  }

  // ----- The record that is certain ----------------------------------------------------------------------

  /** A call after which one record is certain: its directory sync completed, or the machine came back from
      a crash. */
  predicate Settles(kind: Kind, f: Directory, step: Step) {
    match step
    case Persist(pid, r, fail) => PersistDurable(kind, f, pid, r, fail)
    case Retire(r, fail) => CanRetire(kind, f, r) && fail > 1
    case _ => true
  }

  /** The record loaded after the last such call. */
  function SettledRecord(kind: Kind, f: Directory, steps: seq<Step>): Option<Record> {
    if steps == [] then LoadTransaction(kind, f) else
    var n := |steps| - 1;
    if Settles(kind, Run(kind, f, steps[..n]), steps[n]) then LoadTransaction(kind, Run(kind, f, steps))
    else SettledRecord(kind, f, steps[..n])
  }

  ghost predicate OnlyLoads(f: Directory) {
    forall q :: MayLoad(f, q) ==> Load(f) == Some(q)
  }

  lemma CrashSettles(f: Directory, pick: Name -> Option<nat>, garbage: nat -> Content<Record>)
    ensures OnlyLoads(Crash(f, pick, garbage))
  {
  }

  lemma SettledOnlyLoads(kind: Kind, f: Directory, id: Identity, base: Phase, step: Step)
    requires Sound(kind, f, id, base) && Settles(kind, f, step)
    ensures OnlyLoads(Next(kind, f, step))
  {
    hide Sound, MayLoad, Load, Crash, PersistStates, Remove, SyncDirectory, CanRetire, OnlyLoads;
    match step {
      case Persist(pid, r, fail) => PersistOnlyLoads(kind, f, id, base, pid, r, fail);
      case PersistCut(pid, r, fail, k, pick, garbage) => CrashSettles(At(PersistStates(kind, f, pid, r, fail), k), pick, garbage);
      case Retire(r, fail) => RetireOnlyLoads(kind, f, id, base);
      case RetireCut(r, fail, k, pick, garbage) => CrashSettles(At(RetireStates(kind, f, r, fail), k), pick, garbage);
      case CrashNow(pick, garbage) => CrashSettles(f, pick, garbage);
    }
  }

  lemma PersistOnlyLoads(kind: Kind, f: Directory, id: Identity, base: Phase, pid: nat, r: Record, fail: nat)
    requires Sound(kind, f, id, base) && PersistDurable(kind, f, pid, r, fail)
    ensures OnlyLoads(Next(kind, f, Persist(pid, r, fail)))
  {
    hide Sound, MayLoad, Load, PersistDurable, Next;
    PersistMeans(kind, f, id, base, pid, r, fail);
  }

  lemma RetireOnlyLoads(kind: Kind, f: Directory, id: Identity, base: Phase)
    requires Sound(kind, f, id, base)
    ensures OnlyLoads(SyncDirectory(Remove(f, HelperName)))
  {
    hide MayLoad, Intact, PayloadDurable, Recorded;
    RemovedHelper(f, id);
    RetiredLoads(f);
  }

  lemma RetiredLoads(f: Directory)
    ensures Load(SyncDirectory(Remove(f, HelperName))) == Load(f)
  {
  }

  /** A call that does not settle leaves every record possible that was. */
  lemma UnsettledKeeps(kind: Kind, f: Directory, step: Step, q: Record)
    requires !Settles(kind, f, step) && MayLoad(f, q)
    ensures MayLoad(Next(kind, f, step), q)
  {
    hide CanPersist, CanRetire, ReplaceStates, ReplaceSucceeds;
    var v :| v in Find(f, RecordName).possible && Stored(f, v, Holds(q));
    match step {
      case Persist(pid, r, fail) =>
        if CanPersist(kind, f, r) {
          FailedReplaceAdds(StyleOf(kind), f, pid, r, fail);
        }
      case Retire(r, fail) =>
    }
    assert Stored(Next(kind, f, step), v, Holds(q));
  }

  /** Nothing the record's name may refer to is forgotten, and no file is changed. */
  ghost predicate Adds(f: Directory, g: Directory) {
    && Find(f, RecordName).possible <= Find(g, RecordName).possible
    && |f.inodes| <= |g.inodes|
    && forall i :: 0 <= i < |f.inodes| ==> g.inodes[i] == f.inodes[i]
  }

  lemma OperationsAdd(f: Directory, temporary: Name, r: Record)
    requires temporary.TemporaryName?
    ensures var f1, i := CreateNew(f, temporary), |f.inodes|;
            var f2 := Write(f1, i, Holds(r));
            var f3 := SyncFile(f2, i);
            Adds(f, f1) && Adds(f, f2) && Adds(f, f3)
  {
  }

  lemma RenameAdds(f: Directory, temporary: Name)
    requires temporary.TemporaryName?
    ensures Adds(f, Rename(f, temporary, RecordName)) && Adds(f, Remove(f, temporary)) && Adds(f, f)
  {
  }

  lemma AddsTransitive(f: Directory, g: Directory, h: Directory)
    requires Adds(f, g) && Adds(g, h)
    ensures Adds(f, h)
  {
  }

  /** A failed replacement forgets nothing. */
  lemma FailedReplaceAdds(style: Style, f: Directory, pid: nat, r: Record, fail: nat)
    requires !ReplaceSucceeds(style, f, pid, fail)
    ensures var states := ReplaceStates(style, f, pid, r, fail);
            Adds(f, states[|states| - 1])
  {
    hide CreateNew, Write, SyncFile, Rename, Remove, Adds;
    var temporary := TemporaryName(pid);
    var f0 := if style == CleanBefore then Remove(f, temporary) else f;
    RenameAdds(f, temporary);
    FindRemoved(f, temporary);
    if !(fail == 0 || Find(f0, temporary).current != None) {
      var i := |f0.inodes|;
      var f1 := CreateNew(f0, temporary);
      var f2 := Write(f1, i, Holds(r));
      var f3 := SyncFile(f2, i);
      var last := if fail == 1 then f1 else if fail == 2 then f2 else if fail == 3 then f3 else Rename(f3, temporary, RecordName);
      OperationsAdd(f0, temporary, r);
      RenameAdds(f3, temporary);
      if fail == 4 { AddsTransitive(f0, f3, last); }
      AddsTransitive(f, f0, last);
      RenameAdds(last, temporary);
      AddsTransitive(f, last, Remove(last, temporary));
    }
  }

  /** From a directory with one certain record: the settled record stays possible, and every possible
      record is in a phase reachable from its own. */
  lemma {:induction false} SettledIsOldest(kind: Kind, f: Directory, id: Identity, steps: seq<Step>)
    requires Sound(kind, f, id, Scheduled) && OnlyLoads(f)
    ensures var settled, g := SettledRecord(kind, f, steps), Run(kind, f, steps);
            settled.Some? && MayLoad(g, settled.value) && Sound(kind, g, id, settled.value.phase)
  {
    hide Sound, MayLoad, LoadTransaction, Next, Settles, OnlyLoads;
    if steps == [] {
      CertainSound(kind, f, id, Scheduled);
    } else {
      var n := |steps| - 1;
      var before := Run(kind, f, steps[..n]);
      SettledIsOldest(kind, f, id, steps[..n]);
      var settled := SettledRecord(kind, f, steps[..n]).value;
      NextSound(kind, before, id, settled.phase, steps[n]);
      if Settles(kind, before, steps[n]) {
        SettledOnlyLoads(kind, before, id, settled.phase, steps[n]);
        CertainSound(kind, Run(kind, f, steps), id, settled.phase);
      } else {
        UnsettledKeeps(kind, before, steps[n], settled);
      }
    }
  }

  lemma CertainSound(kind: Kind, f: Directory, id: Identity, base: Phase)
    requires Sound(kind, f, id, base) && OnlyLoads(f)
    ensures LoadTransaction(kind, f).Some?
    ensures MayLoad(f, LoadTransaction(kind, f).value)
    ensures Sound(kind, f, id, LoadTransaction(kind, f).value.phase)
  {
    hide MayLoad, Intact, PayloadDurable, Load, Valid, Evidence, Reaches;
    SoundLoads(kind, f, id, base);
    ReachesSelf(LateAbort(kind), LoadTransaction(kind, f).value.phase);
  }

  /** Every record a crash could leave has ended exactly when the settled one has. */
  lemma AllRetirableIff(kind: Kind, f: Directory, id: Identity, steps: seq<Step>)
    requires Sound(kind, f, id, Scheduled) && OnlyLoads(f)
    ensures SettledRecord(kind, f, steps).Some?
    ensures AllRetirable(Run(kind, f, steps)) <==> IsRetirable(SettledRecord(kind, f, steps).value.phase)
  {
    hide MayLoad, Run, SettledRecord, Intact, PayloadDurable, Evidence, Reaches, OnlyLoads;
    SettledIsOldest(kind, f, id, steps);
    var settled, g := SettledRecord(kind, f, steps).value, Run(kind, f, steps);
    if IsRetirable(settled.phase) {
      forall r | MayLoad(g, r) ensures IsRetirable(r.phase) {
        NeverBack(LateAbort(kind), settled.phase, r.phase);
      }
    }
  }

  // ----- Every moment of a run ---------------------------------------------------------------------------

  /** The states of the directory during a call, up to where a crash cut it short. */
  function StepStates(kind: Kind, f: Directory, step: Step): (states: seq<Directory>)
    ensures states != []
  {
    match step
    case Persist(pid, r, fail) => PersistStates(kind, f, pid, r, fail)
    case PersistCut(pid, r, fail, k, _, _) => UpTo(PersistStates(kind, f, pid, r, fail), k)
    case Retire(r, fail) => RetireStates(kind, f, r, fail)
    case RetireCut(r, fail, k, _, _) => UpTo(RetireStates(kind, f, r, fail), k)
    case CrashNow(_, _) => [f]
  }

  function UpTo(states: seq<Directory>, k: nat): (r: seq<Directory>)
    requires states != []
    ensures r != [] && r <= states && r[|r| - 1] == At(states, k)
  {
    if k < |states| then states[..k + 1] else states
  }

  /** Wherever a crash strikes during the run, between calls or within one, a transaction that may still need
      its helper has it. */
  ghost predicate AlwaysHelped(kind: Kind, f: Directory, id: Identity, steps: seq<Step>) {
    forall i :: 0 <= i < |steps| ==> StepHelped(kind, Run(kind, f, steps[..i]), id, steps[i])
  }

  ghost predicate StepHelped(kind: Kind, f: Directory, id: Identity, step: Step) {
    forall g :: g in StepStates(kind, f, step) ==> HelperKept(g, id)
  }

  /** The call gets as far as removing the helper. */
  predicate Removes(kind: Kind, f: Directory, step: Step) {
    match step
    case Retire(r, fail) => CanRetire(kind, f, r) && fail > 0
    case RetireCut(r, fail, k, _, _) => CanRetire(kind, f, r) && fail > 0 && k > 0
    case _ => false
  }

  /** Step `i` removes the helper only if the settled record has ended. */
  ghost predicate RemovesEnded(kind: Kind, f: Directory, steps: seq<Step>, i: nat)
    requires i < |steps|
  {
    Removes(kind, Run(kind, f, steps[..i]), steps[i]) ==>
      var settled := SettledRecord(kind, f, steps[..i]);
      settled.Some? && IsRetirable(settled.value.phase)
  }

  /** Once every possible record has ended, every state of every call keeps that. */
  lemma RetirableHelped(kind: Kind, f: Directory, id: Identity, base: Phase, step: Step)
    requires Sound(kind, f, id, base) && AllRetirable(f)
    ensures StepHelped(kind, f, id, step)
  {
    hide Sound, AllRetirable, PersistStates, RetireStates, PayloadDurable;
    SoundIntact(kind, f, id, base);
    forall g | g in StepStates(kind, f, step) ensures HelperKept(g, id) {
      match step {
        case Persist(pid, r, fail) => PersistRetirable(kind, f, id, base, pid, r, fail, g);
        case PersistCut(pid, r, fail, _, _, _) => PersistRetirable(kind, f, id, base, pid, r, fail, g);
        case Retire(r, fail) => RetireRetirable(kind, f, r, fail, g);
        case RetireCut(r, fail, _, _, _) => RetireRetirable(kind, f, r, fail, g);
        case CrashNow(_, _) =>
      }
    }
  }

  lemma PersistRetirable(kind: Kind, f: Directory, id: Identity, base: Phase, pid: nat, r: Record, fail: nat, g: Directory)
    requires Sound(kind, f, id, base) && AllRetirable(f) && g in PersistStates(kind, f, pid, r, fail)
    ensures AllRetirable(g)
  {
    hide MayLoad, Intact, PayloadDurable, LoadTransaction, ReplaceStates, Valid, Reaches, Evidence;
    var states := PersistStates(kind, f, pid, r, fail);
    var k :| 0 <= k < |states| && states[k] == g;
    if CanPersist(kind, f, r) {
      SoundLoads(kind, f, id, base);
      ReplaceAtomic(StyleOf(kind), f, pid, r, fail, k);
    }
  }

  lemma RetireRetirable(kind: Kind, f: Directory, r: Record, fail: nat, g: Directory)
    requires Intact(f) && AllRetirable(f) && g in RetireStates(kind, f, r, fail)
    ensures AllRetirable(g)
  {
  }

  lemma PersistHelped(kind: Kind, f: Directory, id: Identity, pid: nat, r: Record, fail: nat, g: Directory)
    requires PayloadDurable(f, HelperName, id.helperDigest) && g in PersistStates(kind, f, pid, r, fail)
    ensures PayloadDurable(g, HelperName, id.helperDigest)
  {
    hide PayloadDurable, Keeps, PersistStates;
    var states := PersistStates(kind, f, pid, r, fail);
    var k :| 0 <= k < |states| && states[k] == g;
    PayloadCurrent(f, HelperName, id.helperDigest);
    PersistKeepsHelper(kind, f, pid, r, fail, k);
    KeepsPayload(f, g, HelperName, id.helperDigest);
  }

  /** A call that does not remove the helper keeps it. */
  lemma UnremovedHelped(kind: Kind, f: Directory, id: Identity, step: Step)
    requires PayloadDurable(f, HelperName, id.helperDigest) && !Removes(kind, f, step)
    ensures StepHelped(kind, f, id, step)
  {
    hide PayloadDurable, AllRetirable, PersistStates, CanRetire;
    forall g | g in StepStates(kind, f, step) ensures HelperKept(g, id) {
      match step {
        case Persist(pid, r, fail) => PersistHelped(kind, f, id, pid, r, fail, g);
        case PersistCut(pid, r, fail, _, _, _) => PersistHelped(kind, f, id, pid, r, fail, g);
        case _ => assert g == f;
      }
    }
  }

  /** A call that removes the helper passes a state in which a crash can leave any record still possible
      without it. */
  lemma RemovedUnhelped(kind: Kind, f: Directory, id: Identity, base: Phase, step: Step)
    requires Sound(kind, f, id, base) && Removes(kind, f, step) && !AllRetirable(f)
    ensures !StepHelped(kind, f, id, step)
  {
    hide Sound, MayLoad, PayloadDurable, Remove, SyncDirectory, CanRetire;
    SoundIntact(kind, f, id, base);
    RemovedHelper(f, id);
    var q :| MayLoad(f, q) && !IsRetirable(q.phase);
    var g := Remove(f, HelperName);
    assert MayLoad(g, q) && !HelperKept(g, id);
    assert StepStates(kind, f, step)[1] == g;
    assert g in StepStates(kind, f, step);
  }

  /** One call keeps the helper available throughout exactly when it does not remove it before every record a
      crash could leave has ended. */
  lemma StepIff(kind: Kind, f: Directory, id: Identity, base: Phase, step: Step)
    requires Sound(kind, f, id, base) && HelperKept(f, id)
    ensures StepHelped(kind, f, id, step) <==> (Removes(kind, f, step) ==> AllRetirable(f))
  {
    hide Sound, AllRetirable, PayloadDurable, StepHelped, Removes;
    if AllRetirable(f) {
      RetirableHelped(kind, f, id, base, step);
    } else if Removes(kind, f, step) {
      RemovedUnhelped(kind, f, id, base, step);
    } else {
      UnremovedHelped(kind, f, id, step);
    }
  }

  lemma CrashHelped(f: Directory, id: Identity, pick: Name -> Option<nat>, garbage: nat -> Content<Record>)
    requires Intact(f) && HelperKept(f, id)
    ensures HelperKept(Crash(f, pick, garbage), id)
  {
    hide MayLoad, Intact, PayloadDurable, Crash, Keeps;
    CrashLoads(f, pick, garbage);
    if PayloadDurable(f, HelperName, id.helperDigest) {
      PayloadCurrent(f, HelperName, id.helperDigest);
      CrashKeeps(f, pick, garbage, HelperName);
      KeepsPayload(f, Crash(f, pick, garbage), HelperName, id.helperDigest);
    }
  }

  lemma PersistIntact(kind: Kind, f: Directory, id: Identity, base: Phase, pid: nat, r: Record, fail: nat, k: nat)
    requires Sound(kind, f, id, base)
    ensures Intact(At(PersistStates(kind, f, pid, r, fail), k))
  {
    hide Intact, MayLoad, PayloadDurable, PersistStates, Recorded;
    var states := PersistStates(kind, f, pid, r, fail);
    PersistSound(kind, f, id, base, pid, r, fail, if k < |states| then k else |states| - 1);
  }

  lemma RetireIntact(kind: Kind, f: Directory, id: Identity, base: Phase, r: Record, fail: nat, k: nat)
    requires Sound(kind, f, id, base)
    ensures Intact(At(RetireStates(kind, f, r, fail), k))
  {
    hide Intact, MayLoad, PayloadDurable, RetireStates, Recorded;
    var states := RetireStates(kind, f, r, fail);
    RetireSound(kind, f, id, base, r, fail, if k < |states| then k else |states| - 1);
  }

  lemma NextHelped(kind: Kind, f: Directory, id: Identity, base: Phase, step: Step)
    requires Sound(kind, f, id, base) && StepHelped(kind, f, id, step)
    ensures HelperKept(Next(kind, f, step), id)
  {
    hide Sound, HelperKept, Intact, PersistStates, RetireStates, Crash;
    var states := StepStates(kind, f, step);
    var last := states[|states| - 1];
    assert HelperKept(last, id);
    match step {
      case PersistCut(pid, r, fail, k, pick, garbage) =>
        PersistIntact(kind, f, id, base, pid, r, fail, k);
        CrashHelped(last, id, pick, garbage);
      case RetireCut(r, fail, k, pick, garbage) =>
        RetireIntact(kind, f, id, base, r, fail, k);
        CrashHelped(last, id, pick, garbage);
      case CrashNow(pick, garbage) =>
        SoundIntact(kind, f, id, base);
        CrashHelped(last, id, pick, garbage);
      case _ =>
    }
  }

  lemma RunNone(kind: Kind, f: Directory)
    ensures Run(kind, f, []) == f
  {
  }

  lemma RunLast(kind: Kind, f: Directory, steps: seq<Step>, n: nat)
    requires n < |steps|
    ensures Run(kind, f, steps[..n + 1]) == Next(kind, Run(kind, f, steps[..n]), steps[n])
  {
    hide Next;
    assert steps[..n + 1][..n] == steps[..n];
  }

  /** As long as the helper is only removed from ended transactions it is there. */
  lemma {:induction false} HelpedSoFar(kind: Kind, f: Directory, id: Identity, steps: seq<Step>, n: nat)
    requires Sound(kind, f, id, Scheduled) && OnlyLoads(f) && HelperKept(f, id)
    requires n <= |steps| && forall i :: 0 <= i < n ==> RemovesEnded(kind, f, steps, i)
    ensures forall i :: 0 <= i < n ==> StepHelped(kind, Run(kind, f, steps[..i]), id, steps[i])
    ensures HelperKept(Run(kind, f, steps[..n]), id)
  {
    hide Sound, HelperKept, OnlyLoads, Next, StepHelped, Removes, SettledRecord, AllRetirable, Run;
    if n == 0 {
      assert steps[..0] == [];
      RunNone(kind, f);
    } else {
      HelpedSoFar(kind, f, id, steps, n - 1);
      RunLast(kind, f, steps, n - 1);
      RunStepIff(kind, f, id, steps, n - 1);
      assert RemovesEnded(kind, f, steps, n - 1);
      RunSound(kind, f, id, Scheduled, steps[..n - 1]);
      NextHelped(kind, Run(kind, f, steps[..n - 1]), id, Scheduled, steps[n - 1]);
    }
  }

  lemma RunStepIff(kind: Kind, f: Directory, id: Identity, steps: seq<Step>, i: nat)
    requires Sound(kind, f, id, Scheduled) && OnlyLoads(f) && i < |steps| && HelperKept(Run(kind, f, steps[..i]), id)
    ensures StepHelped(kind, Run(kind, f, steps[..i]), id, steps[i]) <==> RemovesEnded(kind, f, steps, i)
  {
    hide Sound, HelperKept, OnlyLoads, StepHelped, Removes, SettledRecord, AllRetirable, Run;
    AllRetirableIff(kind, f, id, steps[..i]);
    RunSound(kind, f, id, Scheduled, steps[..i]);
    StepIff(kind, Run(kind, f, steps[..i]), id, Scheduled, steps[i]);
  }

  /** While every call keeps the helper it is there, so every removal was of an ended transaction's. */
  lemma {:induction false} EndedSoFar(kind: Kind, f: Directory, id: Identity, steps: seq<Step>, n: nat)
    requires Sound(kind, f, id, Scheduled) && OnlyLoads(f) && HelperKept(f, id) && AlwaysHelped(kind, f, id, steps)
    requires n <= |steps|
    ensures forall i :: 0 <= i < n ==> RemovesEnded(kind, f, steps, i)
  {
    hide Sound, HelperKept, OnlyLoads, StepHelped, RemovesEnded, Run;
    if n > 0 {
      EndedSoFar(kind, f, id, steps, n - 1);
      HelpedSoFar(kind, f, id, steps, n - 1);
      assert StepHelped(kind, Run(kind, f, steps[..n - 1]), id, steps[n - 1]);
      RunStepIff(kind, f, id, steps, n - 1);
    }
  }

  /** Over any run of persists, retirements, failures and crashes, a transaction that may still need its helper
      has it at every moment exactly when the helper was never removed while the record last loaded after a
      completed directory sync or a crash had not ended. */
  lemma HelperAvailableIff(kind: Kind, f: Directory, id: Identity, steps: seq<Step>)
    requires Sound(kind, f, id, Scheduled) && OnlyLoads(f) && HelperKept(f, id)
    ensures AlwaysHelped(kind, f, id, steps) <==> forall i :: 0 <= i < |steps| ==> RemovesEnded(kind, f, steps, i)
    ensures AlwaysHelped(kind, f, id, steps) ==> HelperKept(Run(kind, f, steps), id)
  {
    hide Sound, OnlyLoads, HelperKept, StepHelped, RemovesEnded, Run;
    assert steps[..|steps|] == steps;
    if AlwaysHelped(kind, f, id, steps) {
      EndedSoFar(kind, f, id, steps, |steps|);
    }
    if forall i :: 0 <= i < |steps| ==> RemovesEnded(kind, f, steps, i) {
      HelpedSoFar(kind, f, id, steps, |steps|);
    }
  }

  /** The same from the moment a preparation completed. */
  lemma HelperSincePreparation(kind: Kind, f: Directory, r: Record, steps: seq<Step>)
    requires r.phase == Scheduled && !r.rollbackAttempted
    ensures var prepared := Prepare(kind, f, r);
            AlwaysHelped(kind, prepared, r.identity, steps) <==>
            forall i :: 0 <= i < |steps| ==> RemovesEnded(kind, prepared, steps, i)
  {
    hide Prepare, Sound, MayLoad, AlwaysHelped, RemovesEnded, PayloadDurable;
    PrepareEstablishes(kind, f, r);
    PreparedLoads(kind, f, r);
    HelperAvailableIff(kind, Prepare(kind, f, r), r.identity, steps);
  }

  // ----- A run that loses it -------------------------------------------------------------------------------

  /** The ended record is renamed into place but its persist fails at the directory sync; a restarted driver
      loads it and retires the helper; a crash before that retirement's own sync brings the scheduled
      record back without its helper. */
  lemma LoadedRetireLosesHelper(f: Directory, r: Record, pid: nat)
    requires r.phase == Scheduled && !r.rollbackAttempted && Find(f, TemporaryName(pid)).current == None
    ensures var ended := r.(phase := Aborted);
            var prepared := Prepare(Update, f, r);
            var persisted := Next(Update, prepared, Persist(pid, ended, 4));
            var crashed := Next(Update, persisted,
                                RetireCut(ended, 2, 1, Keeping(Find(prepared, RecordName).current), _ => Torn));
            && LoadTransaction(Update, persisted) == Some(ended)
            && LoadTransaction(Update, crashed) == Some(r)
            && ReadPayload(crashed, HelperName) == None
  {
    hide Prepare, Next, RetireStates, LoadTransaction, ReadPayload, Stored, Crash;
    var ended := r.(phase := Aborted);
    var prepared := Prepare(Update, f, r);
    PreparedUpdate(f, r, pid);
    RenamedUnsynced(prepared, r, ended, pid);
    var persisted := Next(Update, prepared, Persist(pid, ended, 4));
    CutAfterRemoval(persisted, r, ended, Find(prepared, RecordName).current);
  }

  /** The record's name refers to the ended record but may come back as the old one. */
  ghost predicate Undecided(f: Directory, r: Record, ended: Record, v: Option<nat>) {
    && RecordName in f.names && HelperName in f.names
    && LoadTransaction(Update, f) == Some(ended)
    && v in Find(f, RecordName).possible && Stored(f, v, Holds(r))
    && ReadPayload(f, HelperName) == Some(r.identity.helperDigest)
  }

  lemma RenamedUnsynced(f: Directory, r: Record, ended: Record, pid: nat)
    requires r.phase == Scheduled && !r.rollbackAttempted && ended == r.(phase := Aborted)
    requires RecordName in f.names && HelperName in f.names && Find(f, TemporaryName(pid)).current == None
    requires Find(f, RecordName).possible == {Find(f, RecordName).current}
    requires Stored(f, Find(f, RecordName).current, Holds(r))
    requires Stored(f, Find(f, HelperName).current, Payload(r.identity.helperDigest))
    ensures Undecided(Next(Update, f, Persist(pid, ended, 4)), r, ended, Find(f, RecordName).current)
  {
    hide CreateNew, Write, SyncFile;
    var temporary := TemporaryName(pid);
    var i := |f.inodes|;
    var written := SyncFile(Write(CreateNew(f, temporary), i, Holds(ended)), i);
    WrittenNew(f, temporary, Holds(ended));
    OperationsAdd(f, temporary, ended);
    WriteNewElsewhere(f, temporary, ended);
    assert CanPersist(Update, f, ended);
    var renamed := Rename(written, temporary, RecordName);
    assert Next(Update, f, Persist(pid, ended, 4)) == Remove(renamed, temporary);
  }

  lemma WriteNewElsewhere(f: Directory, temporary: Name, r: Record)
    requires temporary.TemporaryName?
    ensures var i := |f.inodes|;
            var g := SyncFile(Write(CreateNew(f, temporary), i, Holds(r)), i);
            && (forall n :: n in f.names ==> n in g.names)
            && Find(g, RecordName) == Find(f, RecordName) && Find(g, HelperName) == Find(f, HelperName)
  {
  }

  lemma CutAfterRemoval(f: Directory, r: Record, ended: Record, v: Option<nat>)
    requires r.phase == Scheduled && !r.rollbackAttempted && ended == r.(phase := Aborted) && Undecided(f, r, ended, v)
    ensures var crashed := Next(Update, f, RetireCut(ended, 2, 1, Keeping(v), _ => Torn));
            LoadTransaction(Update, crashed) == Some(r) && ReadPayload(crashed, HelperName) == None
  {
    assert CanRetire(Update, f, ended);
    assert RetireStates(Update, f, ended, 2)[1] == Remove(f, HelperName);
  }

  lemma PreparedUpdate(f: Directory, r: Record, pid: nat)
    requires Find(f, TemporaryName(pid)).current == None
    ensures var g := Prepare(Update, f, r);
            && RecordName in g.names && HelperName in g.names
            && Find(g, RecordName).possible == {Find(g, RecordName).current}
            && Stored(g, Find(g, RecordName).current, Holds(r))
            && Stored(g, Find(g, HelperName).current, Payload(r.identity.helperDigest))
            && Find(g, TemporaryName(pid)).current == None
  {
    hide Stored;
    var helper := WriteNew(f, HelperName, Payload(r.identity.helperDigest));
    var all := WriteNew(helper, RecordName, Holds(r));
    WriteNewHas(f, HelperName, Payload(r.identity.helperDigest));
    WriteNewHas(helper, RecordName, Holds(r));
    SyncedHas(all, HelperName, Payload(r.identity.helperDigest));
    SyncedHas(all, RecordName, Holds(r));
  }
}
