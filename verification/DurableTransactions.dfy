/** Release updates and provider switches: transaction records advanced phase by phase through
    atomic replacement, read back after crashes, and the helper kept for recovery. */
module DurableTransactions {
  import opened Basics
  import opened TransactionPhases
  import opened DurableFiles

  datatype Kind = Update | Switch

  /** The fields fixed when a transaction is prepared. */
  datatype Identity = Identity(key: string, helperDigest: string, previousDigest: string, candidateDigest: string)

  datatype Record = Record(identity: Identity, phase: Phase, backup: Option<string>, committedDigest: Option<string>,
                           failure: Option<string>, rollbackAttempted: bool)

  type Directory = Files<Record>

  predicate LateAbort(kind: Kind) {
    kind == Switch
  }

  function StyleOf(kind: Kind): Style {
    if kind == Update then CleanAfter else CleanBefore
  }

  /** The evidence each phase demands of its record. */
  predicate Evidence(kind: Kind, r: Record) {
    var rolling := r.phase == RollingBack || r.phase == RolledBack;
    match kind
    case Update =>
      && (r.phase == Scheduled || r.phase == Aborted || r.phase == RecoveryFailed || r.backup.Some?)
      && (rolling <==> r.rollbackAttempted)
    case Switch =>
      && (rolling ==> r.rollbackAttempted)
      && (r.rollbackAttempted ==> rolling || r.phase == RecoveryFailed)
      && (r.phase == Committed ==> r.committedDigest.Some?)
  }

  /** Full validation: a switch also re-reads both configuration snapshots. */
  predicate Valid(kind: Kind, f: Directory, r: Record) {
    && Evidence(kind, r)
    && (kind == Switch ==>
          && ReadPayload(f, PreviousName) == Some(r.identity.previousDigest)
          && ReadPayload(f, CandidateName) == Some(r.identity.candidateDigest))
  }

  function LoadTransaction(kind: Kind, f: Directory): Option<Record> {
    var r := Load(f);
    if r.Some? && Valid(kind, f, r.value) then r else None
  }

  predicate CanPersist(kind: Kind, f: Directory, r: Record) {
    && Valid(kind, f, r)
    && var current := LoadTransaction(kind, f);
       && current.Some?
       && current.value.identity == r.identity
       && ValidTransition(LateAbort(kind), current.value.phase, r.phase)
  }

  /** Every state of the directory during one persist; a refused one changes nothing. */
  function PersistStates(kind: Kind, f: Directory, pid: nat, r: Record, fail: nat): (states: seq<Directory>)
    ensures states != []
  {
    if CanPersist(kind, f, r) then ReplaceStates(StyleOf(kind), f, pid, r, fail) else [f]
  }

  /** The record is on disk for good. */
  predicate PersistDurable(kind: Kind, f: Directory, pid: nat, r: Record, fail: nat) {
    CanPersist(kind, f, r) && ReplaceSucceeds(StyleOf(kind), f, pid, fail)
  }

  /** The call returns success. A switch syncs the directory once more, as operation 5. */
  predicate PersistSucceeds(kind: Kind, f: Directory, pid: nat, r: Record, fail: nat) {
    PersistDurable(kind, f, pid, r, fail) && (kind == Switch ==> fail > 5)
  }

  predicate CanRetire(kind: Kind, f: Directory, r: Record) {
    IsRetirable(r.phase) && Valid(kind, f, r) && ReadPayload(f, HelperName) == Some(r.identity.helperDigest)
  }

  /** Operation 0 is the removal of the helper, 1 the directory sync. */
  function RetireStates(kind: Kind, f: Directory, r: Record, fail: nat): (states: seq<Directory>)
    ensures states != []
  {
    if !CanRetire(kind, f, r) || fail == 0 then [f]
    else if fail == 1 then [f, Remove(f, HelperName)]
    else [f, Remove(f, HelperName), SyncDirectory(Remove(f, HelperName))]
  }

  /** One call, or one call cut short by a crash in its `k`-th state, or a crash between calls. */
  datatype Step =
    | Persist(pid: nat, record: Record, fail: nat)
    | PersistCut(pid: nat, record: Record, fail: nat, k: nat, pick: Name -> Option<nat>, garbage: nat -> Content<Record>)
    | Retire(record: Record, fail: nat)
    | RetireCut(record: Record, fail: nat, k: nat, pick: Name -> Option<nat>, garbage: nat -> Content<Record>)
    | CrashNow(pick: Name -> Option<nat>, garbage: nat -> Content<Record>)

  function At(states: seq<Directory>, k: nat): Directory
    requires states != []
  {
    if k < |states| then states[k] else states[|states| - 1]
  }

  function Next(kind: Kind, f: Directory, step: Step): Directory {
    match step
    case Persist(pid, r, fail) =>
      var states := PersistStates(kind, f, pid, r, fail);
      states[|states| - 1]
    case PersistCut(pid, r, fail, k, pick, garbage) => Crash(At(PersistStates(kind, f, pid, r, fail), k), pick, garbage)
    case Retire(r, fail) =>
      var states := RetireStates(kind, f, r, fail);
      states[|states| - 1]
    case RetireCut(r, fail, k, pick, garbage) => Crash(At(RetireStates(kind, f, r, fail), k), pick, garbage)
    case CrashNow(pick, garbage) => Crash(f, pick, garbage)
  }

  function Run(kind: Kind, f: Directory, steps: seq<Step>): Directory {
    if steps == [] then f else Next(kind, Run(kind, f, steps[..|steps| - 1]), steps[|steps| - 1])
  }

  // ----- The invariant ---------------------------------------------------------------------------------

  ghost predicate Recorded(kind: Kind, id: Identity, base: Phase, r: Record) {
    r.identity == id && Evidence(kind, r) && Reaches(LateAbort(kind), base, r.phase)
  }

  ghost predicate SnapshotsDurable(kind: Kind, f: Directory, id: Identity) {
    kind == Switch ==>
      PayloadDurable(f, PreviousName, id.previousDigest) && PayloadDurable(f, CandidateName, id.candidateDigest)
  }

  /** Whatever is found is a complete record of this transaction in a phase reachable from `base`. */
  ghost predicate Sound(kind: Kind, f: Directory, id: Identity, base: Phase) {
    && Intact(f)
    && (forall r :: MayLoad(f, r) ==> Recorded(kind, id, base, r))
    && SnapshotsDurable(kind, f, id)
  }

  lemma SnapshotsKept(kind: Kind, f: Directory, g: Directory, id: Identity)
    requires SnapshotsDurable(kind, f, id)
    requires kind == Switch ==> Keeps(f, g, PreviousName) && Keeps(f, g, CandidateName)
    ensures SnapshotsDurable(kind, g, id)
    ensures kind == Switch ==>
              && ReadPayload(g, PreviousName) == Some(id.previousDigest)
              && ReadPayload(g, CandidateName) == Some(id.candidateDigest)
  {
  }

  lemma SnapshotsKeptSelf(kind: Kind, f: Directory, id: Identity)
    requires SnapshotsDurable(kind, f, id)
    ensures kind == Switch ==> Keeps(f, f, PreviousName) && Keeps(f, f, CandidateName)
    ensures kind == Switch ==>
              && Find(f, PreviousName).current in Find(f, PreviousName).possible
              && Find(f, CandidateName).current in Find(f, CandidateName).possible
  {
  }

  /** What is found always loads, and validates. */
  lemma SoundLoads(kind: Kind, f: Directory, id: Identity, base: Phase)
    requires Sound(kind, f, id, base)
    ensures LoadTransaction(kind, f).Some?
    ensures Recorded(kind, id, base, LoadTransaction(kind, f).value)
    ensures MayLoad(f, LoadTransaction(kind, f).value)
  {
    hide MayLoad, Intact, Keeps, PayloadDurable, ReadPayload, Load, Reaches;
    LoadsPossible(f);
    SnapshotsKeptSelf(kind, f, id);
    SnapshotsKept(kind, f, f, id);
  }

  lemma CrashSound(kind: Kind, f: Directory, id: Identity, base: Phase, pick: Name -> Option<nat>, garbage: nat -> Content<Record>)
    requires Sound(kind, f, id, base)
    ensures Sound(kind, Crash(f, pick, garbage), id, base)
  {
    hide MayLoad, Intact, Keeps, PayloadDurable, Crash, Recorded;
    CrashLoads(f, pick, garbage);
    SnapshotsKeptSelf(kind, f, id);
    if kind == Switch {
      CrashKeeps(f, pick, garbage, PreviousName);
      CrashKeeps(f, pick, garbage, CandidateName);
    }
    SnapshotsKept(kind, f, Crash(f, pick, garbage), id);
  }

  lemma PersistSound(kind: Kind, f: Directory, id: Identity, base: Phase, pid: nat, r: Record, fail: nat, k: nat)
    requires Sound(kind, f, id, base) && k < |PersistStates(kind, f, pid, r, fail)|
    ensures Sound(kind, PersistStates(kind, f, pid, r, fail)[k], id, base)
  {
    hide MayLoad, Intact, Keeps, PayloadDurable, Evidence, LoadTransaction, Reaches, ReplaceStates, ValidTransition, ReadPayload;
    if CanPersist(kind, f, r) {
      SoundLoads(kind, f, id, base);
      ReachesStep(LateAbort(kind), base, LoadTransaction(kind, f).value.phase, r.phase);
      ReplaceAtomic(StyleOf(kind), f, pid, r, fail, k);
      SnapshotsKeptSelf(kind, f, id);
      if kind == Switch {
        ReplaceKeeps(StyleOf(kind), f, pid, r, fail, k, PreviousName);
        ReplaceKeeps(StyleOf(kind), f, pid, r, fail, k, CandidateName);
      }
      SnapshotsKept(kind, f, PersistStates(kind, f, pid, r, fail)[k], id);
    }
  }

  lemma RetireSound(kind: Kind, f: Directory, id: Identity, base: Phase, r: Record, fail: nat, k: nat)
    requires Sound(kind, f, id, base) && k < |RetireStates(kind, f, r, fail)|
    ensures Sound(kind, RetireStates(kind, f, r, fail)[k], id, base)
  {
    hide MayLoad, Intact, Keeps, PayloadDurable, Recorded, CanRetire, Remove, SyncDirectory, Find;
    var g := RetireStates(kind, f, r, fail)[k];
    IntactCurrent(f);
    SnapshotsKeptSelf(kind, f, id);
    RetireKeeps(kind, f, r, fail, k, RecordName);
    KeepsRecord(f, g);
    if kind == Switch {
      RetireKeeps(kind, f, r, fail, k, PreviousName);
      RetireKeeps(kind, f, r, fail, k, CandidateName);
    }
    SnapshotsKept(kind, f, g, id);
  }

  lemma RetireKeeps(kind: Kind, f: Directory, r: Record, fail: nat, k: nat, n: Name)
    requires n != HelperName && k < |RetireStates(kind, f, r, fail)| && Find(f, n).current in Find(f, n).possible
    ensures Keeps(f, RetireStates(kind, f, r, fail)[k], n)
  {
  }

  lemma NextSound(kind: Kind, f: Directory, id: Identity, base: Phase, step: Step)
    requires Sound(kind, f, id, base)
    ensures Sound(kind, Next(kind, f, step), id, base)
  {
    hide Sound, PersistStates, RetireStates, Crash;
    match step {
      case Persist(pid, r, fail) =>
        PersistSound(kind, f, id, base, pid, r, fail, |PersistStates(kind, f, pid, r, fail)| - 1);
      case PersistCut(pid, r, fail, k, pick, garbage) =>
        var states := PersistStates(kind, f, pid, r, fail);
        PersistSound(kind, f, id, base, pid, r, fail, if k < |states| then k else |states| - 1);
        CrashSound(kind, At(states, k), id, base, pick, garbage);
      case Retire(r, fail) => RetireSound(kind, f, id, base, r, fail, |RetireStates(kind, f, r, fail)| - 1);
      case RetireCut(r, fail, k, pick, garbage) =>
        var states := RetireStates(kind, f, r, fail);
        RetireSound(kind, f, id, base, r, fail, if k < |states| then k else |states| - 1);
        CrashSound(kind, At(states, k), id, base, pick, garbage);
      case CrashNow(pick, garbage) => CrashSound(kind, f, id, base, pick, garbage);
    }
  }

  lemma {:induction false} RunSound(kind: Kind, f: Directory, id: Identity, base: Phase, steps: seq<Step>)
    requires Sound(kind, f, id, base)
    ensures Sound(kind, Run(kind, f, steps), id, base)
  {
    hide Sound, Next;
    if steps != [] {
      RunSound(kind, f, id, base, steps[..|steps| - 1]);
      NextSound(kind, Run(kind, f, steps[..|steps| - 1]), id, base, steps[|steps| - 1]);
    }
  }

  // ----- Main results ----------------------------------------------------------------------------------------

  /** An acknowledged persist is never lost: after any further calls, failures and crashes at any
      point the record found loads, validates, belongs to this transaction and is in a phase
      reachable from the acknowledged one. An ended transaction stays as it ended. */
  lemma AcknowledgedSurvives(kind: Kind, f: Directory, id: Identity, base: Phase, pid: nat, r: Record, fail: nat, steps: seq<Step>)
    requires Sound(kind, f, id, base) && PersistSucceeds(kind, f, pid, r, fail)
    ensures var found := LoadTransaction(kind, Run(kind, Next(kind, f, Persist(pid, r, fail)), steps));
            && found.Some?
            && found.value.identity == id
            && Reaches(LateAbort(kind), r.phase, found.value.phase)
            && (IsTerminal(r.phase) ==> found.value.phase == r.phase)
  {
    hide Sound, Run, Next, LoadTransaction, Reaches, IsTerminal;
    var g := Next(kind, f, Persist(pid, r, fail));
    PersistedSound(kind, f, id, base, pid, r, fail);
    RunSound(kind, g, id, r.phase, steps);
    SoundLoads(kind, Run(kind, g, steps), id, r.phase);
    NeverBack(LateAbort(kind), r.phase, LoadTransaction(kind, Run(kind, g, steps)).value.phase);
  }

  lemma PersistedSound(kind: Kind, f: Directory, id: Identity, base: Phase, pid: nat, r: Record, fail: nat)
    requires Sound(kind, f, id, base) && PersistDurable(kind, f, pid, r, fail)
    ensures Sound(kind, Next(kind, f, Persist(pid, r, fail)), id, r.phase)
    ensures forall q :: MayLoad(Next(kind, f, Persist(pid, r, fail)), q) ==> q == r
  {
    hide MayLoad, Intact, Keeps, PayloadDurable, Evidence, LoadTransaction, Reaches, ReplaceStates, ValidTransition, ReadPayload, ReplaceSucceeds;
    var states := PersistStates(kind, f, pid, r, fail);
    PersistSound(kind, f, id, base, pid, r, fail, |states| - 1);
    SoundLoads(kind, f, id, base);
    ReplaceDurable(StyleOf(kind), f, pid, r, fail);
    ReachesSelf(LateAbort(kind), r.phase);
  }

  /** From its preparation on, a transaction is always found in one piece, whatever is called and
      wherever crashes strike. */
  lemma CrashSafety(kind: Kind, f: Directory, id: Identity, steps: seq<Step>)
    requires Sound(kind, f, id, Scheduled)
    ensures var found := LoadTransaction(kind, Run(kind, f, steps));
            && found.Some?
            && found.value.identity == id
            && Evidence(kind, found.value)
            && Reaches(LateAbort(kind), Scheduled, found.value.phase)
  {
    hide Sound, Run, LoadTransaction, Reaches;
    RunSound(kind, f, id, Scheduled, steps);
    SoundLoads(kind, Run(kind, f, steps), id, Scheduled);
  }

  /** Preparation: payloads first, the record next, one directory sync last. */
  function Prepare(kind: Kind, f: Directory, r: Record): Directory {
    var helper := WriteNew(f, HelperName, Payload(r.identity.helperDigest));
    var payloads :=
      if kind == Switch then
        WriteNew(WriteNew(helper, PreviousName, Payload(r.identity.previousDigest)),
                 CandidateName, Payload(r.identity.candidateDigest))
      else helper;
    SyncDirectory(WriteNew(payloads, RecordName, Holds(r)))
  }

  /** Every state of the directory while a new file is created, written and synced. */
  function WriteNewStates(f: Directory, n: Name, c: Content<Record>): seq<Directory> {
    var i := |f.inodes|;
    [CreateNew(f, n), Write(CreateNew(f, n), i, c), WriteNew(f, n, c)]
  }

  /** Every state of the directory during preparation, in order. */
  function PrepareStates(kind: Kind, f: Directory, r: Record): seq<Directory> {
    var id := r.identity;
    var helper := WriteNew(f, HelperName, Payload(id.helperDigest));
    var previous := WriteNew(helper, PreviousName, Payload(id.previousDigest));
    var candidate := WriteNew(previous, CandidateName, Payload(id.candidateDigest));
    var payloads := if kind == Switch then candidate else helper;
    WriteNewStates(f, HelperName, Payload(id.helperDigest))
    + (if kind == Switch then
         WriteNewStates(helper, PreviousName, Payload(id.previousDigest))
         + WriteNewStates(previous, CandidateName, Payload(id.candidateDigest))
       else [])
    + WriteNewStates(payloads, RecordName, Holds(r))
    + [Prepare(kind, f, r)]
  }

  ghost predicate PayloadsWritten(kind: Kind, f: Directory, id: Identity) {
    && Has(f, HelperName, Payload(id.helperDigest))
    && (kind == Switch ==>
          Has(f, PreviousName, Payload(id.previousDigest)) && Has(f, CandidateName, Payload(id.candidateDigest)))
  }

  lemma WriteNewOther(f: Directory, n: Name, c: Content<Record>, m: Name)
    requires m != n
    ensures forall g :: g in WriteNewStates(f, n, c) ==> Find(g, m) == Find(f, m)
    ensures forall g, d :: g in WriteNewStates(f, n, c) && Has(f, m, d) ==> Has(g, m, d)
    ensures WriteNew(f, n, c) in WriteNewStates(f, n, c)
  {
  }

  /** The helper, and for a switch both configuration snapshots, are completely on disk before the
      record first appears. */
  lemma PayloadsBeforeRecord(kind: Kind, f: Directory, r: Record, g: Directory)
    requires Find(f, RecordName).current == None
    requires g in PrepareStates(kind, f, r) && Find(g, RecordName).current != None
    ensures PayloadsWritten(kind, g, r.identity)
  {
    hide WriteNew, WriteNewStates, Has, SyncDirectory;
    var id := r.identity;
    var helper := WriteNew(f, HelperName, Payload(id.helperDigest));
    var previous := WriteNew(helper, PreviousName, Payload(id.previousDigest));
    var candidate := WriteNew(previous, CandidateName, Payload(id.candidateDigest));
    var payloads := if kind == Switch then candidate else helper;
    WriteNewOther(f, HelperName, Payload(id.helperDigest), RecordName);
    WriteNewOther(helper, PreviousName, Payload(id.previousDigest), RecordName);
    WriteNewOther(previous, CandidateName, Payload(id.candidateDigest), RecordName);
    WriteNewHas(f, HelperName, Payload(id.helperDigest));
    WriteNewHas(helper, PreviousName, Payload(id.previousDigest));
    WriteNewHas(previous, CandidateName, Payload(id.candidateDigest));
    WriteNewOther(payloads, RecordName, Holds(r), HelperName);
    WriteNewOther(payloads, RecordName, Holds(r), PreviousName);
    WriteNewOther(payloads, RecordName, Holds(r), CandidateName);
    var all := WriteNew(payloads, RecordName, Holds(r));
    SyncedStillHas(all, HelperName, Payload(id.helperDigest));
    SyncedStillHas(all, PreviousName, Payload(id.previousDigest));
    SyncedStillHas(all, CandidateName, Payload(id.candidateDigest));
  }

  lemma SyncedStillHas(f: Directory, n: Name, c: Content<Record>)
    ensures Has(f, n, c) ==> Has(SyncDirectory(f), n, c)
  {
  }

  /** A file that was not synced is found torn or as it was written. */
  ghost predicate Plausible(f: Directory, garbage: nat -> Content<Record>) {
    forall i :: 0 <= i < |f.inodes| ==> garbage(i) == Torn || garbage(i) == f.inodes[i].content
  }

  /** A crash now may leave the record and not its helper. */
  ghost predicate CanLoseHelper(f: Directory, r: Record) {
    exists pick: Name -> Option<nat>, garbage: nat -> Content<Record> ::
      Plausible(f, garbage) && Load(Crash(f, pick, garbage)) == Some(r) && ReadPayload(Crash(f, pick, garbage), HelperName) == None
  }

  function Keeping(v: Option<nat>): Name -> Option<nat> {
    (n: Name) => if n == RecordName then v else None
  }

  lemma LosesHelper(f: Directory, r: Record)
    requires RecordName in f.names && None in Find(f, HelperName).possible
    requires var record := Find(f, RecordName);
             && record.current in record.possible && record.current.Some? && record.current.value < |f.inodes|
             && f.inodes[record.current.value].content == Holds(r)
    ensures CanLoseHelper(f, r)
  {
    var pick, garbage := Keeping(Find(f, RecordName).current), (i: nat) => if i < |f.inodes| then f.inodes[i].content else Torn;
    assert Plausible(f, garbage) && Load(Crash(f, pick, garbage)) == Some(r) && ReadPayload(Crash(f, pick, garbage), HelperName) == None;
  }

  lemma KeepsHelper(f: Directory, r: Record, digest: string)
    requires HelperName in f.names && PayloadDurable(f, HelperName, digest)
    ensures !CanLoseHelper(f, r)
  {
    forall pick: Name -> Option<nat>, garbage: nat -> Content<Record>
      ensures ReadPayload(Crash(f, pick, garbage), HelperName) != None
    {
      CrashKeeps(f, pick, garbage, HelperName);
      KeepsPayload(f, Crash(f, pick, garbage), HelperName, digest);
    }
  }

  lemma NoRecordYet(f: Directory, r: Record)
    requires Find(f, RecordName) == Entry(None, {None})
    ensures !CanLoseHelper(f, r)
  {
  }

  /** The record's name refers to a file it was written to. */
  predicate Written(f: Directory, r: Record) {
    var record := Find(f, RecordName).current;
    record.Some? && record.value < |f.inodes| && f.inodes[record.value].content == Holds(r)
  }

  lemma RecordStates(f: Directory, r: Record, g: Directory)
    requires g in WriteNewStates(f, RecordName, Holds(r)) && None in Find(f, HelperName).possible
    requires Find(f, RecordName) == Entry(None, {None})
    ensures CanLoseHelper(g, r) <==> Written(g, r)
  {
    if Written(g, r) {
      LosesHelper(g, r);
    } else {
      assert g == CreateNew(f, RecordName);
    }
  }

  /** In files of a new transaction: a crash during preparation can leave the record without its helper
      exactly between the writing of the record and the closing directory sync. */
  lemma PreparationLosesHelperIff(kind: Kind, f: Directory, r: Record, g: Directory)
    requires HelperName !in f.names && RecordName !in f.names
    requires g in PrepareStates(kind, f, r)
    ensures CanLoseHelper(g, r) <==> Written(g, r) && g != Prepare(kind, f, r)
  {
    hide WriteNew, WriteNewStates, Has, SyncDirectory, CanLoseHelper, PayloadDurable;
    var id := r.identity;
    var helper := WriteNew(f, HelperName, Payload(id.helperDigest));
    var previous := WriteNew(helper, PreviousName, Payload(id.previousDigest));
    var candidate := WriteNew(previous, CandidateName, Payload(id.candidateDigest));
    var payloads := if kind == Switch then candidate else helper;
    WriteNewOther(f, HelperName, Payload(id.helperDigest), RecordName);
    WriteNewOther(helper, PreviousName, Payload(id.previousDigest), RecordName);
    WriteNewOther(previous, CandidateName, Payload(id.candidateDigest), RecordName);
    WriteNewOther(helper, PreviousName, Payload(id.previousDigest), HelperName);
    WriteNewOther(previous, CandidateName, Payload(id.candidateDigest), HelperName);
    FirstWrite(f, HelperName, Payload(id.helperDigest));
    assert None in Find(payloads, HelperName).possible;
    if g == Prepare(kind, f, r) {
      PreparedHelper(kind, f, r);
      KeepsHelper(g, r, id.helperDigest);
    } else if g in WriteNewStates(payloads, RecordName, Holds(r)) {
      RecordStates(payloads, r, g);
    } else {
      NoRecordYet(g, r);
    }
  }

  lemma FirstWrite(f: Directory, n: Name, c: Content<Record>)
    requires n !in f.names
    ensures None in Find(WriteNew(f, n, c), n).possible
  {
  }

  lemma PreparedHelper(kind: Kind, f: Directory, r: Record)
    ensures var g := Prepare(kind, f, r);
            HelperName in g.names && PayloadDurable(g, HelperName, r.identity.helperDigest) && Find(g, RecordName).current != None
  {
    hide WriteNew, Has, SyncDirectory;
    var id := r.identity;
    var helper := WriteNew(f, HelperName, Payload(id.helperDigest));
    var previous := WriteNew(helper, PreviousName, Payload(id.previousDigest));
    var candidate := WriteNew(previous, CandidateName, Payload(id.candidateDigest));
    var payloads := if kind == Switch then candidate else helper;
    var all := WriteNew(payloads, RecordName, Holds(r));
    WriteNewHas(f, HelperName, Payload(id.helperDigest));
    WriteNewHas(helper, PreviousName, Payload(id.previousDigest));
    WriteNewHas(previous, CandidateName, Payload(id.candidateDigest));
    WriteNewHas(payloads, RecordName, Holds(r));
    SyncedHas(all, HelperName, Payload(id.helperDigest));
    SyncedHas(all, RecordName, Holds(r));
    SyncedNames(all, HelperName, Payload(id.helperDigest));
  }

  lemma SyncedNames(f: Directory, n: Name, c: Content<Record>)
    requires Has(f, n, c)
    ensures n in SyncDirectory(f).names
  {
  }

  ghost predicate Has(f: Directory, n: Name, c: Content<Record>) {
    n in f.names && Stored(f, f.names[n].current, c)
  }

  lemma WriteNewHas(f: Directory, n: Name, c: Content<Record>)
    ensures Has(WriteNew(f, n, c), n, c)
    ensures forall m, d :: m != n && Has(f, m, d) ==> Has(WriteNew(f, n, c), m, d)
  {
  }

  lemma SyncedHas(f: Directory, n: Name, c: Content<Record>)
    requires Has(f, n, c)
    ensures var g := SyncDirectory(f);
            Find(g, n).possible == {Find(g, n).current} && Stored(g, Find(g, n).current, c)
  {
  }

  /** A completed preparation leaves the scheduled record, its snapshots and its helper durable. */
  lemma PrepareEstablishes(kind: Kind, f: Directory, r: Record)
    requires r.phase == Scheduled && !r.rollbackAttempted
    ensures Sound(kind, Prepare(kind, f, r), r.identity, Scheduled)
    ensures PayloadDurable(Prepare(kind, f, r), HelperName, r.identity.helperDigest)
    ensures forall q :: MayLoad(Prepare(kind, f, r), q) ==> q == r
  {
    hide WriteNew, Has, SyncDirectory, Stored;
    var id := r.identity;
    var helper := WriteNew(f, HelperName, Payload(id.helperDigest));
    var previous := WriteNew(helper, PreviousName, Payload(id.previousDigest));
    var candidate := WriteNew(previous, CandidateName, Payload(id.candidateDigest));
    var payloads := if kind == Switch then candidate else helper;
    var all := WriteNew(payloads, RecordName, Holds(r));
    WriteNewHas(f, HelperName, Payload(id.helperDigest));
    WriteNewHas(helper, PreviousName, Payload(id.previousDigest));
    WriteNewHas(previous, CandidateName, Payload(id.candidateDigest));
    WriteNewHas(payloads, RecordName, Holds(r));
    SyncedHas(all, HelperName, Payload(id.helperDigest));
    SyncedHas(all, RecordName, Holds(r));
    if kind == Switch {
      SyncedHas(all, PreviousName, Payload(id.previousDigest));
      SyncedHas(all, CandidateName, Payload(id.candidateDigest));
    }
    OnlyRecord(Prepare(kind, f, r), r);
    ReachesSelf(LateAbort(kind), Scheduled);
  }

  lemma OnlyRecord(f: Directory, r: Record)
    requires Find(f, RecordName).possible == {Find(f, RecordName).current}
    requires Stored(f, Find(f, RecordName).current, Holds(r))
    ensures Intact(f) && forall q :: MayLoad(f, q) ==> q == r
  {
  }

  // ----- Recording a failed recovery ---------------------------------------------------------------------------

  /** The record both command drivers write when recovery fails: the rollback mark is kept. */
  function FailedRecovery(r: Record, failure: string): Record {
    r.(phase := RecoveryFailed, failure := Some(failure))
  }

  /** A provider switch can always record that its recovery failed. A release update can exactly when
      no rollback was begun: once it was, the record stays rolling back and never ends. */
  lemma FailedRecoveryRecordedIff(kind: Kind, f: Directory, id: Identity, base: Phase, failure: string)
    requires Sound(kind, f, id, base)
    ensures LoadTransaction(kind, f).Some?
    ensures var current := LoadTransaction(kind, f).value;
            !IsTerminal(current.phase) ==>
              (CanPersist(kind, f, FailedRecovery(current, failure)) <==> kind == Switch || current.phase != RollingBack)
  {
    hide Sound, Reaches, Load, ReadPayload;
    SoundLoads(kind, f, id, base);
  }

  // ----- The calls as the sources make them ------------------------------------------------------------------------

  class TransactionDirectory {
    var files: Directory
    ghost var trace: seq<Directory>

    method Do(next: Directory)
      modifies this
      ensures files == next && trace == old(trace) + [next]
    {
      files := next;
      trace := trace + [next];
    }

    /** One replacement, system call by system call. */
    method Replace(style: Style, pid: nat, r: Record, fail: nat) returns (ok: bool)
      modifies this
      ensures var states := ReplaceStates(style, old(files), pid, r, fail);
              && files == states[|states| - 1]
              && trace == old(trace) + states
              && ok == ReplaceSucceeds(style, old(files), pid, fail)
    {
      hide Find, AfterOpen, Remove;
      var temporary := TemporaryName(pid);
      Do(if style == CleanBefore then Remove(files, temporary) else files);
      FindRemoved(old(files), temporary);
      if fail == 0 || Find(files, temporary).current != None {
        return false;
      }
      ok := WriteAndRename(style, temporary, r, fail);
    }

    /** Everything after the temporary file could be opened. */
    method WriteAndRename(style: Style, temporary: Name, r: Record, fail: nat) returns (ok: bool)
      requires fail > 0
      modifies this
      ensures var states := AfterOpen(style, old(files), temporary, r, fail);
              && files == states[|states| - 1]
              && trace == old(trace) + states
              && ok == (fail >= 5)
    {
      hide CreateNew, Write, SyncFile, Rename, Remove, SyncDirectory, Cleanup;
      var i := |files.inodes|;
      ghost var before := trace;
      Do(CreateNew(files, temporary));
      ghost var f1 := files;
      if fail == 1 {
        GiveUp(style, temporary);
        assert trace == before + ([f1] + Cleanup(style, f1, temporary));
        return false;
      }
      Do(Write(files, i, Holds(r)));
      ghost var f2 := files;
      if fail == 2 {
        GiveUp(style, temporary);
        assert trace == before + ([f1, f2] + Cleanup(style, f2, temporary));
        return false;
      }
      Do(SyncFile(files, i));
      ghost var f3 := files;
      if fail == 3 {
        GiveUp(style, temporary);
        assert trace == before + ([f1, f2, f3] + Cleanup(style, f3, temporary));
        return false;
      }
      Do(Rename(files, temporary, RecordName));
      ghost var f4 := files;
      if fail == 4 {
        GiveUp(style, temporary);
        assert trace == before + ([f1, f2, f3, f4] + Cleanup(style, f4, temporary));
        return false;
      }
      Do(SyncDirectory(files));
      assert trace == before + [f1, f2, f3, f4, files];
      return true;
    }

    method GiveUp(style: Style, temporary: Name)
      modifies this
      ensures trace == old(trace) + Cleanup(style, old(files), temporary)
      ensures files == if style == CleanAfter then Remove(old(files), temporary) else old(files)
      ensures var states := Cleanup(style, old(files), temporary);
              files == if states == [] then old(files) else states[|states| - 1]
    {
      if style == CleanAfter {
        Do(Remove(files, temporary));
      }
    }

    /** `persist_update_transaction` and `persist_transaction`, a step of the machine above. Wherever a
        crash strikes the transaction is sound, with its helper; success leaves only the new record,
        a refusal everything as it was. */
    method PersistTransaction(kind: Kind, pid: nat, r: Record, fail: nat, ghost id: Identity, ghost base: Phase)
      returns (ok: bool)
      modifies this
      ensures files == Next(kind, old(files), Persist(pid, r, fail)) && old(trace) < trace
      ensures Sound(kind, old(files), id, base) ==>
                && (forall g :: g in trace[|old(trace)|..] ==> Sound(kind, g, id, base))
                && Sound(kind, files, id, base)
                && (ok ==> LoadTransaction(kind, files) == Some(r) && forall q :: MayLoad(files, q) ==> q == r)
      ensures PayloadDurable(old(files), HelperName, id.helperDigest) ==>
                forall g :: g in trace[|old(trace)|..] ==> PayloadDurable(g, HelperName, id.helperDigest)
      ensures !CanPersist(kind, old(files), r) ==> !ok && files == old(files)
      ensures ok == PersistSucceeds(kind, old(files), pid, r, fail)
    {
      hide ReplaceStates, CanPersist, ReplaceSucceeds, Sound, PayloadDurable, MayLoad, LoadTransaction;
      ghost var f := files;
      ghost var states := PersistStates(kind, f, pid, r, fail);
      if !CanPersist(kind, files, r) {
        Do(files);
        ok := false;
      } else {
        ok := Replace(StyleOf(kind), pid, r, fail);
        if ok && kind == Switch {
          SyncedAlready(StyleOf(kind), f, pid, r, fail);
          if fail == 5 {
            ok := false;
          } else {
            files := SyncDirectory(files);
          }
        }
      }
      assert trace[|old(trace)|..] == states;
      if Sound(kind, f, id, base) {
        PersistMeans(kind, f, id, base, pid, r, fail);
      }
      if PayloadDurable(f, HelperName, id.helperDigest) {
        forall g | g in states ensures PayloadDurable(g, HelperName, id.helperDigest) {
          var k :| 0 <= k < |states| && states[k] == g;
          PayloadCurrent(f, HelperName, id.helperDigest);
          PersistKeepsHelper(kind, f, pid, r, fail, k);
          KeepsPayload(f, g, HelperName, id.helperDigest);
        }
      }
    }

    /** The calls of a retirement, one by one. */
    method RemoveAndSync(kind: Kind, r: Record, fail: nat) returns (ok: bool)
      modifies this
      ensures var states := RetireStates(kind, old(files), r, fail);
              files == states[|states| - 1] && trace == old(trace) + states
      ensures ok <==> CanRetire(kind, old(files), r) && fail > 1
    {
      hide CanRetire, Remove, SyncDirectory;
      ghost var before := trace;
      Do(files);
      ghost var f := files;
      if !CanRetire(kind, files, r) || fail == 0 {
        return false;
      }
      Do(Remove(files, HelperName));
      if fail == 1 {
        assert trace == before + [f, files];
        return false;
      }
      ghost var g := files;
      Do(SyncDirectory(files));
      assert trace == before + [f, g, files];
      return true;
    }

    /** `retire_update_helper` and `retire_helper`. The record stays sound throughout; success removes the
        helper for good and leaves the loaded record the only possible one. */
    method RetireHelper(kind: Kind, r: Record, fail: nat, ghost id: Identity, ghost base: Phase) returns (ok: bool)
      modifies this
      ensures files == Next(kind, old(files), Retire(r, fail)) && old(trace) < trace
      ensures Sound(kind, old(files), id, base) ==>
                && (forall g :: g in trace[|old(trace)|..] ==> Sound(kind, g, id, base))
                && (ok ==> forall q :: MayLoad(files, q) ==> Load(old(files)) == Some(q))
      ensures ok ==> Find(files, HelperName) == Entry(None, {None})
      ensures !CanRetire(kind, old(files), r) ==> files == old(files)
      ensures ok <==> CanRetire(kind, old(files), r) && fail > 1
    {
      hide CanRetire, Remove, SyncDirectory, Sound, MayLoad, Find, Load;
      ghost var f := files;
      ghost var states := RetireStates(kind, f, r, fail);
      ok := RemoveAndSync(kind, r, fail);
      HelperGone(f);
      assert trace[|old(trace)|..] == states;
      if Sound(kind, f, id, base) {
        forall g | g in states ensures Sound(kind, g, id, base) {
          var k :| 0 <= k < |states| && states[k] == g;
          RetireSound(kind, f, id, base, r, fail, k);
        }
        SoundIntact(kind, f, id, base);
        RemovedHelper(f, id);
      }
    }
  }

  lemma PreparedLoads(kind: Kind, f: Directory, r: Record)
    ensures Load(Prepare(kind, f, r)) == Some(r)
  {
    hide WriteNew, Has, SyncDirectory;
    var id := r.identity;
    var helper := WriteNew(f, HelperName, Payload(id.helperDigest));
    var previous := WriteNew(helper, PreviousName, Payload(id.previousDigest));
    var candidate := WriteNew(previous, CandidateName, Payload(id.candidateDigest));
    var payloads := if kind == Switch then candidate else helper;
    WriteNewHas(payloads, RecordName, Holds(r));
    SyncedHas(WriteNew(payloads, RecordName, Holds(r)), RecordName, Holds(r));
  }

  lemma PersistMeans(kind: Kind, f: Directory, id: Identity, base: Phase, pid: nat, r: Record, fail: nat)
    requires Sound(kind, f, id, base)
    ensures forall g :: g in PersistStates(kind, f, pid, r, fail) ==> Sound(kind, g, id, base)
    ensures PersistDurable(kind, f, pid, r, fail) ==>
              && LoadTransaction(kind, Next(kind, f, Persist(pid, r, fail))) == Some(r)
              && forall q :: MayLoad(Next(kind, f, Persist(pid, r, fail)), q) ==> q == r
  {
    hide Sound, PersistStates, MayLoad, LoadTransaction, PersistDurable;
    var states := PersistStates(kind, f, pid, r, fail);
    forall g | g in states ensures Sound(kind, g, id, base) {
      var k :| 0 <= k < |states| && states[k] == g;
      PersistSound(kind, f, id, base, pid, r, fail, k);
    }
    if PersistDurable(kind, f, pid, r, fail) {
      PersistedSound(kind, f, id, base, pid, r, fail);
      SoundLoads(kind, Next(kind, f, Persist(pid, r, fail)), id, r.phase);
    }
  }

  /** Once the replacement synced the directory, another sync has nothing to do. */
  lemma SyncedAlready(style: Style, f: Directory, pid: nat, r: Record, fail: nat)
    requires ReplaceSucceeds(style, f, pid, fail)
    ensures fail >= 5
    ensures var states := ReplaceStates(style, f, pid, r, fail);
            SyncDirectory(states[|states| - 1]) == states[|states| - 1]
  {
    hide CreateNew, Write, SyncFile, Rename, Remove, SyncDirectory;
    var temporary := TemporaryName(pid);
    var f0 := if style == CleanBefore then Remove(f, temporary) else f;
    FindRemoved(f, temporary);
    var i := |f0.inodes|;
    SyncedTwice(Rename(SyncFile(Write(CreateNew(f0, temporary), i, Holds(r)), i), temporary, RecordName));
  }

  lemma SyncedTwice(f: Directory)
    ensures SyncDirectory(SyncDirectory(f)) == SyncDirectory(f)
  {
    assert SyncDirectory(SyncDirectory(f)).names == SyncDirectory(f).names;
  }

  lemma SoundIntact(kind: Kind, f: Directory, id: Identity, base: Phase)
    requires Sound(kind, f, id, base)
    ensures Intact(f)
  {
  }

  lemma HelperGone(f: Directory)
    ensures Find(SyncDirectory(Remove(f, HelperName)), HelperName) == Entry(None, {None})
  {
  }

  lemma FindRemoved(f: Directory, temporary: Name)
    ensures Find(Remove(f, temporary), temporary).current == None
  {
  }

  lemma PayloadCurrent(f: Directory, n: Name, digest: string)
    requires PayloadDurable(f, n, digest)
    ensures Find(f, n).current in Find(f, n).possible
  {
  }

  lemma PersistKeepsHelper(kind: Kind, f: Directory, pid: nat, r: Record, fail: nat, k: nat)
    requires Find(f, HelperName).current in Find(f, HelperName).possible
    requires k < |PersistStates(kind, f, pid, r, fail)|
    ensures Keeps(f, PersistStates(kind, f, pid, r, fail)[k], HelperName)
  {
    hide Keeps, ReplaceStates, CanPersist;
    KeepsSelf(f, HelperName);
    if CanPersist(kind, f, r) {
      ReplaceKeeps(StyleOf(kind), f, pid, r, fail, k, HelperName);
    }
  }

  lemma RemovedHelper(f: Directory, id: Identity)
    requires Intact(f)
    ensures var g := Remove(f, HelperName);
            && !PayloadDurable(g, HelperName, id.helperDigest)
            && !PayloadDurable(SyncDirectory(g), HelperName, id.helperDigest)
            && (forall r :: MayLoad(g, r) <==> MayLoad(f, r))
            && (forall r :: MayLoad(SyncDirectory(g), r) <==> Load(f) == Some(r))
  {
    var g := Remove(f, HelperName);
    IntactCurrent(f);
    KeepsRecord(f, g);
    KeepsRecord(g, f);
    var v := Find(f, RecordName).current;
    assert StoresRecord(f, v);
    var q :| Stored(f, v, Holds(q));
    assert Find(SyncDirectory(g), RecordName).possible == {v} by { SyncKeeps(g, RecordName); }
    assert Stored(SyncDirectory(g), v, Holds(q));
  }
}
