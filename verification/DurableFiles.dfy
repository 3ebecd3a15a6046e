/** A directory of files under crashes: what a name may refer to after a crash, and the contents that
    survive one. Renames are atomic; names become durable when the directory is synced and contents
    when the file is; until then a crash may keep or lose each name change, and may leave anything
    in an unsynced file. */
module DurableFiles {
  import opened Basics

  datatype Content<R> = Holds(record: R) | Payload(digest: string) | Torn
  datatype Inode<R> = Inode(content: Content<R>, synced: bool)
  datatype Name = RecordName | HelperName | PreviousName | CandidateName | TemporaryName(pid: nat)

  /** What a name refers to now, and everything it may refer to after a crash. */
  datatype Entry = Entry(current: Option<nat>, possible: set<Option<nat>>)

  datatype Files<R> = Files(inodes: seq<Inode<R>>, names: map<Name, Entry>)

  function Find<R>(f: Files<R>, n: Name): Entry {
    if n in f.names then f.names[n] else Entry(None, {None})
  }

  function Bind<R>(f: Files<R>, n: Name, v: Option<nat>): Files<R> {
    f.(names := f.names[n := Entry(v, Find(f, n).possible + {v})])
  }

  // ----- System calls ------------------------------------------------------------------------------

  function CreateNew<R>(f: Files<R>, n: Name): Files<R> {
    Bind(f.(inodes := f.inodes + [Inode(Torn, false)]), n, Some(|f.inodes|))
  }

  function Write<R>(f: Files<R>, i: nat, c: Content<R>): Files<R> {
    if i < |f.inodes| then f.(inodes := f.inodes[i := Inode(c, false)]) else f
  }

  function SyncFile<R>(f: Files<R>, i: nat): Files<R> {
    if i < |f.inodes| then f.(inodes := f.inodes[i := f.inodes[i].(synced := true)]) else f
  }

  function Rename<R>(f: Files<R>, from: Name, to: Name): Files<R> {
    Bind(Bind(f, to, Find(f, from).current), from, None)
  }

  function Remove<R>(f: Files<R>, n: Name): Files<R> {
    Bind(f, n, None)
  }

  function SyncDirectory<R>(f: Files<R>): Files<R> {
    f.(names := map n | n in f.names :: Entry(f.names[n].current, {f.names[n].current}))
  }

  /** A crash: `pick` says which of its possible values each name kept, `garbage` what is found in
      files that were not synced. */
  function Crash<R>(f: Files<R>, pick: Name -> Option<nat>, garbage: nat -> Content<R>): Files<R> {
    Files(seq(|f.inodes|, i requires 0 <= i < |f.inodes| =>
            if f.inodes[i].synced then f.inodes[i] else Inode(garbage(i), true)),
          map n | n in f.names ::
            var v := if pick(n) in f.names[n].possible then pick(n) else f.names[n].current;
            Entry(v, {v}))
  }

  function Load<R>(f: Files<R>): Option<R> {
    var current := Find(f, RecordName).current;
    if current.Some? && current.value < |f.inodes| && f.inodes[current.value].content.Holds?
    then Some(f.inodes[current.value].content.record)
    else None
  }

  function ReadPayload<R>(f: Files<R>, n: Name): Option<string> {
    var current := Find(f, n).current;
    if current.Some? && current.value < |f.inodes| && f.inodes[current.value].content.Payload?
    then Some(f.inodes[current.value].content.digest)
    else None
  }

  // ----- Writing a whole file, replacing one ------------------------------------------------------------

  /** A new file created, written and synced. */
  function WriteNew<R>(f: Files<R>, n: Name, c: Content<R>): Files<R> {
    var i := |f.inodes|;
    SyncFile(Write(CreateNew(f, n), i, c), i)
  }

  /** The two ways the sources replace the record: one refuses a temporary file that is already
      there and removes its own on failure, the other removes any old one first and leaves a failed
      one behind. */
  datatype Style = CleanAfter | CleanBefore

  function Cleanup<R>(style: Style, f: Files<R>, temporary: Name): seq<Files<R>> {
    if style == CleanAfter then [Remove(f, temporary)] else []
  }

  /** The states of a replacement after the temporary file could be opened. */
  function AfterOpen<R>(style: Style, f: Files<R>, temporary: Name, r: R, fail: nat): (states: seq<Files<R>>)
    ensures states != []
  {
    var i := |f.inodes|;
    var f1 := CreateNew(f, temporary);
    var f2 := Write(f1, i, Holds(r));
    var f3 := SyncFile(f2, i);
    var f4 := Rename(f3, temporary, RecordName);
    var f5 := SyncDirectory(f4);
    if fail <= 1 then [f1] + Cleanup(style, f1, temporary)
    else if fail == 2 then [f1, f2] + Cleanup(style, f2, temporary)
    else if fail == 3 then [f1, f2, f3] + Cleanup(style, f3, temporary)
    else if fail == 4 then [f1, f2, f3, f4] + Cleanup(style, f4, temporary)
    else [f1, f2, f3, f4, f5]
  }

  /** Every state of the directory during one replacement, in order. Operation `fail` fails: 0 the
      open, 1 the write, 2 the file sync, 3 the rename, 4 the directory sync; 5 or more, none. */
  function ReplaceStates<R>(style: Style, f: Files<R>, pid: nat, r: R, fail: nat): (states: seq<Files<R>>)
    ensures states != []
  {
    var temporary := TemporaryName(pid);
    var f0 := if style == CleanBefore then Remove(f, temporary) else f;
    if fail == 0 || Find(f0, temporary).current != None then [f0]
    else [f0] + AfterOpen(style, f0, temporary, r, fail)
  }

  predicate ReplaceSucceeds<R>(style: Style, f: Files<R>, pid: nat, fail: nat) {
    fail >= 5 && (style == CleanBefore || Find(f, TemporaryName(pid)).current == None)
  }

  // ----- What survives -------------------------------------------------------------------------------------

  ghost predicate Stored<R>(f: Files<R>, v: Option<nat>, c: Content<R>) {
    v.Some? && v.value < |f.inodes| && f.inodes[v.value] == Inode(c, true)
  }

  /** `r` may be what is found under the record's name after a crash. */
  ghost predicate MayLoad<R(!new)>(f: Files<R>, r: R) {
    exists v :: v in Find(f, RecordName).possible && Stored(f, v, Holds(r))
  }

  ghost predicate StoresRecord<R(!new)>(f: Files<R>, v: Option<nat>) {
    exists r: R :: Stored(f, v, Holds(r))
  }

  /** Whatever happens, a complete record is found. */
  ghost predicate Intact<R(!new)>(f: Files<R>) {
    && Find(f, RecordName).current in Find(f, RecordName).possible
    && forall v :: v in Find(f, RecordName).possible ==> StoresRecord(f, v)
  }

  ghost predicate PayloadDurable<R>(f: Files<R>, n: Name, digest: string) {
    && Find(f, n).current in Find(f, n).possible
    && forall v :: v in Find(f, n).possible ==> Stored(f, v, Payload(digest))
  }

  /** `g` differs from `f` only in names other than `n` and in files that were not durable in `f`. */
  ghost predicate Keeps<R>(f: Files<R>, g: Files<R>, n: Name) {
    && Find(g, n).current in Find(g, n).possible
    && Find(g, n).possible <= Find(f, n).possible
    && |f.inodes| <= |g.inodes|
    && forall i :: 0 <= i < |f.inodes| && f.inodes[i].synced ==> g.inodes[i] == f.inodes[i]
  }

  lemma KeepsPayload<R>(f: Files<R>, g: Files<R>, n: Name, digest: string)
    requires PayloadDurable(f, n, digest) && Keeps(f, g, n)
    ensures PayloadDurable(g, n, digest) && ReadPayload(g, n) == Some(digest)
  {
  }

  lemma KeepsRecord<R(!new)>(f: Files<R>, g: Files<R>)
    requires Intact(f) && Keeps(f, g, RecordName)
    ensures Intact(g)
    ensures forall r :: MayLoad(g, r) ==> MayLoad(f, r)
  {
  }

  lemma LoadsPossible<R(!new)>(f: Files<R>)
    requires Intact(f)
    ensures Load(f).Some? && MayLoad(f, Load(f).value)
  {
  }

  lemma CrashKeeps<R>(f: Files<R>, pick: Name -> Option<nat>, garbage: nat -> Content<R>, n: Name)
    requires Find(f, n).current in Find(f, n).possible
    ensures Keeps(f, Crash(f, pick, garbage), n)
  {
  }

  /** A crash leaves one complete record that was possible before it, and nothing else possible. */
  lemma CrashLoads<R(!new)>(f: Files<R>, pick: Name -> Option<nat>, garbage: nat -> Content<R>)
    requires Intact(f)
    ensures var g := Crash(f, pick, garbage);
            && Intact(g)
            && Load(g).Some?
            && MayLoad(f, Load(g).value)
            && forall r :: MayLoad(g, r) ==> MayLoad(f, r)
  {
  }

  /** Before the rename the record is untouched, from the rename on it is the old or the new one, and
      after the directory sync only the new one. Other names keep what they had. */
  lemma ReplaceAtomic<R(!new)>(style: Style, f: Files<R>, pid: nat, r: R, fail: nat, k: nat)
    requires Intact(f)
    requires k < |ReplaceStates(style, f, pid, r, fail)|
    ensures var g := ReplaceStates(style, f, pid, r, fail)[k];
            && Intact(g)
            && (forall q :: MayLoad(g, q) ==> MayLoad(f, q) || q == r)
  {
    hide Intact, MayLoad, Find, CreateNew, Write, SyncFile, Rename, Remove, SyncDirectory, Keeps;
    var temporary := TemporaryName(pid);
    var f0 := if style == CleanBefore then Remove(f, temporary) else f;
    IntactCurrent(f);
    RemoveKeeps(f, temporary, RecordName);
    KeepsRecord(f, f0);
    IntactCurrent(f0);
    if !(fail == 0 || Find(f0, temporary).current != None) {
      var i := |f0.inodes|;
      var f1 := CreateNew(f0, temporary);
      var f2 := Write(f1, i, Holds(r));
      var f3 := SyncFile(f2, i);
      var f4 := Rename(f3, temporary, RecordName);
      var f5 := SyncDirectory(f4);
      WriteNewKeeps(f0, temporary, Holds(r), RecordName);
      KeepsRecord(f0, f1);
      KeepsRecord(f0, f2);
      KeepsRecord(f0, f3);
      RenamedRecord(f3, temporary, i, r);
      IntactCurrent(f4);
      SyncKeeps(f4, RecordName);
      KeepsRecord(f4, f5);
      RemovedRecord(f0, temporary);
      RemovedRecord(f1, temporary);
      RemovedRecord(f2, temporary);
      RemovedRecord(f3, temporary);
      RemovedRecord(f4, temporary);
    }
  }

  lemma IntactCurrent<R(!new)>(f: Files<R>)
    requires Intact(f)
    ensures Find(f, RecordName).current in Find(f, RecordName).possible
    ensures Keeps(f, f, RecordName)
  {
  }

  lemma RemoveKeeps<R>(f: Files<R>, temporary: Name, n: Name)
    requires n != temporary && Find(f, n).current in Find(f, n).possible
    ensures Keeps(f, Remove(f, temporary), n)
  {
  }

  lemma RemovedRecord<R(!new)>(f: Files<R>, temporary: Name)
    requires Intact(f) && temporary.TemporaryName?
    ensures Intact(Remove(f, temporary))
    ensures forall r :: MayLoad(Remove(f, temporary), r) ==> MayLoad(f, r)
  {
  }

  lemma SyncKeeps<R>(f: Files<R>, n: Name)
    requires Find(f, n).current in Find(f, n).possible
    ensures Keeps(f, SyncDirectory(f), n)
    ensures Find(SyncDirectory(f), n).possible == {Find(f, n).current}
  {
  }

  lemma WriteNewKeeps<R>(f: Files<R>, created: Name, c: Content<R>, n: Name)
    requires n != created && Find(f, n).current in Find(f, n).possible
    ensures var f1, i := CreateNew(f, created), |f.inodes|;
            var f2 := Write(f1, i, c);
            var f3 := SyncFile(f2, i);
            && Keeps(f, f1, n) && Keeps(f, f2, n) && Keeps(f, f3, n)
            && i < |f3.inodes| && f3.inodes[i] == Inode(c, true)
            && Find(f3, created) == Entry(Some(i), Find(f, created).possible + {Some(i)})
  {
  }

  lemma RenamedRecord<R(!new)>(f: Files<R>, temporary: Name, i: nat, r: R)
    requires Intact(f) && temporary.TemporaryName? && Find(f, temporary).current == Some(i)
    requires i < |f.inodes| && f.inodes[i] == Inode(Holds(r), true)
    ensures var g := Rename(f, temporary, RecordName);
            Intact(g) && forall q :: MayLoad(g, q) ==> MayLoad(f, q) || q == r
  {
  }

  lemma KeepsTransitive<R>(f: Files<R>, g: Files<R>, h: Files<R>, n: Name)
    requires Keeps(f, g, n) && Keeps(g, h, n)
    ensures Keeps(f, h, n)
  {
  }

  lemma RenameKeeps<R>(f: Files<R>, temporary: Name, n: Name)
    requires n != temporary && n != RecordName && Find(f, n).current in Find(f, n).possible
    ensures Keeps(f, Rename(f, temporary, RecordName), n)
  {
  }

  /** Replacing the record disturbs no other file. */
  lemma ReplaceKeeps<R>(style: Style, f: Files<R>, pid: nat, r: R, fail: nat, k: nat, n: Name)
    requires n != RecordName && n != TemporaryName(pid) && Find(f, n).current in Find(f, n).possible
    requires k < |ReplaceStates(style, f, pid, r, fail)|
    ensures Keeps(f, ReplaceStates(style, f, pid, r, fail)[k], n)
  {
    hide CreateNew, Write, SyncFile, Rename, Remove, SyncDirectory, Keeps;
    var temporary := TemporaryName(pid);
    var f0 := if style == CleanBefore then Remove(f, temporary) else f;
    RemoveKeeps(f, temporary, n);
    KeepsSelf(f, n);
    KeepsCurrent(f, f0, n);
    if !(fail == 0 || Find(f0, temporary).current != None) {
      var i := |f0.inodes|;
      var f1 := CreateNew(f0, temporary);
      var f2 := Write(f1, i, Holds(r));
      var f3 := SyncFile(f2, i);
      var f4 := Rename(f3, temporary, RecordName);
      var f5 := SyncDirectory(f4);
      WriteNewKeeps(f0, temporary, Holds(r), n);
      ThenRemoved(f, f0, temporary, n);
      KeepsTransitive(f, f0, f1, n);
      ThenRemoved(f, f1, temporary, n);
      KeepsTransitive(f, f0, f2, n);
      ThenRemoved(f, f2, temporary, n);
      KeepsTransitive(f, f0, f3, n);
      ThenRemoved(f, f3, temporary, n);
      KeepsCurrent(f, f3, n);
      RenameKeeps(f3, temporary, n);
      KeepsTransitive(f, f3, f4, n);
      ThenRemoved(f, f4, temporary, n);
      KeepsCurrent(f, f4, n);
      SyncKeeps(f4, n);
      KeepsTransitive(f, f4, f5, n);
    }
  }

  lemma KeepsSelf<R>(f: Files<R>, n: Name)
    requires Find(f, n).current in Find(f, n).possible
    ensures Keeps(f, f, n)
  {
  }

  lemma KeepsCurrent<R>(f: Files<R>, g: Files<R>, n: Name)
    requires Keeps(f, g, n)
    ensures Find(g, n).current in Find(g, n).possible
  {
  }

  lemma ThenRemoved<R>(f: Files<R>, g: Files<R>, temporary: Name, n: Name)
    requires Keeps(f, g, n) && n != temporary
    ensures Keeps(f, Remove(g, temporary), n)
  {
  }

  /** A replacement that reports success has made the new record the only one a crash can leave; one
      refused because of an old temporary file has changed nothing. */
  lemma ReplaceDurable<R(!new)>(style: Style, f: Files<R>, pid: nat, r: R, fail: nat)
    ensures var states := ReplaceStates(style, f, pid, r, fail);
            var g := states[|states| - 1];
            && (ReplaceSucceeds(style, f, pid, fail) ==> Load(g) == Some(r) && forall q :: MayLoad(g, q) ==> q == r)
            && (style == CleanAfter && Find(f, TemporaryName(pid)).current != None ==> states == [f])
  {
    hide CreateNew, Write, SyncFile, Rename;
    if ReplaceSucceeds(style, f, pid, fail) {
      var temporary := TemporaryName(pid);
      var f0 := if style == CleanBefore then Remove(f, temporary) else f;
      var i := |f0.inodes|;
      var f3 := SyncFile(Write(CreateNew(f0, temporary), i, Holds(r)), i);
      WrittenNew(f0, temporary, Holds(r));
      RenameBinds(f3, temporary);
    }
  }

  lemma WrittenNew<R>(f: Files<R>, created: Name, c: Content<R>)
    ensures var i := |f.inodes|;
            var f3 := SyncFile(Write(CreateNew(f, created), i, c), i);
            i < |f3.inodes| && f3.inodes[i] == Inode(c, true) && Find(f3, created).current == Some(i)
  {
  }

  lemma RenameBinds<R>(f: Files<R>, temporary: Name)
    requires temporary.TemporaryName?
    ensures var g := Rename(f, temporary, RecordName);
            g.inodes == f.inodes && RecordName in g.names && Find(g, RecordName).current == Find(f, temporary).current
  {
  }
}
