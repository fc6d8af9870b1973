/** The finalization journal on disk: the handle, what a crash leaves, and whole runs. */
module FinalizationStore {
  import opened Wrappers
  import opened Protocol
  import opened FinalizationJournal
  import Names
  import FA = FinalizationAcceptance
  import D = Durability
  import P = ProtectedDirectory

  datatype Name = JournalFile(mapping: string) | TemporaryFile(mapping: string, pid: nat)

  datatype File = Partial | Complete(journal: Journal)

  type JournalDisk = D.Disk<Name, File>
  type Directory = P.Directory<Name, File>

  datatype Error = StoreUnavailable | InvalidJournal | PersistenceFailed | AlreadyPending

  type Result<+T> = Wrappers.Result<T, Error>

  predicate IsHexDigit(c: char) { '0' <= c <= '9' || 'a' <= c <= 'f' || 'A' <= c <= 'F' }

  /** `journal_path` accepts upper-case digits too. */
  predicate HasPath(mapping: string) {
    |mapping| == 71 && mapping[..7] == Names.PREFIX && forall i :: 7 <= i < 71 ==> IsHexDigit(mapping[i])
  }

  // ---------------------------------------------------------------- what a reader can find

  /** Whatever part of the queued operations survives, the file is whole, synced and one of `possible`. */
  ghost predicate Shows(d: JournalDisk, n: Name, possible: set<Journal>) {
    && D.Valid(d)
    && forall k :: 0 <= k <= |d.log| ==> Holds(d, k, n, possible)
  }

  ghost predicate Holds(d: JournalDisk, k: nat, n: Name, possible: set<Journal>)
    requires D.Valid(d) && k <= |d.log|
  {
    && n in D.Image(d, k) && D.Image(d, k)[n] !in d.unsynced
    && var f := d.content[D.Image(d, k)[n]];
    f.Complete? && f.journal in possible
  }

  /** What a process finds that opens the file now. */
  ghost predicate Visible(d: JournalDisk, n: Name, j: Journal) {
    D.Valid(d) && n in D.Current(d) && d.content[D.Current(d)[n]] == Complete(j)
  }

  /** The journal is in its file, which is not synced. */
  function DraftOf(d: JournalDisk, t: Name, j: Journal): JournalDisk {
    D.Write(D.Create(d, t, Partial), |d.content|, Complete(j))
  }

  function Written(d: JournalDisk, t: Name, j: Journal): JournalDisk {
    D.SyncFile(DraftOf(d, t, j), |d.content|)
  }

  function Moved(d: JournalDisk, n: Name, t: Name, j: Journal): JournalDisk {
    D.Issue(Written(d, t, j), D.Move(t, n))
  }

  /** Where `replace_atomically` may stop, by an error or by a crash. */
  predicate PartlyReplaced(d: JournalDisk, n: Name, t: Name, j: Journal, now: JournalDisk) {
    || now == d || now == D.Create(d, t, Partial) || now == DraftOf(d, t, j)
    || now == Written(d, t, j) || now == Moved(d, n, t, j)
  }

  lemma WrittenImages(d: JournalDisk, t: Name, j: Journal)
    requires D.Valid(d)
    ensures forall e | e == D.Create(d, t, Partial) || e == DraftOf(d, t, j) || e == Written(d, t, j) ::
              && D.Valid(e) && D.Current(e) == D.Current(d)[t := |d.content|] && |e.log| == |d.log| + 1
              && forall k :: 0 <= k <= |d.log| ==> D.Image(e, k) == D.Image(d, k)
  {
    var c := D.Create(d, t, Partial);
    D.ImagesAfterCreate(d, t, Partial);
    D.ImagesAfterWrite(c, |d.content|, Complete(j));
    D.ImagesAfterSyncFile(DraftOf(d, t, j), |d.content|);
  }

  lemma WrittenShows(d: JournalDisk, n: Name, t: Name, j: Journal, possible: set<Journal>)
    requires Shows(d, n, possible) && n != t
    ensures Shows(D.Create(d, t, Partial), n, possible)
    ensures Shows(DraftOf(d, t, j), n, possible)
    ensures Shows(Written(d, t, j), n, possible)
    ensures forall v :: Visible(d, n, v) ==>
              Visible(D.Create(d, t, Partial), n, v) && Visible(DraftOf(d, t, j), n, v)
                && Visible(Written(d, t, j), n, v)
    ensures Visible(Written(d, t, j), t, j)
  {
    hide Loadable;
    var c, u, w := D.Create(d, t, Partial), DraftOf(d, t, j), Written(d, t, j);
    WrittenImages(d, t, j);
    assert D.Image(c, |c.log|) == D.Current(c);
    forall k | 0 <= k <= |w.log|
      ensures Holds(c, k, n, possible) && Holds(u, k, n, possible) && Holds(w, k, n, possible)
    {
      assert Holds(d, if k <= |d.log| then k else |d.log|, n, possible);
    }
  }

  lemma MovedShows(d: JournalDisk, n: Name, t: Name, j: Journal, possible: set<Journal>)
    requires Shows(d, n, possible) && n != t
    ensures Shows(Moved(d, n, t, j), n, possible + {j})
    ensures Visible(Moved(d, n, t, j), n, j) && D.Current(Moved(d, n, t, j))[n] !in Moved(d, n, t, j).unsynced
  {
    hide Loadable;
    WrittenShows(d, n, t, j, possible);
    WrittenImages(d, t, j);
    var w, m := Written(d, t, j), Moved(d, n, t, j);
    D.ImagesAfterIssue(w, D.Move(t, n));
    P.IssueKeepsValid(w, D.Move(t, n));
    forall k | 0 <= k <= |m.log| ensures Holds(m, k, n, possible + {j}) {
      if k <= |w.log| {
        assert Holds(w, k, n, possible);
      }
    }
  }

  lemma FlushedShows(d: JournalDisk, n: Name, j: Journal)
    requires Visible(d, n, j) && D.Current(d)[n] !in d.unsynced
    ensures Shows(D.Flush(d), n, {j}) && Visible(D.Flush(d), n, j)
  {
    D.ImagesAfterFlush(d);
  }

  /** A file that was synced before it was renamed is torn by no crash. */
  lemma SurvivorShows(d: JournalDisk, n: Name, possible: set<Journal>, k: nat, torn: set<nat>) returns (j: Journal)
    requires Shows(d, n, possible) && k <= |d.log| && torn <= d.unsynced
    ensures var e := D.Crash(d, k, torn, Partial);
            n in D.Image(d, k) && j in possible && Shows(e, n, {j}) && Visible(e, n, j)
  {
    assert Holds(d, k, n, possible);
    D.ImagesAfterCrash(d, k, torn, Partial);
    j := d.content[D.Image(d, k)[n]].journal;
  }

  // ---------------------------------------------------------------- the handle

  lemma PathsExactly(mapping: string)
    ensures HasPath(mapping) <==> FA.PathText(mapping)
  {
  }

  lemma PathHasPrefix(mapping: string)
    requires HasPath(mapping)
    ensures "sha256:" <= mapping
  {
  }

  lemma LoadableByIdentity(j: Journal)
    ensures JournalIdentity(j.content) == Some(j.identity) ==> Loadable(j)
  {
  }

  lemma RecordedOrRefused(j: Journal, input: Input)
    ensures FA.Accepted(j, input) <==> Guard(j, input) && JournalIdentity(Assign(j.content, input)).Some?
    ensures forall next: Journal | next.content == Assign(j.content, input) ::
              JournalIdentity(next.content) == Some(next.identity) ==> Loadable(next)
  {
    hide Guard, JournalIdentity;
  }

  /** `replace_atomically`: the old journal or the new one, whole, wherever it stops. */
  method ReplaceAtomically(dir: Directory, n: Name, t: Name, j: Journal, ghost possible: set<Journal>)
    returns (ok: bool)
    requires n != t && Shows(dir.disk, n, possible)
    modifies dir
    ensures t in old(D.Current(dir.disk)) ==> !ok && dir.disk == old(dir.disk)
    ensures ok ==>
      && dir.disk == D.Flush(Moved(old(dir.disk), n, t, j))
      && Shows(dir.disk, n, {j}) && Visible(dir.disk, n, j)
    ensures !ok ==>
      && PartlyReplaced(old(dir.disk), n, t, j, dir.disk) && Shows(dir.disk, n, possible + {j})
      && old(dir.failures) < dir.failures
  {
    hide Shows, Visible;
    ghost var d := dir.disk;
    ShowsIsValid(d, n, possible);
    WrittenShows(d, n, t, j, possible);
    MovedShows(d, n, t, j, possible);
    FlushedShows(Moved(d, n, t, j), n, j);
    ShowsMore(d, n, possible, possible + {j});
    ShowsMore(D.Create(d, t, Partial), n, possible, possible + {j});
    ShowsMore(DraftOf(d, t, j), n, possible, possible + {j});
    ShowsMore(Written(d, t, j), n, possible, possible + {j});
    var made := dir.CreateNew(t, Partial);
    if !made.Made? { return false; }
    ok := dir.WriteAll(made.inode, Complete(j));
    if !ok { return; }
    ok := dir.SyncAll(made.inode);
    if !ok { return; }
    ok := dir.Rename(t, n);
    if !ok { return; }
    ok := dir.Sync();
  }

  class FinalizationHandle {
    const directory: Directory
    const path: Name
    const pid: nat
    var journal: Journal

    constructor (directory: Directory, path: Name, pid: nat, journal: Journal)
      ensures this.directory == directory && this.path == path && this.pid == pid && this.journal == journal
    {
      this.directory := directory;
      this.path := path;
      this.pid := pid;
      this.journal := journal;
    }

    static method Begin(
      dir: Directory, pid: nat, mapping: string, launcherRequest: string,
      wd: WorkingDirectory, finalization: Finalization)
      returns (r: Result<FinalizationHandle>)
      requires dir.Valid()
      modifies dir
      ensures dir.Valid()
      ensures r.Ok? ==>
        && fresh(r.value) && r.value.directory == dir && r.value.path == JournalFile(mapping)
        && r.value.journal.content == Content(
             1, Intended, finalization.body.completion.invocation, mapping, launcherRequest, wd, finalization,
             None, None, None, None, None, None)
        && Begun(r.value.journal)
        && JournalFile(mapping) !in old(D.Current(dir.disk))
        && Shows(dir.disk, r.value.path, {r.value.journal}) && Visible(dir.disk, r.value.path, r.value.journal)
      ensures r != Err(InvalidJournal) <==>
                && FA.PathText(mapping)
                && "invocation-" <= finalization.body.completion.invocation && "sha256:" <= launcherRequest
                && wd.body.wellFormed && wd.identity == OfDirectory(wd.body)
                && finalization.body.wellFormed && finalization.identity == OfFinalization(finalization.body)
      ensures r == Err(AlreadyPending) ==> JournalFile(mapping) in old(D.Current(dir.disk))
      ensures r == Err(AlreadyPending) || r == Err(InvalidJournal) ==> dir.disk == old(dir.disk)
      ensures r.Err? && r.error != InvalidJournal ==> old(dir.failures) < dir.failures
    {
      hide StageValid, JournalIdentity, Begun, FA.PathText;
      PathsExactly(mapping);
      if !HasPath(mapping) { return Err(InvalidJournal); }
      var content := IntentContent(mapping, launcherRequest, wd, finalization);
      FA.LoadsExactly(Journal(OfJournal(content), content));
      FA.IdentityIsLoadable(content);
      PathHasPrefix(mapping);
      hide Loadable, HasPath;
      var identity := JournalIdentity(content);
      if identity.None? { return Err(InvalidJournal); }
      var journal := Journal(identity.value, content);
      LoadableByIdentity(journal);
      IntentIsBegun(journal);
      var made := dir.CreateNew(JournalFile(mapping), Partial);
      if made.Exists? { return Err(AlreadyPending); }
      if made.Refused? { return Err(PersistenceFailed); }
      ghost var d := old(dir.disk);
      D.ImagesAfterCreate(d, JournalFile(mapping), Partial);
      var written := dir.WriteAll(made.inode, Complete(journal));
      if !written { return Err(PersistenceFailed); }
      var filed := dir.SyncAll(made.inode);
      if !filed { return Err(PersistenceFailed); }
      WrittenImages(d, JournalFile(mapping), journal);
      FlushedShows(dir.disk, JournalFile(mapping), journal);
      var synced := dir.Sync();
      if !synced { return Err(PersistenceFailed); }
      var handle := new FinalizationHandle(dir, JournalFile(mapping), pid, journal);
      r := Ok(handle);
    }

    /** Only the journal's own path is read: temporary files left by a crash are never looked at. */
    static method LoadForPrincipal(dir: Directory, pid: nat, mapping: string)
      returns (r: Result<Option<FinalizationHandle>>)
      requires dir.Valid()
      ensures !FA.PathText(mapping) ==> r == Err(InvalidJournal)
      ensures FA.PathText(mapping) && JournalFile(mapping) !in D.Current(dir.disk) ==> r == Ok(None)
      ensures r.Ok? && r.value.Some? ==>
        && r.value.value.directory == dir && r.value.value.path == JournalFile(mapping)
        && Visible(dir.disk, JournalFile(mapping), r.value.value.journal)
        && Loadable(r.value.value.journal) && r.value.value.journal.content.mapping == mapping
      ensures forall j | Visible(dir.disk, JournalFile(mapping), j) ::
        FA.PathText(mapping) && Loadable(j) && j.content.mapping == mapping ==>
          r == Err(StoreUnavailable) || (r.Ok? && r.value.Some?)
    {
      PathsExactly(mapping);
      if !HasPath(mapping) { return Err(InvalidJournal); }
      var n := JournalFile(mapping);
      if n !in D.Current(dir.disk) { return Ok(None); }
      var readable: bool := *;
      if !readable { return Err(StoreUnavailable); }
      assert D.Image(dir.disk, |dir.disk.log|) == D.Current(dir.disk);
      var file := dir.disk.content[D.Current(dir.disk)[n]];
      if file.Partial? { return Err(InvalidJournal); }
      if !Loadable(file.journal) || file.journal.content.mapping != mapping { return Err(InvalidJournal); }
      var handle := new FinalizationHandle(dir, n, pid, file.journal);
      r := Ok(Some(handle));
    }

    /** The `record_*` methods: a crash or an error on the way leaves the old journal or the new one. */
    method Record(input: Input, ghost possible: set<Journal>) returns (r: Result<()>)
      requires path.JournalFile? && Shows(directory.disk, path, possible)
      modifies this, directory
      ensures !Guard(old(journal), input) ==> r == Err(InvalidJournal) && journal == old(journal)
      ensures r == Err(InvalidJournal) ==> directory.disk == old(directory.disk)
      ensures TemporaryFile(path.mapping, pid) in old(D.Current(directory.disk)) ==>
                r.Err? && directory.disk == old(directory.disk)
      ensures r.Ok? ==>
        && Records(old(journal), input, journal)
        && directory.disk == D.Flush(Moved(old(directory.disk), path, TemporaryFile(path.mapping, pid), journal))
        && Shows(directory.disk, path, {journal}) && Visible(directory.disk, path, journal)
      ensures r.Err? && r.error != InvalidJournal ==>
        && Records(old(journal), input, journal)
        && PartlyReplaced(old(directory.disk), path, TemporaryFile(path.mapping, pid), journal, directory.disk)
        && Shows(directory.disk, path, possible + {journal})
      ensures r.Err? && r.error != InvalidJournal ==> old(directory.failures) < directory.failures
      ensures Loadable(old(journal)) ==> (r != Err(InvalidJournal) <==> FA.Admits(old(journal), input))
    {
      hide Guard, JournalIdentity, Assign, Shows, Visible, FA.Admits, FA.Accepted, Loadable, PartlyReplaced, Moved;
      if Loadable(journal) {
        FA.AcceptsExactly(journal, input);
      }
      RecordedOrRefused(journal, input);
      if !Guard(journal, input) { return Err(InvalidJournal); }
      journal := journal.(content := Assign(journal.content, input));
      var identity := JournalIdentity(journal.content);
      if identity.None? { return Err(InvalidJournal); }
      journal := journal.(identity := identity.value);
      var replaced := ReplaceAtomically(directory, path, TemporaryFile(path.mapping, pid), journal, possible);
      if !replaced { return Err(PersistenceFailed); }
      return Ok(());
    }

    /** The file goes only when the journal is attached and its very terminal is acknowledged. */
    method AcknowledgeTerminalAndFinalize(p: TerminalPersistence) returns (r: Result<()>)
      requires directory.Valid()
      modifies directory
      ensures directory.Valid()
      ensures r == Err(InvalidJournal) <==> !MayFinalize(journal.content, p)
      ensures directory.disk != old(directory.disk) ==> MayFinalize(journal.content, p)
      ensures r.Err? && r.error != InvalidJournal ==> old(directory.failures) < directory.failures
      ensures r.Ok? ==> directory.disk == D.Flush(D.Issue(old(directory.disk), D.Unlink(path)))
                        && path !in D.Image(directory.disk, 0) && directory.disk.log == []
    {
      hide MayFinalize;
      if !MayFinalize(journal.content, p) { return Err(InvalidJournal); }
      D.ImagesAfterIssue(directory.disk, D.Unlink(path));
      var removed := directory.Remove(path);
      if !removed { return Err(PersistenceFailed); }
      D.ImagesAfterFlush(directory.disk);
      var synced := directory.Sync();
      if !synced { return Err(PersistenceFailed); }
      return Ok(());
    }
  }

  lemma ShowsIsValid(d: JournalDisk, n: Name, possible: set<Journal>)
    requires Shows(d, n, possible)
    ensures D.Valid(d)
  {
  }

  lemma ShowsMore(d: JournalDisk, n: Name, possible: set<Journal>, more: set<Journal>)
    requires Shows(d, n, possible) && possible <= more
    ensures Shows(d, n, more)
  {
    forall k | 0 <= k <= |d.log| ensures Holds(d, k, n, more) {
      assert Holds(d, k, n, possible);
    }
  }

  // ---------------------------------------------------------------- whole runs

  /**
   One journal from the moment `begin` returned: its disk, the journal that is durable, those that a
   crash may leave, the handle of the process that works on it, and whether its removal was issued.
   */
  datatype System = System(
    disk: JournalDisk, floor: Journal, possible: set<Journal>, handle: Option<Journal>, removed: bool)

  datatype Action =
    | RecordReturns(input: Input, next: Journal, pid: nat)
    | RecordStops(input: Input, next: Journal, pid: nat, left: JournalDisk)
    | FinalizeReturns(acknowledgement: TerminalPersistence)
    | FinalizeStops(acknowledgement: TerminalPersistence, left: JournalDisk)
    | HandleDropped
    | MachineCrash(kept: nat, torn: set<nat>)
    | Reload(loaded: Journal)

  function Path(s: System): Name { JournalFile(s.floor.content.mapping) }

  function Temporary(s: System, pid: nat): Name { TemporaryFile(s.floor.content.mapping, pid) }

  /**
   `RecordStops` and `FinalizeStops` are calls that fail, or whose process dies, at any of their file
   system calls; the handle is gone after them. A leftover temporary of the same process id stops a
   record at its first call.
   */
  ghost predicate May(s: System, a: Action) {
    match a
    case RecordReturns(input, next, pid) =>
      s.handle.Some? && Records(s.handle.value, input, next) && Temporary(s, pid) !in D.Current(s.disk)
    case RecordStops(input, next, pid, left) =>
      && s.handle.Some? && Records(s.handle.value, input, next)
      && PartlyReplaced(s.disk, Path(s), Temporary(s, pid), next, left)
      && (Temporary(s, pid) in D.Current(s.disk) ==> left == s.disk)
    case FinalizeReturns(p) => s.handle.Some? && MayFinalize(s.handle.value.content, p)
    case FinalizeStops(p, left) =>
      && s.handle.Some? && MayFinalize(s.handle.value.content, p)
      && (left == s.disk || left == D.Issue(s.disk, D.Unlink(Path(s))))
    case HandleDropped => true
    case MachineCrash(kept, torn) => kept <= |s.disk.log| && torn <= s.disk.unsynced
    case Reload(loaded) => s.handle.None? && Visible(s.disk, Path(s), loaded) && Loadable(loaded)
  }

  /** The journal under a name, if there is a whole one. */
  function FoundIn(d: JournalDisk, n: Name): Option<Journal> {
    if n in D.Current(d) && D.Current(d)[n] < |d.content| && d.content[D.Current(d)[n]].Complete?
    then Some(d.content[D.Current(d)[n]].journal)
    else None
  }

  function Do(s: System, a: Action): System
    requires a.MachineCrash? ==> a.kept <= |s.disk.log|
  {
    match a
    case RecordReturns(_, next, pid) =>
      System(D.Flush(Moved(s.disk, Path(s), Temporary(s, pid), next)), next, {next}, Some(next), s.removed)
    case RecordStops(_, next, _, left) =>
      s.(disk := left, possible := s.possible + {next}, handle := None)
    case FinalizeReturns(_) =>
      s.(disk := D.Flush(D.Issue(s.disk, D.Unlink(Path(s)))), handle := None, removed := true)
    case FinalizeStops(_, left) => s.(disk := left, handle := None, removed := s.removed || left != s.disk)
    case HandleDropped => s.(handle := None)
    case MachineCrash(kept, torn) =>
      var d := D.Crash(s.disk, kept, torn, Partial);
      var found := FoundIn(d, Path(s));
      if found.Some? then System(d, found.value, {found.value}, None, false)
      else System(d, s.floor, s.possible, None, true)
    case Reload(loaded) => s.(handle := Some(loaded))
  }

  /** Whatever part of the queued operations survives, the file is gone, or whole and one of `possible`. */
  ghost predicate ShowsOrGone(d: JournalDisk, n: Name, possible: set<Journal>) {
    D.Valid(d) && forall k :: 0 <= k <= |d.log| && n in D.Image(d, k) ==> Holds(d, k, n, possible)
  }

  /** The journal that stays whatever crashes. */
  ghost predicate Durable(d: JournalDisk, n: Name, j: Journal) {
    D.Valid(d) && n in D.Image(d, 0) && d.content[D.Image(d, 0)[n]] == Complete(j) && D.Image(d, 0)[n] !in d.unsynced
  }

  ghost predicate Inv(s: System) {
    && Begun(s.floor)
    && (forall j <- s.possible :: Begun(j) && Extends(s.floor.content, j.content))
    && (!s.removed ==>
          && Shows(s.disk, Path(s), s.possible)
          && Durable(s.disk, Path(s), s.floor)
          && (s.handle.Some? ==> Visible(s.disk, Path(s), s.handle.value)))
    && (s.removed ==> ShowsOrGone(s.disk, Path(s), s.possible) && Path(s) !in D.Current(s.disk) && s.handle.None?)
  }

  /** A run starts where `begin` returned. */
  lemma BeginReturned(d: JournalDisk, j: Journal)
    requires Begun(j) && Shows(d, JournalFile(j.content.mapping), {j}) && Visible(d, JournalFile(j.content.mapping), j)
    ensures Inv(System(d, j, {j}, Some(j), false))
  {
    hide Begun;
    ExtendsReflexive(j);
    assert Holds(d, 0, JournalFile(j.content.mapping), {j});
  }

  lemma ExtendsReflexive(j: Journal)
    ensures Extends(j.content, j.content)
  {
  }

  /** Recording on top of a possible journal keeps everything the floor holds. */
  lemma RecordedAboveFloor(floor: Journal, j: Journal, input: Input, next: Journal)
    requires Begun(j) && Extends(floor.content, j.content) && Records(j, input, next)
    ensures Begun(next) && Extends(floor.content, next.content)
    ensures next.content.mapping == floor.content.mapping
  {
    BegunIsLoadable(j);
    hide Begun, Records, Loadable;
    RecordKeepsBegun(j, input, next);
    RecordExtends(j, input, next);
    ExtendsTransitive(floor.content, j.content, next.content);
  }

  lemma BegunIsLoadable(j: Journal)
    requires Begun(j)
    ensures Loadable(j)
  {
    hide Loadable;
  }

  lemma HandleIsPossible(s: System)
    requires Inv(s) && s.handle.Some?
    ensures s.handle.value in s.possible && !s.removed
    ensures Begun(s.handle.value) && Extends(s.floor.content, s.handle.value.content)
  {
    hide Begun, Extends;
    assert Holds(s.disk, |s.disk.log|, Path(s), s.possible);
  }

  lemma RecordReturnsKeeps(s: System, a: Action)
    requires Inv(s) && May(s, a) && a.RecordReturns?
    ensures Inv(Do(s, a)) && Extends(s.floor.content, Do(s, a).floor.content)
  {
    hide Begun, Extends, Records, Shows, Visible, Loadable, Durable;
    HandleIsPossible(s);
    RecordedAboveFloor(s.floor, s.handle.value, a.input, a.next);
    var m := Moved(s.disk, Path(s), Temporary(s, a.pid), a.next);
    MovedShows(s.disk, Path(s), Temporary(s, a.pid), a.next, s.possible);
    FlushedShows(m, Path(s), a.next);
    FlushedIsDurable(m, Path(s), a.next);
    ExtendsReflexive(a.next);
  }

  lemma FlushedIsDurable(d: JournalDisk, n: Name, j: Journal)
    requires Visible(d, n, j) && D.Current(d)[n] !in d.unsynced
    ensures Durable(D.Flush(d), n, j)
  {
    D.ImagesAfterFlush(d);
  }

  lemma StoppedShows(d: JournalDisk, n: Name, t: Name, j: Journal, possible: set<Journal>, left: JournalDisk)
    requires Shows(d, n, possible) && n != t && PartlyReplaced(d, n, t, j, left)
    ensures Shows(left, n, possible + {j})
  {
    hide Shows, Visible;
    WrittenShows(d, n, t, j, possible);
    MovedShows(d, n, t, j, possible);
    if Shows(left, n, possible) {
      ShowsMore(left, n, possible, possible + {j});
    }
  }

  lemma StoppedIsDurable(d: JournalDisk, n: Name, t: Name, j: Journal, left: JournalDisk, floor: Journal)
    requires Durable(d, n, floor) && n != t && PartlyReplaced(d, n, t, j, left) && D.Valid(left)
    ensures Durable(left, n, floor)
  {
    WrittenImages(d, t, j);
    D.ImagesAfterIssue(Written(d, t, j), D.Move(t, n));
    assert D.Image(left, 0) == D.Image(d, 0);
  }

  lemma RecordStopsKeeps(s: System, a: Action)
    requires Inv(s) && May(s, a) && a.RecordStops?
    ensures Inv(Do(s, a)) && Extends(s.floor.content, Do(s, a).floor.content)
  {
    hide Begun, Extends, Records, Shows, Visible, Loadable, PartlyReplaced, Durable;
    HandleIsPossible(s);
    RecordedAboveFloor(s.floor, s.handle.value, a.input, a.next);
    StoppedShows(s.disk, Path(s), Temporary(s, a.pid), a.next, s.possible, a.left);
    ShowsIsValid(a.left, Path(s), s.possible + {a.next});
    StoppedIsDurable(s.disk, Path(s), Temporary(s, a.pid), a.next, a.left, s.floor);
    ExtendsReflexive(s.floor);
  }

  lemma UnlinkedShows(d: JournalDisk, n: Name, possible: set<Journal>)
    requires Shows(d, n, possible)
    ensures var e := D.Issue(d, D.Unlink(n));
            && ShowsOrGone(e, n, possible) && n !in D.Current(e)
            && ShowsOrGone(D.Flush(e), n, possible) && n !in D.Current(D.Flush(e))
  {
    var e := D.Issue(d, D.Unlink(n));
    D.ImagesAfterIssue(d, D.Unlink(n));
    P.IssueKeepsValid(d, D.Unlink(n));
    D.ImagesAfterFlush(e);
    forall k | 0 <= k <= |e.log| && n in D.Image(e, k) ensures Holds(e, k, n, possible) {
      assert k <= |d.log| ==> Holds(d, k, n, possible);
    }
  }

  lemma FinalizeKeeps(s: System, a: Action)
    requires Inv(s) && May(s, a) && (a.FinalizeReturns? || a.FinalizeStops?)
    ensures Inv(Do(s, a)) && Extends(s.floor.content, Do(s, a).floor.content)
  {
    hide Begun, Extends, Shows, ShowsOrGone, Visible, Durable, MayFinalize;
    HandleIsPossible(s);
    UnlinkedShows(s.disk, Path(s), s.possible);
    ExtendsReflexive(s.floor);
  }

  lemma SurvivorGone(d: JournalDisk, n: Name, possible: set<Journal>, k: nat, torn: set<nat>)
    requires ShowsOrGone(d, n, possible) && k <= |d.log| && torn <= d.unsynced
    ensures var e := D.Crash(d, k, torn, Partial);
            && D.Valid(e)
            && (FoundIn(e, n).Some? ==>
                  var j := FoundIn(e, n).value; j in possible && Shows(e, n, {j}) && Durable(e, n, j))
            && (FoundIn(e, n).None? ==> ShowsOrGone(e, n, possible) && n !in D.Current(e))
  {
    D.ImagesAfterCrash(d, k, torn, Partial);
    if n in D.Image(d, k) {
      assert Holds(d, k, n, possible);
    }
  }

  lemma ShowsIsShowsOrGone(d: JournalDisk, n: Name, possible: set<Journal>)
    requires Shows(d, n, possible)
    ensures ShowsOrGone(d, n, possible)
  {
  }

  lemma CrashKeeps(s: System, a: Action)
    requires Inv(s) && May(s, a) && a.MachineCrash?
    ensures Inv(Do(s, a)) && Extends(s.floor.content, Do(s, a).floor.content)
  {
    hide Begun, Extends, Shows, ShowsOrGone, Visible, Durable, FoundIn;
    if !s.removed {
      ShowsIsShowsOrGone(s.disk, Path(s), s.possible);
    }
    SurvivorGone(s.disk, Path(s), s.possible, a.kept, a.torn);
    var found := FoundIn(D.Crash(s.disk, a.kept, a.torn, Partial), Path(s));
    if found.Some? {
      SameMapping(s.floor, found.value);
      ExtendsReflexive(found.value);
    }
    ExtendsReflexive(s.floor);
  }

  lemma SameMapping(floor: Journal, j: Journal)
    requires Extends(floor.content, j.content)
    ensures j.content.mapping == floor.content.mapping
  {
  }

  lemma StepKeeps(s: System, a: Action)
    requires Inv(s) && May(s, a)
    ensures Inv(Do(s, a)) && Extends(s.floor.content, Do(s, a).floor.content)
  {
    hide Begun, Extends, Records, Shows, Loadable, PartlyReplaced, Durable, MayFinalize;
    match a
    case RecordReturns(_, _, _) => RecordReturnsKeeps(s, a);
    case RecordStops(_, _, _, _) => RecordStopsKeeps(s, a);
    case FinalizeReturns(_) => FinalizeKeeps(s, a);
    case FinalizeStops(_, _) => FinalizeKeeps(s, a);
    case MachineCrash(_, _) => CrashKeeps(s, a);
    case _ => ExtendsReflexive(s.floor);
  }

  ghost predicate Run(states: seq<System>, actions: seq<Action>) {
    && |states| == |actions| + 1
    && Inv(states[0])
    && forall i :: 0 <= i < |actions| ==> May(states[i], actions[i]) && states[i + 1] == Do(states[i], actions[i])
  }

  /**
   Over every run, with failures and crashes anywhere: all a reader can find is a valid journal that
   keeps everything in any journal whose record returned `Ok` before.
   */
  lemma {:induction false} RunKeeps(states: seq<System>, actions: seq<Action>, i: nat, j: nat)
    requires Run(states, actions) && i <= j < |states|
    ensures Inv(states[j])
    ensures Extends(states[i].floor.content, states[j].floor.content)
    decreases j
  {
    hide Begun, Extends, Inv, May;
    if j > 0 {
      RunKeeps(states, actions, if i < j then i else j - 1, j - 1);
      StepKeeps(states[j - 1], actions[j - 1]);
      if i < j {
        ExtendsTransitive(states[i].floor.content, states[j - 1].floor.content, states[j].floor.content);
      }
    }
    if i == j {
      ExtendsReflexive(states[i].floor);
    }
  }

  /** A record that returned `Ok` is never undone, and neither is any evidence in it. */
  lemma RecordedStays(states: seq<System>, actions: seq<Action>, i: nat, j: nat, found: Journal)
    requires Run(states, actions) && i < j < |states|
    requires actions[i].RecordReturns? && found in states[j].possible
    ensures Loadable(found) && Extends(actions[i].next.content, found.content)
    ensures Rank(actions[i].next.content.stage) >= Rank(SidecarAcknowledged) ==> found.content.attachment.Some?
    ensures Rank(actions[i].next.content.stage) >= Rank(SidecarIssued) ==>
              HistoryIdentity(found) == HistoryIdentity(actions[i].next)
  {
    hide Begun, Shows, Visible, May, Extends;
    assert states[i + 1].floor == actions[i].next;
    RunKeeps(states, actions, i + 1, j);
    RunKeeps(states, actions, i + 1, i + 1);
    ExtendsTransitive(states[i + 1].floor.content, states[j].floor.content, found.content);
    BegunIsLoadable(found);
    LaterIsAttached(actions[i].next, found);
  }

  lemma LaterIsAttached(a: Journal, b: Journal)
    requires Begun(a) && Begun(b) && Extends(a.content, b.content)
    ensures Rank(a.content.stage) >= Rank(SidecarAcknowledged) ==> b.content.attachment.Some?
    ensures Rank(a.content.stage) >= Rank(SidecarIssued) ==> HistoryIdentity(b) == HistoryIdentity(a)
  {
    hide Loadable;
    if Rank(a.content.stage) >= Rank(SidecarIssued) {
      HistoryIdentityIsStable(a, b);
    }
  }

  // ---------------------------------------------------------------- removal

  /** The journal then visible was attached, and its very terminal acknowledged. */
  ghost predicate Released(s: System, a: Action) {
    && (a.FinalizeReturns? || a.FinalizeStops?)
    && s.handle.Some? && Visible(s.disk, Path(s), s.handle.value)
    && MayFinalize(s.handle.value.content, a.acknowledgement)
  }

  lemma {:induction false} RemovedWasReleased(states: seq<System>, actions: seq<Action>, j: nat) returns (i: nat)
    requires Run(states, actions) && j < |states| && !states[0].removed && states[j].removed
    ensures i < j && Released(states[i], actions[i])
    decreases j
  {
    hide Begun, Extends, Records, Shows, Visible, Loadable, PartlyReplaced, Durable, MayFinalize, ShowsOrGone;
    if states[j - 1].removed {
      i := RemovedWasReleased(states, actions, j - 1);
    } else {
      RunKeeps(states, actions, j - 1, j - 1);
      RunKeeps(states, actions, j - 1, j);
      i := j - 1;
      RemovedNow(states[i], actions[i]);
    }
  }

  lemma RemovedNow(s: System, a: Action)
    requires Inv(s) && May(s, a) && !s.removed && Do(s, a).removed
    ensures Released(s, a)
  {
    hide Begun, Extends, Records, Loadable, PartlyReplaced, Durable, MayFinalize;
    if a.MachineCrash? {
      SurvivorFound(s.disk, Path(s), s.possible, a.kept, a.torn);
    }
  }

  lemma SurvivorFound(d: JournalDisk, n: Name, possible: set<Journal>, k: nat, torn: set<nat>)
    requires Shows(d, n, possible) && k <= |d.log| && torn <= d.unsynced
    ensures n in D.Image(d, k) && FoundIn(D.Crash(d, k, torn, Partial), n).Some?
  {
    var j := SurvivorShows(d, n, possible, k, torn);
  }

  /**
   The file is missing, for a reader now or after any crash, only if an earlier call removed it with its
   attachment present and its very terminal acknowledged.
   */
  lemma MissingWasReleased(states: seq<System>, actions: seq<Action>, j: nat, k: nat) returns (i: nat)
    requires Run(states, actions) && j < |states| && !states[0].removed && k <= |states[j].disk.log|
    requires Path(states[j]) !in D.Image(states[j].disk, k)
    ensures i < j && Released(states[i], actions[i])
  {
    hide Begun, Extends, May, Released, Durable, Visible;
    RunKeeps(states, actions, j, j);
    if !states[j].removed {
      SurvivorFound(states[j].disk, Path(states[j]), states[j].possible, k, {});
    }
    i := RemovedWasReleased(states, actions, j);
  }

  // ---------------------------------------------------------------- between machine crashes

  /** Without a machine crash even what is not yet durable only moves forward. */
  lemma VisibleOnlyGrows(s: System, a: Action, before: Journal, after: Journal)
    requires Inv(s) && May(s, a) && !a.MachineCrash?
    requires Visible(s.disk, Path(s), before) && Visible(Do(s, a).disk, Path(s), after)
    ensures Extends(before.content, after.content)
  {
    hide Begun, Extends, Records, Loadable, Shows, Durable, MayFinalize, ShowsOrGone;
    ExtendsReflexive(before);
    if a.RecordReturns? || a.RecordStops? {
      HandleIsPossible(s);
      assert s.handle.value == before;
      BegunIsLoadable(before);
      RecordExtends(before, a.input, a.next);
      VisibleAfterRecord(s, a, before, after);
    } else if a.FinalizeReturns? || a.FinalizeStops? {
      HandleIsPossible(s);
      UnlinkedShows(s.disk, Path(s), s.possible);
    }
  }

  lemma VisibleAfterRecord(s: System, a: Action, before: Journal, after: Journal)
    requires Inv(s) && !s.removed && (a.RecordReturns? || a.RecordStops?)
    requires a.RecordStops? ==> PartlyReplaced(s.disk, Path(s), Temporary(s, a.pid), a.next, a.left)
    requires Visible(s.disk, Path(s), before) && Visible(Do(s, a).disk, Path(s), after)
    ensures after == before || after == a.next
  {
    hide Begun, Extends, Records, Loadable, Shows, Durable;
    var t := Temporary(s, a.pid);
    WrittenShows(s.disk, Path(s), t, a.next, s.possible);
    MovedShows(s.disk, Path(s), t, a.next, s.possible);
    FlushedShows(Moved(s.disk, Path(s), t, a.next), Path(s), a.next);
  }

  /**
   A temporary that a stopped record leaves is never removed. Until a machine crash at least, every later
   record of a process with the same id is refused at its first call.
   */
  lemma {:induction false} StaleTemporaryBlocks(states: seq<System>, actions: seq<Action>, i: nat, j: nat, pid: nat)
    requires Run(states, actions) && i <= j < |states|
    requires forall k | i <= k < j :: !actions[k].MachineCrash?
    requires Temporary(states[i], pid) in D.Current(states[i].disk)
    ensures Temporary(states[j], pid) == Temporary(states[i], pid)
            && Temporary(states[j], pid) in D.Current(states[j].disk)
    ensures j < |actions| && actions[j].RecordReturns? ==> actions[j].pid != pid
    ensures j < |actions| && actions[j].RecordStops? && actions[j].pid == pid ==> actions[j].left == states[j].disk
    decreases j
  {
    hide Begun, Extends, Records, Loadable, Shows, Durable, MayFinalize, ShowsOrGone, Visible;
    if i < j {
      StaleTemporaryBlocks(states, actions, i, j - 1, pid);
      RunKeeps(states, actions, j - 1, j);
      SameMapping(states[j - 1].floor, states[j].floor);
      TemporaryStays(states[j - 1], actions[j - 1], pid);
    }
    if j < |actions| {
      assert May(states[j], actions[j]);
    }
  }

  lemma TemporaryStays(s: System, a: Action, pid: nat)
    requires May(s, a) && !a.MachineCrash? && Temporary(s, pid) in D.Current(s.disk)
    ensures Temporary(s, pid) in D.Current(Do(s, a).disk)
  {
    hide Begun, Records, Loadable, MayFinalize, Visible;
    var t := Temporary(s, pid);
    if a.RecordReturns? || a.RecordStops? {
      var u := Temporary(s, a.pid);
      D.ImagesAfterCreate(s.disk, u, Partial);
      D.ImagesAfterWrite(D.Create(s.disk, u, Partial), |s.disk.content|, Complete(a.next));
      D.ImagesAfterSyncFile(DraftOf(s.disk, u, a.next), |s.disk.content|);
      D.ImagesAfterIssue(Written(s.disk, u, a.next), D.Move(u, Path(s)));
      D.ImagesAfterFlush(Moved(s.disk, Path(s), u, a.next));
    } else if a.FinalizeReturns? || a.FinalizeStops? {
      D.ImagesAfterIssue(s.disk, D.Unlink(Path(s)));
      D.ImagesAfterFlush(D.Issue(s.disk, D.Unlink(Path(s))));
    }
  }
}
