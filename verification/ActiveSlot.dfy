/** The handle on one active slot, its store, and the recovery of the store. */
module ActiveSlotStore {
  import opened Wrappers
  import opened Protocol
  import opened Names
  import opened SlotJournal
  import opened SlotStore
  import opened SlotMachine
  import A = SlotAcceptance
  import D = Durability
  import P = ProtectedDirectory

  datatype Error = AlreadyActive | InvalidJournal | PersistenceFailed

  type Result<+T> = Wrappers.Result<T, Error>

  type Directory = P.Directory<Name, File>

  // ---------------------------------------------------------------- writing one journal

  /** The whole journal is in its file, which is not synced. */
  function DraftOf(d: SlotDisk, name: Name, j: Journal): SlotDisk {
    D.Write(D.Create(d, name, Partial), |d.content|, Complete(j))
  }

  /** The disk after `write_new` returned `Ok`. */
  function Written(d: SlotDisk, name: Name, j: Journal): SlotDisk {
    D.SyncFile(DraftOf(d, name, j), |d.content|)
  }

  /** The disk after `replace_atomically` returned `Ok`. */
  function Replaced(d: SlotDisk, n: Name, j: Journal): SlotDisk {
    D.Flush(D.Issue(Written(d, TempOf(j), j), D.Move(TempOf(j), n)))
  }

  /** Where a failed `write_new` may have left the disk. */
  predicate PartlyWritten(before: SlotDisk, name: Name, j: Journal, now: SlotDisk) {
    now == before || now == D.Create(before, name, Partial) || now == DraftOf(before, name, j)
  }

  /** Where a failed `replace_atomically` may have left the disk. */
  predicate PartlyReplaced(before: SlotDisk, n: Name, j: Journal, now: SlotDisk) {
    || PartlyWritten(before, TempOf(j), j, now)
    || now == Written(before, TempOf(j), j)
    || now == D.Issue(Written(before, TempOf(j), j), D.Unlink(TempOf(j)))
    || now == D.Issue(Written(before, TempOf(j), j), D.Move(TempOf(j), n))
  }

  method WriteNew(dir: Directory, name: Name, j: Journal) returns (r: Result<()>)
    requires dir.Valid()
    modifies dir
    ensures dir.Valid()
    ensures r.Ok? ==> name !in old(D.Current(dir.disk)) && dir.disk == Written(old(dir.disk), name, j)
    ensures r.Err? ==> PartlyWritten(old(dir.disk), name, j, dir.disk) && r.error != InvalidJournal
    ensures r == Err(AlreadyActive) ==> name in D.Current(dir.disk) && dir.disk == old(dir.disk)
    ensures old(dir.failures) <= dir.failures && (r.Err? ==> old(dir.failures) < dir.failures)
  {
    var made := dir.CreateNew(name, Partial);
    if made.Exists? { return Err(AlreadyActive); }
    if made.Refused? { return Err(PersistenceFailed); }
    var written := dir.WriteAll(made.inode, Complete(j));
    if !written { return Err(PersistenceFailed); }
    var synced := dir.SyncAll(made.inode);
    if !synced { return Err(PersistenceFailed); }
    return Ok(());
  }

  method ReplaceAtomically(dir: Directory, n: Name, j: Journal) returns (r: Result<()>)
    requires dir.Valid()
    modifies dir
    ensures dir.Valid()
    ensures r.Ok? ==> TempOf(j) !in old(D.Current(dir.disk)) && dir.disk == Replaced(old(dir.disk), n, j)
    ensures r.Err? ==> PartlyReplaced(old(dir.disk), n, j, dir.disk) && r.error != InvalidJournal
    ensures old(dir.failures) <= dir.failures && (r.Err? ==> old(dir.failures) < dir.failures)
  {
    r := WriteNew(dir, TempOf(j), j);
    if r.Err? { return; }
    var renamed := dir.Rename(TempOf(j), n);
    if !renamed {
      var _ := dir.Remove(TempOf(j));
      return Err(PersistenceFailed);
    }
    var synced := dir.Sync();
    if !synced { return Err(PersistenceFailed); }
  }

  // ---------------------------------------------------------------- the handle

  lemma AcceptedIs(c: SlotContent, input: Input)
    ensures A.Accepted(c, input) <==>
              Guard(c, input) && (AlreadyRecorded(c, input) || SlotIdentity(Assign(c, input)).Some?)
  {
    hide Guard, SlotIdentity;
  }

  class ActiveSlot {
    const directory: Directory
    const path: Name
    var journal: Journal

    constructor (directory: Directory, path: Name, journal: Journal)
      ensures this.directory == directory && this.path == path && this.journal == journal
    {
      this.directory := directory;
      this.path := path;
      this.journal := journal;
    }

    /** `begin`: the intent is on disk before the handle exists. */
    static method Begin(dir: Directory, invocation: string, mapping: string, request: string, wd: WorkingDirectory)
      returns (r: Result<ActiveSlot>)
      requires dir.Valid()
      modifies dir
      ensures dir.Valid()
      ensures r.Ok? ==>
        && fresh(r.value) && r.value.directory == dir && r.value.path == Canonical(mapping)
        && r.value.journal.content == SlotContent(
             1, IntentStage, invocation, mapping, request, wd, None, None, None, None, None, None)
        && Loadable(r.value.journal)
        && Canonical(mapping) !in old(D.Current(dir.disk))
        && dir.disk == D.Flush(Written(old(dir.disk), Canonical(mapping), r.value.journal))
      ensures r != Err(InvalidJournal) <==>
                && A.LabelText(invocation) && A.DigestText(mapping) && A.DigestText(request)
                && wd.body.wellFormed && wd.identity == OfDirectory(wd.body)
      ensures r == Err(InvalidJournal) || r == Err(AlreadyActive) ==> dir.disk == old(dir.disk)
      ensures r == Err(AlreadyActive) ==> Canonical(mapping) in old(D.Current(dir.disk))
      ensures r.Err? && r.error != InvalidJournal ==> old(dir.failures) < dir.failures
      ensures r == Err(PersistenceFailed) ==>
        var content := IntentContent(invocation, mapping, request, wd);
        && SlotIdentity(content).Some?
        && var intent := Journal(SlotIdentity(content).value, content);
        || PartlyWritten(old(dir.disk), Canonical(mapping), intent, dir.disk)
        || dir.disk == Written(old(dir.disk), Canonical(mapping), intent)
    {
      var content := IntentContent(invocation, mapping, request, wd);
      A.LoadsExactly(Journal(OfSlot(content), content));
      hide A.LabelText, A.DigestText, Names.IsLabel, Names.IsSha256;
      var identity := SlotIdentity(content);
      if identity.None? { return Err(InvalidJournal); }
      var journal := Journal(identity.value, content);
      var w := WriteNew(dir, Canonical(mapping), journal);
      if w.Err? { return Err(w.error); }
      var synced := dir.Sync();
      if !synced { return Err(PersistenceFailed); }
      var slot := new ActiveSlot(dir, Canonical(mapping), journal);
      r := Ok(slot);
    }

    /**
     The `record_*` methods. The journal in memory is assigned before it is validated, so after an
     `Err` it may be ahead of the disk; the handle is then to be dropped.
     */
    method Record(input: Input) returns (r: Result<()>)
      requires directory.Valid()
      modifies this, directory
      ensures directory.Valid()
      ensures !Guard(old(journal).content, input) ==>
                r == Err(InvalidJournal) && journal == old(journal) && directory.disk == old(directory.disk)
      ensures Guard(old(journal).content, input) && AlreadyRecorded(old(journal).content, input) ==>
                r.Ok? && journal == old(journal) && directory.disk == old(directory.disk)
      ensures r.Ok? && !AlreadyRecorded(old(journal).content, input) ==>
                && Records(old(journal), input, journal)
                && TempOf(journal) !in old(D.Current(directory.disk))
                && directory.disk == Replaced(old(directory.disk), path, journal)
      ensures r.Err? && r.error != InvalidJournal ==>
                && Records(old(journal), input, journal)
                && PartlyReplaced(old(directory.disk), path, journal, directory.disk)
      ensures r == Err(InvalidJournal) ==> directory.disk == old(directory.disk)
      ensures r.Err? && r.error != InvalidJournal ==> old(directory.failures) < directory.failures
      ensures Cumulative(old(journal).content) ==>
                (r != Err(InvalidJournal) <==> A.Admits(old(journal).content, input))
    {
      hide Cumulative, A.Admits, A.Accepted, Guard, SlotIdentity, Assign, AlreadyRecorded, PartlyReplaced, Replaced;
      if Cumulative(journal.content) {
        A.AcceptsExactly(journal.content, input);
        AcceptedIs(journal.content, input);
      }
      if !Guard(journal.content, input) { return Err(InvalidJournal); }
      if AlreadyRecorded(journal.content, input) { return Ok(()); }
      journal := journal.(content := Assign(journal.content, input));
      var identity := SlotIdentity(journal.content);
      if identity.None? { return Err(InvalidJournal); }
      journal := journal.(identity := identity.value);
      r := ReplaceAtomically(directory, path, journal);
    }

    method Finalize() returns (r: Result<()>)
      requires directory.Valid()
      modifies directory
      ensures directory.Valid()
      ensures r.Ok? ==> directory.disk == D.Flush(D.Issue(old(directory.disk), D.Unlink(path)))
      ensures r.Err? ==> directory.disk == old(directory.disk)
                         || directory.disk == D.Issue(old(directory.disk), D.Unlink(path))
      ensures r.Err? ==> old(directory.failures) < directory.failures
    {
      var removed := directory.Remove(path);
      if !removed { return Err(PersistenceFailed); }
      var synced := directory.Sync();
      if !synced { return Err(PersistenceFailed); }
      return Ok(());
    }
  }

  /**
   How the launcher records a child or a scope: when the record fails, the slot is finalized at once.
   The journal is then gone, and recovery refuses the store if the record left its temporary behind.
   `left` is the disk between the two calls.
   */
  method RecordOrFinalize(slot: ActiveSlot, input: Input)
    returns (r: Result<()>, ghost released: bool, ghost left: SlotDisk)
    requires slot.directory.Valid()
    modifies slot, slot.directory
    ensures slot.directory.Valid() && D.Valid(left)
    ensures r.Ok? ==> !released && Guard(old(slot.journal).content, input)
    ensures left == old(slot.directory.disk) || left == slot.directory.disk
            || PartlyReplaced(old(slot.directory.disk), slot.path, slot.journal, left)
    ensures released ==> slot.directory.disk == D.Flush(D.Issue(left, D.Unlink(slot.path)))
    ensures r.Err? && !released ==>
              slot.directory.disk == left || slot.directory.disk == D.Issue(left, D.Unlink(slot.path))
    ensures released && slot.path.Canonical? && AloneWith(FilesNow(left), slot.path, TempOf(slot.journal)) ==>
              LoadOutcome(FilesNow(slot.directory.disk)) == None
  {
    hide Loadable, Guard, Records, PartlyReplaced;
    r := slot.Record(input);
    left := slot.directory.disk;
    released := false;
    if r.Ok? { return; }
    FilesAfterIssue(left, D.Unlink(slot.path));
    FilesAfterFlush(D.Issue(left, D.Unlink(slot.path)));
    var f := slot.Finalize();
    if f.Ok? {
      released := true;
      if slot.path.Canonical? && AloneWith(FilesNow(left), slot.path, TempOf(slot.journal)) {
        OrphanTemporaryIsRefused(FilesNow(slot.directory.disk), TempOf(slot.journal));
      }
    }
  }

  /** The temporary is there, and no other slot has its invocation. */
  ghost predicate AloneWith(f: Dir, n: Name, t: Name) {
    t in f && t.Temporary?
    && forall m :: m in f && m.Canonical? && m != n && f[m].Complete? ==>
      f[m].journal.content.invocation != t.invocation
  }

  /** The three ways a failed record leaves its temporary: created, written, or synced and not renamed. */
  lemma WhenTheTemporaryStays(before: SlotDisk, n: Name, j: Journal, left: SlotDisk)
    requires D.Valid(before) && TempOf(j) !in D.Current(before) && n.Canonical? && PartlyReplaced(before, n, j, left)
    ensures TempOf(j) in D.Current(left) <==>
              || left == D.Create(before, TempOf(j), Partial)
              || left == DraftOf(before, TempOf(j), j) || left == Written(before, TempOf(j), j)
  {
    var t := TempOf(j);
    D.ImagesAfterCreate(before, t, Partial);
    D.ImagesAfterWrite(D.Create(before, t, Partial), |before.content|, Complete(j));
    D.ImagesAfterSyncFile(DraftOf(before, t, j), |before.content|);
    D.ImagesAfterIssue(Written(before, t, j), D.Unlink(t));
    D.ImagesAfterIssue(Written(before, t, j), D.Move(t, n));
  }

  /** The calls of the handle are the calls of the machine: a record that returns is five of its actions. */
  lemma RecordIsFiveActions(s: System, n: Name, input: Input, next: Journal)
    requires Inv(s) && MayRecordCreate(s, n, input, next)
    ensures var s1 := RecordCreated(s, n, next);
            && MayRecordWrite(s1, n)
            && var s2 := RecordWritten(s1, n);
            && Writes(s2, n, Drafted)
            && var s3 := RecordFileSynced(s2, n);
            && Writes(s3, n, Filled)
            && var s4 := RecordRenamed(s3, n);
            && Writes(s4, n, Renamed)
            && RecordSynced(s4, n).disk == Replaced(s.disk, n, next)
            && RecordSynced(s4, n).handles[n] == Handle(next, Settled, true, true)
  {
    hide Inv, Records, Loadable, Step;
    RecordCreateBooks(s, n, input, next);
    StepKeepsBinding(s.handles[n].journal, next);
  }

  lemma BeginIsFourActions(s: System, intent: Journal)
    requires MayBeginCreate(s, intent)
    ensures var n := NameOf(intent);
            var s1 := BeginCreated(s, intent);
            && MayBeginWrite(s1, n)
            && var s2 := BeginWritten(s1, n);
            && Opens(s2, n, true, false)
            && var s3 := BeginFileSynced(s2, n);
            && Opens(s3, n, true, true)
            && BeginSynced(s3, n).disk == D.Flush(Written(s.disk, n, intent))
  {
    hide Loadable;
  }
}
