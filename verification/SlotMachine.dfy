/**
 Every interleaving of slot handles at the granularity of filesystem calls, with calls that fail,
 process crashes, machine crashes, and recoveries that are themselves interrupted.
 */
module SlotMachine {
  import opened Wrappers
  import opened Protocol
  import opened Names
  import opened SlotJournal
  import opened SlotStore
  import D = Durability

  type SlotDisk = D.Disk<Name, File>

  /** `Drafted`: written and not yet synced. `Filled`: synced. */
  datatype Progress = Created | Drafted | Filled | Renamed | Abandoned

  /** Where a handle is between two filesystem calls. */
  datatype Phase =
    | Opening(inode: nat, filled: bool, synced: bool)
    | Settled
    | Writing(next: Journal, inode: nat, progress: Progress)
    | Closing

  /** `clean`: the journal was acknowledged, not read back. A handle is `usable` until a call fails. */
  datatype Handle = Handle(journal: Journal, phase: Phase, clean: bool, usable: bool)

  /**
   `possible` and `acks` are the specification's own bookkeeping, by canonical name: the journals
   that a crash may leave, and the journals that calls have acknowledged in this slot life.
   */
  datatype System = System(
    disk: SlotDisk, running: bool, handles: map<Name, Handle>,
    possible: map<Name, set<Journal>>, acks: map<Name, seq<Journal>>)

  datatype Action =
    | BeginCreate(intent: Journal)
    | BeginWrite(slot: Name)
    | BeginFileSync(slot: Name)
    | BeginSync(slot: Name)
    | RecordCreate(slot: Name, input: Input, next: Journal)
    | RecordWrite(slot: Name)
    | RecordFileSync(slot: Name)
    | RecordRename(slot: Name)
    | RecordSync(slot: Name)
    | RenameFails(slot: Name)
    | FinalizeRemove(slot: Name)
    | FinalizeSync(slot: Name)
    | CallFails(slot: Name)
    | StraySync
    | ProcessCrash
    | MachineCrash(kept: nat, torn: set<nat>)
    | RecoverOp(op: D.Op<Name>)
    | RecoverDone

  function NameOf(j: Journal): Name { Canonical(j.content.mapping) }
  function TempOf(j: Journal): Name { Temporary(j.content.invocation) }

  function FilesAt(d: SlotDisk, k: nat): Dir
    requires D.Valid(d) && k <= |d.log|
  {
    D.Files(D.Image(d, k), d.content)
  }

  function FilesNow(d: SlotDisk): Dir
    requires D.Valid(d)
  {
    FilesAt(d, |d.log|)
  }

  function PossibleAt(s: System, n: Name): set<Journal> {
    if n in s.possible then s.possible[n] else {}
  }

  /** A handle whose next call may be issued. */
  predicate Live(s: System, n: Name) {
    s.running && n in s.handles && s.handles[n].usable
  }

  predicate Opens(s: System, n: Name, filled: bool, synced: bool) {
    && Live(s, n) && s.handles[n].phase.Opening?
    && s.handles[n].phase.filled == filled && s.handles[n].phase.synced == synced
  }

  predicate Writes(s: System, n: Name, progress: Progress) {
    Live(s, n) && s.handles[n].phase.Writing? && s.handles[n].phase.progress == progress
  }

  // Each filesystem call: when the source issues it, and its effect.

  ghost predicate MayBeginCreate(s: System, intent: Journal) {
    && s.running
    && Loadable(intent) && intent.content.stage == IntentStage
    && NameOf(intent) !in D.Current(s.disk)
    && (forall n, j :: n in s.possible && j in s.possible[n] ==> TempOf(j) != TempOf(intent))
    && TempOf(intent) !in D.Current(s.disk)
  }

  function BeginCreated(s: System, intent: Journal): System {
    var n := NameOf(intent);
    s.(disk := D.Create(s.disk, n, Partial),
       handles := s.handles[n := Handle(intent, Opening(|s.disk.content|, false, false), false, true)],
       possible := s.possible[n := PossibleAt(s, n) + {intent}])
  }

  predicate MayBeginWrite(s: System, n: Name) {
    Opens(s, n, false, false) && s.handles[n].phase.inode < |s.disk.content|
  }

  function BeginWritten(s: System, n: Name): System
    requires MayBeginWrite(s, n)
  {
    var h := s.handles[n];
    s.(disk := D.Write(s.disk, h.phase.inode, Complete(h.journal)),
       handles := s.handles[n := h.(phase := Opening(h.phase.inode, true, false))])
  }

  function BeginFileSynced(s: System, n: Name): System
    requires Opens(s, n, true, false)
  {
    var h := s.handles[n];
    s.(disk := D.SyncFile(s.disk, h.phase.inode),
       handles := s.handles[n := h.(phase := Opening(h.phase.inode, true, true))])
  }

  function BeginSynced(s: System, n: Name): System
    requires Opens(s, n, true, true)
  {
    var h := s.handles[n];
    s.(disk := D.Flush(s.disk),
       handles := s.handles[n := Handle(h.journal, Settled, true, true)],
       possible := s.possible[n := {h.journal}],
       acks := s.acks[n := [h.journal]])
  }

  predicate Rests(s: System, n: Name) {
    Live(s, n) && s.handles[n].phase.Settled?
  }

  ghost predicate MayRecordCreate(s: System, n: Name, input: Input, next: Journal) {
    && Rests(s, n)
    && Records(s.handles[n].journal, input, next)
    && TempOf(s.handles[n].journal) !in D.Current(s.disk)
  }

  function RecordCreated(s: System, n: Name, next: Journal): System
    requires Rests(s, n)
  {
    var h := s.handles[n];
    s.(disk := D.Create(s.disk, TempOf(h.journal), Partial),
       handles := s.handles[n := h.(phase := Writing(next, |s.disk.content|, Created))],
       possible := s.possible[n := PossibleAt(s, n) + {next}])
  }

  predicate MayRecordWrite(s: System, n: Name) {
    Writes(s, n, Created) && s.handles[n].phase.inode < |s.disk.content|
  }

  function RecordWritten(s: System, n: Name): System
    requires MayRecordWrite(s, n)
  {
    var h := s.handles[n];
    s.(disk := D.Write(s.disk, h.phase.inode, Complete(h.phase.next)),
       handles := s.handles[n := h.(phase := h.phase.(progress := Drafted))])
  }

  function RecordFileSynced(s: System, n: Name): System
    requires Writes(s, n, Drafted)
  {
    var h := s.handles[n];
    s.(disk := D.SyncFile(s.disk, h.phase.inode),
       handles := s.handles[n := h.(phase := h.phase.(progress := Filled))])
  }

  function RecordRenamed(s: System, n: Name): System
    requires Writes(s, n, Filled)
  {
    var h := s.handles[n];
    s.(disk := D.Issue(s.disk, D.Move(TempOf(h.journal), n)),
       handles := s.handles[n := h.(phase := h.phase.(progress := Renamed))])
  }

  function RecordSynced(s: System, n: Name): System
    requires Writes(s, n, Renamed)
  {
    var h := s.handles[n];
    s.(disk := D.Flush(s.disk),
       handles := s.handles[n := Handle(h.phase.next, Settled, true, true)],
       possible := s.possible[n := {h.phase.next}],
       acks := s.acks[n := (if n in s.acks then s.acks[n] else []) + [h.phase.next]])
  }

  /** The rename failed: the temporary is removed and the handle is given up. */
  function RenameFailed(s: System, n: Name): System
    requires Writes(s, n, Filled)
  {
    var h := s.handles[n];
    s.(disk := D.Issue(s.disk, D.Unlink(TempOf(h.journal))),
       handles := s.handles[n := h.(phase := h.phase.(progress := Abandoned), usable := false)])
  }

  /** `finalize` is called on a handle that rests, and on one whose record failed. */
  predicate MayFinalize(s: System, n: Name) {
    && s.running && n in s.handles
    && (s.handles[n].phase.Settled? || (s.handles[n].phase.Writing? && !s.handles[n].usable))
  }

  function FinalizeRemoved(s: System, n: Name): System
    requires MayFinalize(s, n)
  {
    var h := s.handles[n];
    s.(disk := D.Issue(s.disk, D.Unlink(n)),
       handles := s.handles[n := Handle(h.journal, Closing, h.clean && h.phase.Settled?, true)],
       acks := s.acks - {n})
  }

  predicate Closes(s: System, n: Name) {
    Live(s, n) && s.handles[n].phase.Closing?
  }

  function FinalizeSynced(s: System, n: Name): System {
    s.(disk := D.Flush(s.disk), handles := s.handles - {n}, possible := s.possible - {n})
  }

  /** Any other call failed: its files stay as they are and the handle is given up. */
  function CallFailed(s: System, n: Name): System
    requires Live(s, n)
  {
    s.(handles := s.handles[n := s.handles[n].(usable := false)])
  }

  function Crashed(s: System, disk: SlotDisk): System {
    s.(disk := disk, running := false, handles := map[])
  }

  /** What a machine crash leaves that kept `k` queued operations and tore these files. */
  function Left(d: SlotDisk, k: nat, torn: set<nat>): Dir
    requires D.Valid(d) && k <= |d.log|
  {
    D.ImagesAfterCrash(d, k, torn, Partial);
    FilesNow(D.Crash(d, k, torn, Partial))
  }

  /** The acknowledged slots whose journal is still there. */
  function Standing(f: Dir, acks: map<Name, seq<Journal>>): map<Name, seq<Journal>> {
    map n | n in acks && n in f && f[n].Complete? :: acks[n]
  }

  function PowerCut(s: System, kept: nat, torn: set<nat>): System
    requires D.Valid(s.disk) && kept <= |s.disk.log|
  {
    s.(disk := D.Crash(s.disk, kept, torn, Partial), running := false, handles := map[],
       acks := Standing(Left(s.disk, kept, torn), s.acks))
  }

  ghost predicate MayRecoverDone(s: System)
    requires D.Valid(s.disk)
  {
    && !s.running
    && Accepts(FilesNow(s.disk))
    && forall n :: n in D.Current(s.disk) ==> !n.Temporary?
  }

  function RecoveredSystem(s: System): System
    requires D.Valid(s.disk)
  {
    var slots := Slots(FilesNow(s.disk));
    s.(running := true,
       handles := map n | n in slots :: Handle(slots[n], Settled, false, true))
  }

  ghost predicate Enabled(s: System, a: Action)
    requires D.Valid(s.disk)
  {
    match a
    case BeginCreate(intent) => MayBeginCreate(s, intent)
    case BeginWrite(n) => MayBeginWrite(s, n)
    case BeginFileSync(n) => Opens(s, n, true, false)
    case BeginSync(n) => Opens(s, n, true, true)
    case RecordCreate(n, input, next) => MayRecordCreate(s, n, input, next)
    case RecordWrite(n) => MayRecordWrite(s, n)
    case RecordFileSync(n) => Writes(s, n, Drafted)
    case RecordRename(n) => Writes(s, n, Filled)
    case RecordSync(n) => Writes(s, n, Renamed)
    case RenameFails(n) => Writes(s, n, Filled)
    case FinalizeRemove(n) => MayFinalize(s, n)
    case FinalizeSync(n) => Closes(s, n)
    case CallFails(n) => Live(s, n)
    case StraySync => true
    case ProcessCrash => true
    case MachineCrash(kept, torn) => kept <= |s.disk.log| && torn <= s.disk.unsynced
    case RecoverOp(op) => !s.running && RecoveryMay(FilesNow(s.disk), op)
    case RecoverDone => MayRecoverDone(s)
  }

  ghost function Perform(s: System, a: Action): System
    requires D.Valid(s.disk) && Enabled(s, a)
  {
    match a
    case BeginCreate(intent) => BeginCreated(s, intent)
    case BeginWrite(n) => BeginWritten(s, n)
    case BeginFileSync(n) => BeginFileSynced(s, n)
    case BeginSync(n) => BeginSynced(s, n)
    case RecordCreate(n, input, next) => RecordCreated(s, n, next)
    case RecordWrite(n) => RecordWritten(s, n)
    case RecordFileSync(n) => RecordFileSynced(s, n)
    case RecordRename(n) => RecordRenamed(s, n)
    case RecordSync(n) => RecordSynced(s, n)
    case RenameFails(n) => RenameFailed(s, n)
    case FinalizeRemove(n) => FinalizeRemoved(s, n)
    case FinalizeSync(n) => FinalizeSynced(s, n)
    case CallFails(n) => CallFailed(s, n)
    case StraySync => s.(disk := D.Flush(s.disk))
    case ProcessCrash => Crashed(s, s.disk)
    case MachineCrash(kept, torn) => PowerCut(s, kept, torn)
    case RecoverOp(op) => s.(disk := D.Issue(s.disk, op))
    case RecoverDone => RecoveredSystem(s)
  }

  // ---------------------------------------------------------------- the invariant

  ghost predicate Good(j: Journal, n: Name) {
    Loadable(j) && Cumulative(j.content) && NameOf(j) == n
  }

  /** The journals a crash may leave are valid, and two slots never share an invocation. */
  ghost predicate PossibleOk(possible: map<Name, set<Journal>>) {
    && (forall n, j :: n in possible && j in possible[n] ==> Good(j, n))
    && (forall n, m, i, j | n in possible && m in possible && i in possible[n] && j in possible[m] ::
          TempOf(i) == TempOf(j) ==> n == m)
  }

  /** This temporary belongs to a journal in the same directory and continues it. */
  ghost predicate Owned(f: Dir, possible: map<Name, set<Journal>>, t: Name, n: Name) {
    && t in f && n in f && n in possible && n.Canonical?
    && f[n].Complete? && TempOf(f[n].journal) == t
    && (f[t].Complete? ==> Step(f[n].journal, f[t].journal) && f[t].journal in possible[n])
  }

  /** The temporary stands beside the journal whose invocation it carries. */
  ghost predicate Paired(f: Dir, t: Name, n: Name) {
    && t in f && t.Temporary?
    && n in f && n.Canonical? && f[n].Complete? && TempOf(f[n].journal) == t
  }

  /** One directory that a crash may leave. A temporary beside its journal continues it; others are orphans. */
  ghost predicate ImageOk(f: Dir, possible: map<Name, set<Journal>>, acks: map<Name, seq<Journal>>) {
    && (forall n :: n in f ==> !n.Foreign?)
    && (forall n :: n in f && n.Canonical? ==>
          n in possible && (f[n].Complete? ==> f[n].journal in possible[n]))
    && (forall t, n :: Paired(f, t, n) ==> Owned(f, possible, t, n))
    && (forall n :: n in acks ==> n.Canonical? && n in f && f[n].Complete?)
  }

  /** Acknowledged journals form one life, and nothing a crash may leave undoes them. */
  ghost predicate AcksOk(possible: map<Name, set<Journal>>, acks: map<Name, seq<Journal>>) {
    forall n :: n in acks ==>
      && n in possible && acks[n] != []
      && Life(acks[n])
      && forall i, j :: 0 <= i < |acks[n]| && j in possible[n] ==> Extends(acks[n][i], j)
  }

  /** What a handle knows of the directory. */
  ghost predicate HandleOk(s: System, n: Name, h: Handle)
    requires D.Valid(s.disk)
  {
    var f, e := FilesNow(s.disk), D.Current(s.disk);
    var t := TempOf(h.journal);
    && n in s.possible && h.journal in s.possible[n]
    && match h.phase
       case Opening(inode, filled, synced) =>
         n in f && e[n] == inode && f[n] == (if filled then Complete(h.journal) else Partial)
         && (synced ==> filled && inode !in s.disk.unsynced)
         && t !in f && n !in s.acks && !h.clean && h.journal.content.stage == IntentStage
       case Settled =>
         n in f && f[n] == Complete(h.journal) && t !in f
         && (h.clean ==> s.possible[n] == {h.journal})
       case Writing(next, inode, progress) =>
         && Step(h.journal, next) && next in s.possible[n]
         && (h.clean ==> s.possible[n] == {h.journal, next})
         && n in f && f[n] == Complete(if progress == Renamed then next else h.journal)
         && (if progress == Created || progress == Drafted || progress == Filled
             then t in f && e[t] == inode && f[t] == (if progress == Created then Partial else Complete(next))
             else t !in f)
         && (progress == Filled || progress == Renamed ==> inode !in s.disk.unsynced)
         && (progress == Renamed ==> e[n] == inode)
       case Closing =>
         n !in f && n !in s.acks && (h.clean ==> s.possible[n] == {h.journal})
  }

  /** An unwritten inode has one name in every image, beside the journal it is to replace. */
  ghost predicate BlankOk(s: System, n: Name, h: Handle)
    requires D.Valid(s.disk)
  {
    && (h.phase.Opening? && !h.phase.filled ==>
          && h.phase.inode < |s.disk.content| && s.disk.content[h.phase.inode] == Partial
          && forall k, x | 0 <= k <= |s.disk.log| && x in D.Image(s.disk, k) ::
               D.Image(s.disk, k)[x] == h.phase.inode ==> x == n && TempOf(h.journal) !in D.Image(s.disk, k))
    && (h.phase.Writing? && h.phase.progress == Created ==>
          && h.phase.inode < |s.disk.content| && s.disk.content[h.phase.inode] == Partial
          && forall k, x | 0 <= k <= |s.disk.log| && x in D.Image(s.disk, k) ::
               D.Image(s.disk, k)[x] == h.phase.inode ==>
                 && x == TempOf(h.journal)
                 && n in D.Image(s.disk, k) && FilesAt(s.disk, k)[n] == Complete(h.journal))
  }

  /** A half-written journal is never dropped or replaced, and while running it is still being opened. */
  ghost predicate HalvesOk(s: System)
    requires D.Valid(s.disk)
  {
    forall k, n | 0 <= k <= |s.disk.log| && n in FilesAt(s.disk, k) && n.Canonical? ::
      FilesAt(s.disk, k)[n].Partial? ==>
      && n in D.Current(s.disk) && D.Current(s.disk)[n] == D.Image(s.disk, k)[n]
      && (s.running ==> n in s.handles && s.handles[n].phase == Opening(D.Image(s.disk, k)[n], false, false))
  }

  ghost predicate Inv(s: System) {
    && D.Valid(s.disk)
    && PossibleOk(s.possible)
    && AcksOk(s.possible, s.acks)
    && (forall k :: 0 <= k <= |s.disk.log| ==> ImageOk(FilesAt(s.disk, k), s.possible, s.acks))
    && HalvesOk(s)
    && (!s.running ==> s.handles == map[])
    && (forall n :: n in s.handles ==> n.Canonical? && HandleOk(s, n, s.handles[n]) && BlankOk(s, n, s.handles[n]))
    && (s.running ==> forall n :: n in D.Current(s.disk) && n.Canonical? ==> n in s.handles)
  }

  ghost function Initial(): System {
    System(D.Empty(), true, map[], map[], map[])
  }

  lemma InitialInv()
    ensures Inv(Initial())
  {
  }

  // ---------------------------------------------------------------- what a crash leaves

  ghost predicate HalfWritten(f: Dir) {
    exists n :: n in f && n.Canonical? && f[n].Partial?
  }

  /** A temporary whose journal is gone. */
  ghost predicate Orphaned(f: Dir) {
    exists t :: t in f && t.Temporary? && forall n :: !Paired(f, t, n)
  }

  ghost predicate Damaged(f: Dir) { HalfWritten(f) || Orphaned(f) }

  /**
   Recovery accepts a directory that a crash left exactly when no journal is half-written and no
   temporary orphaned.
   */
  lemma AcceptsUnlessDamaged(f: Dir, possible: map<Name, set<Journal>>, acks: map<Name, seq<Journal>>)
    requires PossibleOk(possible) && ImageOk(f, possible, acks)
    ensures Accepts(f) <==> !Damaged(f)
  {
    if Damaged(f) {
      DamagedIsRefused(f);
    } else {
      hide Loadable, Step, Cumulative;
      forall n | n in f && !n.Temporary? ensures CanonicalOk(f, n) {
        assert Good(f[n].journal, n);
      }
      forall t | t in f && t.Temporary? ensures TemporaryOk(f, t) {
        var n :| Paired(f, t, n);
        OwnedIsOk(f, possible, acks, t, n);
      }
    }
  }

  lemma DamagedIsRefused(f: Dir)
    requires Damaged(f)
    ensures !Accepts(f)
  {
    hide Loadable, Step;
    if n :| n in f && n.Canonical? && f[n].Partial? {
      assert !CanonicalOk(f, n);
    } else {
      var t :| t in f && t.Temporary? && forall n :: !Paired(f, t, n);
      forall n | n in f && n.Canonical? && f[n].Complete? ensures f[n].journal.content.invocation != t.invocation {
        assert !Paired(f, t, n);
      }
      OrphanTemporaryIsRefused(f, t);
    }
  }

  lemma OwnedIsOk(f: Dir, possible: map<Name, set<Journal>>, acks: map<Name, seq<Journal>>, t: Name, n: Name)
    requires PossibleOk(possible) && ImageOk(f, possible, acks)
    requires Paired(f, t, n)
    ensures TemporaryOk(f, t)
  {
    hide StageValid, IsSha256, IsLabel, Cumulative;
    assert Owned(f, possible, t, n);
    assert Good(f[n].journal, n);
    if f[t].Complete? {
      assert Load(f[t]).Some? && Promotable(f, t);
    } else {
      forall m | m in Owners(f, t.invocation) ensures m == n {
        assert f[m].journal in possible[m] && TempOf(f[m].journal) == TempOf(f[n].journal);
      }
      assert n in Owners(f, t.invocation);
      assert Owners(f, t.invocation) == {n};
    }
  }

  /** The journal recovery settles on is one the slot may be at. */
  lemma RecoveredIsPossible(f: Dir, possible: map<Name, set<Journal>>, acks: map<Name, seq<Journal>>, n: Name)
    requires PossibleOk(possible) && ImageOk(f, possible, acks)
    requires n in f && n.Canonical? && f[n].Complete?
    ensures n in possible && Recovered(f, n) in possible[n]
  {
    hide StageValid, IsDirectSuccessor, IsSha256, IsLabel, Cumulative;
    var t := TempOf(f[n].journal);
    if t in f && f[t].Complete? {
      assert Paired(f, t, n);
    }
  }

  // ---------------------------------------------------------------- files under the disk operations

  lemma FilesAfterCreate(d: SlotDisk, name: Name)
    requires D.Valid(d)
    ensures var e := D.Create(d, name, Partial);
            && D.Valid(e)
            && (forall k :: 0 <= k <= |d.log| ==> FilesAt(e, k) == FilesAt(d, k))
            && FilesNow(e) == FilesNow(d)[name := Partial]
            && D.Current(e) == D.Current(d)[name := |d.content|]
  {
    D.ImagesAfterCreate(d, name, Partial);
  }

  lemma FilesAfterIssue(d: SlotDisk, op: D.Op<Name>)
    requires D.Valid(d) && !op.Link?
    ensures var e := D.Issue(d, op);
            && D.Valid(e)
            && (forall k :: 0 <= k <= |d.log| ==> FilesAt(e, k) == FilesAt(d, k))
            && FilesNow(e) == After(FilesNow(d), op)
            && D.Current(e) == D.Apply(D.Current(d), op)
  {
    D.ImagesAfterIssue(d, op);
    var e := D.Issue(d, op);
    assert forall k :: 0 <= k <= |d.log| ==> D.Image(e, k) == D.Image(d, k);
    assert D.Valid(e);
  }

  lemma FilesAfterWrite(d: SlotDisk, inode: nat, f: File)
    requires D.Valid(d) && inode < |d.content|
    ensures var e := D.Write(d, inode, f);
            && D.Valid(e)
            && (forall k :: 0 <= k <= |d.log| ==>
                  && D.Image(e, k) == D.Image(d, k)
                  && FilesAt(e, k).Keys == FilesAt(d, k).Keys
                  && forall n :: n in FilesAt(d, k) ==>
                       FilesAt(e, k)[n] == (if D.Image(d, k)[n] == inode then f else FilesAt(d, k)[n]))
  {
    D.ImagesAfterWrite(d, inode, f);
  }

  lemma FilesAfterFlush(d: SlotDisk)
    requires D.Valid(d)
    ensures var e := D.Flush(d);
            D.Valid(e) && FilesAt(e, 0) == FilesNow(d) && FilesNow(e) == FilesNow(d)
            && D.Image(e, 0) == D.Current(d) && D.Current(e) == D.Current(d)
  {
    D.ImagesAfterFlush(d);
  }

  ghost predicate Grows(p: map<Name, set<Journal>>, q: map<Name, set<Journal>>) {
    forall n :: n in p ==> n in q && p[n] <= q[n]
  }

  lemma ImageOkGrows(f: Dir, p: map<Name, set<Journal>>, a: map<Name, seq<Journal>>,
                     q: map<Name, set<Journal>>, b: map<Name, seq<Journal>>)
    requires ImageOk(f, p, a) && Grows(p, q) && b.Keys <= a.Keys
    ensures ImageOk(f, q, b)
  {
    hide Step;
    forall t, n | Paired(f, t, n) ensures Owned(f, q, t, n) {
      assert Owned(f, p, t, n);
    }
  }

  // ---------------------------------------------------------------- images under the operations

  lemma ImageWithHalf(f: Dir, p: map<Name, set<Journal>>, a: map<Name, seq<Journal>>, n: Name)
    requires ImageOk(f, p, a) && n.Canonical? && n !in f && n in p
    ensures ImageOk(f[n := Partial], p, a)
  {
    hide Step;
    var g: Dir := f[n := Partial];
    forall t, m | Paired(g, t, m) ensures Owned(g, p, t, m) {
      assert Paired(f, t, m);
    }
  }

  lemma ImageWithTemporary(f: Dir, p: map<Name, set<Journal>>, a: map<Name, seq<Journal>>, n: Name)
    requires ImageOk(f, p, a) && n.Canonical? && n in f && f[n].Complete? && TempOf(f[n].journal) !in f
    ensures ImageOk(f[TempOf(f[n].journal) := Partial], p, a)
  {
    hide Step;
    var g: Dir := f[TempOf(f[n].journal) := Partial];
    forall t, m | Paired(g, t, m) ensures Owned(g, p, t, m) {
      if t in f {
        assert Paired(f, t, m);
      }
    }
  }

  lemma ImageWithoutTemporary(f: Dir, p: map<Name, set<Journal>>, a: map<Name, seq<Journal>>, u: Name)
    requires ImageOk(f, p, a) && u.Temporary?
    ensures ImageOk(f - {u}, p, a)
  {
    hide Step;
    var g: Dir := f - {u};
    forall t, m | Paired(g, t, m) ensures Owned(g, p, t, m) {
      assert Paired(f, t, m);
    }
  }

  lemma ImageWithoutJournal(f: Dir, p: map<Name, set<Journal>>, a: map<Name, seq<Journal>>, n: Name)
    requires ImageOk(f, p, a) && n.Canonical?
    ensures ImageOk(f - {n}, p, a - {n})
  {
    hide Step;
    var g: Dir := f - {n};
    forall t, m | Paired(g, t, m) ensures Owned(g, p, t, m) {
      assert Paired(f, t, m);
    }
  }

  /** A promotion: the temporary takes the place of the journal it continues. */
  lemma ImagePromoted(f: Dir, p: map<Name, set<Journal>>, a: map<Name, seq<Journal>>, u: Name, n: Name)
    requires ImageOk(f, p, a) && u.Temporary? && Owned(f, p, u, n) && f[u].Complete?
    requires TempOf(f[u].journal) == u
    ensures ImageOk((f - {u})[n := f[u]], p, a)
  {
    hide Step;
    var g: Dir := (f - {u})[n := f[u]];
    forall t, m | Paired(g, t, m) ensures Owned(g, p, t, m) {
      assert Paired(f, t, m);
    }
  }

  /** The content of a temporary arrives. */
  lemma ImageFilled(f: Dir, p: map<Name, set<Journal>>, a: map<Name, seq<Journal>>, u: Name, n: Name, j: Journal)
    requires PossibleOk(p) && ImageOk(f, p, a) && u.Temporary? && Owned(f, p, u, n)
    requires Step(f[n].journal, j) && j in p[n]
    ensures ImageOk(f[u := Complete(j)], p, a)
  {
    hide Step, Good;
    var g: Dir := f[u := Complete(j)];
    forall t, m | Paired(g, t, m) ensures Owned(g, p, t, m) {
      assert Paired(f, t, m);
      if t == u {
        assert f[m].journal in p[m] && f[n].journal in p[n] && TempOf(f[m].journal) == TempOf(f[n].journal);
      }
    }
  }

  /** The content of a new journal arrives. */
  lemma ImageOpened(f: Dir, p: map<Name, set<Journal>>, a: map<Name, seq<Journal>>, n: Name, j: Journal)
    requires ImageOk(f, p, a) && n.Canonical? && n in f && f[n].Partial?
    requires j in p[n] && TempOf(j) !in f
    ensures ImageOk(f[n := Complete(j)], p, a)
  {
    hide Step;
    var g: Dir := f[n := Complete(j)];
    forall t, m | Paired(g, t, m) ensures Owned(g, p, t, m) {
      assert Paired(f, t, m);
    }
  }

  // ---------------------------------------------------------------- what an action leaves alone

  ghost predicate SameAt(s: System, r: System, x: Name)
    requires D.Valid(s.disk) && D.Valid(r.disk)
  {
    && (x in D.Current(s.disk) <==> x in D.Current(r.disk))
    && (x in D.Current(s.disk) ==>
          && D.Current(r.disk)[x] == D.Current(s.disk)[x]
          && FilesNow(r.disk)[x] == FilesNow(s.disk)[x])
  }

  /** The handle has synced the file it writes. */
  predicate Synced(p: Phase) {
    (p.Opening? && p.synced) || (p.Writing? && (p.progress == Filled || p.progress == Renamed))
  }

  /** A step elsewhere alters neither the journal nor the temporary of this slot. */
  lemma HandleUnaffected(s: System, r: System, m: Name, h: Handle)
    requires D.Valid(s.disk) && D.Valid(r.disk) && HandleOk(s, m, h)
    requires SameAt(s, r, m) && SameAt(s, r, TempOf(h.journal))
    requires m in r.possible && r.possible[m] == s.possible[m]
    requires m in r.acks ==> m in s.acks
    requires Synced(h.phase) && h.phase.inode !in s.disk.unsynced ==> h.phase.inode !in r.disk.unsynced
    ensures HandleOk(r, m, h)
  {
    hide Step;
  }

  /** `r` has the images of `s` and one more. */
  ghost predicate OneMore(s: System, r: System)
    requires D.Valid(s.disk) && D.Valid(r.disk)
  {
    && |r.disk.log| == |s.disk.log| + 1
    && |r.disk.content| >= |s.disk.content|
    && r.disk.content[..|s.disk.content|] == s.disk.content
    && r.disk.unsynced == s.disk.unsynced
    && forall k :: 0 <= k <= |s.disk.log| ==>
         D.Image(r.disk, k) == D.Image(s.disk, k) && FilesAt(r.disk, k) == FilesAt(s.disk, k)
  }

  lemma BlankUnaffected(s: System, r: System, m: Name, h: Handle)
    requires D.Valid(s.disk) && D.Valid(r.disk) && BlankOk(s, m, h)
    requires OneMore(s, r) && SameAt(s, r, m)
    requires (h.phase.Opening? || h.phase.Writing?) ==>
               forall x :: x in D.Current(r.disk) && D.Current(r.disk)[x] == h.phase.inode ==>
                 x in D.Current(s.disk) && D.Current(s.disk)[x] == h.phase.inode
    requires h.phase.Opening? ==> TempOf(h.journal) !in D.Current(r.disk)
    ensures BlankOk(r, m, h)
  {
    hide Step;
  }

  /** Slot `n` issued one directory operation that names only `touched`; the other slots see no change. */
  ghost predicate TouchesOnly(s: System, r: System, n: Name, touched: set<Name>)
    requires D.Valid(s.disk) && D.Valid(r.disk)
  {
    && OneMore(s, r)
    && (forall x :: x !in touched ==> SameAt(s, r, x))
    && (forall x :: x in touched && x in D.Current(r.disk) ==>
          || D.Current(r.disk)[x] >= |s.disk.content|
          || exists y :: y in touched && y in D.Current(s.disk) && D.Current(s.disk)[y] == D.Current(r.disk)[x])
    && (forall m :: m in s.possible && m != n ==> m in r.possible && r.possible[m] == s.possible[m])
    && (forall m :: m in r.acks && m != n ==> m in s.acks)
  }

  /** An action that touches no file of slot `m` leaves its handle in order. */
  lemma OthersUnaffected(s: System, r: System, n: Name, touched: set<Name>, m: Name)
    requires Inv(s) && D.Valid(r.disk) && TouchesOnly(s, r, n, touched)
    requires m in s.handles && m != n
    requires m !in touched && TempOf(s.handles[m].journal) !in touched
    ensures HandleOk(r, m, s.handles[m]) && BlankOk(r, m, s.handles[m])
  {
    hide Step, PossibleOk, AcksOk, ImageOk, HalvesOk, Good;
    var h := s.handles[m];
    assert HandleOk(s, m, h) && BlankOk(s, m, h);
    HandleUnaffected(s, r, m, h);
    if (h.phase.Opening? && !h.phase.filled) || (h.phase.Writing? && h.phase.progress == Created) {
      forall x | x in D.Current(r.disk) && D.Current(r.disk)[x] == h.phase.inode
        ensures x in D.Current(s.disk) && D.Current(s.disk)[x] == h.phase.inode
      {
        if x !in touched {
          assert SameAt(s, r, x);
        }
      }
      BlankUnaffected(s, r, m, h);
    }
  }

  /** The invariant after one more directory operation, from what is new about it. */
  lemma OneMoreKeeps(s: System, r: System)
    requires Inv(s) && D.Valid(r.disk) && OneMore(s, r) && r.running == s.running
    requires PossibleOk(r.possible) && AcksOk(r.possible, r.acks)
    requires Grows(s.possible, r.possible) && r.acks.Keys <= s.acks.Keys
    requires ImageOk(FilesNow(r.disk), r.possible, r.acks)
    requires forall x :: x in FilesNow(s.disk) && x.Canonical? && FilesNow(s.disk)[x].Partial? ==>
               && SameAt(s, r, x)
               && (s.running ==> x in s.handles && x in r.handles && r.handles[x].phase == s.handles[x].phase)
    requires forall x :: x in FilesNow(r.disk) && x.Canonical? && FilesNow(r.disk)[x].Partial? && s.running ==>
               x in r.handles && r.handles[x].phase == Opening(D.Current(r.disk)[x], false, false)
    requires !s.running ==> r.handles == map[]
    requires forall m :: m in r.handles ==> m.Canonical? && HandleOk(r, m, r.handles[m]) && BlankOk(r, m, r.handles[m])
    requires s.running ==> forall m :: m in D.Current(r.disk) && m.Canonical? ==> m in r.handles
    ensures Inv(r)
  {
    hide Step, PossibleOk, AcksOk, ImageOk, Good, HandleOk, BlankOk, HalvesOk;
    forall k | 0 <= k <= |r.disk.log| ensures ImageOk(FilesAt(r.disk, k), r.possible, r.acks) {
      if k <= |s.disk.log| {
        ImageOkGrows(FilesAt(s.disk, k), s.possible, s.acks, r.possible, r.acks);
      }
    }
    OneMoreHalves(s, r);
  }

  lemma OneMoreHalves(s: System, r: System)
    requires D.Valid(s.disk) && HalvesOk(s) && D.Valid(r.disk) && OneMore(s, r) && r.running == s.running
    requires forall x :: x in FilesNow(s.disk) && x.Canonical? && FilesNow(s.disk)[x].Partial? ==>
               && SameAt(s, r, x)
               && (s.running ==> x in s.handles && x in r.handles && r.handles[x].phase == s.handles[x].phase)
    requires forall x :: x in FilesNow(r.disk) && x.Canonical? && FilesNow(r.disk)[x].Partial? && s.running ==>
               x in r.handles && r.handles[x].phase == Opening(D.Current(r.disk)[x], false, false)
    ensures HalvesOk(r)
  {
    hide D.Replay;
    forall k, n | 0 <= k <= |r.disk.log| && n in FilesAt(r.disk, k) && n.Canonical? && FilesAt(r.disk, k)[n].Partial?
      ensures n in D.Current(r.disk) && D.Current(r.disk)[n] == D.Image(r.disk, k)[n]
      ensures r.running ==> n in r.handles && r.handles[n].phase == Opening(D.Image(r.disk, k)[n], false, false)
    {
      if k <= |s.disk.log| {
        HalfStays(s, k, n);
        assert D.Image(r.disk, k) == D.Image(s.disk, k);
        assert SameAt(s, r, n);
      }
    }
  }

  lemma HalfStays(s: System, k: nat, n: Name)
    requires D.Valid(s.disk) && HalvesOk(s) && k <= |s.disk.log|
    requires n in FilesAt(s.disk, k) && n.Canonical? && FilesAt(s.disk, k)[n].Partial?
    ensures n in D.Current(s.disk) && D.Current(s.disk)[n] == D.Image(s.disk, k)[n]
    ensures n in FilesNow(s.disk) && FilesNow(s.disk)[n].Partial?
    ensures s.running ==> n in s.handles && s.handles[n].phase == Opening(D.Image(s.disk, k)[n], false, false)
  {
  }

  // ---------------------------------------------------------------- every action keeps the invariant

  lemma PossibleAdd(p: map<Name, set<Journal>>, n: Name, j: Journal)
    requires PossibleOk(p) && Good(j, n)
    requires forall m, i :: m in p && i in p[m] && TempOf(i) == TempOf(j) ==> m == n
    ensures PossibleOk(p[n := (if n in p then p[n] else {}) + {j}])
  {
    hide Loadable, Cumulative;
  }

  /** Creating a journal succeeds only when no live handle holds the slot. */
  lemma BeginIsExclusive(s: System, intent: Journal)
    requires Inv(s) && MayBeginCreate(s, intent)
    ensures NameOf(intent) in s.handles ==> s.handles[NameOf(intent)].phase.Closing?
    ensures NameOf(intent) !in s.acks
  {
    hide Step, PossibleOk, AcksOk, HalvesOk, BlankOk, Loadable, Good;
    var n := NameOf(intent);
    assert n !in D.Current(s.disk);
    assert ImageOk(FilesNow(s.disk), s.possible, s.acks);
    if n in s.handles {
      assert HandleOk(s, n, s.handles[n]);
    }
  }

  lemma TemporariesDistinct(s: System, n: Name, m: Name)
    requires Inv(s) && n in s.handles && m in s.handles && n != m
    ensures TempOf(s.handles[n].journal) != TempOf(s.handles[m].journal)
  {
    hide Step, AcksOk, ImageOk, HalvesOk, BlankOk, Good;
    assert HandleOk(s, n, s.handles[n]) && HandleOk(s, m, s.handles[m]);
  }

  lemma BeginCreateShape(s: System, intent: Journal)
    requires Inv(s) && MayBeginCreate(s, intent)
    ensures var r := BeginCreated(s, intent);
            && D.Valid(r.disk) && TouchesOnly(s, r, NameOf(intent), {NameOf(intent)})
            && FilesNow(r.disk) == FilesNow(s.disk)[NameOf(intent) := Partial]
  {
    hide Loadable, Step, Good, ImageOk, PossibleOk, HandleOk, BlankOk, AcksOk, HalvesOk;
    FilesAfterCreate(s.disk, NameOf(intent));
    D.ImagesAfterCreate(s.disk, NameOf(intent), Partial);
  }

  lemma BeginCreateBooks(s: System, intent: Journal)
    requires Inv(s) && MayBeginCreate(s, intent)
    ensures var r := BeginCreated(s, intent);
            && PossibleOk(r.possible) && Grows(s.possible, r.possible)
            && AcksOk(r.possible, r.acks) && NameOf(intent) !in s.acks
  {
    hide Loadable, Cumulative, Step, Extends, Life, ImageOk, HandleOk, BlankOk, HalvesOk;
    BeginIsExclusive(s, intent);
    IntentIsCumulative(intent);
    PossibleAdd(s.possible, NameOf(intent), intent);
  }

  lemma BeginCreateImage(s: System, intent: Journal)
    requires Inv(s) && MayBeginCreate(s, intent)
    ensures var r := BeginCreated(s, intent);
            && D.Valid(r.disk) && PossibleOk(r.possible) && Grows(s.possible, r.possible)
            && AcksOk(r.possible, r.acks)
            && ImageOk(FilesNow(r.disk), r.possible, r.acks)
            && TempOf(intent) !in FilesNow(s.disk)
  {
    hide Loadable, Step, PossibleOk, AcksOk, HandleOk, BlankOk, HalvesOk, TouchesOnly;
    var r := BeginCreated(s, intent);
    var n := NameOf(intent);
    var f := FilesNow(s.disk);
    BeginCreateShape(s, intent);
    BeginCreateBooks(s, intent);
    assert ImageOk(f, s.possible, s.acks);
    ImageOkGrows(f, s.possible, s.acks, r.possible, r.acks);
    ImageWithHalf(f, r.possible, r.acks, n);
  }

  lemma BeginCreateOwn(s: System, intent: Journal)
    requires Inv(s) && MayBeginCreate(s, intent)
    ensures var r := BeginCreated(s, intent);
            var n := NameOf(intent);
            D.Valid(r.disk) && HandleOk(r, n, r.handles[n]) && BlankOk(r, n, r.handles[n])
  {
    hide Loadable, Step, Good, ImageOk, PossibleOk, AcksOk, HalvesOk;
    BeginIsExclusive(s, intent);
    BeginCreateImage(s, intent);
    FilesAfterCreate(s.disk, NameOf(intent));
    D.ImagesAfterCreate(s.disk, NameOf(intent), Partial);
  }

  lemma BeginCreateKeeps(s: System, intent: Journal)
    requires Inv(s) && MayBeginCreate(s, intent)
    ensures Inv(BeginCreated(s, intent))
  {
    hide Loadable, Step, Good, ImageOk, PossibleOk, AcksOk, HandleOk, BlankOk;
    var r := BeginCreated(s, intent);
    var n := NameOf(intent);
    BeginIsExclusive(s, intent);
    BeginCreateShape(s, intent);
    BeginCreateImage(s, intent);
    BeginCreateOwn(s, intent);
    forall m | m in s.handles && m != n ensures HandleOk(r, m, r.handles[m]) && BlankOk(r, m, r.handles[m]) {
      OthersUnaffected(s, r, n, {n}, m);
    }
    OneMoreKeeps(s, r);
  }

  /** One directory operation of a slot whose journal is written keeps the invariant, from what it did to that slot. */
  lemma SlotStepKeeps(s: System, r: System, n: Name, touched: set<Name>)
    requires Inv(s) && D.Valid(r.disk) && s.running && r.running
    requires n in s.handles && n in r.handles && r.handles == s.handles[n := r.handles[n]]
    requires TouchesOnly(s, r, n, touched) && touched <= {n, TempOf(s.handles[n].journal)}
    requires PossibleOk(r.possible) && AcksOk(r.possible, r.acks)
    requires Grows(s.possible, r.possible) && r.acks.Keys <= s.acks.Keys
    requires ImageOk(FilesNow(r.disk), r.possible, r.acks)
    requires HandleOk(r, n, r.handles[n]) && BlankOk(r, n, r.handles[n])
    requires n in FilesNow(s.disk) && FilesNow(s.disk)[n].Complete?
    requires n in FilesNow(r.disk) ==> FilesNow(r.disk)[n].Complete?
    ensures Inv(r)
  {
    hide Step, Good, ImageOk, PossibleOk, AcksOk, HandleOk, BlankOk;
    assert n.Canonical?;
    forall m | m in s.handles && m != n ensures HandleOk(r, m, r.handles[m]) && BlankOk(r, m, r.handles[m]) {
      TemporariesDistinct(s, n, m);
      OthersUnaffected(s, r, n, touched, m);
    }
    forall x | x in D.Current(r.disk) && x.Canonical? ensures x in r.handles {
      if x != n { assert SameAt(s, r, x); }
    }
    forall x | x in FilesNow(r.disk) && x.Canonical? && FilesNow(r.disk)[x].Partial?
      ensures x in r.handles && r.handles[x].phase == Opening(D.Current(r.disk)[x], false, false)
    {
      assert SameAt(s, r, x);
    }
    OneMoreKeeps(s, r);
  }

  lemma PossibleGood(s: System, n: Name)
    requires Inv(s) && n in s.handles
    ensures Good(s.handles[n].journal, n)
  {
    hide Step, Loadable, Cumulative, ImageOk, AcksOk, BlankOk, HalvesOk;
    assert HandleOk(s, n, s.handles[n]);
  }

  // ----- record: create the temporary

  lemma AcksAdd(p: map<Name, set<Journal>>, acks: map<Name, seq<Journal>>, n: Name, j: Journal, next: Journal)
    requires AcksOk(p, acks) && n in p && j in p[n] && Cumulative(j.content) && Step(j, next)
    ensures AcksOk(p[n := p[n] + {next}], acks)
  {
    hide Loadable, Cumulative, Step, Extends, Life;
    StepKeepsCumulative(j, next);
    if n in acks {
      forall i | 0 <= i < |acks[n]| ensures Extends(acks[n][i], next) {
        ExtendsTransitive(acks[n][i], j, next);
      }
    }
  }

  lemma RecordIsGood(j: Journal, n: Name, input: Input, next: Journal)
    requires Good(j, n) && Records(j, input, next)
    ensures Step(j, next) && Good(next, n) && TempOf(next) == TempOf(j)
  {
    hide Loadable, Cumulative, Records, Step;
    RecordIsStep(j, input, next);
    StepKeepsCumulative(j, next);
    StepKeepsBinding(j, next);
  }

  lemma RecordCreateBooks(s: System, n: Name, input: Input, next: Journal)
    requires Inv(s) && MayRecordCreate(s, n, input, next)
    ensures var r := RecordCreated(s, n, next);
            && PossibleOk(r.possible) && Grows(s.possible, r.possible) && AcksOk(r.possible, r.acks)
            && Step(s.handles[n].journal, next)
  {
    hide Loadable, Cumulative, Records, Step, AcksOk, ImageOk, BlankOk, HalvesOk, HandleOk;
    var j := s.handles[n].journal;
    PossibleGood(s, n);
    RecordIsGood(j, n, input, next);
    HandleIsKnown(s, n, s.handles[n]);
    PossibleAdd(s.possible, n, next);
    AcksAdd(s.possible, s.acks, n, j, next);
  }

  lemma StepKeepsBinding(a: Journal, b: Journal)
    requires Step(a, b)
    ensures Loadable(b) && NameOf(b) == NameOf(a) && TempOf(b) == TempOf(a)
  {
    hide Loadable, IsDirectSuccessor;
  }

  lemma RecordCreateKeeps(s: System, n: Name, input: Input, next: Journal)
    requires Inv(s) && MayRecordCreate(s, n, input, next)
    ensures Inv(RecordCreated(s, n, next))
  {
    hide Loadable, Cumulative, Records, Step, Good, PossibleOk, AcksOk, HalvesOk;
    var r := RecordCreated(s, n, next);
    var t := TempOf(s.handles[n].journal);
    var f := FilesNow(s.disk);
    RecordCreateBooks(s, n, input, next);
    FilesAfterCreate(s.disk, t);
    assert HandleOk(s, n, s.handles[n]);
    assert ImageOk(FilesNow(r.disk), r.possible, r.acks) by {
      hide BlankOk, HandleOk;
      ImageOkGrows(f, s.possible, s.acks, r.possible, r.acks);
      ImageWithTemporary(f, r.possible, r.acks, n);
    }
    RecordCreateShape(s, n, next);
    SlotStepKeeps(s, r, n, {t}) by { hide ImageOk, HandleOk, BlankOk; }
  }

  lemma RecordCreateShape(s: System, n: Name, next: Journal)
    requires Inv(s) && Rests(s, n) && TempOf(s.handles[n].journal) !in D.Current(s.disk)
    requires Step(s.handles[n].journal, next)
    ensures var r := RecordCreated(s, n, next);
            && D.Valid(r.disk) && TouchesOnly(s, r, n, {TempOf(s.handles[n].journal)})
            && HandleOk(r, n, r.handles[n]) && BlankOk(r, n, r.handles[n])
  {
    hide Step, Good, ImageOk, PossibleOk, AcksOk, HalvesOk, BlankOk, HandleOk;
    var t := TempOf(s.handles[n].journal);
    FilesAfterCreate(s.disk, t);
    D.ImagesAfterCreate(s.disk, t, Partial);
    RecordCreateOwn(s, n, next);
  }

  lemma RecordCreateOwn(s: System, n: Name, next: Journal)
    requires D.Valid(s.disk) && Rests(s, n) && HandleOk(s, n, s.handles[n])
    requires TempOf(s.handles[n].journal) !in D.Current(s.disk)
    requires n.Canonical? && Step(s.handles[n].journal, next)
    ensures var r := RecordCreated(s, n, next);
            D.Valid(r.disk) && HandleOk(r, n, r.handles[n]) && BlankOk(r, n, r.handles[n])
  {
    hide Step;
    var t := TempOf(s.handles[n].journal);
    FilesAfterCreate(s.disk, t);
    D.ImagesAfterCreate(s.disk, t, Partial);
  }

  // ----- record: rename the temporary, or give up

  lemma RecordRenameOwn(s: System, n: Name)
    requires D.Valid(s.disk) && Writes(s, n, Filled) && HandleOk(s, n, s.handles[n]) && n.Canonical?
    ensures var r := RecordRenamed(s, n);
            && D.Valid(r.disk) && HandleOk(r, n, r.handles[n]) && BlankOk(r, n, r.handles[n])
            && n in FilesNow(r.disk) && FilesNow(r.disk)[n].Complete?
  {
    hide Step;
    FilesAfterIssue(s.disk, D.Move(TempOf(s.handles[n].journal), n));
  }

  lemma RecordRenameShape(s: System, n: Name)
    requires D.Valid(s.disk) && Writes(s, n, Filled) && HandleOk(s, n, s.handles[n]) && n.Canonical?
    ensures var r := RecordRenamed(s, n);
            D.Valid(r.disk) && TouchesOnly(s, r, n, {n, TempOf(s.handles[n].journal)})
  {
    hide Step;
    var t := TempOf(s.handles[n].journal);
    FilesAfterIssue(s.disk, D.Move(t, n));
    D.ImagesAfterIssue(s.disk, D.Move(t, n));
    assert t in D.Current(s.disk);
  }

  lemma RecordRenameKeeps(s: System, n: Name)
    requires Inv(s) && Writes(s, n, Filled)
    ensures Inv(RecordRenamed(s, n))
  {
    hide Step, Good, PossibleOk, AcksOk, HalvesOk, BlankOk;
    var r := RecordRenamed(s, n);
    var h := s.handles[n];
    var t := TempOf(h.journal);
    var f := FilesNow(s.disk);
    assert HandleOk(s, n, h);
    RecordRenameOwn(s, n);
    RecordRenameShape(s, n);
    assert ImageOk(FilesNow(r.disk), r.possible, r.acks) by {
      FilesAfterIssue(s.disk, D.Move(t, n));
      assert ImageOk(f, s.possible, s.acks);
      StepKeepsBinding(h.journal, h.phase.next);
      ImagePromoted(f, s.possible, s.acks, t, n);
    }
    SlotStepKeeps(s, r, n, {n, t}) by { hide ImageOk; }
  }

  lemma RenameFailKeeps(s: System, n: Name)
    requires Inv(s) && Writes(s, n, Filled)
    ensures Inv(RenameFailed(s, n))
  {
    hide Step, Good, PossibleOk, AcksOk, HalvesOk, BlankOk, HandleOk;
    var r := RenameFailed(s, n);
    var t := TempOf(s.handles[n].journal);
    RenameFailOwn(s, n);
    assert ImageOk(FilesNow(r.disk), r.possible, r.acks) by {
      FilesAfterIssue(s.disk, D.Unlink(t));
      ImageWithoutTemporary(FilesNow(s.disk), s.possible, s.acks, t);
    }
    SlotStepKeeps(s, r, n, {t}) by { hide ImageOk; }
  }

  lemma RenameFailOwn(s: System, n: Name)
    requires D.Valid(s.disk) && Writes(s, n, Filled) && HandleOk(s, n, s.handles[n]) && n.Canonical?
    ensures var r := RenameFailed(s, n);
            && D.Valid(r.disk) && HandleOk(r, n, r.handles[n]) && BlankOk(r, n, r.handles[n])
            && n in FilesNow(s.disk) && FilesNow(s.disk)[n].Complete?
            && TouchesOnly(s, r, n, {TempOf(s.handles[n].journal)})
  {
    hide Step;
    var t := TempOf(s.handles[n].journal);
    FilesAfterIssue(s.disk, D.Unlink(t));
    D.ImagesAfterIssue(s.disk, D.Unlink(t));
  }

  // ----- finalize: remove the journal

  lemma FinalizeRemoveKeeps(s: System, n: Name)
    requires Inv(s) && MayFinalize(s, n)
    ensures Inv(FinalizeRemoved(s, n))
  {
    hide Step, Good, PossibleOk, HalvesOk, BlankOk, HandleOk, Life, Extends;
    var r := FinalizeRemoved(s, n);
    FinalizeRemoveOwn(s, n);
    assert ImageOk(FilesNow(r.disk), r.possible, r.acks) by {
      FilesAfterIssue(s.disk, D.Unlink(n));
      ImageWithoutJournal(FilesNow(s.disk), s.possible, s.acks, n);
    }
    assert AcksOk(r.possible, r.acks) by { hide ImageOk; }
    SlotStepKeeps(s, r, n, {n}) by { hide ImageOk, AcksOk; }
  }

  lemma FinalizeRemoveOwn(s: System, n: Name)
    requires D.Valid(s.disk) && MayFinalize(s, n) && HandleOk(s, n, s.handles[n]) && n.Canonical?
    ensures var r := FinalizeRemoved(s, n);
            && D.Valid(r.disk) && HandleOk(r, n, r.handles[n]) && BlankOk(r, n, r.handles[n])
            && n in FilesNow(s.disk) && FilesNow(s.disk)[n].Complete?
            && n !in FilesNow(r.disk)
            && TouchesOnly(s, r, n, {n})
  {
    hide Step;
    FilesAfterIssue(s.disk, D.Unlink(n));
    D.ImagesAfterIssue(s.disk, D.Unlink(n));
  }

  // ----- content arrives

  /** In every image the inode is known only under `name`. */
  ghost predicate OnlyName(d: SlotDisk, inode: nat, name: Name)
    requires D.Valid(d)
  {
    && inode < |d.content| && d.content[inode] == Partial
    && name in D.Current(d) && D.Current(d)[name] == inode
    && forall k, x | 0 <= k <= |d.log| && x in D.Image(d, k) :: D.Image(d, k)[x] == inode ==> x == name
  }

  lemma FillOthers(s: System, r: System, inode: nat, name: Name, f: File, m: Name, h: Handle)
    requires D.Valid(s.disk) && OnlyName(s.disk, inode, name) && r.disk == D.Write(s.disk, inode, f)
    requires r.possible == s.possible && r.acks == s.acks
    requires HandleOk(s, m, h) && BlankOk(s, m, h) && m != name && TempOf(h.journal) != name
    ensures D.Valid(r.disk) && HandleOk(r, m, h) && BlankOk(r, m, h)
  {
    hide Step;
    FilesAfterWrite(s.disk, inode, f);
    assert SameAt(s, r, m) && SameAt(s, r, TempOf(h.journal));
    if Synced(h.phase) {
      assert h.phase.inode != inode by {
        var at := if h.phase.Writing? && h.phase.progress == Filled then TempOf(h.journal) else m;
        assert h.phase.inode == D.Current(s.disk)[at];
      }
    }
    HandleUnaffected(s, r, m, h);
    FillOthersBlank(s, r, inode, name, f, m, h);
  }

  lemma FillOthersBlank(s: System, r: System, inode: nat, name: Name, f: File, m: Name, h: Handle)
    requires D.Valid(s.disk) && OnlyName(s.disk, inode, name) && r.disk == D.Write(s.disk, inode, f)
    requires HandleOk(s, m, h) && BlankOk(s, m, h) && m != name && TempOf(h.journal) != name
    ensures D.Valid(r.disk) && BlankOk(r, m, h)
  {
    hide Step;
    FilesAfterWrite(s.disk, inode, f);
    if h.phase.Opening? && !h.phase.filled {
      assert D.Current(s.disk)[m] == h.phase.inode;
    } else if h.phase.Writing? && h.phase.progress == Created {
      assert D.Current(s.disk)[TempOf(h.journal)] == h.phase.inode;
      forall k, x | 0 <= k <= |r.disk.log| && x in D.Image(r.disk, k) && D.Image(r.disk, k)[x] == h.phase.inode
        ensures x == TempOf(h.journal) && m in D.Image(r.disk, k) && FilesAt(r.disk, k)[m] == Complete(h.journal)
      {
        assert m in D.Image(s.disk, k) && FilesAt(s.disk, k)[m] == Complete(h.journal);
      }
    }
  }

  lemma RecordWriteImages(s: System, n: Name, k: nat)
    requires Inv(s) && MayRecordWrite(s, n) && k <= |s.disk.log|
    ensures var r := RecordWritten(s, n);
            && D.Valid(r.disk) && ImageOk(FilesAt(r.disk, k), r.possible, r.acks)
            && OnlyName(s.disk, s.handles[n].phase.inode, TempOf(s.handles[n].journal))
            && (forall x :: x in FilesAt(s.disk, k) && x.Canonical? ==>
                  x in FilesAt(r.disk, k) && FilesAt(r.disk, k)[x] == FilesAt(s.disk, k)[x])
            && FilesAt(r.disk, k).Keys == FilesAt(s.disk, k).Keys
  {
    hide Step, Good, PossibleOk, AcksOk, HalvesOk, ImageOk, HandleOk, BlankOk;
    assert HandleOk(s, n, s.handles[n]) && BlankOk(s, n, s.handles[n]);
    assert ImageOk(FilesAt(s.disk, k), s.possible, s.acks);
    RecordWriteImage(s, n, k);
  }

  lemma RecordWriteImage(s: System, n: Name, k: nat)
    requires D.Valid(s.disk) && MayRecordWrite(s, n) && k <= |s.disk.log| && n.Canonical?
    requires HandleOk(s, n, s.handles[n]) && BlankOk(s, n, s.handles[n]) && PossibleOk(s.possible)
    requires ImageOk(FilesAt(s.disk, k), s.possible, s.acks)
    ensures var r := RecordWritten(s, n);
            && D.Valid(r.disk) && ImageOk(FilesAt(r.disk, k), r.possible, r.acks)
            && OnlyName(s.disk, s.handles[n].phase.inode, TempOf(s.handles[n].journal))
            && (forall x :: x in FilesAt(s.disk, k) && x.Canonical? ==>
                  x in FilesAt(r.disk, k) && FilesAt(r.disk, k)[x] == FilesAt(s.disk, k)[x])
            && FilesAt(r.disk, k).Keys == FilesAt(s.disk, k).Keys
  {
    hide Step, PossibleOk;
    var h := s.handles[n];
    var t := TempOf(h.journal);
    assert OnlyName(s.disk, h.phase.inode, t);
    WriteOneName(s.disk, h.phase.inode, Complete(h.phase.next), t, k);
    var f := FilesAt(s.disk, k);
    if t in f && D.Image(s.disk, k)[t] == h.phase.inode {
      assert Owned(f, s.possible, t, n);
      ImageFilled(f, s.possible, s.acks, t, n, h.phase.next);
    }
  }

  lemma RecordWriteOwn(s: System, n: Name)
    requires D.Valid(s.disk) && MayRecordWrite(s, n) && HandleOk(s, n, s.handles[n]) && n.Canonical?
    requires OnlyName(s.disk, s.handles[n].phase.inode, TempOf(s.handles[n].journal))
    ensures var r := RecordWritten(s, n);
            D.Valid(r.disk) && HandleOk(r, n, r.handles[n]) && BlankOk(r, n, r.handles[n])
  {
    hide Step;
    FilesAfterWrite(s.disk, s.handles[n].phase.inode, Complete(s.handles[n].phase.next));
  }

  lemma RecordWriteKeeps(s: System, n: Name)
    requires Inv(s) && MayRecordWrite(s, n)
    ensures Inv(RecordWritten(s, n))
  {
    hide Step, Good, ImageOk, PossibleOk, AcksOk, HandleOk, BlankOk, OnlyName, HalvesOk;
    var r := RecordWritten(s, n);
    var h := s.handles[n];
    RecordWriteImages(s, n, 0);
    RecordWriteOwn(s, n);
    D.ImagesAfterWrite(s.disk, h.phase.inode, Complete(h.phase.next));
    forall k | 0 <= k <= |r.disk.log| ensures ImageOk(FilesAt(r.disk, k), r.possible, r.acks) {
      RecordWriteImages(s, n, k);
    }
    forall m | m in s.handles && m != n ensures HandleOk(r, m, r.handles[m]) && BlankOk(r, m, r.handles[m]) {
      TemporariesDistinct(s, n, m);
      FillOthers(s, r, h.phase.inode, TempOf(h.journal), Complete(h.phase.next), m, s.handles[m]);
    }
    RecordWriteHalves(s, n);
  }

  lemma RecordWriteHalves(s: System, n: Name)
    requires Inv(s) && MayRecordWrite(s, n)
    ensures D.Valid(RecordWritten(s, n).disk) && HalvesOk(RecordWritten(s, n))
  {
    hide Step, Good, ImageOk, PossibleOk, AcksOk, HandleOk, BlankOk, OnlyName;
    var r := RecordWritten(s, n);
    D.ImagesAfterWrite(s.disk, s.handles[n].phase.inode, Complete(s.handles[n].phase.next));
    forall k, x | 0 <= k <= |r.disk.log| && x in FilesAt(r.disk, k) && x.Canonical? && FilesAt(r.disk, k)[x].Partial?
      ensures x in FilesAt(s.disk, k) && FilesAt(s.disk, k)[x].Partial?
    {
      RecordWriteImages(s, n, k);
    }
  }

  lemma BeginWriteImages(s: System, n: Name, k: nat)
    requires Inv(s) && MayBeginWrite(s, n) && k <= |s.disk.log|
    ensures var r := BeginWritten(s, n);
            && D.Valid(r.disk) && ImageOk(FilesAt(r.disk, k), r.possible, r.acks)
            && OnlyName(s.disk, s.handles[n].phase.inode, n)
            && FilesAt(r.disk, k).Keys == FilesAt(s.disk, k).Keys
            && (forall x :: x in FilesAt(s.disk, k) && x != n ==> FilesAt(r.disk, k)[x] == FilesAt(s.disk, k)[x])
            && (n in FilesAt(r.disk, k) ==> FilesAt(r.disk, k)[n].Complete?)
  {
    hide Step, Good, PossibleOk, AcksOk, ImageOk, HandleOk, BlankOk;
    assert HandleOk(s, n, s.handles[n]) && BlankOk(s, n, s.handles[n]);
    assert ImageOk(FilesAt(s.disk, k), s.possible, s.acks);
    BeginWriteImage(s, n, k);
  }

  lemma BeginWriteImage(s: System, n: Name, k: nat)
    requires D.Valid(s.disk) && MayBeginWrite(s, n) && k <= |s.disk.log| && n.Canonical?
    requires HandleOk(s, n, s.handles[n]) && BlankOk(s, n, s.handles[n]) && HalvesOk(s)
    requires ImageOk(FilesAt(s.disk, k), s.possible, s.acks)
    ensures var r := BeginWritten(s, n);
            && D.Valid(r.disk) && ImageOk(FilesAt(r.disk, k), r.possible, r.acks)
            && OnlyName(s.disk, s.handles[n].phase.inode, n)
            && FilesAt(r.disk, k).Keys == FilesAt(s.disk, k).Keys
            && (forall x :: x in FilesAt(s.disk, k) && x != n ==> FilesAt(r.disk, k)[x] == FilesAt(s.disk, k)[x])
            && (n in FilesAt(r.disk, k) ==> FilesAt(r.disk, k)[n].Complete?)
  {
    hide Step, ImageOk;
    var h := s.handles[n];
    assert OnlyName(s.disk, h.phase.inode, n);
    WriteOneName(s.disk, h.phase.inode, Complete(h.journal), n, k);
    var f := FilesAt(s.disk, k);
    if n in f && D.Image(s.disk, k)[n] == h.phase.inode {
      ImageOpened(f, s.possible, s.acks, n, h.journal);
    }
  }

  /** Writing an inode changes the one file that it is the content of. */
  lemma WriteOneName(d: SlotDisk, inode: nat, file: File, x: Name, k: nat)
    requires D.Valid(d) && inode < |d.content| && k <= |d.log| && OnlyName(d, inode, x)
    ensures D.Valid(D.Write(d, inode, file))
    ensures FilesAt(D.Write(d, inode, file), k)
            == if x in FilesAt(d, k) && D.Image(d, k)[x] == inode then FilesAt(d, k)[x := file] else FilesAt(d, k)
  {
    FilesAfterWrite(d, inode, file);
  }

  lemma BeginWriteOwn(s: System, n: Name)
    requires D.Valid(s.disk) && MayBeginWrite(s, n) && HandleOk(s, n, s.handles[n]) && n.Canonical?
    requires OnlyName(s.disk, s.handles[n].phase.inode, n)
    ensures var r := BeginWritten(s, n);
            D.Valid(r.disk) && HandleOk(r, n, r.handles[n]) && BlankOk(r, n, r.handles[n])
  {
    hide Step;
    FilesAfterWrite(s.disk, s.handles[n].phase.inode, Complete(s.handles[n].journal));
  }

  lemma BeginWriteKeeps(s: System, n: Name)
    requires Inv(s) && MayBeginWrite(s, n)
    ensures Inv(BeginWritten(s, n))
  {
    hide Step, Good, ImageOk, PossibleOk, AcksOk, HandleOk, BlankOk, OnlyName;
    var r := BeginWritten(s, n);
    var h := s.handles[n];
    BeginWriteImages(s, n, 0);
    BeginWriteOwn(s, n);
    D.ImagesAfterWrite(s.disk, h.phase.inode, Complete(h.journal));
    forall k | 0 <= k <= |r.disk.log| ensures ImageOk(FilesAt(r.disk, k), r.possible, r.acks) {
      BeginWriteImages(s, n, k);
    }
    forall m | m in s.handles && m != n ensures HandleOk(r, m, r.handles[m]) && BlankOk(r, m, r.handles[m]) {
      FillOthers(s, r, h.phase.inode, n, Complete(h.journal), m, s.handles[m]);
    }
    assert HalvesOk(r) by {
      forall k, x | 0 <= k <= |r.disk.log| && x in FilesAt(r.disk, k) && x.Canonical? && FilesAt(r.disk, k)[x].Partial?
        ensures x != n && x in FilesAt(s.disk, k) && FilesAt(s.disk, k)[x].Partial?
      {
        BeginWriteImages(s, n, k);
      }
    }
  }

  // ----- the directory sync, and the call that returns after it

  lemma FlushHandle(s: System, m: Name, h: Handle)
    requires D.Valid(s.disk) && HandleOk(s, m, h) && BlankOk(s, m, h)
    ensures var r := s.(disk := D.Flush(s.disk));
            D.Valid(r.disk) && HandleOk(r, m, h) && BlankOk(r, m, h)
  {
    hide Step;
    FilesAfterFlush(s.disk);
  }

  lemma FlushKeeps(s: System)
    requires Inv(s)
    ensures Inv(s.(disk := D.Flush(s.disk)))
  {
    hide Step, Good, ImageOk, PossibleOk, AcksOk, HandleOk, BlankOk;
    var r := s.(disk := D.Flush(s.disk));
    FilesAfterFlush(s.disk);
    forall m | m in s.handles ensures HandleOk(r, m, s.handles[m]) && BlankOk(r, m, s.handles[m]) {
      FlushHandle(s, m, s.handles[m]);
    }
  }

  /** With everything synced, the journal a slot stands at is the only one a crash may leave. */
  lemma AcknowledgedImage(f: Dir, p: map<Name, set<Journal>>, a: map<Name, seq<Journal>>, n: Name, l: seq<Journal>)
    requires ImageOk(f, p, a) && n in p && n.Canonical? && n in f && f[n].Complete? && TempOf(f[n].journal) !in f
    ensures ImageOk(f, p[n := {f[n].journal}], a[n := l])
  {
    hide Step;
    var q := p[n := {f[n].journal}];
    forall t, m | Paired(f, t, m) ensures Owned(f, q, t, m) {
      assert Owned(f, p, t, m);
    }
  }

  lemma AcknowledgedBooks(p: map<Name, set<Journal>>, a: map<Name, seq<Journal>>, n: Name, j: Journal)
    requires PossibleOk(p) && AcksOk(p, a) && n in p && j in p[n]
    ensures PossibleOk(p[n := {j}])
    ensures AcksOk(p[n := {j}], a[n := (if n in a then a[n] else []) + [j]])
    ensures n !in a ==> AcksOk(p[n := {j}], a[n := [j]])
  {
    hide Loadable, Cumulative, Extends;
    assert Good(j, n);
    ExtendsReflexive(j);
    var l := (if n in a then a[n] else []) + [j];
    assert Life(l);
    assert n !in a ==> l == [j];
  }

  /** Slot `n` is acknowledged at `j`, with nothing left to sync. */
  ghost predicate AcknowledgedFrom(u: System, r: System, n: Name, j: Journal) {
    && n in u.possible && j in u.possible[n] && n in u.handles && n in r.handles
    && r == u.(handles := u.handles[n := r.handles[n]], possible := u.possible[n := {j}],
               acks := u.acks[n := (if n in u.acks then u.acks[n] else []) + [j]])
    && r.handles[n] == Handle(j, Settled, true, true)
  }

  lemma AcknowledgeKeeps(u: System, r: System, n: Name, j: Journal)
    requires Inv(u) && u.disk.log == [] && u.running && AcknowledgedFrom(u, r, n, j)
    requires n in FilesNow(u.disk) && FilesNow(u.disk)[n] == Complete(j) && TempOf(j) !in FilesNow(u.disk)
    ensures Inv(r)
  {
    hide Step, Good, ImageOk, PossibleOk, AcksOk, BlankOk, HandleOk;
    AcknowledgedBooks(u.possible, u.acks, n, j);
    AcknowledgedHandle(r, n, j);
    assert ImageOk(FilesAt(u.disk, 0), u.possible, u.acks);
    AcknowledgedImage(FilesNow(u.disk), u.possible, u.acks, n, r.acks[n]);
    forall m | m in u.handles && m != n ensures HandleOk(r, m, r.handles[m]) && BlankOk(r, m, r.handles[m]) {
      HandleIsKnown(u, m, u.handles[m]);
      HandleUnaffected(u, r, m, u.handles[m]);
      SameDiskBlank(u, r, m, u.handles[m]);
    }
    SameDiskBlank(u, r, n, r.handles[n]);
  }

  lemma HandleIsKnown(s: System, m: Name, h: Handle)
    requires D.Valid(s.disk) && HandleOk(s, m, h)
    ensures m in s.possible && h.journal in s.possible[m]
  {
    hide Step;
  }

  lemma AcknowledgedHandle(r: System, n: Name, j: Journal)
    requires D.Valid(r.disk) && n in r.possible && r.possible[n] == {j}
    requires n in FilesNow(r.disk) && FilesNow(r.disk)[n] == Complete(j) && TempOf(j) !in FilesNow(r.disk)
    ensures HandleOk(r, n, Handle(j, Settled, true, true))
  {
    hide Step;
  }

  lemma SameDiskBlank(u: System, r: System, m: Name, h: Handle)
    requires D.Valid(u.disk) && r.disk == u.disk && (BlankOk(u, m, h) || h.phase.Settled?)
    ensures BlankOk(r, m, h)
  {
  }

  lemma BeginSyncKeeps(s: System, n: Name)
    requires Inv(s) && Opens(s, n, true, true)
    ensures Inv(BeginSynced(s, n))
  {
    hide Step, Good, ImageOk, PossibleOk, AcksOk, BlankOk, HalvesOk;
    var u := s.(disk := D.Flush(s.disk));
    FlushKeeps(s);
    assert HandleOk(u, n, u.handles[n]);
    assert [] + [s.handles[n].journal] == [s.handles[n].journal];
    AcknowledgeKeeps(u, BeginSynced(s, n), n, s.handles[n].journal) by { hide Inv, HandleOk; }
  }

  lemma RecordSyncKeeps(s: System, n: Name)
    requires Inv(s) && Writes(s, n, Renamed)
    ensures Inv(RecordSynced(s, n))
  {
    hide Good, ImageOk, PossibleOk, AcksOk, BlankOk, HalvesOk, Loadable, IsDirectSuccessor;
    var u := s.(disk := D.Flush(s.disk));
    FlushKeeps(s);
    assert HandleOk(u, n, u.handles[n]);
    AcknowledgeKeeps(u, RecordSynced(s, n), n, s.handles[n].phase.next) by { hide Inv, HandleOk; }
  }

  lemma FinalizedImage(f: Dir, p: map<Name, set<Journal>>, a: map<Name, seq<Journal>>, n: Name)
    requires ImageOk(f, p, a) && n !in f
    ensures ImageOk(f, p - {n}, a)
  {
    hide Step;
    var q := p - {n};
    forall t, m | Paired(f, t, m) ensures Owned(f, q, t, m) {
      assert Owned(f, p, t, m);
    }
  }

  lemma FinalizedBooks(p: map<Name, set<Journal>>, a: map<Name, seq<Journal>>, n: Name)
    requires PossibleOk(p) && AcksOk(p, a) && n !in a
    ensures PossibleOk(p - {n}) && AcksOk(p - {n}, a)
  {
    hide Good, Life, Extends;
  }

  lemma FinalizedHandle(u: System, n: Name)
    requires D.Valid(u.disk) && n in u.handles && u.handles[n].phase.Closing? && HandleOk(u, n, u.handles[n])
    ensures n !in u.acks && n !in FilesNow(u.disk)
  {
    hide Step;
  }

  lemma FinalizeSyncKeeps(s: System, n: Name)
    requires Inv(s) && Closes(s, n)
    ensures Inv(FinalizeSynced(s, n))
  {
    hide Step, Good, ImageOk, PossibleOk, AcksOk, BlankOk, HandleOk;
    var u := s.(disk := D.Flush(s.disk));
    var r := FinalizeSynced(s, n);
    FlushKeeps(s);
    FinalizedHandle(u, n);
    FinalizedBooks(u.possible, u.acks, n);
    assert ImageOk(FilesAt(u.disk, 0), u.possible, u.acks);
    FinalizedImage(FilesNow(u.disk), u.possible, u.acks, n);
    forall m | m in r.handles ensures HandleOk(r, m, r.handles[m]) && BlankOk(r, m, r.handles[m]) {
      HandleIsKnown(u, m, u.handles[m]);
      HandleUnaffected(u, r, m, u.handles[m]);
      SameDiskBlank(u, r, m, u.handles[m]);
    }
  }

  // ----- failures, crashes and recovery

  lemma FailedHandle(s: System, r: System, m: Name, h: Handle)
    requires D.Valid(s.disk) && HandleOk(s, m, h) && BlankOk(s, m, h)
    requires r == s.(handles := r.handles)
    ensures HandleOk(r, m, h) && BlankOk(r, m, h)
    ensures HandleOk(r, m, h.(usable := false)) && BlankOk(r, m, h.(usable := false))
  {
    hide Step;
  }

  lemma CallFailKeeps(s: System, n: Name)
    requires Inv(s) && Live(s, n)
    ensures Inv(CallFailed(s, n))
  {
    hide Step, Good, ImageOk, PossibleOk, AcksOk, HandleOk, BlankOk;
    var r := CallFailed(s, n);
    forall m | m in r.handles ensures HandleOk(r, m, r.handles[m]) && BlankOk(r, m, r.handles[m]) {
      FailedHandle(s, r, m, s.handles[m]);
    }
  }

  // ----- the file sync

  lemma FilesAfterSyncFile(d: SlotDisk, inode: nat)
    requires D.Valid(d)
    ensures var e := D.SyncFile(d, inode);
            && D.Valid(e) && D.Current(e) == D.Current(d) && FilesNow(e) == FilesNow(d)
            && forall k :: 0 <= k <= |d.log| ==> D.Image(e, k) == D.Image(d, k) && FilesAt(e, k) == FilesAt(d, k)
  {
    D.ImagesAfterSyncFile(d, inode);
  }

  lemma SyncFileHandle(s: System, r: System, inode: nat, m: Name, h: Handle)
    requires D.Valid(s.disk) && HandleOk(s, m, h) && BlankOk(s, m, h)
    requires r.disk == D.SyncFile(s.disk, inode) && r.possible == s.possible && r.acks == s.acks
    ensures D.Valid(r.disk) && HandleOk(r, m, h) && BlankOk(r, m, h)
  {
    hide Step;
    FilesAfterSyncFile(s.disk, inode);
    HandleUnaffected(s, r, m, h);
  }

  lemma SyncFileHalves(s: System, r: System, inode: nat)
    requires D.Valid(s.disk) && HalvesOk(s) && r.disk == D.SyncFile(s.disk, inode) && r.running == s.running
    requires forall m :: m in s.handles && s.handles[m].phase.Opening? && !s.handles[m].phase.filled ==>
               m in r.handles && r.handles[m] == s.handles[m]
    ensures D.Valid(r.disk) && HalvesOk(r)
  {
    FilesAfterSyncFile(s.disk, inode);
  }

  lemma SyncFileOwn(s: System, r: System, n: Name)
    requires D.Valid(s.disk) && n in s.handles && n in r.handles && HandleOk(s, n, s.handles[n])
    requires Opens(s, n, true, false) || Writes(s, n, Drafted)
    requires r == if Opens(s, n, true, false) then BeginFileSynced(s, n) else RecordFileSynced(s, n)
    ensures D.Valid(r.disk) && HandleOk(r, n, r.handles[n]) && BlankOk(r, n, r.handles[n])
  {
    hide Step;
    FilesAfterSyncFile(s.disk, s.handles[n].phase.inode);
  }

  lemma FileSyncKeeps(s: System, n: Name)
    requires Inv(s) && (Opens(s, n, true, false) || Writes(s, n, Drafted))
    ensures Inv(if Opens(s, n, true, false) then BeginFileSynced(s, n) else RecordFileSynced(s, n))
  {
    hide Step, Good, ImageOk, PossibleOk, AcksOk, HandleOk, BlankOk, HalvesOk;
    var r := if Opens(s, n, true, false) then BeginFileSynced(s, n) else RecordFileSynced(s, n);
    var inode := s.handles[n].phase.inode;
    FilesAfterSyncFile(s.disk, inode);
    SyncFileOwn(s, r, n);
    SyncFileHalves(s, r, inode);
    forall m | m in s.handles && m != n ensures HandleOk(r, m, r.handles[m]) && BlankOk(r, m, r.handles[m]) {
      SyncFileHandle(s, r, inode, m, s.handles[m]);
    }
  }

  // ----- crashes

  lemma LeftFiles(d: SlotDisk, k: nat, torn: set<nat>)
    requires D.Valid(d) && k <= |d.log|
    ensures Left(d, k, torn).Keys == FilesAt(d, k).Keys == D.Image(d, k).Keys
    ensures forall x :: x in FilesAt(d, k) ==>
              Left(d, k, torn)[x] == if D.Image(d, k)[x] in torn then Partial else FilesAt(d, k)[x]
  {
    D.ImagesAfterCrash(d, k, torn, Partial);
  }

  lemma LeftWhole(d: SlotDisk, k: nat)
    requires D.Valid(d) && k <= |d.log|
    ensures Left(d, k, {}) == FilesAt(d, k)
  {
    LeftFiles(d, k, {});
  }

  /** Torn files may be missing from a directory that was in order: it still is, for the slots that stand. */
  lemma TornImage(f: Dir, g: Dir, p: map<Name, set<Journal>>, a: map<Name, seq<Journal>>)
    requires ImageOk(f, p, a) && g.Keys == f.Keys && forall x :: x in f ==> g[x] == f[x] || g[x] == Partial
    ensures ImageOk(g, p, Standing(g, a))
  {
    hide Step;
    forall t, n | Paired(g, t, n) ensures Owned(g, p, t, n) {
      assert Paired(f, t, n);
    }
  }

  lemma StandingAcks(f: Dir, p: map<Name, set<Journal>>, a: map<Name, seq<Journal>>)
    requires AcksOk(p, a)
    ensures AcksOk(p, Standing(f, a))
  {
    hide Life, Extends;
  }

  lemma CrashKeeps(s: System)
    requires Inv(s)
    ensures Inv(Crashed(s, s.disk))
  {
    hide Step, Good, ImageOk, PossibleOk, AcksOk, HandleOk, BlankOk;
  }

  lemma PowerCutKeeps(s: System, k: nat, torn: set<nat>)
    requires Inv(s) && k <= |s.disk.log|
    ensures Inv(PowerCut(s, k, torn))
  {
    hide Step, Good, ImageOk, PossibleOk, AcksOk, HandleOk, BlankOk;
    D.ImagesAfterCrash(s.disk, k, torn, Partial);
    LeftFiles(s.disk, k, torn);
    var f, g := FilesAt(s.disk, k), Left(s.disk, k, torn);
    TornImage(f, g, s.possible, s.acks);
    StandingAcks(g, s.possible, s.acks);
    var r := PowerCut(s, k, torn);
    assert FilesAt(r.disk, 0) == g;
  }

  lemma OwnerOf(f: Dir, p: map<Name, set<Journal>>, a: map<Name, seq<Journal>>, t: Name) returns (m: Name)
    requires PossibleOk(p) && ImageOk(f, p, a) && t.Temporary? && t in f && Load(f[t]).Some? && Promotable(f, t)
    ensures Owned(f, p, t, m) && NameOf(f[t].journal) == m
  {
    hide Loadable, Step, Cumulative;
    m := Canonical(f[t].journal.content.mapping);
    StepKeepsBinding(f[m].journal, f[t].journal);
    assert Paired(f, t, m);
  }

  lemma RecoveryImage(f: Dir, p: map<Name, set<Journal>>, a: map<Name, seq<Journal>>, op: D.Op<Name>)
    requires PossibleOk(p) && ImageOk(f, p, a) && RecoveryMay(f, op)
    ensures ImageOk(After(f, op), p, a)
    ensures forall x :: x in f && x.Canonical? ==> f[x].Complete? && x in After(f, op) && After(f, op)[x].Complete?
    ensures forall x :: x in After(f, op) ==> x in f
  {
    hide Loadable, Step, Cumulative, Owners, PossibleOk, ImageOk;
    assert forall x :: x in f && x.Canonical? ==> CanonicalOk(f, x);
    match op {
      case Unlink(t) => ImageWithoutTemporary(f, p, a, t);
      case Move(t, n) =>
        var m := OwnerOf(f, p, a, t);
        ImagePromoted(f, p, a, t, m);
    }
  }

  lemma RecoverOpKeeps(s: System, op: D.Op<Name>)
    requires Inv(s) && !s.running && RecoveryMay(FilesNow(s.disk), op)
    ensures Inv(s.(disk := D.Issue(s.disk, op)))
  {
    hide Step, Good, ImageOk, PossibleOk, AcksOk, HandleOk, BlankOk, CanonicalsOk, Promotable, Owners;
    var r := s.(disk := D.Issue(s.disk, op));
    assert ImageOk(FilesNow(s.disk), s.possible, s.acks);
    RecoveryImage(FilesNow(s.disk), s.possible, s.acks, op);
    FilesAfterIssue(s.disk, op);
    D.ImagesAfterIssue(s.disk, op);
    OneMoreKeeps(s, r);
  }

  lemma RecoverDoneImage(f: Dir, n: Name)
    requires Accepts(f) && (forall t :: t in f ==> !t.Temporary?) && n in f
    ensures n.Canonical? && n in Slots(f) && f[n] == Complete(Slots(f)[n])
    ensures TempOf(Slots(f)[n]) !in f
  {
    hide Loadable, Step;
    assert CanonicalOk(f, n);
  }

  lemma RecoverDoneHandle(s: System, m: Name)
    requires D.Valid(s.disk) && MayRecoverDone(s) && m in RecoveredSystem(s).handles
    requires ImageOk(FilesNow(s.disk), s.possible, s.acks)
    ensures var r := RecoveredSystem(s);
            m.Canonical? && HandleOk(r, m, r.handles[m]) && BlankOk(r, m, r.handles[m])
  {
    hide Step, Accepts, Recovered, Loadable;
    RecoverDoneImage(FilesNow(s.disk), m);
  }

  /** When no file is partial now, none is in any image either. */
  lemma NoHalves(s: System, r: System)
    requires D.Valid(s.disk) && HalvesOk(s) && r.disk == s.disk
    requires forall n :: n in FilesNow(s.disk) ==> FilesNow(s.disk)[n].Complete?
    ensures HalvesOk(r)
  {
    forall k, n | 0 <= k <= |s.disk.log| && n in FilesAt(s.disk, k) && n.Canonical?
      ensures FilesAt(s.disk, k)[n].Complete?
    {
      assert FilesAt(s.disk, k)[n].Partial? ==> n in FilesNow(s.disk) && FilesNow(s.disk)[n] == FilesAt(s.disk, k)[n];
    }
  }

  lemma RecoverDoneKeeps(s: System)
    requires Inv(s) && MayRecoverDone(s)
    ensures Inv(RecoveredSystem(s))
  {
    hide Step, Good, PossibleOk, AcksOk, ImageOk, HandleOk, BlankOk, Loadable, Accepts, Recovered, Slots, HalvesOk;
    var r := RecoveredSystem(s);
    var f := FilesNow(s.disk);
    assert ImageOk(f, s.possible, s.acks);
    forall n | n in f ensures f[n].Complete? && n in r.handles {
      RecoverDoneImage(f, n);
    }
    NoHalves(s, r);
    forall m | m in r.handles ensures m.Canonical? && HandleOk(r, m, r.handles[m]) && BlankOk(r, m, r.handles[m]) {
      RecoverDoneHandle(s, m);
    }
  }
}
