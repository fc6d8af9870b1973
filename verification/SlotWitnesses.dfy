/** Runs that take back what recovery returned, and runs that end in a refusal, built call by call. */
module SlotWitnesses {
  import opened Wrappers
  import opened Protocol
  import opened Names
  import opened SlotJournal
  import opened SlotStore
  import opened SlotMachine
  import opened SlotRuns
  import opened SlotRefusals
  import D = Durability

  /** A running store with nothing to sync and nothing under way but whole journals, and `n` resting at `j`. */
  ghost predicate Calm(s: System, n: Name, j: Journal) {
    && Inv(s) && s.running && s.disk.log == []
    && Rests(s, n) && s.handles[n].journal == j
    && (forall x :: x in FilesNow(s.disk) ==> !x.Temporary? && FilesNow(s.disk)[x].Complete?)
  }

  /** A directory of whole journals, as recovery likes it. */
  ghost predicate Plain(f: Dir) {
    forall x :: x in f ==> !x.Temporary? && f[x].Complete?
  }

  lemma PlainIsAccepted(s: System)
    requires Inv(s) && Plain(FilesNow(s.disk))
    ensures Accepts(FilesNow(s.disk)) && LoadOutcome(FilesNow(s.disk)) == Some(Slots(FilesNow(s.disk)))
    ensures forall n :: n in FilesNow(s.disk) ==>
              n in Slots(FilesNow(s.disk)) && FilesNow(s.disk)[n] == Complete(Slots(FilesNow(s.disk))[n])
  {
    InvIsValid(s);
    LeftWhole(s.disk, |s.disk.log|);
    CrashImage(s, |s.disk.log|, {});
    var f := FilesNow(s.disk);
    assert !Damaged(f);
    hide Inv, Loadable, Step;
    assert Accepts(f);
    forall n | n in f ensures n in Slots(f) && f[n] == Complete(Slots(f)[n]) {
      RecoverDoneImage(f, n);
    }
  }

  /** Slot `n` is writing `next` over `j`; a crash of the machine would leave `f`, a crash of the process `now`. */
  ghost predicate Midway(q: System, n: Name, j: Journal, next: Journal, progress: Progress, f: Dir, now: Dir) {
    && Inv(q) && q.running && Writes(q, n, progress)
    && q.handles[n].journal == j && q.handles[n].phase.next == next
    && FilesAt(q.disk, 0) == f && FilesNow(q.disk) == now
  }

  lemma CreatedFromCalm(s: System, n: Name, j: Journal, input: Input, next: Journal)
    requires Calm(s, n, j) && Records(j, input, next)
    ensures Rests(s, n) && MayRecordCreate(s, n, input, next) && MayRecordWrite(RecordCreated(s, n, next), n)
    ensures Midway(RecordCreated(s, n, next), n, j, next, Created, FilesNow(s.disk),
            FilesNow(s.disk)[TempOf(j) := Partial])
  {
    hide Loadable, Step, Records, PossibleOk, AcksOk, ImageOk, HalvesOk, BlankOk, HandleOk;
    assert TempOf(j) !in FilesNow(s.disk);
    RecordCreateKeeps(s, n, input, next);
    FilesAfterCreate(s.disk, TempOf(j));
  }

  lemma DraftedFromCalm(r: System, n: Name, j: Journal, next: Journal, f: Dir, now: Dir)
    requires Midway(r, n, j, next, Created, f, now) && MayRecordWrite(r, n) && TempOf(j) !in f && TempOf(j) in now
    ensures Midway(RecordWritten(r, n), n, j, next, Drafted, f, now[TempOf(j) := Complete(next)])
    ensures RecordWritten(r, n).disk.unsynced == r.disk.unsynced + {r.handles[n].phase.inode}
  {
    hide Loadable, Step, PossibleOk, AcksOk, ImageOk, HalvesOk, BlankOk, OnlyName;
    var h := r.handles[n];
    assert HandleOk(r, n, h);
    RecordWriteImages(r, n, 0);
    RecordWriteKeeps(r, n);
    WriteOneName(r.disk, h.phase.inode, Complete(next), TempOf(j), 0);
    WriteOneName(r.disk, h.phase.inode, Complete(next), TempOf(j), |r.disk.log|);
  }

  lemma SyncedFromCalm(r: System, n: Name, j: Journal, next: Journal, f: Dir, now: Dir)
    requires Midway(r, n, j, next, Drafted, f, now)
    ensures Midway(RecordFileSynced(r, n), n, j, next, Filled, f, now)
  {
    hide Loadable, Step, PossibleOk, AcksOk, ImageOk, HalvesOk, BlankOk, HandleOk;
    FileSyncKeeps(r, n);
    FilesAfterSyncFile(r.disk, r.handles[n].phase.inode);
  }

  lemma RenamedFromCalm(r: System, n: Name, j: Journal, next: Journal, f: Dir, now: Dir)
    requires Midway(r, n, j, next, Filled, f, now)
    ensures Midway(RecordRenamed(r, n), n, j, next, Renamed, f, (now - {TempOf(j)})[n := Complete(next)])
  {
    hide Loadable, Step, PossibleOk, AcksOk, ImageOk, HalvesOk, BlankOk, HandleOk;
    FilledFiles(r, n);
    RecordRenameKeeps(r, n);
    FilesAfterIssue(r.disk, D.Move(TempOf(j), n));
  }

  lemma CreatedRun(
    states: seq<System>, actions: seq<Action>, s: System, n: Name, j: Journal, input: Input, next: Journal)
    returns (more: seq<System>, done: seq<Action>, q: System)
    requires Reaches(states, actions, s) && Calm(s, n, j) && Records(j, input, next)
    ensures Reaches(more, done, q) && states <= more && |more| == |states| + 1
    ensures MayRecordWrite(q, n) && Midway(q, n, j, next, Created, FilesNow(s.disk),
            FilesNow(s.disk)[TempOf(j) := Partial])
    ensures q.acks == s.acks && done == actions + [RecordCreate(n, input, next)]
  {
    hide Reaches, Records, Inv, Calm, MayRecordCreate, MayRecordWrite, Midway;
    CalmHasNoTemporary(s, n, j);
    CreatedFromCalm(s, n, j, input, next);
    q := RecordCreated(s, n, next);
    OneStep(states, actions, s, RecordCreate(n, input, next));
    more, done := states + [q], actions + [RecordCreate(n, input, next)];
  }

  lemma DraftedRun(
    states: seq<System>, actions: seq<Action>, s: System, n: Name, j: Journal, next: Journal, f: Dir, now: Dir)
    returns (more: seq<System>, done: seq<Action>, q: System)
    requires Reaches(states, actions, s) && Midway(s, n, j, next, Created, f, now)
    requires MayRecordWrite(s, n) && TempOf(j) !in f && TempOf(j) in now
    ensures Reaches(more, done, q) && states <= more && |more| == |states| + 1
    ensures Midway(q, n, j, next, Drafted, f, now[TempOf(j) := Complete(next)])
    ensures q == RecordWritten(s, n) && q.disk.unsynced == s.disk.unsynced + {s.handles[n].phase.inode}
    ensures done == actions + [RecordWrite(n)]
  {
    hide Reaches, Inv;
    InvIsValid(s);
    DraftedFromCalm(s, n, j, next, f, now);
    hide Midway, MayRecordWrite;
    q := RecordWritten(s, n);
    OneStep(states, actions, s, RecordWrite(n));
    more, done := states + [q], actions + [RecordWrite(n)];
  }

  lemma FileSyncedRun(
    states: seq<System>, actions: seq<Action>, s: System, n: Name, j: Journal, next: Journal, f: Dir, now: Dir)
    returns (more: seq<System>, done: seq<Action>, q: System)
    requires Reaches(states, actions, s) && Midway(s, n, j, next, Drafted, f, now)
    ensures Reaches(more, done, q) && states <= more && |more| == |states| + 1
    ensures Midway(q, n, j, next, Filled, f, now)
  {
    hide Reaches, Inv;
    InvIsValid(s);
    SyncedFromCalm(s, n, j, next, f, now);
    assert Writes(s, n, Drafted);
    hide Midway, Writes;
    q := RecordFileSynced(s, n);
    OneStep(states, actions, s, RecordFileSync(n));
    more, done := states + [q], actions + [RecordFileSync(n)];
  }

  lemma RenamedOnceRun(
    states: seq<System>, actions: seq<Action>, s: System, n: Name, j: Journal, next: Journal, f: Dir, now: Dir)
    returns (more: seq<System>, done: seq<Action>, q: System)
    requires Reaches(states, actions, s) && Midway(s, n, j, next, Filled, f, now)
    ensures Reaches(more, done, q) && states <= more && |more| == |states| + 1
    ensures Midway(q, n, j, next, Renamed, f, (now - {TempOf(j)})[n := Complete(next)])
  {
    hide Reaches, Inv;
    InvIsValid(s);
    RenamedFromCalm(s, n, j, next, f, now);
    assert Writes(s, n, Filled);
    hide Midway, Writes;
    q := RecordRenamed(s, n);
    OneStep(states, actions, s, RecordRename(n));
    more, done := states + [q], actions + [RecordRename(n)];
  }

  /** The first four calls of a record that started from calm: written, synced and renamed. */
  lemma RenamedRun(
    states: seq<System>, actions: seq<Action>, s: System, n: Name, j: Journal, input: Input, next: Journal)
    returns (more: seq<System>, done: seq<Action>, q: System)
    requires Reaches(states, actions, s) && Calm(s, n, j) && Records(j, input, next)
    ensures Reaches(more, done, q) && states <= more && |more| == |states| + 4
    ensures D.Valid(s.disk) && Midway(q, n, j, next, Renamed, FilesNow(s.disk), FilesNow(s.disk)[n := Complete(next)])
  {
    hide Records, Reaches, Calm, Midway, MayRecordWrite, Inv;
    CalmHasNoTemporary(s, n, j);
    var f := FilesNow(s.disk);
    var t := TempOf(j);
    more, done, q := CreatedRun(states, actions, s, n, j, input, next);
    more, done, q := DraftedRun(more, done, q, n, j, next, f, f[t := Partial]);
    more, done, q := FileSyncedRun(more, done, q, n, j, next, f, f[t := Partial][t := Complete(next)]);
    more, done, q := RenamedOnceRun(more, done, q, n, j, next, f, f[t := Partial][t := Complete(next)]);
    assert (f[t := Partial][t := Complete(next)] - {t})[n := Complete(next)] == f[n := Complete(next)];
  }

  lemma CalmHasNoTemporary(s: System, n: Name, j: Journal)
    requires Calm(s, n, j)
    ensures D.Valid(s.disk) && TempOf(j) !in FilesNow(s.disk) && Plain(FilesNow(s.disk))
    ensures n in FilesNow(s.disk) && FilesNow(s.disk)[n] == Complete(j) && n.Canonical?
  {
    hide Step, PossibleOk, AcksOk, ImageOk, HalvesOk, BlankOk;
    assert HandleOk(s, n, s.handles[n]);
  }

  // ---------------------------------------------------------------- a record that returns

  lemma SyncedIsCalm(r: System, n: Name, j: Journal, next: Journal, f: Dir, now: Dir)
    requires Midway(r, n, j, next, Renamed, f, now) && Plain(now)
    ensures Calm(RecordSynced(r, n), n, next)
    ensures n in RecordSynced(r, n).acks && next in RecordSynced(r, n).acks[n]
    ensures FilesNow(RecordSynced(r, n).disk) == now
  {
    hide Step, PossibleOk, AcksOk, ImageOk, HalvesOk, BlankOk, HandleOk;
    RecordSyncKeeps(r, n);
    FilesAfterFlush(r.disk);
  }

  /** A record that returns, from calm to calm. */
  lemma RecordedRun(
    states: seq<System>, actions: seq<Action>, s: System, n: Name, j: Journal, input: Input, next: Journal)
    returns (more: seq<System>, done: seq<Action>, q: System)
    requires Reaches(states, actions, s) && Calm(s, n, j) && Records(j, input, next)
    ensures Reaches(more, done, q) && states <= more && |more| == |states| + 5
    ensures Calm(q, n, next) && n in q.acks && next in q.acks[n]
  {
    hide Records, Reaches, Calm, Inv, Midway;
    CalmHasNoTemporary(s, n, j);
    var f := FilesNow(s.disk);
    more, done, q := RenamedRun(states, actions, s, n, j, input, next);
    MidwayFacts(q, n, j, next, Renamed, f, f[n := Complete(next)]);
    SyncedIsCalm(q, n, j, next, f, f[n := Complete(next)]);
    hide Writes;
    var r := RecordSynced(q, n);
    OneStep(more, done, q, RecordSync(n));
    more, done, q := more + [r], done + [RecordSync(n)], r;
  }

  lemma MidwayFacts(q: System, n: Name, j: Journal, next: Journal, progress: Progress, f: Dir, now: Dir)
    requires Midway(q, n, j, next, progress, f, now)
    ensures D.Valid(q.disk) && Inv(q) && Writes(q, n, progress)
    ensures FilesAt(q.disk, 0) == f && FilesNow(q.disk) == now && q.handles[n].journal == j
  {
    hide HandleOk, BlankOk, HalvesOk, ImageOk, AcksOk, PossibleOk;
  }

  // ---------------------------------------------------------------- what recovery returned is taken back

  /** A recovered store: the handles stand at the files, and the disk is as it was. */
  lemma RecoveredFiles(s: System)
    requires Inv(s) && !s.running && Plain(FilesNow(s.disk))
    ensures MayRecoverDone(s) && Inv(RecoveredSystem(s))
    ensures var r := RecoveredSystem(s);
            forall n :: n in FilesNow(s.disk) ==>
              n in r.handles && Rests(r, n) && FilesNow(s.disk)[n] == Complete(r.handles[n].journal)
  {
    hide Inv, Loadable, Step, Accepts, Slots, LoadOutcome, Plain;
    InvIsValid(s);
    PlainIsAccepted(s);
    PlainHasNoTemporary(s.disk);
    RecoverDoneKeeps(s);
  }

  lemma PlainHasNoTemporary(d: SlotDisk)
    requires D.Valid(d) && Plain(FilesNow(d))
    ensures forall n :: n in D.Current(d) ==> !n.Temporary?
  {
    assert forall n :: n in D.Current(d) ==> n in FilesNow(d);
  }

  lemma RecoverRun(states: seq<System>, actions: seq<Action>, c: System, n: Name, j: Journal)
    returns (q: System)
    requires Reaches(states, actions, c) && Inv(c) && !c.running
    requires Plain(FilesNow(c.disk)) && n in FilesNow(c.disk) && FilesNow(c.disk)[n] == Complete(j)
    ensures Reaches(states + [q], actions + [RecoverDone], q)
    ensures q.disk == c.disk && Inv(q) && q.running && Rests(q, n) && q.handles[n].journal == j && D.Valid(q.disk)
    ensures q.acks == c.acks
  {
    hide Reaches, Inv, Plain, MayRecoverDone, Slots;
    InvIsValid(c);
    RecoveredFiles(c);
    RecoveryStep(states, actions, c);
    q := RecoveredSystem(c);
    hide RecoveredSystem;
  }

  /** The process dies and recovery runs: it returns the journal that a reader finds. */
  lemma RestartRun(states: seq<System>, actions: seq<Action>, s: System, n: Name, j: Journal, f: Dir)
    returns (more: seq<System>, done: seq<Action>, q: System)
    requires Reaches(states, actions, s) && Inv(s) && FilesAt(s.disk, 0) == f
    requires Plain(FilesNow(s.disk)) && n in FilesNow(s.disk) && FilesNow(s.disk)[n] == Complete(j)
    ensures Reaches(more, done, q) && states <= more && |more| == |states| + 2
            && done == actions + [ProcessCrash, RecoverDone]
    ensures q.disk == s.disk && Inv(q) && q.running && Rests(q, n) && q.handles[n].journal == j && D.Valid(q.disk)
  {
    hide Reaches, Inv, Plain, Rests, FilesNow, FilesAt;
    InvIsValid(s);
    CrashKeeps(s);
    var c := Crashed(s, s.disk);
    OneStep(states, actions, s, ProcessCrash);
    q := RecoverRun(states + [c], actions + [ProcessCrash], c, n, j);
    more, done := states + [c] + [q], actions + [ProcessCrash] + [RecoverDone];
  }

  /** The machine crashes with nothing queued kept, and recovery runs: it returns what was durable. */
  lemma PowerCutRun(states: seq<System>, actions: seq<Action>, s: System, n: Name, j: Journal, f: Dir)
    returns (more: seq<System>, done: seq<Action>, q: System)
    requires Reaches(states, actions, s) && Inv(s) && FilesAt(s.disk, 0) == f
    requires Plain(f) && n in f && f[n] == Complete(j)
    ensures Reaches(more, done, q) && states <= more && |more| == |states| + 2
            && done == actions + [MachineCrash(0, {}), RecoverDone]
    ensures Calm(q, n, j)
  {
    hide Reaches, Inv;
    InvIsValid(s);
    PowerCutKeeps(s, 0, {});
    LeftWhole(s.disk, 0);
    D.ImagesAfterCrash(s.disk, 0, {}, Partial);
    var c := PowerCut(s, 0, {});
    assert FilesNow(c.disk) == f;
    OneStep(states, actions, s, MachineCrash(0, {}));
    hide Rests, FilesNow, FilesAt, PowerCut;
    q := RecoverRun(states + [c], actions + [MachineCrash(0, {})], c, n, j);
    hide Plain;
    more, done := states + [c] + [q], actions + [MachineCrash(0, {})] + [RecoverDone];
  }

  /**
   Recovery syncs nothing when it has nothing to repair. A record whose process dies between the
   rename and the sync is returned by the recovery that follows, and gone after a machine crash: the
   slot stands at its old journal again.
   */
  lemma ReturnedAndTakenBack(
    states: seq<System>, actions: seq<Action>, s: System, n: Name, j: Journal, input: Input, next: Journal)
    returns (more: seq<System>, done: seq<Action>, returned: System, q: System)
    requires Reaches(states, actions, s) && Calm(s, n, j) && Records(j, input, next)
    ensures Reaches(more, done, q) && states <= more && |more| == |states| + 8
    ensures done[|done| - 4..] == [ProcessCrash, RecoverDone, MachineCrash(0, {}), RecoverDone]
    ensures returned == more[|more| - 3] && returned.running && Rests(returned, n)
            && returned.handles[n].journal == next
    ensures Calm(q, n, j)
  {
    hide Records, Reaches, Calm, Inv, Midway, Rests;
    CalmHasNoTemporary(s, n, j);
    var f := FilesNow(s.disk);
    more, done, q := RenamedRun(states, actions, s, n, j, input, next);
    MidwayFacts(q, n, j, next, Renamed, f, f[n := Complete(next)]);
    more, done, q := RestartRun(more, done, q, n, next, f);
    returned := q;
    ghost var at := |more| - 1;
    LastState(more, done, q);
    ghost var before := more;
    more, done, q := PowerCutRun(more, done, q, n, j, f);
    assert more[at] == before[at];
  }

  lemma LastState(states: seq<System>, actions: seq<Action>, s: System)
    requires Reaches(states, actions, s)
    ensures |states| > 0 && states[|states| - 1] == s && |states| == |actions| + 1
  {
    hide Enabled, Perform;
  }

  /** A slot that recovery would be handed at `j` from an undamaged directory, by its files alone. */
  ghost predicate Carries(f: Dir, n: Name, j: Journal) {
    && n in f && n.Canonical? && f[n].Complete?
    && var t := TempOf(f[n].journal);
    if t in f && f[t].Complete? then f[t] == Complete(j) else f[n] == Complete(j)
  }

  lemma CarriesExactly(f: Dir, p: map<Name, set<Journal>>, a: map<Name, seq<Journal>>, n: Name, j: Journal)
    requires PossibleOk(p) && ImageOk(f, p, a) && !Damaged(f) && n.Canonical?
    ensures n in Slots(f) && Slots(f)[n] == j <==> Carries(f, n, j)
  {
    hide StageValid, IsDirectSuccessor, IsSha256, IsLabel, Cumulative;
    if n in f && f[n].Complete? && TempOf(f[n].journal) in f && f[TempOf(f[n].journal)].Complete? {
      var t := TempOf(f[n].journal);
      assert Paired(f, t, n);
      assert Owned(f, p, t, n);
      assert Good(f[t].journal, n);
    }
  }

  /** Recovery refuses this directory, or returns the slot at `j`. */
  ghost predicate SureAt(f: Dir, n: Name, j: Journal) {
    LoadOutcome(f).Some? ==> n in LoadOutcome(f).value && LoadOutcome(f).value[n] == j
  }

  /**
   Whatever a crash keeps and tears, recovery finds a slot at `j` or refuses, exactly when what it leaves is
   damaged or carries `j`. One image is enough to take a returned journal back.
   */
  lemma SureExactly(s: System, n: Name, j: Journal, k: nat, torn: set<nat>)
    requires Inv(s) && n.Canonical? && k <= |s.disk.log|
    ensures D.Valid(s.disk)
    ensures SureAt(Left(s.disk, k, torn), n, j) <==>
              Damaged(Left(s.disk, k, torn)) || Carries(Left(s.disk, k, torn), n, j)
  {
    CrashImage(s, k, torn);
    var f := Left(s.disk, k, torn);
    LeftFiles(s.disk, k, torn);
    assert PossibleOk(s.possible) && ImageOk(FilesAt(s.disk, k), s.possible, s.acks);
    TornImage(FilesAt(s.disk, k), f, s.possible, s.acks);
    hide Inv, PossibleOk, ImageOk, Slots, Carries, Damaged, Accepts;
    if !Damaged(f) {
      CarriesExactly(f, s.possible, Standing(f, s.acks), n, j);
    }
  }

  /** Nothing is queued for the slot, and its file is synced. */
  ghost predicate Undisturbed(s: System, n: Name) {
    && n in s.handles && n in D.Current(s.disk) && D.Current(s.disk)[n] !in s.disk.unsynced
    && forall op <- s.disk.log :: !D.Mentions(op, n) && !D.Mentions(op, TempOf(s.handles[n].journal))
  }

  /** Then what its handle stands at is sure, whatever is queued for others. */
  lemma UndisturbedIsSure(s: System, n: Name, k: nat, torn: set<nat>)
    requires Inv(s) && Rests(s, n) && Undisturbed(s, n) && k <= |s.disk.log| && torn <= s.disk.unsynced
    ensures D.Valid(s.disk) && n.Canonical? && SureAt(Left(s.disk, k, torn), n, s.handles[n].journal)
  {
    InvIsValid(s);
    RestingCarries(s, n);
    UndisturbedCarries(s, n, k, torn);
    hide Inv, SureAt, Damaged, Carries, Undisturbed;
    SureExactly(s, n, s.handles[n].journal, k, torn);
  }

  lemma UndisturbedCarries(s: System, n: Name, k: nat, torn: set<nat>)
    requires D.Valid(s.disk) && Undisturbed(s, n) && k <= |s.disk.log| && torn <= s.disk.unsynced
    requires n.Canonical? && Carries(FilesNow(s.disk), n, s.handles[n].journal)
    requires FilesNow(s.disk)[n] == Complete(s.handles[n].journal) && TempOf(s.handles[n].journal) !in FilesNow(s.disk)
    ensures Carries(Left(s.disk, k, torn), n, s.handles[n].journal)
  {
    var t := TempOf(s.handles[n].journal);
    LeftFiles(s.disk, k, torn);
    D.UnmentionedStays(s.disk, n, k);
    D.UnmentionedStays(s.disk, n, |s.disk.log|);
    D.UnmentionedStays(s.disk, t, k);
    D.UnmentionedStays(s.disk, t, |s.disk.log|);
    assert D.Image(s.disk, |s.disk.log|) == D.Current(s.disk);
  }

  lemma RestingCarries(s: System, n: Name)
    requires Inv(s) && Rests(s, n)
    ensures D.Valid(s.disk) && n.Canonical? && Carries(FilesNow(s.disk), n, s.handles[n].journal)
    ensures FilesNow(s.disk)[n] == Complete(s.handles[n].journal) && TempOf(s.handles[n].journal) !in FilesNow(s.disk)
  {
    hide Step, BlankOk, HalvesOk, AcksOk, PossibleOk, ImageOk;
    assert HandleOk(s, n, s.handles[n]);
  }

  // ---------------------------------------------------------------- the first slot of a store

  lemma OpenedIsCalm(s: System, n: Name, intent: Journal)
    requires Inv(s) && Opens(s, n, true, true) && s.handles[n].journal == intent
    requires FilesNow(s.disk) == map[n := Complete(intent)] && n.Canonical?
    ensures Calm(BeginSynced(s, n), n, intent) && BeginSynced(s, n).acks[n] == [intent]
  {
    hide Step, PossibleOk, AcksOk, ImageOk, HalvesOk, BlankOk, HandleOk;
    BeginSyncKeeps(s, n);
    FilesAfterFlush(s.disk);
  }

  lemma FirstWrite(s: System, n: Name, intent: Journal)
    requires Inv(s) && MayBeginWrite(s, n) && s.handles[n].journal == intent && FilesNow(s.disk) == map[n := Partial]
    ensures var r := BeginWritten(s, n);
            Inv(r) && Opens(r, n, true, false) && FilesNow(r.disk) == map[n := Complete(intent)]
  {
    hide Step, PossibleOk, AcksOk, ImageOk, HalvesOk, BlankOk, OnlyName;
    BeginWriteKeeps(s, n);
    BeginWriteImages(s, n, |s.disk.log|);
    assert HandleOk(s, n, s.handles[n]);
    WriteOneName(s.disk, s.handles[n].phase.inode, Complete(intent), n, |s.disk.log|);
  }

  lemma FirstFileSync(s: System, n: Name, intent: Journal)
    requires Inv(s) && Opens(s, n, true, false) && s.handles[n].journal == intent
    requires FilesNow(s.disk) == map[n := Complete(intent)]
    ensures var r := BeginFileSynced(s, n);
            Inv(r) && Opens(r, n, true, true) && FilesNow(r.disk) == map[n := Complete(intent)]
  {
    hide Step, PossibleOk, AcksOk, ImageOk, HalvesOk, BlankOk, HandleOk;
    FileSyncKeeps(s, n);
    FilesAfterSyncFile(s.disk, s.handles[n].phase.inode);
  }

  lemma FirstCreate(intent: Journal)
    requires MayBeginCreate(Initial(), intent)
    ensures var n, s := NameOf(intent), BeginCreated(Initial(), intent);
            && Inv(s) && MayBeginWrite(s, n) && s.handles[n].journal == intent
            && FilesNow(s.disk) == map[n := Partial]
            && Reaches([Initial()] + [s], [BeginCreate(intent)], s)
  {
    hide Loadable, Reaches;
    FirstCallCut(intent);
    InitialInv();
    BeginCreateKeeps(Initial(), intent);
    BeginCreateShape(Initial(), intent);
    assert FilesNow(BeginCreated(Initial(), intent).disk) == map[NameOf(intent) := Partial];
  }

  /** `begin` on an empty store returns. */
  lemma FirstSlot(intent: Journal) returns (states: seq<System>, actions: seq<Action>, q: System)
    requires MayBeginCreate(Initial(), intent)
    ensures Reaches(states, actions, q) && Calm(q, NameOf(intent), intent)
    ensures var n := NameOf(intent);
            actions == [BeginCreate(intent), BeginWrite(n), BeginFileSync(n), BeginSync(n)]
    ensures NameOf(intent) in q.acks && intent in q.acks[NameOf(intent)]
  {
    hide Loadable, Reaches, Inv, MayBeginCreate, MayBeginWrite, Calm, FilesNow;
    FirstCreate(intent);
    var s := BeginCreated(Initial(), intent);
    states, actions, q := RestOfBegin([Initial()] + [s], [BeginCreate(intent)], s, NameOf(intent), intent);
  }

  lemma RestOfBegin(states: seq<System>, actions: seq<Action>, s: System, n: Name, intent: Journal)
    returns (more: seq<System>, done: seq<Action>, q: System)
    requires Reaches(states, actions, s) && Inv(s) && n.Canonical?
    requires MayBeginWrite(s, n) && s.handles[n].journal == intent && FilesNow(s.disk) == map[n := Partial]
    ensures Reaches(more, done, q) && done == actions + [BeginWrite(n), BeginFileSync(n), BeginSync(n)]
            && Calm(q, n, intent)
    ensures n in q.acks && intent in q.acks[n]
  {
    hide Reaches, Inv;
    InvIsValid(s);
    FirstWrite(s, n, intent);
    var r := BeginWritten(s, n);
    hide MayBeginWrite, FilesNow;
    OneStep(states, actions, s, BeginWrite(n));
    more, done, q := EndOfBegin(states + [r], actions + [BeginWrite(n)], r, n, intent);
  }

  lemma EndOfBegin(states: seq<System>, actions: seq<Action>, r: System, n: Name, intent: Journal)
    returns (more: seq<System>, done: seq<Action>, q: System)
    requires Reaches(states, actions, r) && Inv(r) && n.Canonical?
    requires Opens(r, n, true, false) && r.handles[n].journal == intent
             && FilesNow(r.disk) == map[n := Complete(intent)]
    ensures Reaches(more, done, q) && done == actions + [BeginFileSync(n), BeginSync(n)] && Calm(q, n, intent)
    ensures n in q.acks && intent in q.acks[n]
  {
    hide Reaches, Inv;
    InvIsValid(r);
    FirstFileSync(r, n, intent);
    var u := BeginFileSynced(r, n);
    InvIsValid(u);
    OpenedIsCalm(u, n, intent);
    hide Opens, Calm, FilesNow;
    OneStep(states, actions, r, BeginFileSync(n));
    OneStep(states + [u], actions + [BeginFileSync(n)], u, BeginSync(n));
    q := BeginSynced(u, n);
    more, done := states + [u] + [q], actions + [BeginFileSync(n)] + [BeginSync(n)];
  }

  // ---------------------------------------------------------------- finalize after a failed record

  /**
   The launcher's own path: a record fails after its temporary is created, and `finalize` is called on
   the handle. The journal goes, the temporary stays, and recovery refuses the store.
   */
  lemma FailedRecordThenFinalize(
    states: seq<System>, actions: seq<Action>, s: System, n: Name, j: Journal, input: Input, next: Journal)
    returns (more: seq<System>, done: seq<Action>, q: System)
    requires Reaches(states, actions, s) && Calm(s, n, j) && Records(j, input, next)
    ensures Reaches(more, done, q) && done == actions + [RecordCreate(n, input, next), CallFails(n), FinalizeRemove(n)]
    ensures D.Valid(q.disk) && LoadOutcome(FilesNow(q.disk)) == None
  {
    hide Records, Reaches, Calm, Inv, MayRecordCreate;
    CreatedFromCalm(s, n, j, input, next);
    CalmHasNoTemporary(s, n, j);
    var s1 := RecordCreated(s, n, next);
    var f := FilesNow(s.disk)[TempOf(j) := Partial];
    MidwayFacts(s1, n, j, next, Created, FilesNow(s.disk), f);
    hide Midway;
    OneStep(states, actions, s, RecordCreate(n, input, next));
    q := FailAndFinalize(states + [s1], actions + [RecordCreate(n, input, next)], s1, n, j);
    var s2 := CallFailed(s1, n);
    more := states + [s1] + [s2] + [q];
    done := actions + [RecordCreate(n, input, next)] + [CallFails(n)] + [FinalizeRemove(n)];
  }

  lemma FailAndFinalize(states: seq<System>, actions: seq<Action>, s: System, n: Name, j: Journal)
    returns (q: System)
    requires Reaches(states, actions, s) && Inv(s) && Writes(s, n, Created) && s.handles[n].journal == j
    requires TempOf(j) in FilesNow(s.disk)
    ensures Reaches(states + [CallFailed(s, n)] + [q], actions + [CallFails(n)] + [FinalizeRemove(n)], q)
    ensures D.Valid(q.disk) && LoadOutcome(FilesNow(q.disk)) == None
  {
    hide Reaches, Inv, LoadOutcome;
    InvIsValid(s);
    CallFailKeeps(s, n);
    var r := CallFailed(s, n);
    OneStep(states, actions, s, CallFails(n));
    FinalizeIsRefusedExactly(r, n);
    q := FinalizeRemoved(r, n);
    hide FilesNow;
    OneStep(states + [r], actions + [CallFails(n)], r, FinalizeRemove(n));
  }

  // ---------------------------------------------------------------- all of it happens

  /** Two children that one freshly begun slot could record. */
  lemma SomeChild(intent: Journal, pid: int) returns (input: Input, next: Journal)
    requires Loadable(intent) && intent.content.stage == IntentStage
    ensures Records(intent, input, next) && input.TheChild? && input.child.body.pid == pid
    ensures next.content.child == Some(input.child)
  {
    var c := intent.content;
    var body := ChildBody(c.invocation, c.request, c.mapping, c.directory.identity, pid, "", "", true);
    input := TheChild(Child(OfChild(body), body));
    var content := Assign(c, input);
    next := Journal(OfSlot(content), content);
  }

  lemma FirstBegin() returns (states: seq<System>, actions: seq<Action>, s: System, n: Name, intent: Journal)
    ensures Reaches(states, actions, s) && Calm(s, n, intent) && Loadable(intent) && intent.content.stage == IntentStage
    ensures n in s.acks && intent in s.acks[n] && forall a <- actions :: !a.FinalizeRemove?
  {
    intent := SomeIntent();
    n := NameOf(intent);
    states, actions, s := FirstSlot(intent);
  }

  /** A run of six calls after which recovery refuses a store with nothing half-written in it. */
  lemma RefusedAfterFinalize() returns (states: seq<System>, actions: seq<Action>, q: System)
    ensures Reaches(states, actions, q) && D.Valid(q.disk) && LoadOutcome(FilesNow(q.disk)) == None
  {
    hide Reaches, Calm, Records, Loadable, LoadOutcome;
    var s, n, intent;
    states, actions, s, n, intent := FirstBegin();
    var input, next := SomeChild(intent, 1);
    states, actions, q := FailedRecordThenFinalize(states, actions, s, n, intent, input, next);
  }

  /**
   Recovery returned one child for a slot, and the same slot life acknowledged another. What was read
   back was not durable; `OkIsNeverLost` is about what calls acknowledged.
   */
  lemma ReadBackMayChange()
    returns (states: seq<System>, actions: seq<Action>, returned: System, q: System, n: Name, first: Child,
      second: Child)
    ensures Reaches(states, actions, q) && returned in states && returned.running && q.running
    ensures n in returned.handles && returned.handles[n].journal.content.child == Some(first)
    ensures n in q.handles && q.handles[n].journal.content.child == Some(second) && n in q.acks
    ensures first != second
  {
    hide Reaches, Calm, Records, Loadable;
    var s, intent;
    states, actions, s, n, intent := FirstBegin();
    var one, a := SomeChild(intent, 1);
    var two, b := SomeChild(intent, 2);
    first, second := one.child, two.child;
    states, actions, returned, q := ReturnedAndTakenBack(states, actions, s, n, intent, one, a);
    ghost var before := states;
    assert returned in before;
    states, actions, q := RecordedRun(states, actions, q, n, intent, two, b);
    assert returned in states by {
      var k :| 0 <= k < |before| && before[k] == returned;
      assert states[k] == before[k];
    }
    CalmRests(q, n, b);
  }

  lemma CalmRests(s: System, n: Name, j: Journal)
    requires Calm(s, n, j)
    ensures s.running && n in s.handles && s.handles[n].journal == j
  {
    hide Inv;
  }
}
