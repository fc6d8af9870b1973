/**
 Where recovery refuses a store, or returns what a later crash takes back: the exact conditions, and
 runs of the launcher's own calls that lead there.
 */
module SlotRefusals {
  import opened Wrappers
  import opened Protocol
  import opened Names
  import opened SlotJournal
  import opened SlotStore
  import opened SlotMachine
  import opened SlotRuns
  import D = Durability

  lemma RunExtended(states: seq<System>, actions: seq<Action>, a: Action)
    requires Run(states, actions)
    requires var s := states[|states| - 1]; D.Valid(s.disk) && Enabled(s, a)
    ensures Run(states + [Perform(states[|states| - 1], a)], actions + [a])
  {
    hide Enabled, Perform;
  }

  /** A run that ends in this state. */
  ghost predicate Reaches(states: seq<System>, actions: seq<Action>, s: System) {
    Run(states, actions) && states[|states| - 1] == s
  }

  lemma ReachesInitial()
    ensures Reaches([Initial()], [], Initial())
  {
  }

  lemma OneStep(states: seq<System>, actions: seq<Action>, s: System, a: Action)
    requires Reaches(states, actions, s) && D.Valid(s.disk) && Enabled(s, a)
    ensures Reaches(states + [Perform(s, a)], actions + [a], Perform(s, a))
    ensures |states| == |actions| + 1
  {
    hide Enabled, Perform;
    RunExtended(states, actions, a);
  }

  lemma RecoveryStep(states: seq<System>, actions: seq<Action>, s: System)
    requires Reaches(states, actions, s) && D.Valid(s.disk) && MayRecoverDone(s)
    ensures Reaches(states + [RecoveredSystem(s)], actions + [RecoverDone], RecoveredSystem(s))
  {
    hide Reaches, MayRecoverDone, Slots;
    OneStep(states, actions, s, RecoverDone);
  }

  lemma ReachedKeeps(states: seq<System>, actions: seq<Action>, s: System)
    requires Reaches(states, actions, s)
    ensures Inv(s)
  {
    hide Enabled, Perform, Inv;
    RunKeeps(states, actions, |states| - 1);
  }

  // ---------------------------------------------------------------- a half-written begin

  /** A journal that `begin` may be asked to write. */
  lemma SomeIntent() returns (intent: Journal)
    ensures Loadable(intent) && intent.content.stage == IntentStage
  {
    var digest := PREFIX + seq(64, _ => '0');
    assert digest[..7] == PREFIX && digest[7..] == seq(64, _ => '0');
    var wd := DirectoryBody("/", 0, 0, true);
    var content := IntentContent("i", digest, digest, WorkingDirectory(OfDirectory(wd), wd));
    intent := Journal(OfSlot(content), content);
  }

  /** From the creation of its journal to the end of the write, a crash of `begin` makes recovery refuse the store. */
  lemma BeginWindowIsRefused(s: System, intent: Journal)
    requires Inv(s) && MayBeginCreate(s, intent)
    ensures D.Valid(BeginCreated(s, intent).disk)
    ensures LoadOutcome(FilesNow(BeginCreated(s, intent).disk)) == None
  {
    BeginCreateShape(s, intent);
    hide Inv, Loadable, TouchesOnly;
    var f := FilesNow(BeginCreated(s, intent).disk);
    assert NameOf(intent) in f && f[NameOf(intent)].Partial?;
    assert HalfWritten(f);
    DamagedIsRefused(f);
  }

  /** The first call of the first slot, cut short. */
  lemma HalfWrittenBegin() returns (states: seq<System>, actions: seq<Action>)
    ensures Run(states, actions) && |actions| == 2 && actions[0].BeginCreate? && actions[1].ProcessCrash?
    ensures D.Valid(states[2].disk) && LoadOutcome(FilesNow(states[2].disk)) == None
  {
    var intent := SomeIntent();
    ReachesInitial();
    InitialInv();
    BeginWindowIsRefused(Initial(), intent);
    FirstCallCut(intent);
    states, actions := [Initial(), BeginCreated(Initial(), intent)], [BeginCreate(intent)];
    assert states == [Initial()] + [BeginCreated(Initial(), intent)];
    hide Inv, Loadable;
    OneStep(states, actions, states[1], ProcessCrash);
    states, actions := states + [Crashed(states[1], states[1].disk)], actions + [ProcessCrash];
  }

  lemma FirstCallCut(intent: Journal)
    requires MayBeginCreate(Initial(), intent)
    ensures Reaches([Initial()] + [BeginCreated(Initial(), intent)], [BeginCreate(intent)],
            BeginCreated(Initial(), intent))
  {
    hide Loadable;
    ReachesInitial();
    OneStep([Initial()], [], Initial(), BeginCreate(intent));
    assert [] + [BeginCreate(intent)] == [BeginCreate(intent)];
  }

  // ---------------------------------------------------------------- finalize after a failed record

  /** Removing a journal leaves an orphan exactly when there was one or the journal's temporary is there. */
  lemma RemovalOrphans(f: Dir, p: map<Name, set<Journal>>, a: map<Name, seq<Journal>>, n: Name)
    requires PossibleOk(p) && ImageOk(f, p, a) && n in f && n.Canonical? && f[n].Complete?
    ensures Orphaned(f - {n}) <==> Orphaned(f) || TempOf(f[n].journal) in f
    ensures HalfWritten(f - {n}) <==> HalfWritten(f)
  {
    var t := TempOf(f[n].journal);
    if Orphaned(f) {
      OrphanStays(f, n);
    }
    if t in f {
      RemovalOrphansOwn(f, p, a, n);
    }
    if Orphaned(f - {n}) && !Orphaned(f) {
      NewOrphanIsOwn(f, n);
    }
    hide ImageOk, PossibleOk, Orphaned;
    if HalfWritten(f) {
      var m :| m in f && m.Canonical? && f[m].Partial?;
      assert m in f - {n};
    }
  }

  lemma OrphanStays(f: Dir, n: Name)
    requires Orphaned(f) && n.Canonical?
    ensures Orphaned(f - {n})
  {
    var u :| u in f && u.Temporary? && forall m :: !Paired(f, u, m);
    var g: Dir := f - {n};
    forall m ensures !Paired(g, u, m) {
      assert !Paired(f, u, m);
    }
    assert u in g;
  }

  lemma RemovalOrphansOwn(f: Dir, p: map<Name, set<Journal>>, a: map<Name, seq<Journal>>, n: Name)
    requires PossibleOk(p) && ImageOk(f, p, a) && n in f && n.Canonical? && f[n].Complete?
    requires TempOf(f[n].journal) in f
    ensures Orphaned(f - {n})
  {
    hide Step, Good;
    var g: Dir := f - {n};
    var t := TempOf(f[n].journal);
    forall m ensures !Paired(g, t, m) {
      assert m in f && m.Canonical? && f[m].Complete? ==> f[m].journal in p[m];
      assert f[n].journal in p[n];
    }
    assert t in g;
  }

  lemma NewOrphanIsOwn(f: Dir, n: Name)
    requires Orphaned(f - {n}) && !Orphaned(f) && n in f && n.Canonical? && f[n].Complete?
    ensures TempOf(f[n].journal) in f
  {
    var g: Dir := f - {n};
    var u :| u in g && u.Temporary? && forall m :: !Paired(g, u, m);
    var m :| Paired(f, u, m);
    assert m != n ==> Paired(g, u, m);
  }

  lemma FinalizeNeeds(s: System, n: Name)
    requires D.Valid(s.disk) && MayFinalize(s, n) && HandleOk(s, n, s.handles[n])
    ensures n in FilesNow(s.disk) && FilesNow(s.disk)[n].Complete?
    ensures TempOf(FilesNow(s.disk)[n].journal) == TempOf(s.handles[n].journal)
  {
    hide Loadable, IsDirectSuccessor;
  }

  /**
   After `finalize` has removed a journal, recovery refuses the store exactly when a journal is
   half-written, a temporary was orphaned before, or this slot's own temporary is still there. The last
   is what a record leaves that failed while writing it.
   */
  lemma FinalizeIsRefusedExactly(s: System, n: Name)
    requires Inv(s) && MayFinalize(s, n)
    ensures D.Valid(s.disk) && D.Valid(FinalizeRemoved(s, n).disk)
    ensures LoadOutcome(FilesNow(FinalizeRemoved(s, n).disk)).None? <==>
              HalfWritten(FilesNow(s.disk)) || Orphaned(FilesNow(s.disk))
                || TempOf(s.handles[n].journal) in D.Current(s.disk)
  {
    InvIsValid(s);
    FinalizeRemoveKeeps(s, n);
    assert HandleOk(s, n, s.handles[n]) && n.Canonical?;
    assert PossibleOk(s.possible) && ImageOk(FilesNow(s.disk), s.possible, s.acks);
    FinalizeNeeds(s, n);
    FilesAfterIssue(s.disk, D.Unlink(n));
    RemovalOrphans(FilesNow(s.disk), s.possible, s.acks, n);
    LeftWhole(FinalizeRemoved(s, n).disk, |s.disk.log| + 1);
    CrashImage(FinalizeRemoved(s, n), |s.disk.log| + 1, {});
    hide Inv, HandleOk, ImageOk, PossibleOk, LoadOutcome, HalfWritten, Orphaned;
  }

  // ---------------------------------------------------------------- runs without such a finalize

  /** `finalize` is called only when the slot's temporary is gone. */
  ghost predicate Tidy(s: System, a: Action)
    requires D.Valid(s.disk)
  {
    a.FinalizeRemove? && a.slot in s.handles ==> TempOf(s.handles[a.slot].journal) !in D.Current(s.disk)
  }

  ghost predicate NoOrphans(s: System) {
    D.Valid(s.disk) && forall k :: 0 <= k <= |s.disk.log| ==> !Orphaned(FilesAt(s.disk, k))
  }

  /** Every temporary of `f` still has its journal in `g`. */
  lemma StillPaired(f: Dir, g: Dir)
    requires !Orphaned(f)
    requires forall t :: t in g && t.Temporary? ==> t in f || exists n :: Paired(g, t, n)
    requires forall t, n :: Paired(f, t, n) && t in g ==> Paired(g, t, n)
    ensures !Orphaned(g)
  {
    forall t | t in g && t.Temporary? ensures exists n :: Paired(g, t, n) {
      if t in f {
        var n :| Paired(f, t, n);
        assert Paired(g, t, n);
      }
    }
  }

  lemma CreateKeepsOwners(f: Dir, name: Name, n: Name)
    requires !Orphaned(f) && name !in f
    requires name.Temporary? ==> n in f && n.Canonical? && f[n].Complete? && TempOf(f[n].journal) == name
    ensures !Orphaned(f[name := Partial])
  {
    var g: Dir := f[name := Partial];
    if name.Temporary? {
      assert Paired(g, name, n);
    }
    StillPaired(f, g);
  }

  lemma FillKeepsOwners(f: Dir, name: Name, j: Journal)
    requires !Orphaned(f) && name in f && (name.Temporary? || f[name].Partial?)
    ensures !Orphaned(f[name := Complete(j)])
  {
    var g: Dir := f[name := Complete(j)];
    StillPaired(f, g);
  }

  lemma UnlinkKeepsOwners(f: Dir, name: Name)
    requires !Orphaned(f)
    requires name in f && name.Canonical? ==> f[name].Complete? && TempOf(f[name].journal) !in f
    ensures !Orphaned(f - {name})
  {
    var g: Dir := f - {name};
    StillPaired(f, g);
  }

  lemma MoveKeepsOwners(f: Dir, t: Name, n: Name)
    requires !Orphaned(f) && t in f && t.Temporary? && n.Canonical?
    requires n in f && f[n].Complete? && TempOf(f[n].journal) == t
    ensures !Orphaned((f - {t})[n := f[t]])
  {
    var g: Dir := (f - {t})[n := f[t]];
    StillPaired(f, g);
  }

  lemma CreateNoOrphans(s: System, a: Action)
    requires Inv(s) && NoOrphans(s) && Enabled(s, a) && (a.BeginCreate? || a.RecordCreate?)
    ensures NoOrphans(Perform(s, a))
  {
    hide Step, Records, Loadable, PossibleOk, AcksOk, ImageOk, BlankOk, HalvesOk, HandleOk, NoOrphans;
    if a.BeginCreate? {
      CreatedNoOrphans(s.disk, NameOf(a.intent), NameOf(a.intent), s, BeginCreated(s, a.intent));
    } else {
      RestingFiles(s, a.slot);
      CreatedNoOrphans(s.disk, TempOf(s.handles[a.slot].journal), a.slot, s, RecordCreated(s, a.slot, a.next));
    }
  }

  lemma RestingFiles(s: System, n: Name)
    requires D.Valid(s.disk) && Rests(s, n) && HandleOk(s, n, s.handles[n])
    ensures n in FilesNow(s.disk) && FilesNow(s.disk)[n] == Complete(s.handles[n].journal)
  {
    hide Step;
  }

  lemma CreatedNoOrphans(d: SlotDisk, name: Name, n: Name, s: System, r: System)
    requires NoOrphans(s) && s.disk == d && r.disk == D.Create(d, name, Partial) && name !in D.Current(d)
    requires name.Temporary? ==>
               n in FilesNow(d) && n.Canonical? && FilesNow(d)[n].Complete? && TempOf(FilesNow(d)[n].journal) == name
    ensures NoOrphans(r)
  {
    hide Orphaned;
    FilesAfterCreate(d, name);
    CreateKeepsOwners(FilesNow(d), name, n);
  }

  lemma BeginWriteNoOrphans(s: System, n: Name)
    requires Inv(s) && NoOrphans(s) && MayBeginWrite(s, n)
    ensures NoOrphans(BeginWritten(s, n))
  {
    hide Step, Loadable, PossibleOk, AcksOk, ImageOk, BlankOk, HalvesOk, HandleOk, OnlyName, Orphaned;
    var h := s.handles[n];
    var r := BeginWritten(s, n);
    BeginWriteImages(s, n, 0);
    forall k | 0 <= k <= |r.disk.log| ensures !Orphaned(FilesAt(r.disk, k)) {
      WriteOneName(s.disk, h.phase.inode, Complete(h.journal), n, k);
      BlankIsPartial(s.disk, h.phase.inode, n, k);
      if n in FilesAt(s.disk, k) && D.Image(s.disk, k)[n] == h.phase.inode {
        FillKeepsOwners(FilesAt(s.disk, k), n, h.journal);
      }
    }
  }

  lemma BlankIsPartial(d: SlotDisk, inode: nat, x: Name, k: nat)
    requires D.Valid(d) && k <= |d.log| && OnlyName(d, inode, x)
    ensures x in FilesAt(d, k) && D.Image(d, k)[x] == inode ==> FilesAt(d, k)[x].Partial?
  {
  }

  lemma RecordWriteNoOrphans(s: System, n: Name)
    requires Inv(s) && NoOrphans(s) && MayRecordWrite(s, n)
    ensures NoOrphans(RecordWritten(s, n))
  {
    hide Step, Loadable, PossibleOk, AcksOk, ImageOk, BlankOk, HalvesOk, HandleOk, OnlyName, Orphaned;
    var h := s.handles[n];
    var t := TempOf(h.journal);
    var r := RecordWritten(s, n);
    RecordWriteImages(s, n, 0);
    forall k | 0 <= k <= |r.disk.log| ensures !Orphaned(FilesAt(r.disk, k)) {
      WriteOneName(s.disk, h.phase.inode, Complete(h.phase.next), t, k);
      if t in FilesAt(s.disk, k) && D.Image(s.disk, k)[t] == h.phase.inode {
        FillKeepsOwners(FilesAt(s.disk, k), t, h.phase.next);
      }
    }
  }

  lemma RenameNoOrphans(s: System, a: Action)
    requires Inv(s) && NoOrphans(s) && Enabled(s, a) && Tidy(s, a)
    requires a.RecordRename? || a.RenameFails? || a.FinalizeRemove?
    ensures NoOrphans(Perform(s, a))
  {
    if a.RecordRename? {
      RecordRenameNoOrphans(s, a.slot);
    } else {
      UnlinkNoOrphans(s, a);
    }
  }

  lemma RecordRenameNoOrphans(s: System, n: Name)
    requires Inv(s) && NoOrphans(s) && Writes(s, n, Filled)
    ensures NoOrphans(RecordRenamed(s, n))
  {
    hide Step, PossibleOk, AcksOk, ImageOk, BlankOk, HalvesOk, HandleOk, Orphaned;
    var t := TempOf(s.handles[n].journal);
    FilledFiles(s, n);
    FilesAfterIssue(s.disk, D.Move(t, n));
    MoveKeepsOwners(FilesNow(s.disk), t, n);
  }

  lemma UnlinkNoOrphans(s: System, a: Action)
    requires Inv(s) && NoOrphans(s) && Enabled(s, a) && Tidy(s, a) && (a.RenameFails? || a.FinalizeRemove?)
    ensures NoOrphans(Perform(s, a))
  {
    hide Step, PossibleOk, AcksOk, ImageOk, BlankOk, HalvesOk, HandleOk, Orphaned;
    var name := if a.RenameFails? then TempOf(s.handles[a.slot].journal) else a.slot;
    if a.FinalizeRemove? {
      FinalizeNeeds(s, a.slot);
    }
    FilesAfterIssue(s.disk, D.Unlink(name));
    UnlinkKeepsOwners(FilesNow(s.disk), name);
  }

  lemma FilledFiles(s: System, n: Name)
    requires D.Valid(s.disk) && Writes(s, n, Filled) && HandleOk(s, n, s.handles[n])
    ensures var f, h := FilesNow(s.disk), s.handles[n];
            && n in f && f[n] == Complete(h.journal)
            && TempOf(h.journal) in f && f[TempOf(h.journal)] == Complete(h.phase.next)
  {
    hide Step;
  }

  lemma RecoveryNoOrphans(s: System, op: D.Op<Name>)
    requires NoOrphans(s) && Enabled(s, RecoverOp(op))
    ensures NoOrphans(s.(disk := D.Issue(s.disk, op)))
  {
    hide Loadable, IsDirectSuccessor, Orphaned, CanonicalsOk, Owners;
    FilesAfterIssue(s.disk, op);
    if op.Unlink? {
      UnlinkKeepsOwners(FilesNow(s.disk), op.name);
    } else {
      MoveKeepsOwners(FilesNow(s.disk), op.from, op.to);
    }
  }

  lemma QuietNoOrphans(s: System, a: Action)
    requires NoOrphans(s) && Enabled(s, a)
    requires a.BeginFileSync? || a.RecordFileSync? || a.BeginSync? || a.RecordSync? || a.FinalizeSync? || a.CallFails?
             || a.StraySync? || a.ProcessCrash? || a.RecoverDone?
    ensures NoOrphans(Perform(s, a))
  {
    hide Step, Loadable, Accepts, Slots, Orphaned;
    FilesAfterFlush(s.disk);
    if a.BeginFileSync? || a.RecordFileSync? {
      FilesAfterSyncFile(s.disk, s.handles[a.slot].phase.inode);
    }
  }

  lemma StepNoOrphans(s: System, a: Action)
    requires Inv(s) && NoOrphans(s) && Enabled(s, a) && Tidy(s, a) && !a.MachineCrash?
    ensures NoOrphans(Perform(s, a))
  {
    hide Inv, NoOrphans;
    match a
    case BeginCreate(_) => CreateNoOrphans(s, a);
    case RecordCreate(_, _, _) => CreateNoOrphans(s, a);
    case BeginWrite(n) => BeginWriteNoOrphans(s, n);
    case RecordWrite(n) => RecordWriteNoOrphans(s, n);
    case RecordRename(_) => RenameNoOrphans(s, a);
    case RenameFails(_) => RenameNoOrphans(s, a);
    case FinalizeRemove(_) => RenameNoOrphans(s, a);
    case RecoverOp(op) => RecoveryNoOrphans(s, op);
    case _ => QuietNoOrphans(s, a);
  }

  /** A store whose recovery is blocked by a half-written journal, in every image. */
  ghost predicate Stuck(s: System) {
    && D.Valid(s.disk) && !s.running
    && forall k :: 0 <= k <= |s.disk.log| ==> HalfWritten(FilesAt(s.disk, k))
  }

  /** Tearing files orphans a temporary only by tearing its journal, which is then half-written. */
  lemma TornOrphan(f: Dir, g: Dir)
    requires g.Keys == f.Keys && forall x :: x in f ==> g[x] == f[x] || g[x] == Partial
    ensures !Orphaned(f) && Orphaned(g) ==> HalfWritten(g)
    ensures HalfWritten(f) ==> HalfWritten(g)
  {
    if !Orphaned(f) && Orphaned(g) {
      var t :| t in g && t.Temporary? && forall n :: !Paired(g, t, n);
      var n :| Paired(f, t, n);
      assert !Paired(g, t, n);
      assert n in g && n.Canonical? && g[n].Partial?;
    }
    if HalfWritten(f) {
      var n :| n in f && n.Canonical? && f[n].Partial?;
      assert n in g && g[n].Partial?;
    }
  }

  lemma CrashIsTidy(s: System, a: Action)
    requires (NoOrphans(s) || Stuck(s)) && D.Valid(s.disk) && Enabled(s, a) && a.MachineCrash?
    ensures NoOrphans(Perform(s, a)) || Stuck(Perform(s, a))
  {
    LeftFiles(s.disk, a.kept, a.torn);
    D.ImagesAfterCrash(s.disk, a.kept, a.torn, Partial);
    var g := Left(s.disk, a.kept, a.torn);
    TornOrphan(FilesAt(s.disk, a.kept), g);
    assert FilesAt(Perform(s, a).disk, 0) == g;
  }

  lemma StuckStays(s: System, a: Action)
    requires Stuck(s) && Inv(s) && Enabled(s, a) && !a.MachineCrash?
    ensures Stuck(Perform(s, a))
  {
    assert HalfWritten(FilesNow(s.disk));
    DamagedIsRefused(FilesNow(s.disk));
    HalfIsNotOk(FilesNow(s.disk));
    hide Inv, Step, Loadable, Accepts, Slots, HalfWritten, CanonicalsOk, Owners, Promotable;
    FilesAfterFlush(s.disk);
  }

  lemma HalfIsNotOk(f: Dir)
    requires HalfWritten(f)
    ensures !CanonicalsOk(f)
  {
    hide Loadable;
    var n :| n in f && n.Canonical? && f[n].Partial?;
    assert !CanonicalOk(f, n);
  }

  ghost predicate TidyRun(states: seq<System>, actions: seq<Action>) {
    Run(states, actions) && forall i :: 0 <= i < |actions| ==> D.Valid(states[i].disk) && Tidy(states[i], actions[i])
  }

  lemma {:induction false} TidyRunHasNoOrphans(states: seq<System>, actions: seq<Action>, i: nat)
    requires TidyRun(states, actions) && i < |states|
    ensures NoOrphans(states[i]) || Stuck(states[i])
  {
    hide Inv, Enabled, Perform, NoOrphans, Tidy, Stuck;
    if i == 0 {
      InitialHasNoOrphans();
    } else {
      TidyRunHasNoOrphans(states, actions, i - 1);
      RunKeeps(states, actions, i - 1);
      var s, a := states[i - 1], actions[i - 1];
      if a.MachineCrash? {
        CrashIsTidy(s, a);
      } else if NoOrphans(s) {
        StepNoOrphans(s, a);
      } else {
        StuckStays(s, a);
      }
    }
  }

  lemma InitialHasNoOrphans()
    ensures NoOrphans(Initial())
  {
  }

  /**
   Where `finalize` is never called over a leftover temporary, a crash makes recovery refuse exactly
   when it leaves a half-written journal.
   */
  lemma TidyCrashRefinement(states: seq<System>, actions: seq<Action>, i: nat, k: nat, torn: set<nat>)
    requires TidyRun(states, actions) && i < |states| && k <= |states[i].disk.log|
    ensures D.Valid(states[i].disk)
    ensures LoadOutcome(Left(states[i].disk, k, torn)).None? <==> HalfWritten(Left(states[i].disk, k, torn))
  {
    hide Inv, Enabled, Perform, Orphaned, HalfWritten, LoadOutcome, Tidy, Slots, Life;
    TidyRunHasNoOrphans(states, actions, i);
    CrashRefinement(states, actions, i, k, torn);
    var s := states[i];
    LeftFiles(s.disk, k, torn);
    TornOrphan(FilesAt(s.disk, k), Left(s.disk, k, torn));
  }
}
