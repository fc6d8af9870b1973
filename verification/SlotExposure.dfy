/**
 Files that were never synced. `load_all` renames a complete temporary over its journal and syncs the
 directory, but not the file. If the process that wrote the temporary died before it synced it, a
 machine crash can now tear the only copy of an acknowledged slot.
 */
module SlotExposure {
  import opened Wrappers
  import opened Protocol
  import opened Names
  import opened SlotJournal
  import opened SlotStore
  import opened SlotMachine
  import opened SlotRuns
  import D = Durability

  /** No image links the name to a file that a crash may tear. */
  ghost predicate Clean(d: SlotDisk, n: Name) {
    forall k | 0 <= k <= |d.log| :: !Exposed(d, k, n)
  }

  // ---------------------------------------------------------------- what exposure costs

  /** An acknowledged slot can be lost to a machine crash exactly when some image links its name to an unsynced file. */
  lemma LosableExactly(s: System, n: Name)
    requires Inv(s) && n in s.acks
    ensures D.Valid(s.disk)
    ensures (exists k: nat, torn | k <= |s.disk.log| && torn <= s.disk.unsynced :: Loses(s.disk, k, torn, n)) <==>
            !Clean(s.disk, n)
  {
    InvIsValid(s);
    hide Inv;
    forall k: nat, torn | k <= |s.disk.log| && torn <= s.disk.unsynced && Loses(s.disk, k, torn, n)
      ensures Exposed(s.disk, k, n)
    {
      CrashImage(s, k, torn);
    }
    if !Clean(s.disk, n) {
      var k :| 0 <= k <= |s.disk.log| && Exposed(s.disk, k, n);
      TornIsLost(s, k, s.disk.unsynced, n);
    }
  }

  /** After this crash the slot is not there for recovery, at any journal. */
  ghost predicate Loses(d: SlotDisk, k: nat, torn: set<nat>, n: Name)
    requires k <= |d.log|
  {
    D.Valid(d) && n !in Slots(Left(d, k, torn))
  }

  /** Then its journal is half-written, and recovery refuses the whole store. */
  lemma TornIsLost(s: System, k: nat, torn: set<nat>, n: Name)
    requires Inv(s) && n in s.acks && k <= |s.disk.log| && TornOff(s.disk, k, torn, n)
    ensures D.Valid(s.disk) && Loses(s.disk, k, torn, n) && LoadOutcome(Left(s.disk, k, torn)) == None
  {
    InvIsValid(s);
    assert ImageOk(FilesAt(s.disk, k), s.possible, s.acks);
    AcknowledgedHasFile(FilesAt(s.disk, k), s.possible, s.acks, n);
    hide Inv, Recovered, Loadable, Step;
    LeftFiles(s.disk, k, torn);
    var f := Left(s.disk, k, torn);
    assert n in f && n.Canonical? && f[n].Partial?;
    assert HalfWritten(f);
    DamagedIsRefused(f);
  }

  // ---------------------------------------------------------------- where exposure comes from

  lemma CleanCreate(d: SlotDisk, name: Name, n: Name)
    requires D.Valid(d) && Clean(d, n) && name != n
    ensures Clean(D.Create(d, name, Partial), n)
  {
    D.ImagesAfterCreate(d, name, Partial);
    var e := D.Create(d, name, Partial);
    forall k | 0 <= k <= |e.log| ensures !Exposed(e, k, n) {
      assert !Exposed(d, if k <= |d.log| then k else |d.log|, n);
    }
  }

  lemma CleanIssue(d: SlotDisk, op: D.Op<Name>, n: Name)
    requires Clean(d, n) && !op.Link?
    requires op.Move? && op.to == n && op.from in D.Current(d) ==> D.Current(d)[op.from] !in d.unsynced
    ensures Clean(D.Issue(d, op), n)
  {
    D.ImagesAfterIssue(d, op);
    var e := D.Issue(d, op);
    forall k | 0 <= k <= |e.log| ensures !Exposed(e, k, n) {
      assert !Exposed(d, if k <= |d.log| then k else |d.log|, n);
    }
  }

  lemma CleanWrite(d: SlotDisk, inode: nat, file: File, name: Name, n: Name)
    requires D.Valid(d) && Clean(d, n) && OnlyName(d, inode, name) && name != n
    ensures Clean(D.Write(d, inode, file), n)
  {
    D.ImagesAfterWrite(d, inode, file);
    var e := D.Write(d, inode, file);
    forall k | 0 <= k <= |e.log| ensures !Exposed(e, k, n) {
      assert !Exposed(d, k, n);
    }
  }

  lemma CleanSyncFile(d: SlotDisk, inode: nat, n: Name)
    requires Clean(d, n)
    ensures Clean(D.SyncFile(d, inode), n)
  {
    D.ImagesAfterSyncFile(d, inode);
    var e := D.SyncFile(d, inode);
    forall k | 0 <= k <= |e.log| ensures !Exposed(e, k, n) {
      assert !Exposed(d, k, n);
    }
  }

  lemma CleanFlush(d: SlotDisk, n: Name)
    requires n in D.Current(d) ==> D.Current(d)[n] !in d.unsynced
    ensures Clean(D.Flush(d), n)
  {
    D.ImagesAfterFlush(d);
  }

  lemma CleanCurrent(d: SlotDisk, n: Name)
    requires Clean(d, n)
    ensures n in D.Current(d) ==> D.Current(d)[n] !in d.unsynced
  {
    assert !Exposed(d, |d.log|, n);
  }

  /** Recovery is about to rename a temporary that was never synced. */
  ghost predicate PromotesUnsynced(s: System, a: Action) {
    && a.RecoverOp? && a.op.Move?
    && a.op.from in D.Current(s.disk) && D.Current(s.disk)[a.op.from] in s.disk.unsynced
  }

  lemma CreateStaysClean(s: System, a: Action, n: Name)
    requires Inv(s) && Enabled(s, a) && (a.BeginCreate? || a.RecordCreate?) && n in s.acks && Clean(s.disk, n)
    ensures Clean(Perform(s, a).disk, n)
  {
    hide Step, Records, Loadable, PossibleOk, AcksOk, HandleOk, BlankOk, HalvesOk, Clean;
    assert ImageOk(FilesNow(s.disk), s.possible, s.acks);
    AcknowledgedHasFile(FilesNow(s.disk), s.possible, s.acks, n);
    CleanCreate(s.disk, if a.BeginCreate? then NameOf(a.intent) else TempOf(s.handles[a.slot].journal), n);
  }

  lemma WriteStaysClean(s: System, a: Action, n: Name)
    requires Inv(s) && Enabled(s, a) && (a.BeginWrite? || a.RecordWrite?) && n in s.acks && Clean(s.disk, n)
    ensures Clean(Perform(s, a).disk, n)
  {
    hide Step, Loadable, PossibleOk, AcksOk, BlankOk, HalvesOk, Clean, OnlyName;
    assert ImageOk(FilesNow(s.disk), s.possible, s.acks);
    AcknowledgedHasFile(FilesNow(s.disk), s.possible, s.acks, n);
    var h := s.handles[a.slot];
    assert HandleOk(s, a.slot, h);
    hide ImageOk, HandleOk;
    if a.BeginWrite? {
      BeginWriteImages(s, a.slot, 0);
      CleanWrite(s.disk, h.phase.inode, Complete(h.journal), a.slot, n);
    } else {
      RecordWriteImages(s, a.slot, 0);
      CleanWrite(s.disk, h.phase.inode, Complete(h.phase.next), TempOf(h.journal), n);
    }
  }

  lemma RenameStaysClean(s: System, a: Action, n: Name)
    requires Inv(s) && Enabled(s, a) && Clean(s.disk, n) && a != FinalizeRemove(n)
    requires a.RecordRename? || a.RenameFails? || a.FinalizeRemove?
    ensures Clean(Perform(s, a).disk, n)
  {
    hide Step, Loadable, PossibleOk, AcksOk, ImageOk, BlankOk, HalvesOk, Clean;
    assert HandleOk(s, a.slot, s.handles[a.slot]);
    var t := TempOf(s.handles[a.slot].journal);
    hide HandleOk;
    CleanIssue(s.disk,
      if a.RecordRename? then D.Move(t, a.slot) else if a.RenameFails? then D.Unlink(t) else D.Unlink(a.slot), n);
  }

  /** A directory sync leaves clean what is clean, and the slot that it acknowledges. */
  lemma SyncStaysClean(s: System, a: Action, n: Name)
    requires Inv(s) && Enabled(s, a) && (a.BeginSync? || a.RecordSync? || a.FinalizeSync? || a.StraySync?)
    requires Clean(s.disk, n) || ((a.BeginSync? || a.RecordSync?) && a.slot == n)
    ensures Clean(Perform(s, a).disk, n)
  {
    hide Step, Loadable, PossibleOk, AcksOk, ImageOk, BlankOk, HalvesOk, Clean;
    if (a.BeginSync? || a.RecordSync?) && a.slot == n {
      assert HandleOk(s, a.slot, s.handles[a.slot]);
    } else {
      CleanCurrent(s.disk, n);
    }
    CleanFlush(s.disk, n);
  }

  /**
   Only a recovery that promotes an unsynced temporary exposes an acknowledged slot. A handle syncs its
   file before it renames it, and an acknowledgement is given over a synced file.
   */
  lemma ExposureIsPromotion(s: System, a: Action, n: Name)
    requires Inv(s) && Enabled(s, a) && n in Perform(s, a).acks
    requires n in s.acks ==> Clean(s.disk, n)
    requires !(PromotesUnsynced(s, a) && a.op.to == n)
    ensures Clean(Perform(s, a).disk, n)
  {
    InvIsValid(s);
    hide Inv, Clean, Loadable, Step, Records, RecoveryMay, MayRecoverDone, Slots;
    if a.RecordRename? || a.RenameFails? || a.FinalizeRemove? {
      RenameStaysClean(s, a, n);
    } else if a.BeginSync? || a.RecordSync? || a.FinalizeSync? || a.StraySync? {
      SyncStaysClean(s, a, n);
    } else if a.BeginCreate? || a.RecordCreate? {
      CreateStaysClean(s, a, n);
    } else if a.BeginWrite? || a.RecordWrite? {
      WriteStaysClean(s, a, n);
    } else {
      QuietStaysClean(s, a, n);
    }
  }

  /** And every such promotion does expose its slot. */
  lemma PromotionExposes(s: System, a: Action)
    requires D.Valid(s.disk) && Enabled(s, a) && PromotesUnsynced(s, a)
    ensures !Clean(Perform(s, a).disk, a.op.to)
  {
    hide RecoveryMay;
    D.ImagesAfterIssue(s.disk, a.op);
    var e := Perform(s, a).disk;
    assert Exposed(e, |e.log|, a.op.to);
  }

  lemma QuietStaysClean(s: System, a: Action, n: Name)
    requires D.Valid(s.disk) && Enabled(s, a) && n in Perform(s, a).acks && (n in s.acks ==> Clean(s.disk, n))
    requires a.BeginFileSync? || a.RecordFileSync? || a.CallFails? || a.ProcessCrash? || a.MachineCrash?
             || a.RecoverOp? || a.RecoverDone?
    requires !(PromotesUnsynced(s, a) && a.op.to == n)
    ensures Clean(Perform(s, a).disk, n)
  {
    hide Clean, Loadable, Step, RecoveryMay, MayRecoverDone, Slots;
    if a.BeginFileSync? || a.RecordFileSync? {
      CleanSyncFile(s.disk, s.handles[a.slot].phase.inode, n);
    } else if a.MachineCrash? {
      NothingUnsynced(s.disk, a.kept, a.torn, n);
    } else if a.RecoverOp? {
      CleanRecovery(s, a.op, n);
    }
  }

  lemma NothingUnsynced(d: SlotDisk, k: nat, torn: set<nat>, n: Name)
    requires k <= |d.log|
    ensures Clean(D.Crash(d, k, torn, Partial), n)
  {
  }

  lemma CleanRecovery(s: System, op: D.Op<Name>, n: Name)
    requires D.Valid(s.disk) && RecoveryMay(FilesNow(s.disk), op) && Clean(s.disk, n)
    requires !(PromotesUnsynced(s, RecoverOp(op)) && op.to == n)
    ensures Clean(D.Issue(s.disk, op), n)
  {
    hide Clean, CanonicalsOk, Owners, Promotable;
    CleanIssue(s.disk, op, n);
  }

  // ---------------------------------------------------------------- runs without such a promotion

  /** Every recovery promotes only temporaries that were synced. */
  ghost predicate CarefulRun(states: seq<System>, actions: seq<Action>) {
    Run(states, actions) && forall i :: 0 <= i < |actions| ==> !PromotesUnsynced(states[i], actions[i])
  }

  lemma {:induction false} AcknowledgedIsClean(states: seq<System>, actions: seq<Action>, i: nat, n: Name)
    requires CarefulRun(states, actions) && i < |states| && n in states[i].acks
    ensures Clean(states[i].disk, n)
  {
    hide Inv, Enabled, Perform, Clean, PromotesUnsynced;
    if i > 0 {
      RunKeeps(states, actions, i - 1);
      if n in states[i - 1].acks {
        AcknowledgedIsClean(states, actions, i - 1, n);
      }
      ExposureIsPromotion(states[i - 1], actions[i - 1], n);
    } else {
      InitialAcks(states, actions);
    }
  }

  lemma InitialAcks(states: seq<System>, actions: seq<Action>)
    requires Run(states, actions)
    ensures states[0].acks == map[]
  {
    hide Enabled, Perform;
  }

  /** Then an acknowledged slot is lost to no crash: only its own finalization ends it. */
  lemma CarefulOkIsNeverLost(
    states: seq<System>, actions: seq<Action>, i: nat, j: nat, n: Name, k: nat, torn: set<nat>)
    requires CarefulRun(states, actions) && i <= j < |states|
    requires k <= |states[j].disk.log| && torn <= states[j].disk.unsynced
    requires n in states[i].acks && forall x :: i <= x < j ==> actions[x] != FinalizeRemove(n)
    ensures D.Valid(states[j].disk)
    ensures n in states[j].acks && states[i].acks[n] <= states[j].acks[n]
    ensures var f := Left(states[j].disk, k, torn);
            n in Slots(f) && Life(states[i].acks[n] + [Slots(f)[n]])
  {
    hide Inv, Enabled, Perform, PromotesUnsynced, Slots, Life, Left;
    NoTear(states, actions, i, j, n);
    AcknowledgementsStand(states, actions, i, j, n);
    AcknowledgedIsClean(states, actions, j, n);
    assert !Exposed(states[j].disk, k, n);
    OkIsNeverLost(states, actions, i, j, n, k, torn);
  }

  lemma {:induction false} NoTear(states: seq<System>, actions: seq<Action>, i: nat, j: nat, n: Name)
    requires CarefulRun(states, actions) && i <= j < |states| && n in states[i].acks
    requires forall x :: i <= x < j ==> actions[x] != FinalizeRemove(n)
    ensures forall x :: i <= x < j ==> !Tears(states[x], actions[x], n)
    decreases j
  {
    hide Inv, Enabled, Perform, PromotesUnsynced, Clean, Tears;
    if i < j {
      NoTear(states, actions, i, j - 1, n);
      AcknowledgementsStand(states, actions, i, j - 1, n);
      AcknowledgedIsClean(states, actions, j - 1, n);
      CleanIsNotTorn(states[j - 1], actions[j - 1], n);
    }
  }

  lemma CleanIsNotTorn(s: System, a: Action, n: Name)
    requires D.Valid(s.disk) && Enabled(s, a) && Clean(s.disk, n)
    ensures !Tears(s, a, n)
  {
    hide RecoveryMay, MayRecoverDone, Records, Loadable;
    if a.MachineCrash? {
      assert !Exposed(s.disk, a.kept, n);
    }
  }

  /**
   Then also a running system whose store would be refused, with no orphan in it, owes this to a slot that
   nothing was acknowledged for: one that is being opened, or whose first file was never synced.
   */
  lemma CarefulLastOrNext(states: seq<System>, actions: seq<Action>, i: nat, k: nat, torn: set<nat>, n: Name)
    requires CarefulRun(states, actions) && i < |states|
    requires k <= |states[i].disk.log| && torn <= states[i].disk.unsynced
    requires states[i].running && n in states[i].handles && states[i].handles[n].clean
    ensures D.Valid(states[i].disk)
    ensures var s, f := states[i], Left(states[i].disk, k, torn);
            LoadOutcome(f).None? && !Orphaned(f) ==>
              || (exists m :: m in s.handles && s.handles[m].phase.Opening? && !s.handles[m].phase.filled)
              || (exists m: Name :: m.Canonical? && m !in s.acks && Exposed(s.disk, k, m))
  {
    hide Inv, Enabled, Perform, PromotesUnsynced, LoadOutcome, Orphaned, Left, Clean;
    LastOrNext(states, actions, i, k, torn, n);
    forall m | m in states[i].acks ensures !Exposed(states[i].disk, k, m) {
      AcknowledgedIsClean(states, actions, i, m);
      CleanHere(states[i].disk, k, m);
    }
  }

  lemma CleanHere(d: SlotDisk, k: nat, n: Name)
    requires Clean(d, n) && k <= |d.log|
    ensures !Exposed(d, k, n)
  {
  }
}
