/** Write-once progress: how the journal of one slot changes while the machine does not crash. */
module SlotProgress {
  import opened Wrappers
  import opened Protocol
  import opened Names
  import opened SlotJournal
  import opened SlotStore
  import opened SlotMachine
  import opened SlotRuns
  import D = Durability

  /** The journal that a reader finds under a name now. */
  ghost function Shown(s: System, n: Name): Option<Journal>
    requires D.Valid(s.disk)
  {
    var f := FilesNow(s.disk);
    if n in f && f[n].Complete? then Some(f[n].journal) else None
  }

  /** The same journal, or one that continues it directly. */
  ghost predicate Continued(before: Option<Journal>, after: Option<Journal>) {
    before.Some? ==> after.Some? && (after == before || Step(before.value, after.value))
  }

  lemma CreateShows(s: System, a: Action, n: Name)
    requires Inv(s) && Enabled(s, a) && n.Canonical? && (a.BeginCreate? || a.RecordCreate?)
    ensures D.Valid(s.disk) && D.Valid(Perform(s, a).disk)
    ensures Continued(Shown(s, n), Shown(Perform(s, a), n))
  {
    hide Step, Records, Loadable, PossibleOk, AcksOk, ImageOk, HandleOk, BlankOk, HalvesOk;
    FilesAfterCreate(s.disk, if a.BeginCreate? then NameOf(a.intent) else TempOf(s.handles[a.slot].journal));
  }

  lemma FillShows(s: System, a: Action, n: Name)
    requires Inv(s) && Enabled(s, a) && n.Canonical? && (a.BeginWrite? || a.RecordWrite?)
    ensures D.Valid(s.disk) && D.Valid(Perform(s, a).disk)
    ensures Continued(Shown(s, n), Shown(Perform(s, a), n))
  {
    hide Step, Loadable, PossibleOk, AcksOk, ImageOk, BlankOk, HalvesOk;
    if a.BeginWrite? {
      assert HandleOk(s, a.slot, s.handles[a.slot]);
      BeginWriteImages(s, a.slot, |s.disk.log|);
    } else {
      RecordWriteImages(s, a.slot, |s.disk.log|);
    }
  }

  lemma RenameShows(s: System, a: Action, n: Name)
    requires Inv(s) && Enabled(s, a) && n.Canonical? && (a.RecordRename? || a.RenameFails? || a.FinalizeRemove?)
    requires a != FinalizeRemove(n)
    ensures D.Valid(s.disk) && D.Valid(Perform(s, a).disk)
    ensures Continued(Shown(s, n), Shown(Perform(s, a), n))
  {
    hide Step, Loadable, PossibleOk, AcksOk, ImageOk, BlankOk, HalvesOk;
    var t := TempOf(s.handles[a.slot].journal);
    assert HandleOk(s, a.slot, s.handles[a.slot]);
    FilesAfterIssue(s.disk,
      if a.RecordRename? then D.Move(t, a.slot) else if a.RenameFails? then D.Unlink(t) else D.Unlink(a.slot));
  }

  lemma RecoveryShows(s: System, a: Action, n: Name)
    requires D.Valid(s.disk) && Enabled(s, a) && n.Canonical? && a.RecoverOp?
    ensures D.Valid(Perform(s, a).disk)
    ensures Continued(Shown(s, n), Shown(Perform(s, a), n))
  {
    FilesAfterIssue(s.disk, a.op);
    if Shown(s, n).Some? {
      RecoveryOpKeepsJournals(FilesNow(s.disk), a.op, n);
    }
  }

  /** A journal on disk is only ever replaced by its direct successor; its own finalization alone removes it. */
  lemma ChangeIsStep(s: System, a: Action, n: Name)
    requires Inv(s) && Enabled(s, a) && n.Canonical? && !a.MachineCrash? && a != FinalizeRemove(n)
    ensures D.Valid(s.disk) && D.Valid(Perform(s, a).disk)
    ensures Continued(Shown(s, n), Shown(Perform(s, a), n))
  {
    InvIsValid(s);
    hide Inv;
    if a.BeginCreate? || a.RecordCreate? {
      CreateShows(s, a, n);
    } else if a.BeginWrite? || a.RecordWrite? {
      FillShows(s, a, n);
    } else if a.RecordRename? || a.RenameFails? || a.FinalizeRemove? {
      RenameShows(s, a, n);
    } else if a.RecoverOp? {
      RecoveryShows(s, a, n);
    } else {
      QuietShows(s, a, n);
    }
  }

  lemma QuietShows(s: System, a: Action, n: Name)
    requires D.Valid(s.disk) && Enabled(s, a)
    requires a.BeginFileSync? || a.RecordFileSync? || a.BeginSync? || a.RecordSync? || a.FinalizeSync? || a.CallFails?
             || a.StraySync? || a.ProcessCrash? || a.RecoverDone?
    ensures D.Valid(Perform(s, a).disk) && Shown(Perform(s, a), n) == Shown(s, n)
  {
    hide Step, Loadable, Accepts, Slots;
    FilesAfterFlush(s.disk);
    if a.BeginFileSync? || a.RecordFileSync? {
      FilesAfterSyncFile(s.disk, s.handles[a.slot].phase.inode);
    }
  }

  lemma ShownIsCumulative(s: System, n: Name)
    requires Inv(s) && n.Canonical?
    ensures D.Valid(s.disk)
    ensures Shown(s, n).Some? ==> Cumulative(Shown(s, n).value.content)
  {
    hide AcksOk, HandleOk, BlankOk, HalvesOk, Loadable, Cumulative;
    if Shown(s, n).Some? {
      assert ImageOk(FilesNow(s.disk), s.possible, s.acks);
      assert Good(Shown(s, n).value, n);
    }
  }

  /**
   Over every run without a machine crash, through failures, process crashes and recoveries, the
   journal of a slot only moves forward until the slot is finalized: the stage never falls, and no
   child, scope, intent, consumption, completion or final decision is ever changed.
   */
  lemma {:induction false} NeverFallsBack(states: seq<System>, actions: seq<Action>, i: nat, j: nat, n: Name)
    requires Run(states, actions) && i <= j < |states| && n.Canonical?
    requires forall x :: i <= x < j ==> !actions[x].MachineCrash? && actions[x] != FinalizeRemove(n)
    ensures D.Valid(states[i].disk) && D.Valid(states[j].disk)
    ensures Shown(states[i], n).Some? ==>
              && Shown(states[j], n).Some?
              && Extends(Shown(states[i], n).value, Shown(states[j], n).value)
    decreases j
  {
    hide Inv, Enabled, Perform, Shown, Extends, Cumulative, Step;
    RunKeeps(states, actions, i);
    ShownIsCumulative(states[i], n);
    if i == j {
      if Shown(states[i], n).Some? {
        ExtendsReflexive(Shown(states[i], n).value);
      }
    } else {
      NeverFallsBack(states, actions, i, j - 1, n);
      RunKeeps(states, actions, j - 1);
      ChangeIsStep(states[j - 1], actions[j - 1], n);
      ShownIsCumulative(states[j - 1], n);
      if Shown(states[i], n).Some? && Shown(states[j], n) != Shown(states[j - 1], n) {
        StepKeepsCumulative(Shown(states[j - 1], n).value, Shown(states[j], n).value);
        ExtendsTransitive(Shown(states[i], n).value, Shown(states[j - 1], n).value, Shown(states[j], n).value);
      }
    }
  }
}
