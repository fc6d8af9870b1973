/** Slot isolation: what one slot does is invisible to the others. */
module SlotIsolation {
  import opened Wrappers
  import opened Protocol
  import opened Names
  import opened SlotJournal
  import opened SlotStore
  import opened SlotMachine
  import opened SlotRuns
  import D = Durability

  /** The slot whose call an action is a part of. */
  function SlotOf(a: Action): Option<Name> {
    match a
    case BeginCreate(intent) => Some(NameOf(intent))
    case BeginWrite(n) => Some(n)
    case BeginFileSync(n) => Some(n)
    case BeginSync(n) => Some(n)
    case RecordCreate(n, _, _) => Some(n)
    case RecordWrite(n) => Some(n)
    case RecordFileSync(n) => Some(n)
    case RecordRename(n) => Some(n)
    case RecordSync(n) => Some(n)
    case RenameFails(n) => Some(n)
    case FinalizeRemove(n) => Some(n)
    case FinalizeSync(n) => Some(n)
    case CallFails(n) => Some(n)
    case _ => None
  }

  /** Journal and temporary of the slot are the same files with the same content. */
  ghost predicate Untouched(s: System, r: System, m: Name)
    requires D.Valid(s.disk) && D.Valid(r.disk)
  {
    && m in s.handles && m in r.handles && r.handles[m] == s.handles[m]
    && SameAt(s, r, m) && SameAt(s, r, TempOf(s.handles[m].journal))
  }

  /** A disk operation leaves alone every name it does not mention. */
  ghost predicate SameFile(d: SlotDisk, e: SlotDisk, x: Name)
    requires D.Valid(d) && D.Valid(e)
  {
    && (x in D.Current(d) <==> x in D.Current(e))
    && (x in D.Current(d) ==> D.Current(e)[x] == D.Current(d)[x] && FilesNow(e)[x] == FilesNow(d)[x])
  }

  lemma CreateElsewhere(d: SlotDisk, name: Name, x: Name)
    requires D.Valid(d) && x != name
    ensures D.Valid(D.Create(d, name, Partial)) && SameFile(d, D.Create(d, name, Partial), x)
  {
    FilesAfterCreate(d, name);
  }

  lemma WriteElsewhere(d: SlotDisk, inode: nat, file: File, name: Name, x: Name)
    requires D.Valid(d) && OnlyName(d, inode, name) && x != name
    ensures D.Valid(D.Write(d, inode, file)) && SameFile(d, D.Write(d, inode, file), x)
  {
    WriteOneName(d, inode, file, name, |d.log|);
    D.ImagesAfterWrite(d, inode, file);
  }

  lemma IssueElsewhere(d: SlotDisk, op: D.Op<Name>, x: Name)
    requires D.Valid(d) && !op.Link?
    requires op.Unlink? ==> x != op.name
    requires op.Move? ==> x != op.from && x != op.to
    ensures D.Valid(D.Issue(d, op)) && SameFile(d, D.Issue(d, op), x)
  {
    FilesAfterIssue(d, op);
  }

  lemma CreateIsolated(s: System, a: Action, m: Name)
    requires Inv(s) && Enabled(s, a) && (a.BeginCreate? || a.RecordCreate?) && m in s.handles && SlotOf(a) != Some(m)
    ensures D.Valid(Perform(s, a).disk) && Untouched(s, Perform(s, a), m)
  {
    hide Step, Records, Loadable, PossibleOk, AcksOk, ImageOk, HandleOk, BlankOk, HalvesOk;
    var name := if a.BeginCreate? then NameOf(a.intent) else TempOf(s.handles[a.slot].journal);
    if a.RecordCreate? {
      TemporariesDistinct(s, a.slot, m);
    }
    CreateElsewhere(s.disk, name, m);
    CreateElsewhere(s.disk, name, TempOf(s.handles[m].journal));
    hide FilesNow, D.Current;
  }

  lemma BeginWriteIsolated(s: System, n: Name, m: Name)
    requires Inv(s) && MayBeginWrite(s, n) && m in s.handles && n != m
    ensures D.Valid(BeginWritten(s, n).disk) && Untouched(s, BeginWritten(s, n), m)
  {
    hide Step, Loadable, PossibleOk, AcksOk, ImageOk, BlankOk, HalvesOk, HandleOk, OnlyName;
    var h := s.handles[n];
    BeginWriteImages(s, n, |s.disk.log|);
    WriteElsewhere(s.disk, h.phase.inode, Complete(h.journal), n, m);
    WriteElsewhere(s.disk, h.phase.inode, Complete(h.journal), n, TempOf(s.handles[m].journal));
    hide FilesNow, D.Current;
  }

  lemma RecordWriteIsolated(s: System, n: Name, m: Name)
    requires Inv(s) && MayRecordWrite(s, n) && m in s.handles && n != m
    ensures D.Valid(RecordWritten(s, n).disk) && Untouched(s, RecordWritten(s, n), m)
  {
    hide Step, Loadable, PossibleOk, AcksOk, ImageOk, BlankOk, HalvesOk, HandleOk, OnlyName;
    var h := s.handles[n];
    TemporariesDistinct(s, n, m);
    RecordWriteImages(s, n, |s.disk.log|);
    WriteElsewhere(s.disk, h.phase.inode, Complete(h.phase.next), TempOf(h.journal), m);
    WriteElsewhere(s.disk, h.phase.inode, Complete(h.phase.next), TempOf(h.journal), TempOf(s.handles[m].journal));
    hide FilesNow, D.Current;
  }

  lemma RenameIsolated(s: System, a: Action, m: Name)
    requires Inv(s) && Enabled(s, a) && (a.RecordRename? || a.RenameFails? || a.FinalizeRemove?)
    requires m in s.handles && SlotOf(a) != Some(m)
    ensures D.Valid(Perform(s, a).disk) && Untouched(s, Perform(s, a), m)
  {
    hide Step, Loadable, PossibleOk, AcksOk, ImageOk, BlankOk, HalvesOk, HandleOk;
    TemporariesDistinct(s, a.slot, m);
    var t := TempOf(s.handles[a.slot].journal);
    var op := if a.RecordRename? then D.Move(t, a.slot) else if a.RenameFails? then D.Unlink(t) else D.Unlink(a.slot);
    IssueElsewhere(s.disk, op, m);
    IssueElsewhere(s.disk, op, TempOf(s.handles[m].journal));
    hide FilesNow, D.Current;
  }

  lemma QuietIsolated(s: System, a: Action, m: Name)
    requires D.Valid(s.disk) && Enabled(s, a) && m in s.handles && SlotOf(a) != Some(m)
    requires a.BeginFileSync? || a.RecordFileSync? || a.BeginSync? || a.RecordSync? || a.FinalizeSync?
             || a.CallFails? || a.StraySync?
    ensures D.Valid(Perform(s, a).disk) && Untouched(s, Perform(s, a), m)
  {
    hide Step, Loadable;
    FilesAfterFlush(s.disk);
    if a.BeginFileSync? || a.RecordFileSync? {
      FilesAfterSyncFile(s.disk, s.handles[a.slot].phase.inode);
    }
  }

  /** No call of one slot alters the journal, the temporary or the handle of another. */
  lemma StepIsolated(s: System, a: Action, m: Name)
    requires Inv(s) && Enabled(s, a) && (SlotOf(a).Some? || a.StraySync?) && m in s.handles && SlotOf(a) != Some(m)
    ensures D.Valid(s.disk) && D.Valid(Perform(s, a).disk) && Untouched(s, Perform(s, a), m)
  {
    InvIsValid(s);
    hide Inv, Untouched;
    if a.BeginCreate? || a.RecordCreate? {
      CreateIsolated(s, a, m);
    } else if a.BeginWrite? {
      BeginWriteIsolated(s, a.slot, m);
    } else if a.RecordWrite? {
      RecordWriteIsolated(s, a.slot, m);
    } else if a.RecordRename? || a.RenameFails? || a.FinalizeRemove? {
      RenameIsolated(s, a, m);
    } else {
      QuietIsolated(s, a, m);
    }
  }

  /** Over any stretch of a run in which only other slots act, a slot's files and handle stay as they are. */
  lemma {:induction false} RunIsolated(states: seq<System>, actions: seq<Action>, i: nat, j: nat, m: Name)
    requires Run(states, actions) && i <= j < |states| && m in states[i].handles
    requires forall x :: i <= x < j ==>
               (SlotOf(actions[x]).Some? || actions[x].StraySync?) && SlotOf(actions[x]) != Some(m)
    ensures D.Valid(states[i].disk) && D.Valid(states[j].disk) && Untouched(states[i], states[j], m)
    decreases j
  {
    hide Inv, Enabled, Perform, SlotOf;
    RunKeeps(states, actions, i);
    InvIsValid(states[i]);
    if i < j {
      RunIsolated(states, actions, i, j - 1, m);
      RunKeeps(states, actions, j - 1);
      StepIsolated(states[j - 1], actions[j - 1], m);
    }
  }

  // ---------------------------------------------------------------- what is durable stays durable

  /** Whatever a crash keeps or tears, the slot is at this journal, with no temporary beside it. */
  ghost predicate Held(d: SlotDisk, n: Name, j: Journal) {
    forall k | 0 <= k <= |d.log| :: HeldAt(d, D.Image(d, k), n, j)
  }

  predicate HeldAt(d: SlotDisk, e: D.Entries<Name>, n: Name, j: Journal) {
    && n in e && e[n] < |d.content| && d.content[e[n]] == Complete(j) && e[n] !in d.unsynced
    && TempOf(j) !in e
  }

  lemma HeldCreate(d: SlotDisk, name: Name, n: Name, j: Journal)
    requires D.Valid(d) && Held(d, n, j) && name != n && name != TempOf(j)
    ensures Held(D.Create(d, name, Partial), n, j)
  {
    D.ImagesAfterCreate(d, name, Partial);
    var e := D.Create(d, name, Partial);
    forall k | 0 <= k <= |e.log| ensures HeldAt(e, D.Image(e, k), n, j) {
      assert HeldAt(d, D.Image(d, if k <= |d.log| then k else |d.log|), n, j);
    }
  }

  lemma HeldWrite(d: SlotDisk, inode: nat, file: File, name: Name, n: Name, j: Journal)
    requires D.Valid(d) && Held(d, n, j) && OnlyName(d, inode, name) && name != n
    ensures Held(D.Write(d, inode, file), n, j)
  {
    D.ImagesAfterWrite(d, inode, file);
    var e := D.Write(d, inode, file);
    forall k | 0 <= k <= |e.log| ensures HeldAt(e, D.Image(e, k), n, j) {
      assert HeldAt(d, D.Image(d, k), n, j);
    }
  }

  lemma HeldSyncFile(d: SlotDisk, inode: nat, n: Name, j: Journal)
    requires Held(d, n, j)
    ensures Held(D.SyncFile(d, inode), n, j)
  {
    D.ImagesAfterSyncFile(d, inode);
    var e := D.SyncFile(d, inode);
    forall k | 0 <= k <= |e.log| ensures HeldAt(e, D.Image(e, k), n, j) {
      assert HeldAt(d, D.Image(d, k), n, j);
    }
  }

  lemma HeldIssue(d: SlotDisk, op: D.Op<Name>, n: Name, j: Journal)
    requires Held(d, n, j) && !D.Mentions(op, n) && !D.Mentions(op, TempOf(j)) && !op.Link?
    ensures Held(D.Issue(d, op), n, j)
  {
    D.ImagesAfterIssue(d, op);
    var e := D.Issue(d, op);
    forall k | 0 <= k <= |e.log| ensures HeldAt(e, D.Image(e, k), n, j) {
      assert HeldAt(d, D.Image(d, if k <= |d.log| then k else |d.log|), n, j);
    }
  }

  lemma HeldFlush(d: SlotDisk, n: Name, j: Journal)
    requires Held(d, n, j)
    ensures Held(D.Flush(d), n, j)
  {
    D.ImagesAfterFlush(d);
    assert HeldAt(d, D.Image(d, |d.log|), n, j);
  }

  lemma HeldCreating(s: System, a: Action, m: Name)
    requires Inv(s) && Enabled(s, a) && (a.BeginCreate? || a.RecordCreate?) && m in s.handles && SlotOf(a) != Some(m)
    requires Held(s.disk, m, s.handles[m].journal)
    ensures Held(Perform(s, a).disk, m, s.handles[m].journal)
  {
    hide Step, Records, Loadable, PossibleOk, AcksOk, ImageOk, HandleOk, BlankOk, HalvesOk, Held;
    if a.RecordCreate? {
      TemporariesDistinct(s, a.slot, m);
    }
    var name := if a.BeginCreate? then NameOf(a.intent) else TempOf(s.handles[a.slot].journal);
    HeldCreate(s.disk, name, m, s.handles[m].journal);
  }

  lemma HeldWriting(s: System, a: Action, m: Name)
    requires Inv(s) && Enabled(s, a) && (a.BeginWrite? || a.RecordWrite?) && m in s.handles && SlotOf(a) != Some(m)
    requires Held(s.disk, m, s.handles[m].journal)
    ensures Held(Perform(s, a).disk, m, s.handles[m].journal)
  {
    hide Step, Loadable, PossibleOk, AcksOk, ImageOk, HandleOk, BlankOk, HalvesOk, OnlyName, Held;
    var h, j := s.handles[a.slot], s.handles[m].journal;
    if a.BeginWrite? {
      BeginWriteImages(s, a.slot, 0);
      HeldWrite(s.disk, h.phase.inode, Complete(h.journal), a.slot, m, j);
    } else {
      RecordWriteImages(s, a.slot, 0);
      HeldWrite(s.disk, h.phase.inode, Complete(h.phase.next), TempOf(h.journal), m, j);
    }
  }

  lemma HeldRenaming(s: System, a: Action, m: Name)
    requires Inv(s) && Enabled(s, a) && (a.RecordRename? || a.RenameFails? || a.FinalizeRemove?)
    requires m in s.handles && SlotOf(a) != Some(m) && Held(s.disk, m, s.handles[m].journal)
    ensures Held(Perform(s, a).disk, m, s.handles[m].journal)
  {
    hide Step, Loadable, PossibleOk, AcksOk, ImageOk, BlankOk, HalvesOk, HandleOk, Held;
    TemporariesDistinct(s, a.slot, m);
    var t := TempOf(s.handles[a.slot].journal);
    var op := if a.RecordRename? then D.Move(t, a.slot) else if a.RenameFails? then D.Unlink(t) else D.Unlink(a.slot);
    HeldIssue(s.disk, op, m, s.handles[m].journal);
  }

  /** What a slot has made durable no call of another slot disturbs, in any image. */
  lemma HeldIsolated(s: System, a: Action, m: Name)
    requires Inv(s) && Enabled(s, a) && (SlotOf(a).Some? || a.StraySync?) && m in s.handles && SlotOf(a) != Some(m)
    requires Held(s.disk, m, s.handles[m].journal)
    ensures Held(Perform(s, a).disk, m, s.handles[m].journal)
  {
    InvIsValid(s);
    hide Inv, Held, Records, Loadable;
    if a.BeginCreate? || a.RecordCreate? {
      HeldCreating(s, a, m);
    } else if a.BeginWrite? || a.RecordWrite? {
      HeldWriting(s, a, m);
    } else if a.RecordRename? || a.RenameFails? || a.FinalizeRemove? {
      HeldRenaming(s, a, m);
    } else if a.BeginFileSync? || a.RecordFileSync? {
      HeldSyncFile(s.disk, s.handles[a.slot].phase.inode, m, s.handles[m].journal);
    } else if !a.CallFails? {
      HeldFlush(s.disk, m, s.handles[m].journal);
    }
  }

  /** Two live slots never stand for the same mapping, nor share a temporary. */
  lemma SlotsAreApart(states: seq<System>, actions: seq<Action>, i: nat, m: Name, n: Name)
    requires Run(states, actions) && i < |states| && m in states[i].handles && n in states[i].handles && m != n
    ensures states[i].handles[m].journal.content.mapping != states[i].handles[n].journal.content.mapping
    ensures TempOf(states[i].handles[m].journal) != TempOf(states[i].handles[n].journal)
    ensures Render(m) != Render(n)
  {
    hide Enabled, Perform;
    RunKeeps(states, actions, i);
    var s := states[i];
    TemporariesDistinct(s, m, n);
    PossibleGood(s, m);
    PossibleGood(s, n);
    hide Inv, Cumulative, StageValid;
    GoodIsWellNamed(s.handles[m].journal, m);
    GoodIsWellNamed(s.handles[n].journal, n);
    NamesAreDistinct(m, n);
  }

  lemma GoodIsWellNamed(j: Journal, n: Name)
    requires Good(j, n)
    ensures WellNamed(n) && j.content.mapping == n.mapping
  {
    hide Cumulative, StageValid;
  }
}
