/** The methods of the handle and of recovery do what the machine does, also where they stop. */
module SlotLinks {
  import opened Wrappers
  import opened Protocol
  import opened Names
  import opened SlotJournal
  import opened SlotStore
  import opened SlotMachine
  import opened SlotRuns
  import opened SlotRefusals
  import opened ActiveSlotStore
  import D = Durability

  /**
   Every disk that a failed record may leave is the machine's after the calls that went well;
   `CallFails` keeps it.
   */
  lemma RecordStopsInTheMachine(s: System, n: Name, input: Input, next: Journal, left: SlotDisk)
    requires Inv(s) && MayRecordCreate(s, n, input, next) && PartlyReplaced(s.disk, n, next, left)
    ensures var s1 := RecordCreated(s, n, next);
            && MayRecordWrite(s1, n)
            && var s2 := RecordWritten(s1, n);
            && Writes(s2, n, Drafted)
            && var s3 := RecordFileSynced(s2, n);
            && Writes(s3, n, Filled)
            && (|| left == s.disk || left == s1.disk || left == s2.disk || left == s3.disk
                || left == RenameFailed(s3, n).disk || left == RecordRenamed(s3, n).disk)
  {
    hide Inv, Records, Loadable, Step;
    RecordCreateBooks(s, n, input, next);
    StepKeepsBinding(s.handles[n].journal, next);
  }

  /** So is every disk that a failed begin may leave. */
  lemma BeginStopsInTheMachine(s: System, intent: Journal, left: SlotDisk)
    requires MayBeginCreate(s, intent)
    requires PartlyWritten(s.disk, NameOf(intent), intent, left) || left == Written(s.disk, NameOf(intent), intent)
    ensures var n, s1 := NameOf(intent), BeginCreated(s, intent);
            && MayBeginWrite(s1, n)
            && var s2 := BeginWritten(s1, n);
            && Opens(s2, n, true, false)
            && (left == s.disk || left == s1.disk || left == s2.disk || left == BeginFileSynced(s2, n).disk)
  {
    hide Loadable;
  }

  /** Whatever `load_all` did to the directory before it stopped is a run of recovery steps. */
  lemma {:induction false} RecoveryIsActions(states: seq<System>, actions: seq<Action>, s: System, ops: seq<D.Op<Name>>)
    returns (more: seq<System>, done: seq<Action>, q: System)
    requires Reaches(states, actions, s) && D.Valid(s.disk) && !s.running && RecoveryRun(FilesNow(s.disk), ops)
    ensures Reaches(more, done, q) && done == actions + seq(|ops|, i requires 0 <= i < |ops| => RecoverOp(ops[i]))
    ensures D.Valid(q.disk) && !q.running && FilesNow(q.disk) == AfterAll(FilesNow(s.disk), ops)
    decreases |ops|
  {
    hide Reaches, RecoveryMay;
    if ops == [] {
      more, done, q := states, actions, s;
    } else {
      var front, last := ops[..|ops| - 1], ops[|ops| - 1];
      RecoveryRunFront(FilesNow(s.disk), ops);
      more, done, q := RecoveryIsActions(states, actions, s, front);
      OneRecoveryStep(more, done, q, last);
      var r := q.(disk := D.Issue(q.disk, last));
      more, done, q := more + [r], done + [RecoverOp(last)], r;
    }
  }

  lemma OneRecoveryStep(states: seq<System>, actions: seq<Action>, s: System, op: D.Op<Name>)
    requires Reaches(states, actions, s) && D.Valid(s.disk) && !s.running && RecoveryMay(FilesNow(s.disk), op)
    ensures var r := s.(disk := D.Issue(s.disk, op));
            && Reaches(states + [r], actions + [RecoverOp(op)], r)
            && !op.Link? && D.Valid(r.disk) && FilesNow(r.disk) == After(FilesNow(s.disk), op)
  {
    hide Reaches, CanonicalsOk, Owners, Promotable;
    OneStep(states, actions, s, RecoverOp(op));
    FilesAfterIssue(s.disk, op);
  }

  /** When `load_all` returns, the machine's recovery is done, and holds the slots that were returned. */
  lemma LoadAllIsRecovery(
    states: seq<System>, actions: seq<Action>, s: System, ops: seq<D.Op<Name>>, slots: map<Name, Journal>)
    returns (more: seq<System>, done: seq<Action>, q: System)
    requires Reaches(states, actions, s) && D.Valid(s.disk) && !s.running && RecoveryRun(FilesNow(s.disk), ops)
    requires LoadOutcome(FilesNow(s.disk)) == Some(slots)
    requires forall n :: n in AfterAll(FilesNow(s.disk), ops) ==> !n.Temporary?
    ensures Reaches(more, done, q) && q.running && D.Valid(q.disk)
    ensures slots == map n | n in q.handles :: q.handles[n].journal
  {
    hide Reaches, RecoveryMay, LoadOutcome, Inv, MayRecoverDone;
    var r;
    more, done, r := RecoveryIsActions(states, actions, s, ops);
    RecoveryIsRestartable(FilesNow(s.disk), ops);
    ReachedKeeps(more, done, r);
    DoneIsEnabled(r, slots);
    DoneHolds(r, slots);
    RecoveryStep(more, done, r);
    hide RecoveredSystem;
    q := RecoveredSystem(r);
    more, done := more + [q], done + [RecoverDone];
  }

  lemma DoneHolds(r: System, slots: map<Name, Journal>)
    requires Inv(r) && D.Valid(r.disk) && MayRecoverDone(r) && LoadOutcome(FilesNow(r.disk)) == Some(slots)
    ensures var q := RecoveredSystem(r);
            q.running && D.Valid(q.disk) && slots == map n | n in q.handles :: q.handles[n].journal
  {
    hide Inv, LoadOutcome, Slots, MayRecoverDone;
    RecoveryReturnsOutcome(r);
  }

  lemma DoneIsEnabled(r: System, slots: map<Name, Journal>)
    requires D.Valid(r.disk) && !r.running && LoadOutcome(FilesNow(r.disk)) == Some(slots)
    requires forall n :: n in FilesNow(r.disk) ==> !n.Temporary?
    ensures MayRecoverDone(r)
  {
    hide Accepts, Slots;
    assert forall n :: n in D.Current(r.disk) ==> n in FilesNow(r.disk);
  }
}
