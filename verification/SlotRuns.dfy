/** What holds of the active-slot store over whole runs. */
module SlotRuns {
  import opened Wrappers
  import opened Protocol
  import opened Names
  import opened SlotJournal
  import opened SlotStore
  import opened SlotMachine
  import D = Durability

  lemma ActionKeeps(s: System, a: Action)
    requires Inv(s) && Enabled(s, a)
    ensures Inv(Perform(s, a))
  {
    hide Inv;
    match a
    case BeginCreate(intent) => BeginCreateKeeps(s, intent);
    case BeginWrite(n) => BeginWriteKeeps(s, n);
    case BeginFileSync(n) => FileSyncKeeps(s, n);
    case BeginSync(n) => BeginSyncKeeps(s, n);
    case RecordCreate(n, input, next) => RecordCreateKeeps(s, n, input, next);
    case RecordWrite(n) => RecordWriteKeeps(s, n);
    case RecordFileSync(n) => FileSyncKeeps(s, n);
    case RecordRename(n) => RecordRenameKeeps(s, n);
    case RecordSync(n) => RecordSyncKeeps(s, n);
    case RenameFails(n) => RenameFailKeeps(s, n);
    case FinalizeRemove(n) => FinalizeRemoveKeeps(s, n);
    case FinalizeSync(n) => FinalizeSyncKeeps(s, n);
    case CallFails(n) => CallFailKeeps(s, n);
    case StraySync => FlushKeeps(s);
    case ProcessCrash => CrashKeeps(s);
    case MachineCrash(kept, torn) => PowerCutKeeps(s, kept, torn);
    case RecoverOp(op) => RecoverOpKeeps(s, op);
    case RecoverDone => RecoverDoneKeeps(s);
  }

  /** A run from the empty store. */
  ghost predicate Run(states: seq<System>, actions: seq<Action>) {
    && |states| == |actions| + 1
    && states[0] == Initial()
    && forall i :: 0 <= i < |actions| ==>
         && D.Valid(states[i].disk)
         && Enabled(states[i], actions[i])
         && states[i + 1] == Perform(states[i], actions[i])
  }

  lemma {:induction false} RunKeeps(states: seq<System>, actions: seq<Action>, i: nat)
    requires Run(states, actions) && i < |states|
    ensures Inv(states[i])
  {
    hide Inv, Enabled, Perform;
    if i == 0 {
      InitialInv();
    } else {
      RunKeeps(states, actions, i - 1);
      ActionKeeps(states[i - 1], actions[i - 1]);
    }
  }

  /** The file of a slot is torn by a crash that keeps `k` queued operations. */
  predicate TornOff(d: SlotDisk, k: nat, torn: set<nat>, n: Name)
    requires k <= |d.log|
  {
    n in D.Image(d, k) && D.Image(d, k)[n] in torn
  }

  /**
   Crash refinement. After any run, whatever prefix of the queued directory operations a crash keeps and
   whatever unsynced files it tears, recovery refuses the store exactly when a journal in it is
   half-written or a temporary is left without its journal, and otherwise returns for each slot a journal
   it may be at. Refused or not, every acknowledged slot whose own file is not torn is there, at or beyond
   everything it acknowledged.
   */
  lemma CrashRefinement(states: seq<System>, actions: seq<Action>, i: nat, k: nat, torn: set<nat>)
    requires Run(states, actions) && i < |states| && k <= |states[i].disk.log|
    ensures var s := states[i];
            && D.Valid(s.disk)
            && var f := Left(s.disk, k, torn);
            && (LoadOutcome(f).None? <==> Damaged(f))
            && (LoadOutcome(f).Some? ==>
                  forall n :: n in LoadOutcome(f).value ==> n in s.possible && LoadOutcome(f).value[n] in s.possible[n])
            && (forall n :: n in s.acks && !TornOff(s.disk, k, torn, n) ==>
                  n in Slots(f) && Life(s.acks[n] + [Slots(f)[n]]))
  {
    hide Inv, Enabled, Perform;
    RunKeeps(states, actions, i);
    CrashImage(states[i], k, torn);
  }

  lemma CrashImage(s: System, k: nat, torn: set<nat>)
    requires Inv(s) && k <= |s.disk.log|
    ensures D.Valid(s.disk)
    ensures var f := Left(s.disk, k, torn);
            && (LoadOutcome(f).None? <==> Damaged(f))
            && (LoadOutcome(f).Some? ==>
                  forall n :: n in LoadOutcome(f).value ==>
                    n in s.possible && LoadOutcome(f).value[n] in s.possible[n])
            && (forall n :: n in s.acks && !TornOff(s.disk, k, torn, n) ==>
                  n in Slots(f) && Life(s.acks[n] + [Slots(f)[n]]))
  {
    hide Step, HandleOk, BlankOk, HalvesOk, Good, Life, Recovered, Extends, Accepts, ImageOk, PossibleOk, AcksOk;
    var f := Left(s.disk, k, torn);
    LeftFiles(s.disk, k, torn);
    var a := Standing(f, s.acks);
    TornImage(FilesAt(s.disk, k), f, s.possible, s.acks);
    StandingAcks(f, s.possible, s.acks);
    AcceptsUnlessDamaged(f, s.possible, a);
    forall n | n in Slots(f) ensures n in s.possible && Slots(f)[n] in s.possible[n] {
      RecoveredIsPossible(f, s.possible, a, n);
    }
    forall n | n in s.acks && !TornOff(s.disk, k, torn, n) ensures n in Slots(f) && Life(s.acks[n] + [Slots(f)[n]]) {
      AcknowledgedHasFile(FilesAt(s.disk, k), s.possible, s.acks, n);
      AcknowledgedIsKept(f, s.possible, a, n);
    }
  }

  lemma AcknowledgedHasFile(f: Dir, p: map<Name, set<Journal>>, a: map<Name, seq<Journal>>, n: Name)
    requires ImageOk(f, p, a) && n in a
    ensures n in f && f[n].Complete? && n.Canonical?
  {
    hide Step;
  }

  lemma AcknowledgedIsKept(f: Dir, p: map<Name, set<Journal>>, a: map<Name, seq<Journal>>, n: Name)
    requires PossibleOk(p) && AcksOk(p, a) && ImageOk(f, p, a) && n in a
    ensures n in Slots(f) && Life(a[n] + [Slots(f)[n]])
  {
    hide Step, Loadable, Cumulative, Extends, Recovered;
    RecoveredIsPossible(f, p, a, n);
    assert Good(Slots(f)[n], n);
  }

  /** A file that a crash may tear. */
  predicate Exposed(d: SlotDisk, k: nat, n: Name)
    requires k <= |d.log|
  {
    TornOff(d, k, d.unsynced, n)
  }

  /**
   Between two acknowledgements a crash leaves the journal last acknowledged or the one being
   written. A running system whose store would be refused, with no orphan in it, has a slot between
   the creation of its journal and the end of its first write, or one whose file was never synced.
   */
  lemma LastOrNext(states: seq<System>, actions: seq<Action>, i: nat, k: nat, torn: set<nat>, n: Name)
    requires Run(states, actions) && i < |states| && k <= |states[i].disk.log| && torn <= states[i].disk.unsynced
    requires states[i].running && n in states[i].handles && states[i].handles[n].clean
    ensures var s := states[i];
            && D.Valid(s.disk)
            && var f := Left(s.disk, k, torn);
            && (LoadOutcome(f).None? && !Orphaned(f) ==>
                  || (exists m :: m in s.handles && s.handles[m].phase.Opening? && !s.handles[m].phase.filled)
                  || (exists m: Name :: m.Canonical? && Exposed(s.disk, k, m)))
            && (LoadOutcome(f).Some? && n in LoadOutcome(f).value ==>
                  || LoadOutcome(f).value[n] == s.handles[n].journal
                  || (s.handles[n].phase.Writing? && LoadOutcome(f).value[n] == s.handles[n].phase.next))
  {
    hide Enabled, Perform, Step, BlankOk, Good, Life, Extends, Accepts, ImageOk, PossibleOk, AcksOk, LoadOutcome;
    RunKeeps(states, actions, i);
    var s := states[i];
    CrashImage(s, k, torn);
    assert HandleOk(s, n, s.handles[n]);
    var f := Left(s.disk, k, torn);
    if LoadOutcome(f).None? && !Orphaned(f) {
      var m :| m in f && m.Canonical? && f[m].Partial?;
      HalfIsOpenOrTorn(s, k, torn, m);
    }
  }

  lemma HalfIsOpenOrTorn(s: System, k: nat, torn: set<nat>, m: Name)
    requires D.Valid(s.disk) && HalvesOk(s) && s.running && k <= |s.disk.log| && torn <= s.disk.unsynced
    requires m in Left(s.disk, k, torn) && m.Canonical? && Left(s.disk, k, torn)[m].Partial?
    ensures Exposed(s.disk, k, m)
            || (m in s.handles && s.handles[m].phase.Opening? && !s.handles[m].phase.filled)
  {
    LeftFiles(s.disk, k, torn);
  }

  /** The crash tears the file of this slot. */
  predicate Tears(s: System, a: Action, n: Name) {
    a.MachineCrash? && a.kept <= |s.disk.log| && TornOff(s.disk, a.kept, a.torn, n)
  }

  /** Nothing but the start of its own finalization, or a crash that tears its file, takes an acknowledgement away. */
  lemma AcknowledgementStands(s: System, a: Action, n: Name)
    requires Inv(s) && Enabled(s, a) && n in s.acks && a != FinalizeRemove(n) && !Tears(s, a, n)
    ensures n in Perform(s, a).acks && s.acks[n] <= Perform(s, a).acks[n]
  {
    hide Step, BlankOk, Good, Life, Extends, ImageOk, PossibleOk, AcksOk, HalvesOk, Records, Loadable;
    hide Slots, RecoveryMay, Accepts;
    if a.BeginSync? {
      assert HandleOk(s, a.slot, s.handles[a.slot]);
    }
    if a.MachineCrash? {
      assert ImageOk(FilesAt(s.disk, a.kept), s.possible, s.acks);
      AcknowledgedHasFile(FilesAt(s.disk, a.kept), s.possible, s.acks, n);
      LeftFiles(s.disk, a.kept, a.torn);
    }
  }

  /**
   An `Ok` is never lost: until its slot is finalized or its file torn, every crash of every later state
   leaves it or a continuation, whether or not recovery accepts the store.
   */
  lemma {:induction false} OkIsNeverLost(
    states: seq<System>, actions: seq<Action>, i: nat, j: nat, n: Name, k: nat, torn: set<nat>)
    requires Run(states, actions) && i <= j < |states| && k <= |states[j].disk.log|
    requires n in states[i].acks && !TornOff(states[j].disk, k, torn, n)
    requires forall x :: i <= x < j ==> actions[x] != FinalizeRemove(n) && !Tears(states[x], actions[x], n)
    ensures D.Valid(states[j].disk)
    ensures n in states[j].acks && states[i].acks[n] <= states[j].acks[n]
    ensures var f := Left(states[j].disk, k, torn);
            n in Slots(f) && Life(states[i].acks[n] + [Slots(f)[n]])
  {
    hide Inv, Enabled, Perform, LoadOutcome, Extends, Damaged, Tears, TornOff;
    AcknowledgementsStand(states, actions, i, j, n);
    CrashRefinement(states, actions, j, k, torn);
    PrefixLife(states[i].acks[n], states[j].acks[n], Slots(Left(states[j].disk, k, torn))[n]);
  }

  lemma PrefixLife(l: seq<Journal>, m: seq<Journal>, j: Journal)
    requires l <= m && Life(m + [j])
    ensures Life(l + [j])
  {
    hide Cumulative, Extends;
    var big, small := m + [j], l + [j];
    forall x, y | 0 <= x < y < |small| ensures Extends(small[x], small[y]) {
      assert Extends(big[x], big[if y < |l| then y else |m|]);
    }
    forall x | 0 <= x < |small| ensures Cumulative(small[x].content) {
      assert Cumulative(big[if x < |l| then x else |m|].content);
    }
  }

  lemma {:induction false} AcknowledgementsStand(states: seq<System>, actions: seq<Action>, i: nat, j: nat, n: Name)
    requires Run(states, actions) && i <= j < |states| && n in states[i].acks
    requires forall x :: i <= x < j ==> actions[x] != FinalizeRemove(n) && !Tears(states[x], actions[x], n)
    ensures n in states[j].acks && states[i].acks[n] <= states[j].acks[n]
    decreases j
  {
    hide Inv, Enabled, Perform, Tears;
    if i < j {
      AcknowledgementsStand(states, actions, i, j - 1, n);
      RunKeeps(states, actions, j - 1);
      AcknowledgementStands(states[j - 1], actions[j - 1], n);
    }
  }

  /** A recovery in progress, crashed and restarted at will, keeps what it is going to return. */
  lemma RecoveryKeepsOutcome(s: System, op: D.Op<Name>)
    requires D.Valid(s.disk) && Enabled(s, RecoverOp(op))
    ensures var r := Perform(s, RecoverOp(op));
            && D.Valid(r.disk)
            && LoadOutcome(FilesNow(r.disk)) == LoadOutcome(FilesNow(s.disk))
            && FilesAt(r.disk, |s.disk.log|) == FilesNow(s.disk)
  {
    hide Accepts, Slots, Promotable, CanonicalsOk, Owners;
    FilesAfterIssue(s.disk, op);
    RecoveryOpKeepsOutcome(FilesNow(s.disk), op);
  }

  /** A completed recovery holds exactly the slots it promised. */
  lemma RecoveryReturnsOutcome(s: System)
    requires Inv(s) && Enabled(s, RecoverDone)
    ensures var r := Perform(s, RecoverDone);
            && LoadOutcome(FilesNow(s.disk)) == Some(map n | n in r.handles :: r.handles[n].journal)
            && forall n :: n in r.handles ==>
                 r.handles[n].phase.Settled? && FilesNow(r.disk)[n] == Complete(r.handles[n].journal)
  {
    hide Inv, Recovered, Loadable, Accepts;
    InvIsValid(s);
    forall n | n in FilesNow(s.disk) ensures FilesNow(s.disk)[n].Complete? && n in Slots(FilesNow(s.disk)) {
      RecoverDoneImage(FilesNow(s.disk), n);
    }
    var r := Perform(s, RecoverDone);
    assert (map n | n in r.handles :: r.handles[n].journal) == Slots(FilesNow(s.disk));
    forall n | n in r.handles ensures FilesNow(r.disk)[n] == Complete(r.handles[n].journal) {
      RecoverDoneImage(FilesNow(s.disk), n);
    }
  }

  lemma InvIsValid(s: System)
    requires Inv(s)
    ensures D.Valid(s.disk)
  {
    hide HandleOk, BlankOk, HalvesOk, ImageOk, AcksOk, PossibleOk;
  }
}
