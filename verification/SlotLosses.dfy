/** How an acknowledged slot is lost: the run, call by call. */
module SlotLosses {
  import opened Wrappers
  import opened Protocol
  import opened Names
  import opened SlotJournal
  import opened SlotStore
  import opened SlotMachine
  import opened SlotRuns
  import opened SlotRefusals
  import opened SlotExposure
  import opened SlotWitnesses
  import D = Durability

  /** The process died with the temporary of slot `n` written and not synced; `f` is the directory without it. */
  ghost predicate Abandons(c: System, n: Name, j: Journal, next: Journal, inode: nat, f: Dir) {
    && Inv(c) && !c.running && n in c.acks && TempOf(j) in D.Current(c.disk)
    && D.Current(c.disk)[TempOf(j)] == inode && inode in c.disk.unsynced
    && FilesNow(c.disk) == f[TempOf(j) := Complete(next)]
    && Plain(f) && n.Canonical? && n in f && f[n] == Complete(j)
  }

  lemma DraftedCrash(q: System, n: Name, j: Journal, next: Journal, f: Dir, now: Dir)
    requires Midway(q, n, j, next, Drafted, f, now) && q.handles[n].phase.inode in q.disk.unsynced && n in q.acks
    requires now == f[TempOf(j) := Complete(next)] && Plain(f) && n.Canonical? && n in f && f[n] == Complete(j)
    ensures D.Valid(q.disk) && Step(j, next)
    ensures Abandons(Crashed(q, q.disk), n, j, next, q.handles[n].phase.inode, f)
  {
    hide Step, Loadable, PossibleOk, AcksOk, ImageOk, HalvesOk, BlankOk;
    assert HandleOk(q, n, q.handles[n]);
    CrashKeeps(q);
  }

  /** Recovery finds a direct successor in the temporary, so it may rename it over the journal. */
  lemma TemporaryIsPromoted(c: System, n: Name, j: Journal, next: Journal, inode: nat, f: Dir)
    requires Abandons(c, n, j, next, inode, f) && Step(j, next)
    ensures D.Valid(c.disk) && RecoveryMay(FilesNow(c.disk), D.Move(TempOf(j), n))
  {
    hide AcksOk, HalvesOk, PossibleOk, ImageOk, Step, RecoveryMay;
    assert ImageOk(FilesNow(c.disk), c.possible, c.acks);
    SuccessorIsPromotable(f, c.possible, c.acks, n, j, next);
  }

  lemma SuccessorIsPromotable(
    f: Dir, p: map<Name, set<Journal>>, a: map<Name, seq<Journal>>, n: Name, j: Journal, next: Journal)
    requires Plain(f) && n.Canonical? && n in f && f[n] == Complete(j) && Step(j, next)
    requires PossibleOk(p) && ImageOk(f[TempOf(j) := Complete(next)], p, a)
    ensures RecoveryMay(f[TempOf(j) := Complete(next)], D.Move(TempOf(j), n))
  {
    var now, t := f[TempOf(j) := Complete(next)], TempOf(j);
    assert Load(now[t]).Some? && next.content.mapping == j.content.mapping;
    hide Loadable, Step, PossibleOk, ImageOk;
    assert Paired(now, t, n);
    AcceptsUnlessDamaged(now, p, a);
    assert TemporaryOk(now, t) && CanonicalOk(now, n);
  }

  /** The journal of slot `n` now stands in a file that was never synced. */
  ghost predicate Promoted(c: System, n: Name, next: Journal, inode: nat) {
    && Inv(c) && !c.running && n in c.acks && c.disk.log == [] && inode in c.disk.unsynced
    && n in D.Current(c.disk) && D.Current(c.disk)[n] == inode
    && Plain(FilesNow(c.disk)) && FilesNow(c.disk)[n] == Complete(next)
  }

  lemma PromotionSynced(c: System, n: Name, j: Journal, next: Journal, inode: nat, f: Dir)
    requires Abandons(c, n, j, next, inode, f) && RecoveryMay(FilesNow(c.disk), D.Move(TempOf(j), n))
    ensures var p := c.(disk := D.Issue(c.disk, D.Move(TempOf(j), n)));
            Inv(p) && Promoted(p.(disk := D.Flush(p.disk)), n, next, inode)
  {
    hide AcksOk, HalvesOk, PossibleOk, ImageOk, RecoveryMay;
    var op := D.Move(TempOf(j), n);
    var p := c.(disk := D.Issue(c.disk, op));
    RecoverOpKeeps(c, op);
    FlushKeeps(p);
    hide Inv;
    InvIsValid(c);
    InvIsValid(p);
    PromotionFiles(c.disk, n, j, next, inode, f);
  }

  lemma PromotionFiles(d: SlotDisk, n: Name, j: Journal, next: Journal, inode: nat, f: Dir)
    requires D.Valid(d) && TempOf(j) in D.Current(d) && D.Current(d)[TempOf(j)] == inode
    requires FilesNow(d) == f[TempOf(j) := Complete(next)] && Plain(f) && n.Canonical?
    ensures var e := D.Flush(D.Issue(d, D.Move(TempOf(j), n)));
            && D.Valid(e) && n in D.Current(e) && D.Current(e)[n] == inode
            && Plain(FilesNow(e)) && FilesNow(e)[n] == Complete(next)
  {
    var op := D.Move(TempOf(j), n);
    FilesAfterIssue(d, op);
    D.ImagesAfterIssue(d, op);
    FilesAfterFlush(D.Issue(d, op));
    assert FilesNow(D.Issue(d, op)) == (f[TempOf(j) := Complete(next)] - {TempOf(j)})[n := Complete(next)];
  }

  /** The process dies before its file sync; recovery promotes the temporary and syncs the directory. */
  lemma PromotedRun(
    states: seq<System>, actions: seq<Action>, s: System, n: Name, j: Journal, input: Input, next: Journal)
    returns (more: seq<System>, done: seq<Action>, q: System, inode: nat)
    requires Reaches(states, actions, s) && Calm(s, n, j) && Records(j, input, next) && n in s.acks
    ensures Reaches(more, done, q) && Promoted(q, n, next, inode) && q.acks == s.acks
    ensures done == actions + [RecordCreate(n, input, next), RecordWrite(n), ProcessCrash,
                               RecoverOp(D.Move(TempOf(j), n)), StraySync]
  {
    hide Records, Reaches, Calm, Inv, Midway, MayRecordWrite, Step, Plain, FilesNow, FilesAt;
    CalmHasNoTemporary(s, n, j);
    var f, t := FilesNow(s.disk), TempOf(j);
    more, done, q := CreatedRun(states, actions, s, n, j, input, next);
    assert Writes(q, n, Created) by { MidwayFacts(q, n, j, next, Created, f, f[t := Partial]); }
    inode := q.handles[n].phase.inode;
    more, done, q := DraftedRun(more, done, q, n, j, next, f, f[t := Partial]);
    assert f[t := Partial][t := Complete(next)] == f[t := Complete(next)];
    DraftedCrash(q, n, j, next, f, f[t := Complete(next)]);
    OneStep(more, done, q, ProcessCrash);
    var c := Crashed(q, q.disk);
    more, done, q := PromotionRun(more + [c], done + [ProcessCrash], c, n, j, next, inode, f);
  }

  lemma PromotionRun(
    states: seq<System>, actions: seq<Action>, c: System, n: Name, j: Journal, next: Journal, inode: nat, f: Dir)
    returns (more: seq<System>, done: seq<Action>, q: System)
    requires Reaches(states, actions, c) && Abandons(c, n, j, next, inode, f) && Step(j, next)
    ensures Reaches(more, done, q) && Promoted(q, n, next, inode) && q.acks == c.acks
    ensures done == actions + [RecoverOp(D.Move(TempOf(j), n)), StraySync]
  {
    hide Inv, Reaches, Step, RecoveryMay, Plain, FilesNow, Promoted;
    InvIsValid(c);
    TemporaryIsPromoted(c, n, j, next, inode, f);
    PromotionSynced(c, n, j, next, inode, f);
    hide Abandons;
    var op := D.Move(TempOf(j), n);
    var p := c.(disk := D.Issue(c.disk, op));
    InvIsValid(p);
    OneStep(states, actions, c, RecoverOp(op));
    OneStep(states + [p], actions + [RecoverOp(op)], p, StraySync);
    q := p.(disk := D.Flush(p.disk));
    more, done := states + [p] + [q], actions + [RecoverOp(op)] + [StraySync];
  }

  /**
   A record dies between its write and its file sync. Recovery renames the temporary over the
   acknowledged journal, syncs the directory and returns the slot. The machine crashes: the slot is gone,
   with everything it acknowledged, and recovery refuses the store.
   */
  lemma LostByPromotion(
    states: seq<System>, actions: seq<Action>, s: System, n: Name, j: Journal, input: Input, next: Journal)
    returns (more: seq<System>, done: seq<Action>, returned: System, q: System, inode: nat)
    requires Reaches(states, actions, s) && Calm(s, n, j) && Records(j, input, next) && n in s.acks
    ensures Reaches(more, done, q)
    ensures done == actions + [RecordCreate(n, input, next), RecordWrite(n), ProcessCrash,
                               RecoverOp(D.Move(TempOf(j), n)), StraySync, RecoverDone, MachineCrash(0, {inode})]
    ensures |more| > 1 && returned == more[|more| - 2] && returned.acks == s.acks
    ensures Rests(returned, n) && returned.handles[n].journal == next
    ensures D.Valid(q.disk) && n !in Slots(FilesNow(q.disk)) && LoadOutcome(FilesNow(q.disk)) == None
  {
    hide Records, Reaches, Calm, Inv, Rests, Slots, LoadOutcome;
    more, done, q, inode := PromotedRun(states, actions, s, n, j, input, next);
    ghost var before := more;
    PromotedFile(q, n, next, inode);
    hide Promoted, FilesNow, Plain;
    returned := RecoverRun(more, done, q, n, next);
    more, done := more + [returned], done + [RecoverDone];
    LastState(more, done, returned);
    CutOff(returned, n, inode);
    hide PowerCut, Loses;
    OneStep(more, done, returned, MachineCrash(0, {inode}));
    q := PowerCut(returned, 0, {inode});
    more, done := more + [q], done + [MachineCrash(0, {inode})];
  }

  lemma PromotedFile(c: System, n: Name, next: Journal, inode: nat)
    requires Promoted(c, n, next, inode)
    ensures Inv(c) && !c.running && Plain(FilesNow(c.disk)) && n in FilesNow(c.disk)
    ensures FilesNow(c.disk)[n] == Complete(next) && n in c.acks
    ensures c.disk.log == [] && inode in c.disk.unsynced && TornOff(c.disk, 0, {inode}, n)
  {
    InvIsValid(c);
    hide Inv;
  }

  lemma CutOff(s: System, n: Name, inode: nat)
    requires Inv(s) && n in s.acks && TornOff(s.disk, 0, {inode}, n)
    ensures D.Valid(s.disk) && D.Valid(PowerCut(s, 0, {inode}).disk)
    ensures var f := FilesNow(PowerCut(s, 0, {inode}).disk); n !in Slots(f) && LoadOutcome(f) == None
  {
    hide Inv, Slots, LoadOutcome;
    TornIsLost(s, 0, {inode}, n);
    D.ImagesAfterCrash(s.disk, 0, {inode}, Partial);
  }

  /** The first `begin` of a store returns and its slot is lost. */
  lemma AcknowledgedAndLost()
    returns (states: seq<System>, actions: seq<Action>, acknowledged: System, q: System, n: Name, intent: Journal)
    ensures Reaches(states, actions, q) && acknowledged in states
    ensures n in acknowledged.acks && intent in acknowledged.acks[n]
    ensures forall a <- actions :: a != FinalizeRemove(n)
    ensures D.Valid(q.disk) && n !in Slots(FilesNow(q.disk)) && LoadOutcome(FilesNow(q.disk)) == None
  {
    hide Reaches, Calm, Records, Loadable, Slots, LoadOutcome;
    var s, inode;
    states, actions, s, n, intent := FirstBegin();
    var input, next := SomeChild(intent, 1);
    states, actions, acknowledged, q, inode := LostByPromotion(states, actions, s, n, intent, input, next);
  }
}
