/**
 The finalization journal of one execution and its attaches to the protected history, together: what
 retries attach when the journal is recorded, reloaded and rolled back between them.
 */
module ExecutionHistory {
  import opened Wrappers
  import opened Protocol
  import opened FinalizationJournal
  import D = Durability
  import FS = FinalizationStore
  import H = ProtectedHistory

  /** What does not change between the retries: binding, archive and snapshot, and how a sidecar is serialized. */
  datatype Env = Env(binding: H.Binding, target: H.Target, encode: Sidecar -> H.Bytes)

  /** What an attach from this journal attaches. The launcher attaches only once the journal has its sidecar. */
  function Prepared(env: Env, j: Journal): H.Result<H.Source> {
    if j.content.sidecar.None? then Err(H.ObjectInvalid)
    else H.Prepare(env.binding, env.target, j.content.sidecar.value, env.encode(j.content.sidecar.value), j)
  }

  predicate HasSidecar(j: Journal) { Rank(j.content.stage) >= Rank(SidecarIssued) }

  // ---------------------------------------------------------------- when two journals attach the same

  lemma SamePreparation(env: Env, a: Journal, b: Journal)
    requires Begun(a) && Begun(b) && Extends(a.content, b.content) && HasSidecar(a)
    ensures Prepared(env, a) == Prepared(env, b)
  {
    StageBounds(a.content);
    assert a.content.sidecar == b.content.sidecar;
    hide Begun, Extends, Shape;
    H.RetryPreparesTheSame(env.binding, env.target, a.content.sidecar.value, env.encode(a.content.sidecar.value), a, b);
  }

  /** Two journals over one durable one attach under the same identity exactly when request and sidecar agree. */
  lemma SameIdentityExactly(floor: Journal, a: Journal, b: Journal)
    requires Begun(a) && Begun(b) && Extends(floor.content, a.content) && Extends(floor.content, b.content)
    requires HasSidecar(a) && HasSidecar(b)
    ensures HistoryIdentity(a) == HistoryIdentity(b) <==>
              a.content.request == b.content.request && a.content.sidecar == b.content.sidecar
  {
    PreAttachmentKeeps(a.content);
    PreAttachmentKeeps(b.content);
    if a.content.request == b.content.request && a.content.sidecar == b.content.sidecar {
      SameSigned(a, b);
      SameBefore(floor.content, a.content, b.content);
    }
    hide Loadable, Extends, PreAttachment;
  }

  lemma PreAttachmentKeeps(c: Content)
    ensures PreAttachment(c).request == c.request && PreAttachment(c).sidecar == c.sidecar
  {
  }

  lemma SameSigned(a: Journal, b: Journal)
    requires Loadable(a) && Loadable(b) && HasSidecar(a) && HasSidecar(b) && a.content.sidecar == b.content.sidecar
    ensures a.content.signed == b.content.signed
  {
    SidecarFixesSigned(a.content);
    SidecarFixesSigned(b.content);
    hide Loadable;
  }

  lemma SidecarFixesSigned(c: Content)
    requires JournalIdentity(c).Some? && Rank(c.stage) >= Rank(SidecarIssued)
    ensures c.sidecar.Some? && c.signed == Some(c.sidecar.value.body.signed)
    ensures c.request.Some?
  {
    hide SignedFits, RequestFits, PersistenceFits, TerminalFits, AttachmentFits;
  }

  lemma SameBefore(floor: Content, a: Content, b: Content)
    requires Extends(floor, a) && Extends(floor, b)
    requires Rank(a.stage) >= Rank(SidecarIssued) && Rank(b.stage) >= Rank(SidecarIssued)
    requires a.request == b.request && a.sidecar == b.sidecar && a.signed == b.signed
    requires a.stage == SidecarIssued ==> a.attachment.None? && a.persistence.None? && a.terminal.None?
    requires b.stage == SidecarIssued ==> b.attachment.None? && b.persistence.None? && b.terminal.None?
    ensures PreAttachment(a) == PreAttachment(b)
  {
  }

  /** So they attach the very same thing exactly when request and sidecar agree. */
  lemma SameSourceExactly(env: Env, floor: Journal, a: Journal, b: Journal)
    requires Begun(a) && Begun(b) && Extends(floor.content, a.content) && Extends(floor.content, b.content)
    requires HasSidecar(a) && HasSidecar(b) && Prepared(env, a).Ok? && Prepared(env, b).Ok?
    ensures Prepared(env, a) == Prepared(env, b) <==>
              a.content.request == b.content.request && a.content.sidecar == b.content.sidecar
    ensures Prepared(env, a).value.journal == HistoryIdentity(a) && Prepared(env, b).value.journal == HistoryIdentity(b)
  {
    SameIdentityExactly(floor, a, b);
    SameRest(floor.content, a.content, b.content);
    hide Begun, Extends, HistoryIdentity, H.SelectMapping;
  }

  lemma SameRest(floor: Content, a: Content, b: Content)
    requires Extends(floor, a) && Extends(floor, b)
    ensures a.launcherRequest == b.launcherRequest && a.directory == b.directory && a.finalization == b.finalization
  {
  }

  // ---------------------------------------------------------------- over runs of the journal

  lemma HandlesShareFloor(states: seq<FS.System>, actions: seq<FS.Action>, i: nat, j: nat)
    requires FS.Run(states, actions) && i <= j < |states| && states[i].handle.Some? && states[j].handle.Some?
    ensures var floor, a, b := states[i].floor, states[i].handle.value, states[j].handle.value;
            && Begun(floor) && Begun(a) && Begun(b)
            && Extends(floor.content, a.content) && Extends(floor.content, b.content)
  {
    hide Begun, Extends, FS.May, FS.Do;
    FS.RunKeeps(states, actions, i, j);
    FS.RunKeeps(states, actions, i, i);
    FS.HandleIsPossible(states[i]);
    FS.HandleIsPossible(states[j]);
    ExtendsTransitive(states[i].floor.content, states[j].floor.content, states[j].handle.value.content);
  }

  /** Once the journal with the sidecar is durable, every later handle attaches what this one does. */
  lemma DurableSidecarIsBinding(env: Env, states: seq<FS.System>, actions: seq<FS.Action>, i: nat, j: nat)
    requires FS.Run(states, actions) && i <= j < |states| && states[i].handle.Some? && states[j].handle.Some?
    requires HasSidecar(states[i].floor)
    ensures Prepared(env, states[i].handle.value) == Prepared(env, states[j].handle.value)
  {
    HandlesShareFloor(states, actions, i, j);
    hide Begun, Extends, FS.Run, Prepared;
    SamePreparation(env, states[i].floor, states[i].handle.value);
    SamePreparation(env, states[i].floor, states[j].handle.value);
  }

  /** Whatever is durable, two handles of a run attach the same exactly when request and sidecar agree. */
  lemma RetriesAgreeExactly(env: Env, states: seq<FS.System>, actions: seq<FS.Action>, i: nat, j: nat)
    requires FS.Run(states, actions) && i <= j < |states| && states[i].handle.Some? && states[j].handle.Some?
    requires var a, b := states[i].handle.value, states[j].handle.value;
             HasSidecar(a) && HasSidecar(b) && Prepared(env, a).Ok? && Prepared(env, b).Ok?
    ensures var a, b := states[i].handle.value, states[j].handle.value;
            Prepared(env, a) == Prepared(env, b) <==>
              a.content.request == b.content.request && a.content.sidecar == b.content.sidecar
  {
    HandlesShareFloor(states, actions, i, j);
    hide Begun, Extends, FS.Run, Prepared;
    SameSourceExactly(env, states[i].floor, states[i].handle.value, states[j].handle.value);
  }

  // ---------------------------------------------------------------- a sidecar that is not yet durable

  /** A run from `s` that ends in `r`. */
  ghost predicate Leads(s: FS.System, states: seq<FS.System>, actions: seq<FS.Action>, r: FS.System) {
    FS.Run(states, actions) && states[0] == s && states[|states| - 1] == r
  }

  lemma LeadsToItself(s: FS.System)
    requires FS.Inv(s)
    ensures Leads(s, [s], [], s)
  {
    hide FS.Inv;
  }

  lemma LeadsOn(s: FS.System, states: seq<FS.System>, actions: seq<FS.Action>, r: FS.System, a: FS.Action)
    requires Leads(s, states, actions, r) && FS.May(r, a)
    ensures Leads(s, states + [FS.Do(r, a)], actions + [a], FS.Do(r, a)) && FS.Inv(FS.Do(r, a))
  {
    hide FS.May, FS.Do, FS.Inv;
    FS.RunKeeps(states, actions, 0, |states| - 1);
    FS.StepKeeps(r, a);
  }

  /** Recording from a synced journal, by a process with no leftover temporary. */
  ghost predicate Fresh(s: FS.System, pid: nat) {
    FS.Inv(s) && !s.removed && s.handle == Some(s.floor) && FS.Temporary(s, pid) !in D.Current(s.disk)
  }

  lemma RecordedFresh(s: FS.System, pid: nat, input: Input, next: Journal)
    requires Fresh(s, pid) && Records(s.floor, input, next)
    ensures FS.May(s, FS.RecordReturns(input, next, pid))
    ensures var r := FS.Do(s, FS.RecordReturns(input, next, pid)); Fresh(r, pid) && r.floor == next
  {
    hide Records;
    var a := FS.RecordReturns(input, next, pid);
    FS.StepKeeps(s, a);
    var r := FS.Do(s, a);
    SamePath(s.floor, next);
    var n, t := FS.Path(s), FS.Temporary(s, pid);
    D.ImagesAfterCreate(s.disk, t, FS.Partial);
    FS.WrittenImages(s.disk, t, next);
    D.ImagesAfterIssue(FS.Written(s.disk, t, next), D.Move(t, n));
    D.ImagesAfterFlush(FS.Moved(s.disk, n, t, next));
    hide FS.Inv, Begun;
    assert r.removed == s.removed;
  }

  lemma SamePath(a: Journal, b: Journal)
    ensures Extends(a.content, b.content) ==> a.content.mapping == b.content.mapping
  {
  }

  /** What is durable is what a power cut and a reload bring back. */
  lemma RolledBack(s: FS.System, states: seq<FS.System>, actions: seq<FS.Action>, r: FS.System, pid: nat)
    returns (more: seq<FS.System>, done: seq<FS.Action>, q: FS.System)
    requires Leads(s, states, actions, r) && FS.Inv(r) && !r.removed
    requires FS.Temporary(r, pid) !in D.Image(r.disk, 0)
    ensures Leads(s, more, done, q) && states <= more && |more| == |states| + 2
    ensures Fresh(q, pid) && q.floor == r.floor
  {
    hide Leads, Begun;
    CrashFindsFloor(r);
    var cut := FS.Do(r, FS.MachineCrash(0, {}));
    LeadsOn(s, states, actions, r, FS.MachineCrash(0, {}));
    FS.BegunIsLoadable(r.floor);
    hide FS.Inv;
    LeadsOn(s, states + [cut], actions + [FS.MachineCrash(0, {})], cut, FS.Reload(r.floor));
    q := FS.Do(cut, FS.Reload(r.floor));
    more, done := states + [cut] + [q], actions + [FS.MachineCrash(0, {})] + [FS.Reload(r.floor)];
  }

  lemma CrashFindsFloor(r: FS.System)
    requires FS.Inv(r) && !r.removed
    ensures FS.May(r, FS.MachineCrash(0, {}))
    ensures var cut := FS.Do(r, FS.MachineCrash(0, {}));
            && cut.floor == r.floor && !cut.removed && cut.handle.None?
            && FS.Visible(cut.disk, FS.Path(r), r.floor) && D.Current(cut.disk) == D.Image(r.disk, 0)
  {
    hide Begun, Extends, FS.Shows, FS.ShowsOrGone;
    D.ImagesAfterCrash(r.disk, 0, {}, FS.Partial);
  }

  /** Some process id has no leftover temporary. */
  lemma FreshPid(entries: D.Entries<FS.Name>, mapping: string) returns (pid: nat)
    ensures FS.TemporaryFile(mapping, pid) !in entries
  {
    var pids := set n | n in entries.Keys && n.TemporaryFile? :: n.pid;
    pid := D.Above(pids);
    forall n | n in entries.Keys && n.TemporaryFile? ensures n.pid in pids && n.pid != pid {}
  }

  /** The journal that recording this on a loaded journal would persist. */
  function Recorded(j: Journal, input: Input): Journal {
    Journal(OfJournal(Assign(j.content, input)), Assign(j.content, input))
  }

  /** What a later journal of the run holds may be recorded again on an earlier one. */
  lemma SignedAgain(f: Journal, a: Journal)
    requires Begun(f) && Begun(a) && Extends(f.content, a.content) && HasSidecar(a) && f.content.stage == Intended
    ensures a.content.signed.Some?
    ensures var input := TheSigned(a.content.signed.value);
            Records(f, input, Recorded(f, input)) && Extends(Recorded(f, input).content, a.content)
  {
    SidecarFixesSigned(a.content);
    hide RequestFits, SidecarFits, PersistenceFits, TerminalFits, AttachmentFits;
  }

  lemma RequestedAgain(f: Journal, a: Journal)
    requires Begun(f) && Begun(a) && Extends(f.content, a.content) && HasSidecar(a) && f.content.stage == SignedStage
    ensures a.content.request.Some?
    ensures var input := TheRequest(a.content.request.value);
            Records(f, input, Recorded(f, input)) && Extends(Recorded(f, input).content, a.content)
  {
    SidecarFixesSigned(a.content);
    hide SidecarFits, PersistenceFits, TerminalFits, AttachmentFits;
  }

  /** Another sidecar for the same request. */
  function Another(sidecar: Sidecar): Sidecar {
    var body := sidecar.body.(archive := sidecar.body.archive.(identity := sidecar.body.archive.identity + "'"));
    Sidecar(OfSidecar(body), body)
  }

  lemma AnotherDiffers(sidecar: Sidecar)
    ensures Another(sidecar) != sidecar
  {
    assert |Another(sidecar).body.archive.identity| == |sidecar.body.archive.identity| + 1;
  }

  lemma AnotherSidecar(f: Journal, a: Journal)
    requires Begun(f) && Begun(a) && Extends(f.content, a.content) && HasSidecar(a)
             && f.content.stage == ArchiveRequested
    ensures a.content.sidecar.Some?
    ensures var input := TheSidecar(Another(a.content.sidecar.value));
            Records(f, input, Recorded(f, input)) && Recorded(f, input).content.request == a.content.request
  {
    SidecarFixesSigned(a.content);
    SidecarOf(a.content);
    hide SignedFits, PersistenceFits, TerminalFits, AttachmentFits;
  }

  lemma SidecarOf(c: Content)
    requires JournalIdentity(c).Some? && Rank(c.stage) >= Rank(SidecarIssued)
    ensures c.sidecar.Some? && SidecarFits(c, c.sidecar.value)
  {
    hide SignedFits, RequestFits, PersistenceFits, TerminalFits, AttachmentFits, SidecarFits;
  }

  lemma OneRecord(
    s: FS.System, states: seq<FS.System>, actions: seq<FS.Action>, r: FS.System, pid: nat, input: Input)
    returns (more: seq<FS.System>, done: seq<FS.Action>, q: FS.System)
    requires Leads(s, states, actions, r) && Fresh(r, pid) && Records(r.floor, input, Recorded(r.floor, input))
    ensures Leads(s, more, done, q) && states <= more && Fresh(q, pid) && q.floor == Recorded(r.floor, input)
  {
    hide Leads, Records, Fresh;
    var next := Recorded(r.floor, input);
    RecordedFresh(r, pid, input, next);
    hide FS.May, FS.Do;
    q := FS.Do(r, FS.RecordReturns(input, next, pid));
    LeadsOn(s, states, actions, r, FS.RecordReturns(input, next, pid));
    more, done := states + [q], actions + [FS.RecordReturns(input, next, pid)];
  }

  lemma FreshIsBegun(s: FS.System, pid: nat)
    requires Fresh(s, pid)
    ensures Begun(s.floor) && s.handle == Some(s.floor)
  {
    hide Begun;
  }

  /** From anything short of the sidecar, the same request can be answered with another sidecar. */
  lemma AnsweredDifferently(
    s: FS.System, states: seq<FS.System>, actions: seq<FS.Action>, r: FS.System, pid: nat, a: Journal)
    returns (more: seq<FS.System>, done: seq<FS.Action>, q: FS.System)
    requires Leads(s, states, actions, r) && Fresh(r, pid)
    requires Begun(a) && HasSidecar(a) && Extends(r.floor.content, a.content) && !HasSidecar(r.floor)
    ensures a.content.sidecar.Some?
    ensures Leads(s, more, done, q) && states <= more && q.handle.Some? && HasSidecar(q.handle.value)
    ensures q.handle.value.content.sidecar == Some(Another(a.content.sidecar.value))
    ensures q.handle.value.content.request == a.content.request
  {
    hide Leads, Records, Fresh, Begun, Extends;
    more, done, q := states, actions, r;
    FreshIsBegun(q, pid);
    if q.floor.content.stage == Intended {
      SignedAgain(q.floor, a);
      more, done, q := OneRecord(s, more, done, q, pid, TheSigned(a.content.signed.value));
      FreshIsBegun(q, pid);
    }
    if q.floor.content.stage == SignedStage {
      RequestedAgain(q.floor, a);
      more, done, q := OneRecord(s, more, done, q, pid, TheRequest(a.content.request.value));
      FreshIsBegun(q, pid);
    }
    AnotherSidecar(q.floor, a);
    more, done, q := OneRecord(s, more, done, q, pid, TheSidecar(Another(a.content.sidecar.value)));
    FreshIsBegun(q, pid);
  }

  /**
   A handle at a sidecar that is not durable yet: after a power cut the answer to the same request can be
   another sidecar, under another identity.
   */
  lemma UndurableSidecarIsNotBinding(s: FS.System, a: Journal)
    returns (states: seq<FS.System>, actions: seq<FS.Action>, q: FS.System)
    requires FS.Inv(s) && s.handle == Some(a) && HasSidecar(a) && !HasSidecar(s.floor)
    ensures Leads(s, states, actions, q) && q.handle.Some? && HasSidecar(q.handle.value)
    ensures a.content.sidecar.Some? && q.handle.value.content.sidecar == Some(Another(a.content.sidecar.value))
    ensures q.handle.value.content.request == a.content.request
    ensures q.handle.value.content.sidecar != a.content.sidecar
    ensures HistoryIdentity(q.handle.value) != HistoryIdentity(a)
  {
    hide Begun, Extends, Leads, FS.Inv;
    FS.HandleIsPossible(s);
    LeadsToItself(s);
    var pid := FreshPid(D.Image(s.disk, 0), s.floor.content.mapping);
    states, actions, q := RolledBack(s, [s], [], s, pid);
    states, actions, q := AnsweredDifferently(s, states, actions, q, pid, a);
    AnotherDiffers(a.content.sidecar.value);
    LedFloor(s, states, actions, q);
    SameIdentityExactly(s.floor, a, q.handle.value);
  }

  lemma LedFloor(s: FS.System, states: seq<FS.System>, actions: seq<FS.Action>, q: FS.System)
    requires Leads(s, states, actions, q) && q.handle.Some?
    ensures Begun(q.handle.value) && Extends(s.floor.content, q.handle.value.content)
  {
    hide Begun, Extends, FS.May, FS.Do;
    FS.RunKeeps(states, actions, 0, |states| - 1);
    FS.HandleIsPossible(q);
    ExtendsTransitive(s.floor.content, q.floor.content, q.handle.value.content);
  }

  /** Every later handle with a sidecar attaches under this identity. */
  ghost predicate Pinned(s: FS.System, id: Identity) {
    forall states, actions, q | Leads(s, states, actions, q) && q.handle.Some? && HasSidecar(q.handle.value) ::
      HistoryIdentity(q.handle.value) == id
  }

  /** The exact condition: an attach is safe to repeat exactly when the sidecar it was made under is durable. */
  lemma PinnedExactly(s: FS.System, a: Journal)
    requires FS.Inv(s) && s.handle == Some(a) && HasSidecar(a)
    ensures Pinned(s, HistoryIdentity(a)) <==> HasSidecar(s.floor)
  {
    hide Begun, Extends, Leads, FS.Inv, HistoryIdentity;
    if HasSidecar(s.floor) {
      forall states, actions, q | Leads(s, states, actions, q) && q.handle.Some? && HasSidecar(q.handle.value)
        ensures HistoryIdentity(q.handle.value) == HistoryIdentity(a)
      {
        PinnedByFloor(s, a, states, actions, q);
      }
    } else {
      var states, actions, q := UndurableSidecarIsNotBinding(s, a);
    }
  }

  lemma PinnedByFloor(s: FS.System, a: Journal, states: seq<FS.System>, actions: seq<FS.Action>, q: FS.System)
    requires FS.Inv(s) && s.handle == Some(a) && HasSidecar(s.floor)
    requires Leads(s, states, actions, q) && q.handle.Some?
    ensures HistoryIdentity(q.handle.value) == HistoryIdentity(a)
  {
    FS.HandleIsPossible(s);
    assert Begun(s.floor);
    hide Begun, Extends, Leads, FS.Inv, HistoryIdentity;
    LedFloor(s, states, actions, q);
    HistoryIdentityIsStable(s.floor, a);
    HistoryIdentityIsStable(s.floor, q.handle.value);
  }

  /** Such a handle is reached: a record of the sidecar stops before its sync, and the journal is loaded again. */
  lemma ReloadedUndurable(s: FS.System, pid: nat, sidecar: Sidecar)
    returns (states: seq<FS.System>, actions: seq<FS.Action>, q: FS.System)
    requires Fresh(s, pid) && s.floor.content.stage == ArchiveRequested
    requires var input := TheSidecar(sidecar); Records(s.floor, input, Recorded(s.floor, input))
    ensures Leads(s, states, actions, q) && |actions| == 2
    ensures q.handle == Some(Recorded(s.floor, TheSidecar(sidecar))) && HasSidecar(q.handle.value)
            && !HasSidecar(q.floor)
  {
    hide Begun, Records, Leads;
    var input := TheSidecar(sidecar);
    var next := Recorded(s.floor, input);
    var left := FS.Moved(s.disk, FS.Path(s), FS.Temporary(s, pid), next);
    var stop := FS.RecordStops(input, next, pid, left);
    StoppedIsVisible(s, pid, input);
    FreshIsInv(s, pid);
    LeadsToItself(s);
    hide FS.Inv, Fresh, FS.May, FS.Do, FS.Moved;
    LeadsOn(s, [s], [], s, stop);
    var r := FS.Do(s, stop);
    LeadsOn(s, [s] + [r], [] + [stop], r, FS.Reload(next));
    q := FS.Do(r, FS.Reload(next));
    states, actions := [s] + [r] + [q], [] + [stop] + [FS.Reload(next)];
  }

  lemma FreshIsInv(s: FS.System, pid: nat)
    requires Fresh(s, pid)
    ensures FS.Inv(s)
  {
    hide FS.Inv;
  }

  lemma StoppedIsVisible(s: FS.System, pid: nat, input: Input)
    requires Fresh(s, pid) && Records(s.floor, input, Recorded(s.floor, input))
    ensures var next := Recorded(s.floor, input);
            var left := FS.Moved(s.disk, FS.Path(s), FS.Temporary(s, pid), next);
            var stop := FS.RecordStops(input, next, pid, left);
            && FS.May(s, stop)
            && var r := FS.Do(s, stop);
            && r.floor == s.floor && FS.May(r, FS.Reload(next))
            && FS.Do(r, FS.Reload(next)) == r.(handle := Some(next))
  {
    hide Begun, Records, FS.Shows, FS.Visible;
    RecordedIsLoadable(s.floor, input);
    FS.MovedShows(s.disk, FS.Path(s), FS.Temporary(s, pid), Recorded(s.floor, input), s.possible);
  }

  lemma RecordedIsLoadable(j: Journal, input: Input)
    requires Records(j, input, Recorded(j, input))
    ensures Loadable(Recorded(j, input))
  {
    hide Loadable, Guard;
  }

  // ---------------------------------------------------------------- the journal and its attaches together

  datatype Whole = Whole(journal: FS.System, history: H.System)

  datatype Step =
    | OnJournal(journalAction: FS.Action)
    | OnHistory(historyAction: H.Action)
    | PowerCut(journalCrash: FS.Action, historyCrash: H.Action)

  /** An attach is started from the handle, with what its journal prepares. A machine crash hits everything. */
  ghost predicate May(env: Env, s: Whole, a: Step) {
    match a
    case OnJournal(j) => !j.MachineCrash? && FS.May(s.journal, j)
    case OnHistory(h) =>
      && !h.MachineCrash? && H.May(s.history, h)
      && (h.Start? ==> s.journal.handle.Some? && Prepared(env, s.journal.handle.value) == Ok(h.src))
    case PowerCut(j, h) => j.MachineCrash? && h.MachineCrash? && FS.May(s.journal, j) && H.May(s.history, h)
  }

  ghost function Do(env: Env, s: Whole, a: Step): Whole
    requires May(env, s, a)
  {
    match a
    case OnJournal(j) => s.(journal := FS.Do(s.journal, j))
    case OnHistory(h) => s.(history := H.Do(s.history, h))
    case PowerCut(j, h) => Whole(FS.Do(s.journal, j), H.Do(s.history, h))
  }

  ghost predicate Run(env: Env, states: seq<Whole>, steps: seq<Step>) {
    && |states| == |steps| + 1
    && FS.Inv(states[0].journal) && H.Inv(states[0].history)
    && states[0].history.started == {} && states[0].history.yielded == {}
    && forall i :: 0 <= i < |steps| ==> May(env, states[i], steps[i]) && states[i + 1] == Do(env, states[i], steps[i])
  }

  lemma StepKeeps(env: Env, s: Whole, a: Step)
    requires FS.Inv(s.journal) && H.Inv(s.history) && May(env, s, a)
    ensures var r := Do(env, s, a);
            FS.Inv(r.journal) && H.Inv(r.history) && Extends(s.journal.floor.content, r.journal.floor.content)
  {
    hide FS.Inv, H.Inv, FS.May, H.May, FS.Do, H.Do, Extends;
    FS.ExtendsReflexive(s.journal.floor);
    match a
    case OnJournal(j) => FS.StepKeeps(s.journal, j);
    case OnHistory(h) => H.StepKeeps(s.history, h);
    case PowerCut(j, h) =>
      FS.StepKeeps(s.journal, j);
      H.StepKeeps(s.history, h);
  }

  lemma {:induction false} RunKeeps(env: Env, states: seq<Whole>, steps: seq<Step>, i: nat, j: nat)
    requires Run(env, states, steps) && i <= j < |states|
    ensures FS.Inv(states[j].journal) && H.Inv(states[j].history)
    ensures Extends(states[i].journal.floor.content, states[j].journal.floor.content)
    decreases j
  {
    hide FS.Inv, H.Inv, May, Do, Extends;
    if j > 0 {
      RunKeeps(env, states, steps, if i < j then i else j - 1, j - 1);
      StepKeeps(env, states[j - 1], steps[j - 1]);
      if i < j {
        ExtendsTransitive(states[i].journal.floor.content, states[j - 1].journal.floor.content,
          states[j].journal.floor.content);
      }
    }
    if i == j {
      FS.ExtendsReflexive(states[i].journal.floor);
    }
  }

  lemma StartedGrows(env: Env, s: Whole, a: Step)
    requires May(env, s, a)
    ensures var r := Do(env, s, a).history;
            && s.history.yielded <= r.yielded
            && r.started == s.history.started +
                 if a.OnHistory? && a.historyAction.Start? then {a.historyAction.src} else {}
  {
    hide FS.May, FS.Do, Prepared;
  }

  lemma {:induction false} YieldedStays(env: Env, states: seq<Whole>, steps: seq<Step>, i: nat, j: nat)
    requires Run(env, states, steps) && i <= j < |states|
    ensures states[i].history.yielded <= states[j].history.yielded
    decreases j
  {
    hide FS.Inv, H.Inv, May, Do;
    if i < j {
      YieldedStays(env, states, steps, i, j - 1);
      StartedGrows(env, states[j - 1], steps[j - 1]);
    }
  }

  /** Every started source was prepared from a handle of the run. */
  lemma {:induction false} SourceWasPrepared(env: Env, states: seq<Whole>, steps: seq<Step>, j: nat, src: H.Source)
    returns (i: nat)
    requires Run(env, states, steps) && j < |states| && src in states[j].history.started
    ensures i < j && states[i].journal.handle.Some? && Prepared(env, states[i].journal.handle.value) == Ok(src)
    ensures steps[i].OnHistory? && steps[i].historyAction.Start? && steps[i].historyAction.src == src
    decreases j
  {
    hide FS.Inv, H.Inv, Do, FS.May, H.May, Prepared;
    StartedGrows(env, states[j - 1], steps[j - 1]);
    if src in states[j - 1].history.started {
      i := SourceWasPrepared(env, states, steps, j - 1, src);
    } else {
      i := j - 1;
      assert May(env, states[i], steps[i]);
    }
  }

  /** The handles from which two sources were prepared, over a common durable journal. */
  lemma HandlesBehind(env: Env, states: seq<Whole>, steps: seq<Step>, i: nat, j: nat)
    requires Run(env, states, steps) && i <= j < |states|
    requires states[i].journal.handle.Some? && states[j].journal.handle.Some?
    ensures var floor, a, b := states[i].journal.floor, states[i].journal.handle.value, states[j].journal.handle.value;
            && Begun(floor) && Begun(a) && Begun(b)
            && Extends(floor.content, a.content) && Extends(floor.content, b.content)
  {
    hide Begun, Extends, May, Do, H.Inv;
    RunKeeps(env, states, steps, i, j);
    RunKeeps(env, states, steps, i, i);
    FS.HandleIsPossible(states[i].journal);
    FS.HandleIsPossible(states[j].journal);
    ExtendsTransitive(states[i].journal.floor.content, states[j].journal.floor.content,
      states[j].journal.handle.value.content);
  }

  lemma StartedIsOwn(h: H.System)
    requires H.Inv(h)
    ensures forall src <- h.started :: src.journal !in h.foreign
  {
    hide H.ThreadOk, H.CatalogOk, H.YieldedOk;
  }

  /** A handle of the run, and what became of its execution. */
  lemma HandleAt(env: Env, states: seq<Whole>, steps: seq<Step>, i: nat, k: nat)
    requires Run(env, states, steps) && i <= k < |states| && states[i].journal.handle.Some?
    ensures Begun(states[i].journal.handle.value)
    ensures Extends(states[i].journal.floor.content, states[i].journal.handle.value.content)
    ensures Extends(states[i].journal.floor.content, states[k].journal.floor.content)
  {
    hide Begun, Extends, May, Do, H.Inv;
    RunKeeps(env, states, steps, i, k);
    RunKeeps(env, states, steps, i, i);
    FS.HandleIsPossible(states[i].journal);
  }

  /** A journal that prepares something has its sidecar. */
  lemma PreparedHasSidecar(env: Env, j: Journal)
    requires Begun(j) && Prepared(env, j).Ok?
    ensures HasSidecar(j)
  {
    StageBounds(j.content);
    hide Begun, H.Prepare;
  }

  /**
   Two attaches of one execution return the same attachment exactly when the journals they were started
   from hold the same request and the same sidecar.
   */
  lemma AttachmentsAgreeExactly(
    env: Env, states: seq<Whole>, steps: seq<Step>, i: nat, j: nat, k: nat,
    one: H.Source, two: H.Source, y: Attachment, z: Attachment)
    requires Run(env, states, steps) && i <= j < |states| && k < |states|
    requires states[i].journal.handle.Some? && Prepared(env, states[i].journal.handle.value) == Ok(one)
    requires states[j].journal.handle.Some? && Prepared(env, states[j].journal.handle.value) == Ok(two)
    requires (one, y) in states[k].history.yielded && (two, z) in states[k].history.yielded
    ensures var a, b := states[i].journal.handle.value.content, states[j].journal.handle.value.content;
            y == z <==> a.request == b.request && a.sidecar == b.sidecar
  {
    HandlesBehind(env, states, steps, i, j);
    RunKeeps(env, states, steps, k, k);
    hide Run, Begun, Extends, FS.Inv, H.Inv, Prepared;
    var a, b := states[i].journal.handle.value, states[j].journal.handle.value;
    PreparedHasSidecar(env, a);
    PreparedHasSidecar(env, b);
    SameSourceExactly(env, states[i].journal.floor, a, b);
    SameIdentityExactly(states[i].journal.floor, a, b);
    SameYields(states[k].history, one, two, y, z);
  }

  lemma SameYields(s: H.System, one: H.Source, two: H.Source, y: Attachment, z: Attachment)
    requires H.Inv(s) && (one, y) in s.yielded && (two, z) in s.yielded
    ensures one == two ==> y == z
    ensures y == z ==> one.journal == two.journal
  {
    hide H.Inv, H.SettledEntry, H.Cataloged, H.CatalogedForGood;
    var e := H.EntryBehind(s, one, y);
    var f := H.EntryBehind(s, two, z);
    H.OneEntryPerSource(s.blobs.disk, one, e, e);
    H.OneEntryPerSource(s.blobs.disk, two, f, f);
    if one == two {
      H.OneEntryPerSource(s.blobs.disk, one, e, f);
    }
  }

  // ---------------------------------------------------------------- exactly once

  predicate Starts(a: Step) { a.OnHistory? && a.historyAction.Start? }

  /** All attaches are started from journals with the same request and sidecar. */
  ghost predicate Agreeing(states: seq<Whole>, steps: seq<Step>)
    requires |states| == |steps| + 1
  {
    forall i, j | 0 <= i <= j < |steps| && Starts(steps[i]) && Starts(steps[j]) ::
      SameEvidence(states[i].journal.handle, states[j].journal.handle)
  }

  predicate SameEvidence(a: Option<Journal>, b: Option<Journal>) {
    a.Some? && b.Some? && a.value.content.request == b.value.content.request
      && a.value.content.sidecar == b.value.content.sidecar
  }

  /** Every attach is started from a journal whose sidecar is durable. */
  ghost predicate DurablyStarted(states: seq<Whole>, steps: seq<Step>)
    requires |states| == |steps| + 1
  {
    forall i | 0 <= i < |steps| && Starts(steps[i]) :: HasSidecar(states[i].journal.floor)
  }

  /** A durable sidecar makes them agree, whatever happens in between. */
  lemma DurableIsAgreeing(env: Env, states: seq<Whole>, steps: seq<Step>)
    requires Run(env, states, steps) && DurablyStarted(states, steps)
    ensures Agreeing(states, steps)
  {
    hide FS.Inv, H.Inv, Do, FS.May, H.May, Prepared, HasSidecar;
    forall i, j | 0 <= i <= j < |steps| && Starts(steps[i]) && Starts(steps[j])
      ensures SameEvidence(states[i].journal.handle, states[j].journal.handle)
    {
      assert May(env, states[i], steps[i]) && May(env, states[j], steps[j]);
      SameWhenDurable(env, states, steps, i, j);
      EvidenceDecides(env, states, steps, i, j);
    }
  }

  lemma SameWhenDurable(env: Env, states: seq<Whole>, steps: seq<Step>, i: nat, j: nat)
    requires Run(env, states, steps) && i <= j < |states| && HasSidecar(states[i].journal.floor)
    requires states[i].journal.handle.Some? && states[j].journal.handle.Some?
    ensures Prepared(env, states[i].journal.handle.value) == Prepared(env, states[j].journal.handle.value)
  {
    HandlesBehind(env, states, steps, i, j);
    hide Run, Begun, Extends, FS.Inv, H.Inv, Prepared;
    SamePreparation(env, states[i].journal.floor, states[i].journal.handle.value);
    SamePreparation(env, states[i].journal.floor, states[j].journal.handle.value);
  }

  lemma EvidenceDecides(env: Env, states: seq<Whole>, steps: seq<Step>, i: nat, j: nat)
    requires Run(env, states, steps) && i <= j < |states|
    requires states[i].journal.handle.Some? && Prepared(env, states[i].journal.handle.value).Ok?
    requires states[j].journal.handle.Some? && Prepared(env, states[j].journal.handle.value).Ok?
    ensures Prepared(env, states[i].journal.handle.value) == Prepared(env, states[j].journal.handle.value)
            <==> SameEvidence(states[i].journal.handle, states[j].journal.handle)
  {
    HandlesBehind(env, states, steps, i, j);
    hide Run, Begun, Extends, FS.Inv, H.Inv, Prepared;
    PreparedHasSidecar(env, states[i].journal.handle.value);
    PreparedHasSidecar(env, states[j].journal.handle.value);
    SameSourceExactly(env, states[i].journal.floor, states[i].journal.handle.value, states[j].journal.handle.value);
  }

  /** Then all sources of the execution are one. */
  lemma OneSource(env: Env, states: seq<Whole>, steps: seq<Step>, k: nat, one: H.Source, two: H.Source)
    requires Run(env, states, steps) && Agreeing(states, steps) && k < |states|
    requires one in states[k].history.started && two in states[k].history.started
    ensures one == two
  {
    hide FS.Inv, H.Inv, May, Do, Prepared, SameEvidence;
    var i := SourceWasPrepared(env, states, steps, k, one);
    var j := SourceWasPrepared(env, states, steps, k, two);
    if i <= j {
      EvidenceDecides(env, states, steps, i, j);
    } else {
      EvidenceDecides(env, states, steps, j, i);
    }
  }

  /** The catalog holds exactly this entry of the execution. */
  ghost predicate OnlyEntryOf(s: H.System, e: EntryBody) {
    && H.Cataloged(s.catalog, e) && H.CatalogedForGood(s.catalog, e) && e.journal !in s.foreign
    && forall f | H.Cataloged(s.catalog, f) && f.journal !in s.foreign :: f == e
  }

  /**
   Exactly once, for the execution. Over every run of its journal and its attaches, with any records,
   reloads, failures, crashes and retries between them, as long as its attaches start from the same
   request and sidecar: all attaches return one attachment, and the catalog holds exactly one entry of the
   execution. `DurableIsAgreeing` and `PinnedExactly` say when the launcher can rely on it.
   */
  lemma AttachedOnce(
    env: Env, states: seq<Whole>, steps: seq<Step>, i: nat, j: nat,
    one: H.Source, two: H.Source, y: Attachment, z: Attachment)
    requires Run(env, states, steps) && Agreeing(states, steps) && i <= j < |states|
    requires (one, y) in states[i].history.yielded && (two, z) in states[j].history.yielded
    ensures one == two && y == z
    ensures exists e :: y == H.AttachmentOf(e) && OnlyEntryOf(states[j].history, e)
  {
    hide FS.Inv, H.Inv, May, Do, Agreeing;
    YieldedStays(env, states, steps, i, j);
    RunKeeps(env, states, steps, j, j);
    var s := states[j].history;
    hide H.AttachmentOf, OnlyEntryOf, H.SettledEntry;
    var e := H.EntryBehind(s, one, y);
    var f := H.EntryBehind(s, two, z);
    OneSource(env, states, steps, j, one, two);
    SameYields(s, one, two, y, z);
    forall other <- s.started ensures other == one {
      OneSource(env, states, steps, j, other, one);
    }
    OnlyStarted(s, one, e);
  }

  lemma OnlyStarted(s: H.System, src: H.Source, e: EntryBody)
    requires H.Inv(s) && src in s.started && (forall other <- s.started :: other == src)
    requires H.SettledEntry(s.blobs.disk, src, e) && H.Cataloged(s.catalog, e) && H.CatalogedForGood(s.catalog, e)
    ensures OnlyEntryOf(s, e)
  {
    assert src.journal !in s.foreign;
    hide H.Inv, H.SettledEntry, H.Cataloged, H.CatalogedForGood;
    H.OneEntryPerSource(s.blobs.disk, src, e, e);
    forall f | H.Cataloged(s.catalog, f) && f.journal !in s.foreign ensures f == e {
      var other := H.SourceBehind(s, f);
      H.OneEntryPerSource(s.blobs.disk, src, e, f);
    }
  }
}
