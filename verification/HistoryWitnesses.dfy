/** Executions from `begin` to the catalog, call by call: attaches that complete, and what may go wrong with them. */
module HistoryWitnesses {
  import opened Wrappers
  import opened Protocol
  import opened FinalizationJournal
  import D = Durability
  import CS = ContentStore
  import FS = FinalizationStore
  import H = ProtectedHistory
  import opened ExecutionHistory
  import opened AttachRuns
  import HistoryCatalog

  // ---------------------------------------------------------------- an execution from its beginning

  /** Where `begin` leaves an empty directory. */
  ghost predicate JustBegun(s: FS.System) {
    && s.floor.content.stage == Intended && Loadable(s.floor) && FS.HasPath(s.floor.content.mapping)
    && s == FS.System(D.Flush(FS.Written(D.Empty(), FS.Path(s), s.floor)), s.floor, {s.floor}, Some(s.floor), false)
  }

  lemma BegunIsFresh(s: FS.System, pid: nat)
    requires JustBegun(s)
    ensures Fresh(s, pid)
  {
    IntentIsBegun(s.floor);
    var n := FS.Path(s);
    hide Loadable, Begun, FS.HasPath;
    FS.WrittenImages(D.Empty(), n, s.floor);
    var d := FS.Written(D.Empty(), n, s.floor);
    FS.FlushedShows(d, n, s.floor);
    FS.BeginReturned(D.Flush(d), s.floor);
    D.ImagesAfterFlush(d);
  }

  /** A mapping identity with a path. */
  function SomeMapping(): string { "sha256:" + seq(64, _ => '0') }

  lemma SomeMappingHasPath()
    ensures FS.HasPath(SomeMapping()) && StartsWith(SomeMapping(), "sha256:")
            && StartsWith("invocation-1", "invocation-")
  {
    assert SomeMapping()[..7] == "sha256:";
    assert "invocation-1"[..11] == "invocation-";
  }

  function SomeDirectory(): WorkingDirectory {
    var body := DirectoryBody("/", 0, 0, true);
    WorkingDirectory(OfDirectory(body), body)
  }

  function SomeFinalization(): Finalization {
    var completion := CompletionBody(
      "invocation-1", Protocol.Text(""), "", "", "", "", Some(Sha256([])), Completed, None, true);
    var body := FinalizationBody(completion, true);
    Finalization(OfFinalization(body), body)
  }

  function SomeSigned(): SignedFinalization {
    var body := SignedBody(SomeFinalization(), "", true);
    SignedFinalization(OfSignedFinalization(body), body)
  }

  function SomeRequest(launcherRequest: string): ArchiveRequest {
    var body := ArchiveRequestBody("", launcherRequest, "", Sha256([]), None, true);
    ArchiveRequest(OfArchiveRequest(body), body)
  }

  function SomeSidecar(): Sidecar {
    var body := SidecarBody(SomeSigned(), SignedArchive(Sha256([]), "", ""), true);
    Sidecar(OfSidecar(body), body)
  }

  /** The journal that `begin` writes for this execution. */
  function SomeIntent(launcherRequest: string): Journal {
    var content := IntentContent(SomeMapping(), launcherRequest, SomeDirectory(), SomeFinalization());
    Journal(OfJournal(content), content)
  }

  function SomeBeginning(launcherRequest: string): FS.System {
    var j := SomeIntent(launcherRequest);
    FS.System(D.Flush(FS.Written(D.Empty(), FS.JournalFile(SomeMapping()), j)), j, {j}, Some(j), false)
  }

  lemma SomeBeginningIsBegun(launcherRequest: string)
    requires StartsWith(launcherRequest, "sha256:")
    ensures JustBegun(SomeBeginning(launcherRequest))
  {
    SomeMappingHasPath();
    hide SomeMapping, FS.HasPath, StartsWith;
  }

  lemma SomeRecords(launcherRequest: string)
    requires StartsWith(launcherRequest, "sha256:")
    ensures var j := SomeIntent(launcherRequest);
            var signed := Recorded(j, TheSigned(SomeSigned()));
            var requested := Recorded(signed, TheRequest(SomeRequest(launcherRequest)));
            && Records(j, TheSigned(SomeSigned()), signed)
            && Records(signed, TheRequest(SomeRequest(launcherRequest)), requested)
            && Records(requested, TheSidecar(SomeSidecar()), Recorded(requested, TheSidecar(SomeSidecar())))
            && requested == SomeRequested(launcherRequest)
  {
    SomeMappingHasPath();
    hide SomeMapping, FS.HasPath, StartsWith;
  }

  function SomeRequested(launcherRequest: string): Journal {
    Recorded(Recorded(SomeIntent(launcherRequest), TheSigned(SomeSigned())), TheRequest(SomeRequest(launcherRequest)))
  }

  /** The first two records of the execution return. */
  lemma RequestedRun(launcherRequest: string, pid: nat)
    returns (states: seq<FS.System>, actions: seq<FS.Action>, q: FS.System)
    requires StartsWith(launcherRequest, "sha256:")
    ensures Leads(SomeBeginning(launcherRequest), states, actions, q) && Fresh(q, pid)
    ensures q.floor == SomeRequested(launcherRequest)
  {
    hide Leads, Records, Fresh, JustBegun, Recorded;
    var s := SomeBeginning(launcherRequest);
    SomeBeginningIsBegun(launcherRequest);
    SomeRecords(launcherRequest);
    BegunIsFresh(s, pid);
    FreshIsInv(s, pid);
    LeadsToItself(s);
    states, actions, q := OneRecord(s, [s], [], s, pid, TheSigned(SomeSigned()));
    states, actions, q := OneRecord(s, states, actions, q, pid, TheRequest(SomeRequest(launcherRequest)));
  }

  /** What the attaches of this execution are made with. */
  function SomeEnv(): Env {
    Env(
      H.Binding("", [H.Mapping("", "", "", "", SomeDirectory())]),
      H.Target(H.FrozenObject([], Sha256([]), 0), H.FrozenObject([], Sha256([]), 0)),
      (sidecar: Sidecar) => [])
  }

  lemma SomePrepared(j: Journal)
    requires j.content.request.Some? && j.content.request.value.body.authority == ""
             && j.content.directory == SomeDirectory()
    requires j.content.sidecar.Some? && SelfSidecar(j.content.sidecar.value)
    requires j.content.sidecar.value.body.archive.receiptArchive == Sha256([])
    ensures Prepared(SomeEnv(), j).Ok? && Prepared(SomeEnv(), j).value.launcherRequest == j.content.launcherRequest
  {
    hide SelfSidecar, HistoryIdentity;
    H.OneMatch(SomeEnv().binding.mappings, "", SomeDirectory(), 0);
  }

  lemma SomeUnreadable(j: Journal)
    requires j == Recorded(SomeRequested("sha256:"), TheSidecar(SomeSidecar()))
    ensures j.content.stage == SidecarIssued
    ensures Prepared(SomeEnv(), j).Ok? && !HistoryCatalog.Readable(Prepared(SomeEnv(), j).value)
  {
    hide SomeMapping, Prepared, SomeEnv;
    SomePrepared(j);
  }

  /**
   The finalization journal checks only the prefix of the launcher's request identity. This journal is
   reached from `begin` by three records that return, is attached, and its entry is one that the loader
   refuses.
   */
  lemma PreparedMayBeUnreadable()
    returns (env: Env, s: FS.System, states: seq<FS.System>, actions: seq<FS.Action>, q: FS.System)
    ensures JustBegun(s) && Leads(s, states, actions, q) && q.handle == Some(q.floor)
            && q.floor.content.stage == SidecarIssued
    ensures Prepared(env, q.floor).Ok? && !HistoryCatalog.Readable(Prepared(env, q.floor).value)
  {
    env, s := SomeEnv(), SomeBeginning("sha256:");
    SomeBeginningIsBegun("sha256:");
    SomeRecords("sha256:");
    hide Leads, Records, Fresh, JustBegun, Recorded, SomeRequested, SomeBeginning, SomeEnv, Prepared;
    hide HistoryCatalog.Readable;
    states, actions, q := RequestedRun("sha256:", 0);
    states, actions, q := OneRecord(s, states, actions, q, 0, TheSidecar(SomeSidecar()));
    FreshIsBegun(q, 0);
    SomeUnreadable(q.floor);
  }

  // ---------------------------------------------------------------- the journal and its attaches together

  /** A run of the execution from `s` that ends in `q`. */
  ghost predicate Comes(env: Env, s: Whole, states: seq<Whole>, steps: seq<Step>, q: Whole) {
    && |states| == |steps| + 1 && states[0] == s && states[|states| - 1] == q
    && FS.Inv(s.journal) && H.Inv(s.history)
    && forall i :: 0 <= i < |steps| ==> May(env, states[i], steps[i]) && states[i + 1] == Do(env, states[i], steps[i])
  }

  lemma ComesOn(env: Env, s: Whole, states: seq<Whole>, steps: seq<Step>, q: Whole, a: Step)
    requires Comes(env, s, states, steps, q) && May(env, q, a)
    ensures Comes(env, s, states + [Do(env, q, a)], steps + [a], Do(env, q, a))
  {
    hide FS.Inv, H.Inv, May, Do;
  }

  lemma {:induction false} ComesKeeps(env: Env, s: Whole, states: seq<Whole>, steps: seq<Step>, q: Whole)
    requires Comes(env, s, states, steps, q)
    ensures FS.Inv(q.journal) && H.Inv(q.history) && Extends(s.journal.floor.content, q.journal.floor.content)
    decreases |steps|
  {
    hide FS.Inv, H.Inv, May, Do, Extends;
    if steps == [] {
      FS.ExtendsReflexive(s.journal.floor);
    } else {
      var k := |steps| - 1;
      ComesKeeps(env, s, states[..k + 1], steps[..k], states[k]);
      StepKeeps(env, states[k], steps[k]);
      ExtendsTransitive(s.journal.floor.content, states[k].journal.floor.content, q.journal.floor.content);
    }
  }

  /** What the attaches do is a run of the execution. */
  lemma {:induction false} HistoryComes(
    env: Env, s: Whole, before: seq<Whole>, did: seq<Step>, p: Whole,
    states: seq<H.System>, actions: seq<H.Action>, q: H.System)
    returns (more: seq<Whole>, done: seq<Step>)
    requires Comes(env, s, before, did, p) && Goes(p.history, states, actions, q)
    ensures Comes(env, s, more, done, p.(history := q))
    decreases |actions|
  {
    hide Comes, H.Inv, H.Do;
    if actions == [] {
      more, done := before, did;
      assert p.(history := q) == p;
    } else {
      var k := |actions| - 1;
      GoesFront(p.history, states, actions, q);
      more, done := HistoryComes(env, s, before, did, p, states[..k + 1], actions[..k], states[k]);
      var r := p.(history := states[k]);
      hide Goes, H.May;
      ComesOn(env, s, more, done, r, OnHistory(actions[k]));
      assert Do(env, r, OnHistory(actions[k])) == p.(history := q);
      more, done := more + [p.(history := q)], done + [OnHistory(actions[k])];
    }
  }

  lemma GoesFront(s: H.System, states: seq<H.System>, actions: seq<H.Action>, q: H.System)
    requires Goes(s, states, actions, q) && actions != []
    ensures var k := |actions| - 1;
            && |states| == k + 2 && Goes(s, states[..k + 1], actions[..k], states[k])
            && H.May(states[k], actions[k]) && q == H.Do(states[k], actions[k])
            && !actions[k].Start? && !actions[k].MachineCrash?
  {
    hide H.Inv, H.May, H.Do;
  }

  /** The history as the attaches count it. */
  ghost predicate SameBooks(a: H.System, b: H.System) {
    a.started == b.started && a.yielded == b.yielded && a.foreign == b.foreign && (Addressed(a) ==> Addressed(b))
  }

  /** What happens to the journal happens to the execution; a machine crash also stops its attaches. */
  lemma {:induction false} JournalComes(
    env: Env, s: Whole, before: seq<Whole>, did: seq<Step>, p: Whole,
    states: seq<FS.System>, actions: seq<FS.Action>, q: FS.System)
    returns (more: seq<Whole>, done: seq<Step>, r: Whole)
    requires Comes(env, s, before, did, p) && Leads(p.journal, states, actions, q)
    ensures Comes(env, s, more, done, r) && r.journal == q && SameBooks(p.history, r.history)
    decreases |actions|
  {
    hide Comes, FS.Inv, FS.Do;
    if actions == [] {
      more, done, r := before, did, p;
    } else {
      var k := |actions| - 1;
      var a := actions[k];
      LeadsFront(p.journal, states, actions, q);
      more, done, r := JournalComes(env, s, before, did, p, states[..k + 1], actions[..k], states[k]);
      hide Leads, Takes, May, Do, StepOf, Addressed;
      var step := StepOf(a);
      JournalStep(env, r, a, q);
      ComesOn(env, s, more, done, r, step);
      var u := Do(env, r, step);
      more, done, r := more + [u], done + [step], u;
    }
  }

  /** The step of the execution that an action of its journal is. */
  function StepOf(a: FS.Action): Step {
    if a.MachineCrash? then PowerCut(a, H.MachineCrash(0, {}, 0, {})) else OnJournal(a)
  }

  lemma JournalStep(env: Env, r: Whole, a: FS.Action, q: FS.System)
    requires Takes(r.journal, a, q)
    ensures May(env, r, StepOf(a))
    ensures var u := Do(env, r, StepOf(a)); u.journal == q && SameBooks(r.history, u.history)
  {
    hide FS.May, FS.Do, Prepared;
  }

  ghost predicate Takes(s: FS.System, a: FS.Action, q: FS.System) {
    FS.May(s, a) && q == FS.Do(s, a)
  }

  lemma LeadsFront(s: FS.System, states: seq<FS.System>, actions: seq<FS.Action>, q: FS.System)
    requires Leads(s, states, actions, q) && actions != []
    ensures var k := |actions| - 1;
            |states| == k + 2 && Leads(s, states[..k + 1], actions[..k], states[k]) && Takes(states[k], actions[k], q)
  {
    hide FS.Inv, FS.May, FS.Do;
  }

  /** A journal that prepares something can have it attached. */
  lemma Attached(env: Env, s: Whole, before: seq<Whole>, did: seq<Step>, p: Whole, j: Journal)
    returns (states: seq<Whole>, steps: seq<Step>, q: Whole, y: Attachment)
    requires Comes(env, s, before, did, p) && p.journal.handle == Some(j) && Prepared(env, j).Ok?
    requires Prepared(env, j).value.journal !in p.history.foreign && Addressed(p.history)
    ensures Comes(env, s, states, steps, q) && q.journal == p.journal && q.history.foreign == p.history.foreign
    ensures Addressed(q.history) && q.history.yielded == p.history.yielded + {(Prepared(env, j).value, y)}
  {
    hide Comes, H.Inv, FS.Inv, Prepared, Goes;
    var src := Prepared(env, j).value;
    var t := D.Above(p.history.threads.Keys);
    ComesOn(env, s, before, did, p, OnHistory(H.Start(t, src)));
    var r := Do(env, p, OnHistory(H.Start(t, src)));
    states, steps := before + [r], did + [OnHistory(H.Start(t, src))];
    ComesKeeps(env, s, states, steps, r);
    var inner, work, h;
    inner, work, h, y := AttachCompletes(r.history, t, src);
    states, steps := HistoryComes(env, s, states, steps, r, inner, work, h);
    q := r.(history := h);
  }

  /** The journals of other executions in the catalog are of other finalizations. */
  ghost predicate Elsewhere(foreign: set<Identity>, c: Content) {
    forall other: Content | OfJournal(other) in foreign :: other.finalization != c.finalization
  }

  lemma OwnIsNotForeign(env: Env, foreign: set<Identity>, floor: Journal, j: Journal)
    requires Begun(j) && Extends(floor.content, j.content) && Elsewhere(foreign, floor.content) && Prepared(env, j).Ok?
    ensures Prepared(env, j).value.journal == HistoryIdentity(j) && HistoryIdentity(j) !in foreign
  {
    hide Loadable, H.SelectMapping;
    assert PreAttachment(j.content).finalization == floor.content.finalization;
  }

  lemma AnotherIsPrepared(env: Env, floor: Journal, a: Journal, b: Journal)
    requires Extends(floor.content, a.content) && Extends(floor.content, b.content) && Prepared(env, a).Ok?
    requires b.content.request == a.content.request && b.content.sidecar == Some(Another(a.content.sidecar.value))
    ensures Prepared(env, b).Ok?
  {
    hide HistoryIdentity, H.SelectMapping;
  }

  /** Attach, power cut, another sidecar, attach: from any point of a run with an undurable sidecar. */
  lemma TwiceFrom(env: Env, s: Whole, before: seq<Whole>, did: seq<Step>, p: Whole, a: Journal)
    returns (states: seq<Whole>, steps: seq<Step>, q: Whole, one: H.Source, two: H.Source, y: Attachment, z: Attachment)
    requires Comes(env, s, before, did, p) && Addressed(p.history)
    requires Elsewhere(p.history.foreign, p.journal.floor.content)
    requires p.journal.handle == Some(a) && HasSidecar(a) && !HasSidecar(p.journal.floor) && Prepared(env, a).Ok?
    ensures Comes(env, s, states, steps, q) && one.journal != two.journal
    ensures (one, y) in q.history.yielded && (two, z) in q.history.yielded
  {
    hide FS.Inv, H.Inv, Begun, Extends, Prepared, Comes, Leads, Elsewhere, Addressed, HistoryIdentity;
    ComesKeeps(env, s, before, did, p);
    FS.HandleIsPossible(p.journal);
    OwnIsNotForeign(env, p.history.foreign, p.journal.floor, a);
    one := Prepared(env, a).value;
    states, steps, q, y := Attached(env, s, before, did, p, a);
    var js, actions, r := UndurableSidecarIsNotBinding(p.journal, a);
    states, steps, q := JournalComes(env, s, states, steps, q, js, actions, r);
    var b := r.handle.value;
    LedFloor(p.journal, js, actions, r);
    AnotherIsPrepared(env, p.journal.floor, a, b);
    OwnIsNotForeign(env, p.history.foreign, p.journal.floor, b);
    two := Prepared(env, b).value;
    states, steps, q, z := Attached(env, s, states, steps, q, b);
  }

  /**
   Two attachments of one execution, in one run: an attach from a handle whose sidecar is not durable
   completes, the machine crashes, another sidecar answers the same request, and an attach from it
   completes too. The catalog then holds two entries of the execution for good.
   */
  lemma AttachedTwice(env: Env, s: Whole, a: Journal)
    returns (states: seq<Whole>, steps: seq<Step>, q: Whole, y: Attachment, z: Attachment, e: EntryBody, f: EntryBody)
    requires FS.Inv(s.journal) && H.Inv(s.history) && Addressed(s.history)
    requires s.history.started == {} && s.history.yielded == {} && Elsewhere(s.history.foreign, s.journal.floor.content)
    requires s.journal.handle == Some(a) && HasSidecar(a) && !HasSidecar(s.journal.floor) && Prepared(env, a).Ok?
    ensures Run(env, states, steps) && states[0] == s && states[|states| - 1] == q
    ensures TwoEntries(q.history, y, z, e, f)
  {
    hide FS.Inv, H.Inv, Prepared, May, Do, Elsewhere, Addressed, TwoEntries, HasSidecar;
    assert Comes(env, s, [s], [], s);
    hide Comes;
    var one, two;
    states, steps, q, one, two, y, z := TwiceFrom(env, s, [s], [], s, a);
    ComesKeeps(env, s, states, steps, q);
    ComesIsRun(env, s, states, steps, q);
    e, f := BothStand(q.history, one, two, y, z);
  }

  /** Two attachments that were returned, and the two entries behind them, which are no other execution's. */
  ghost predicate TwoEntries(h: H.System, y: Attachment, z: Attachment, e: EntryBody, f: EntryBody) {
    && y != z && (exists one, two :: (one, y) in h.yielded && (two, z) in h.yielded)
    && e != f && e.journal !in h.foreign && f.journal !in h.foreign
    && H.CatalogedForGood(h.catalog, e) && H.CatalogedForGood(h.catalog, f)
  }

  /** From `begin` and two empty stores to a reloaded journal whose sidecar is not durable. */
  lemma SomeUndurableRun(env: Env)
    returns (s: Whole, states: seq<Whole>, steps: seq<Step>, p: Whole)
    ensures JustBegun(s.journal) && s.history == H.System(EmptyStore(), EmptyStore(), map[], {}, {}, {})
    ensures Comes(env, s, states, steps, p) && Addressed(p.history) && p.history.foreign == {}
    ensures p.journal.handle == Some(Recorded(SomeRequested("sha256:"), TheSidecar(SomeSidecar())))
    ensures HasSidecar(p.journal.handle.value) && !HasSidecar(p.journal.floor)
  {
    s := Whole(SomeBeginning("sha256:"), H.System(EmptyStore(), EmptyStore(), map[], {}, {}, {}));
    StartsWell(env, s);
    hide FS.Inv, H.Inv, JustBegun, Records, Recorded, SomeRequested, SomeBeginning, Fresh, Leads, HasSidecar, Comes;
    hide Addressed, SomeSidecar, EmptyStore;
    var js, actions, r := RequestedRun("sha256:", 0);
    states, steps, p := JournalComes(env, s, [s], [], s, js, actions, r);
    js, actions, r := ReloadedUndurable(r, 0, SomeSidecar());
    states, steps, p := JournalComes(env, s, states, steps, p, js, actions, r);
  }

  lemma StartsWell(env: Env, s: Whole)
    requires s == Whole(SomeBeginning("sha256:"), H.System(EmptyStore(), EmptyStore(), map[], {}, {}, {}))
    ensures JustBegun(s.journal) && Comes(env, s, [s], [], s) && Addressed(s.history)
    ensures var j, input := SomeRequested("sha256:"), TheSidecar(SomeSidecar());
            j.content.stage == ArchiveRequested && Records(j, input, Recorded(j, input))
  {
    EmptyHistory(s.history);
    SomeBeginningIsBegun("sha256:");
    BegunIsFresh(s.journal, 0);
    FreshIsInv(s.journal, 0);
    hide FS.Inv, H.Inv, JustBegun, Records, Recorded, SomeRequested, SomeBeginning, Fresh, May, Do;
    SomeRecords("sha256:");
    SomeRequestedIsPrepared("sha256:");
  }

  /** It happens, from `begin` and two empty stores. */
  lemma SomeExecutionTwice()
    returns (env: Env, s: Whole, states: seq<Whole>, steps: seq<Step>, q: Whole,
             y: Attachment, z: Attachment, e: EntryBody, f: EntryBody)
    ensures JustBegun(s.journal) && s.history == H.System(EmptyStore(), EmptyStore(), map[], {}, {}, {})
    ensures Run(env, states, steps) && states[0] == s && states[|states| - 1] == q
    ensures TwoEntries(q.history, y, z, e, f)
  {
    hide FS.Inv, H.Inv, JustBegun, Recorded, SomeRequested, SomeEnv, Prepared, Comes, May, Do, TwoEntries;
    hide HasSidecar, Addressed;
    env := SomeEnv();
    SomeRequestedIsPrepared("sha256:");
    s, states, steps, q := SomeUndurableRun(env);
    var one, two;
    states, steps, q, one, two, y, z := TwiceFrom(env, s, states, steps, q, q.journal.handle.value);
    ComesKeeps(env, s, states, steps, q);
    ComesIsRun(env, s, states, steps, q);
    e, f := BothStand(q.history, one, two, y, z);
  }

  ghost function EmptyStore<K(!new), B(!new)>(): CS.Store<K, B> { CS.Store(D.Empty(), map[], {}, {}) }

  lemma EmptyHistory(h: H.System)
    requires h == H.System(EmptyStore(), EmptyStore(), map[], {}, {}, {})
    ensures H.Inv(h) && Addressed(h)
  {
    CS.EmptyIsInv<ContentIdentity, H.Bytes>();
    CS.EmptyIsInv<Identity, EntryBody>();
    hide CS.Inv;
  }

  lemma SomeRequestedIsPrepared(launcherRequest: string)
    ensures SomeRequested(launcherRequest).content.stage == ArchiveRequested
    ensures Prepared(SomeEnv(), Recorded(SomeRequested(launcherRequest), TheSidecar(SomeSidecar()))).Ok?
  {
    hide Prepared, SomeEnv;
    SomePrepared(Recorded(SomeRequested(launcherRequest), TheSidecar(SomeSidecar())));
  }

  lemma BothStand(h: H.System, one: H.Source, two: H.Source, y: Attachment, z: Attachment)
    returns (e: EntryBody, f: EntryBody)
    requires H.Inv(h) && (one, y) in h.yielded && (two, z) in h.yielded && one.journal != two.journal
    ensures TwoEntries(h, y, z, e, f)
  {
    StartedIsOwn(h);
    hide H.Inv, H.CatalogedForGood, H.SettledEntry, H.Cataloged;
    e := H.EntryBehind(h, one, y);
    f := H.EntryBehind(h, two, z);
    H.OneEntryPerSource(h.blobs.disk, one, e, e);
    H.OneEntryPerSource(h.blobs.disk, two, f, f);
    var g, i := H.TwoSourcesTwoEntries(h, one, two, y, z);
  }

  lemma ComesIsRun(env: Env, s: Whole, states: seq<Whole>, steps: seq<Step>, q: Whole)
    requires Comes(env, s, states, steps, q) && s.history.started == {} && s.history.yielded == {}
    ensures Run(env, states, steps) && states[0] == s && states[|states| - 1] == q
  {
    hide FS.Inv, H.Inv, May, Do;
  }
}
