/** What a catalog entry and its attachment say, field by field, in terms of the journal and the target. */
module EntryContents {
  import opened Wrappers
  import opened Protocol
  import opened FinalizationJournal
  import opened ProtectedHistory
  import D = Durability
  import CS = ContentStore
  import X = ExactFile
  import FS = FinalizationStore
  import SlotNames = Names
  import A = SlotAcceptance
  import FA = FinalizationAcceptance
  import HistoryCatalog
  import E = ExecutionHistory

  /** The blob holds these bytes, and says so. */
  predicate Holds(b: Blob, bytes: Bytes) {
    && b.identity == OfBlob(b.body)
    && b.body.contentIdentity == Sha256(bytes) && b.body.size == |bytes|
    && b.body.metadata.contentIdentity == Sha256(bytes) && b.body.metadata.size == |bytes|
  }

  /** The entry describes this object where it was frozen. */
  predicate Sourced(m: Metadata, o: FrozenObject) {
    m.inode == o.inode && m.size == |o.bytes| && m.contentIdentity == o.contentIdentity
  }

  /** The entry says, in every field, what the journal, the target and the sidecar say. */
  predicate Tells(e: EntryBody, operator: string, m: Mapping, target: Target, s: Sidecar, bytes: Bytes, c: Content) {
    && e.authority == m.authority && e.repositoryBinding == m.repositoryBinding && e.namespace == m.namespace
    && e.mapping == m.identity && e.operator == operator && e.directory == m.directory
    && e.launcherRequest == c.launcherRequest
    && e.workUnit == c.finalization.body.completion.workUnit
    && e.crossing == c.finalization.body.completion.crossing
    && e.archive == target.archive.contentIdentity && e.snapshot == target.snapshot.contentIdentity
    && e.sidecar == s.identity && e.signedFinalization == s.body.signed.identity
    && e.signedArchive == s.body.archive.identity
    && Sourced(e.archiveSource, target.archive) && Sourced(e.snapshotSource, target.snapshot)
    && Holds(e.archiveBlob, target.archive.bytes) && Holds(e.snapshotBlob, target.snapshot.bytes)
    && Holds(e.sidecarBlob, bytes)
  }

  /** The entry carries the identity that the journal had when its sidecar was issued. */
  predicate Identified(e: EntryBody, c: Content) {
    && e.journal.OfJournal?
    && var before := e.journal.journal;
    && before.stage == SidecarIssued && before.attachment.None? && before.persistence.None? && before.terminal.None?
    && before.invocation == c.invocation && before.mapping == c.mapping && before.launcherRequest == c.launcherRequest
    && before.directory == c.directory && before.finalization == c.finalization
    && before.signed == c.signed && before.request == c.request && before.sidecar == c.sidecar
  }

  /** The attachment names the entry, and repeats what it has of it. */
  predicate NamesEntry(y: Attachment, e: EntryBody) {
    && y.schemaVersion == 1 && y.catalog == OfEntry(e)
    && y.repositoryBinding == e.repositoryBinding && y.namespace == e.namespace
    && y.archiveBlob == e.archiveBlob.identity && y.snapshotBlob == e.snapshotBlob.identity
    && y.sidecarBlob == e.sidecarBlob.identity && y.journal == e.journal
  }

  /** The mapping at this position is the only one of this authority and directory. */
  predicate Chosen(binding: Binding, authority: string, directory: WorkingDirectory, i: nat) {
    && i < |binding.mappings|
    && forall k :: 0 <= k < |binding.mappings| ==>
         (k == i <==> binding.mappings[k].authority == authority && binding.mappings[k].directory == directory)
  }

  /** When exactly an attach gets past its checks. */
  lemma PreparesExactly(binding: Binding, target: Target, s: Sidecar, bytes: Bytes, j: Journal)
    ensures Prepare(binding, target, s, bytes, j).Ok? <==>
              && j.content.request.Some?
              && (exists i :: Chosen(binding, j.content.request.value.body.authority, j.content.directory, i))
              && s.body.wellFormed && s.identity == OfSidecar(s.body)
              && s.body.archive.receiptArchive == target.archive.contentIdentity
  {
    if j.content.request.Some? {
      ChosenIsOnly(binding, j.content.request.value.body.authority, j.content.directory);
      SelectedIsTheOnlyOne(binding, j.content.request.value.body.authority, j.content.directory);
    }
    hide SelectMapping, HistoryIdentity, OnlyAt, Chosen;
  }

  lemma ChosenIsOnly(binding: Binding, authority: string, directory: WorkingDirectory)
    ensures forall i: nat :: Chosen(binding, authority, directory, i) <==>
            OnlyAt(binding.mappings, authority, directory, i)
  {
  }

  lemma EntryTells(
    d: BlobDisk, binding: Binding, target: Target, s: Sidecar, bytes: Bytes, j: Journal, src: Source, e: EntryBody)
    returns (i: nat)
    requires Prepare(binding, target, s, bytes, j) == Ok(src) && SettledEntry(d, src, e) && j.content.request.Some?
    ensures Chosen(binding, j.content.request.value.body.authority, j.content.directory, i)
    ensures Tells(e, binding.operator, binding.mappings[i], target, s, bytes, j.content)
    ensures e.journal == HistoryIdentity(j)
  {
    i := PreparedFrom(binding, target, s, bytes, j);
    hide Prepare, SelectMapping, HistoryIdentity, Chosen, Settled;
  }

  lemma PreparedFrom(binding: Binding, target: Target, s: Sidecar, bytes: Bytes, j: Journal) returns (i: nat)
    requires Prepare(binding, target, s, bytes, j).Ok?
    ensures j.content.request.Some?
    ensures Chosen(binding, j.content.request.value.body.authority, j.content.directory, i)
    ensures var src, m := Prepare(binding, target, s, bytes, j).value, binding.mappings[i];
            && src.authority == m.authority && src.repositoryBinding == m.repositoryBinding
            && src.namespace == m.namespace && src.mapping == m.identity && src.operator == binding.operator
            && src.directory == m.directory
            && src.launcherRequest == j.content.launcherRequest
            && src.workUnit == j.content.finalization.body.completion.workUnit
            && src.crossing == j.content.finalization.body.completion.crossing
            && src.sidecar == s.identity && src.signedFinalization == s.body.signed.identity
            && src.signedArchive == s.body.archive.identity && src.journal == HistoryIdentity(j)
            && src.archive == target.archive && src.snapshot == target.snapshot && src.sidecarBytes == bytes
  {
    var (authority, directory) := (j.content.request.value.body.authority, j.content.directory);
    i := TheMatch(binding.mappings, authority, directory);
    SelectedIsTheOnlyOne(binding, authority, directory);
    ChosenIsOnly(binding, authority, directory);
    hide SelectMapping, HistoryIdentity, OnlyAt, Chosen, SelfSidecar;
  }

  lemma IdentifiedBy(j: Journal, e: EntryBody)
    requires Begun(j) && E.HasSidecar(j) && e.journal == HistoryIdentity(j)
    ensures Identified(e, j.content)
  {
    StageBounds(j.content);
    hide Loadable;
  }

  lemma AttachmentNames(e: EntryBody)
    ensures NamesEntry(AttachmentOf(e), e)
  {
  }

  // ---------------------------------------------------------------- what is read back

  /** When a blob reads as these bytes: it describes itself, and the file under its digest is the one it measured. */
  lemma ReadsExactly(d: BlobDisk, b: Blob, bytes: Bytes)
    requires forall n <- D.Current(d) :: D.Current(d)[n] < |d.content|
    ensures HistoryCatalog.ReadBlob(d, b) == Ok(bytes) <==>
              && Holds(b, bytes)
              && CS.At(d, D.Current(d), Sha256(bytes), b.body.metadata.inode, bytes)
  {
  }

  /** Which entries the loader accepts, check by check. */
  lemma AcceptsEntryExactly(e: Entry, binding: Binding, m: Mapping)
    ensures HistoryCatalog.Acceptable(e, binding, m) <==>
              && e.identity == OfEntry(e.body)
              && var b := e.body;
              && b.mapping == m.identity && b.repositoryBinding == m.repositoryBinding && b.namespace == m.namespace
              && b.authority == m.authority && b.directory == m.directory && b.operator == binding.operator
              && b.archiveBlob.body.contentIdentity == b.archive && b.archiveSource.contentIdentity == b.archive
              && b.snapshotBlob.body.contentIdentity == b.snapshot && b.snapshotSource.contentIdentity == b.snapshot
              && A.DigestText(b.launcherRequest) && A.DigestText(b.workUnit) && A.DigestText(b.crossing)
              && FA.DigestLike(b.sidecar) && FA.DigestLike(b.signedFinalization) && A.DigestText(b.signedArchive)
              && FA.DigestLike(b.journal)
  {
    forall t: string ensures SlotNames.IsSha256(t) <==> A.DigestText(t) { A.TextsAreChecked(t); }
    hide SlotNames.IsSha256, A.DigestText;
  }

  // ---------------------------------------------------------------- the whole operation, call by call

  /**
   `attach_protected_history`: refused without effect unless its checks pass, and otherwise `Ok` only with
   the attachment of an entry that is durable over durable blobs and says what journal, target and sidecar say.
   */
  method AttachProtectedHistory(
    blobs: HistoryCatalog.BlobDirectory, catalog: HistoryCatalog.CatalogDirectory, binding: Binding, target: Target,
    s: Sidecar, bytes: Bytes, j: Journal, tmp: nat,
    ghost askedBlobs: set<(ContentIdentity, Bytes)>, ghost askedEntries: set<(Identity, EntryBody)>)
    returns (r: ProtectedHistory.Result<Attachment>, ghost e: EntryBody)
    requires blobs as object != catalog as object
    requires CS.Backed(blobs.disk, askedBlobs) && CS.Backed(catalog.disk, askedEntries)
    requires (Sha256(target.archive.bytes), target.archive.bytes) in askedBlobs
    requires (Sha256(target.snapshot.bytes), target.snapshot.bytes) in askedBlobs
    requires (Sha256(bytes), bytes) in askedBlobs
    modifies blobs, catalog
    ensures X.Developed(old(blobs.disk), blobs.disk, askedBlobs) && CS.Steady(old(catalog.disk), catalog.disk)
    ensures r.Ok? || blobs.disk != old(blobs.disk) || catalog.disk != old(catalog.disk) ==>
      && j.content.request.Some? && s.body.wellFormed && s.identity == OfSidecar(s.body)
      && s.body.archive.receiptArchive == target.archive.contentIdentity
      && exists i :: Chosen(binding, j.content.request.value.body.authority, j.content.directory, i)
    ensures r.Ok? ==>
      && NamesEntry(r.value, e) && e.journal == HistoryIdentity(j) && j.content.request.Some?
      && CS.Present(catalog.disk, D.Image(catalog.disk, 0), OfEntry(e), e)
      && exists i: nat :: && Chosen(binding, j.content.request.value.body.authority, j.content.directory, i)
                          && Tells(e, binding.operator, binding.mappings[i], target, s, bytes, j.content)
  {
    hide SettledEntry, AttachmentOf, HistoryIdentity, Prepare, Tells, CS.Backed, CS.Steady, CS.Present, Chosen;
    e := *;
    NothingDone(blobs.disk, catalog.disk, askedBlobs, askedEntries);
    PreparesExactly(binding, target, s, bytes, j);
    var src := Prepare(binding, target, s, bytes, j);
    if src.Err? { return Err(src.error), e; }
    ghost var _ := PreparedFrom(binding, target, s, bytes, j);
    r, e := HistoryCatalog.Attach(blobs, catalog, src.value, tmp, askedBlobs, askedEntries);
    if r.Ok? {
      AttachmentNames(e);
      ghost var i := EntryTells(blobs.disk, binding, target, s, bytes, j, src.value, e);
    }
  }

  lemma NothingDone(
    d: BlobDisk, c: HistoryCatalog.CatalogDisk,
    askedBlobs: set<(ContentIdentity, Bytes)>, askedEntries: set<(Identity, EntryBody)>)
    requires CS.Backed(d, askedBlobs) && CS.Backed(c, askedEntries)
    ensures X.Developed(d, d, askedBlobs) && CS.Steady(c, c)
  {
    CS.SameDisk(d, askedBlobs);
    CS.SameDisk(c, askedEntries);
  }

  // ---------------------------------------------------------------- over whole runs

  /**
   Over every run of an execution, every entry in the catalog that is not another's says what the
   execution's own journal says, and what target and sidecar say; the sidecar is one that a handle of the run
   held, over the same request.
   */
  lemma EveryEntryTells(env: E.Env, states: seq<E.Whole>, steps: seq<E.Step>, k: nat, e: EntryBody)
    returns (i: nat, at: nat, s: Sidecar)
    requires E.Run(env, states, steps) && k < |states|
    requires Cataloged(states[k].history.catalog, e) && e.journal !in states[k].history.foreign
    ensures at < k && states[at].journal.handle.Some?
    ensures var c := states[at].journal.handle.value.content;
            && c.sidecar == Some(s) && c.request.Some? && Identified(e, c)
            && Chosen(env.binding, c.request.value.body.authority, c.directory, i)
    ensures Tells(e, env.binding.operator, env.binding.mappings[i], env.target, s, env.encode(s),
                  states[k].journal.floor.content)
  {
    hide FS.Inv, Inv, E.May, E.Do;
    E.RunKeeps(env, states, steps, k, k);
    var src := SourceBehind(states[k].history, e);
    at := E.SourceWasPrepared(env, states, steps, k, src);
    var j := states[at].journal.handle.value;
    hide SettledEntry, Tells, Identified, Chosen, Begun, Extends;
    E.HandleAt(env, states, steps, at, k);
    i, s := TellsOne(env, states[k].history.blobs.disk, j, src, e);
    SameExecution(e, env.binding.operator, env.binding.mappings[i], env.target, s, env.encode(s),
                  states[at].journal.floor.content, j.content, states[k].journal.floor.content);
  }

  lemma TellsOne(env: E.Env, d: BlobDisk, j: Journal, src: Source, e: EntryBody) returns (i: nat, s: Sidecar)
    requires Begun(j) && E.Prepared(env, j) == Ok(src) && SettledEntry(d, src, e)
    ensures j.content.sidecar == Some(s) && j.content.request.Some? && Identified(e, j.content)
    ensures Chosen(env.binding, j.content.request.value.body.authority, j.content.directory, i)
    ensures Tells(e, env.binding.operator, env.binding.mappings[i], env.target, s, env.encode(s), j.content)
  {
    hide Begun, SettledEntry, Tells, Identified, Chosen, Prepare;
    E.PreparedHasSidecar(env, j);
    s := j.content.sidecar.value;
    var _ := PreparedFrom(env.binding, env.target, s, env.encode(s), j);
    i := EntryTells(d, env.binding, env.target, s, env.encode(s), j, src, e);
    IdentifiedBy(j, e);
  }

  lemma SameExecution(
    e: EntryBody, operator: string, m: Mapping, target: Target, s: Sidecar, bytes: Bytes,
    floor: Content, c: Content, later: Content)
    requires Tells(e, operator, m, target, s, bytes, c) && Extends(floor, c) && Extends(floor, later)
    ensures Tells(e, operator, m, target, s, bytes, later)
  {
  }

  /** Every attachment that an attach of the execution returned names such an entry, which is there for good. */
  lemma EveryAttachmentNames(
    env: E.Env, states: seq<E.Whole>, steps: seq<E.Step>, k: nat, src: Source, y: Attachment)
    returns (e: EntryBody)
    requires E.Run(env, states, steps) && k < |states| && (src, y) in states[k].history.yielded
    ensures NamesEntry(y, e) && CatalogedForGood(states[k].history.catalog, e)
            && Cataloged(states[k].history.catalog, e)
    ensures e.journal !in states[k].history.foreign
  {
    hide FS.Inv, Inv, E.May, E.Do;
    E.RunKeeps(env, states, steps, k, k);
    hide SettledEntry, AttachmentOf, Cataloged, CatalogedForGood, NamesEntry;
    e := EntryBehind(states[k].history, src, y);
    AttachmentNames(e);
    OneEntryPerSource(states[k].history.blobs.disk, src, e, e);
    E.StartedIsOwn(states[k].history);
  }
}
