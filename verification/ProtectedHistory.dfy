/** The protected history: attaching an execution to it exactly once, and reading it back. */
module ProtectedHistory {
  import opened Wrappers
  import opened Protocol
  import opened FinalizationJournal
  import Names
  import D = Durability
  import CS = ContentStore

  type Bytes = seq<bv8>

  datatype Error = MappingUnavailable | StoreUnavailable | ObjectInvalid | PersistenceFailed

  type Result<+T> = Wrappers.Result<T, Error>

  /** Owner, mode, device and link count are those of the protected store; the inode is what varies. */
  datatype FrozenObject = FrozenObject(bytes: Bytes, contentIdentity: ContentIdentity, inode: nat)

  datatype Mapping = Mapping(
    identity: string, repositoryBinding: string, namespace: string, authority: string,
    directory: WorkingDirectory)

  datatype Binding = Binding(operator: string, mappings: seq<Mapping>)

  datatype Target = Target(archive: FrozenObject, snapshot: FrozenObject)

  datatype Entry = Entry(identity: Identity, body: EntryBody)

  // ---------------------------------------------------------------- choosing the mapping

  predicate Applies(m: Mapping, authority: string, directory: WorkingDirectory) {
    m.authority == authority && m.directory == directory
  }

  function Matches(mappings: seq<Mapping>, authority: string, directory: WorkingDirectory): seq<Mapping> {
    if mappings == [] then []
    else (if Applies(mappings[0], authority, directory) then [mappings[0]] else [])
         + Matches(mappings[1..], authority, directory)
  }

  function SelectMapping(binding: Binding, authority: string, directory: WorkingDirectory): Result<Mapping> {
    var matches := Matches(binding.mappings, authority, directory);
    if |matches| == 1 then Ok(matches[0]) else Err(MappingUnavailable)
  }

  /** The mapping at this position applies, and no other does. */
  ghost predicate OnlyAt(mappings: seq<Mapping>, authority: string, directory: WorkingDirectory, i: nat) {
    i < |mappings| && forall j | 0 <= j < |mappings| :: Applies(mappings[j], authority, directory) <==> j == i
  }

  lemma {:induction false} NoMatches(mappings: seq<Mapping>, authority: string, directory: WorkingDirectory)
    ensures Matches(mappings, authority, directory) == [] <==>
              forall j | 0 <= j < |mappings| :: !Applies(mappings[j], authority, directory)
  {
    if mappings != [] {
      var rest := mappings[1..];
      NoMatches(rest, authority, directory);
      assert forall j | 0 < j < |mappings| :: mappings[j] == rest[j - 1];
      assert forall j | 0 <= j < |rest| :: rest[j] == mappings[j + 1];
    }
  }

  lemma {:induction false} OneMatch(mappings: seq<Mapping>, authority: string, directory: WorkingDirectory, i: nat)
    requires i < |mappings|
    ensures Matches(mappings, authority, directory) == [mappings[i]] <== OnlyAt(mappings, authority, directory, i)
  {
    var rest := mappings[1..];
    assert forall j | 0 <= j < |rest| :: rest[j] == mappings[j + 1];
    if OnlyAt(mappings, authority, directory, i) {
      if i == 0 {
        NoMatches(rest, authority, directory);
      } else {
        assert !Applies(mappings[0], authority, directory);
        assert OnlyAt(rest, authority, directory, i - 1);
        OneMatch(rest, authority, directory, i - 1);
      }
    }
  }

  lemma {:induction false} TheMatch(mappings: seq<Mapping>, authority: string, directory: WorkingDirectory)
    returns (i: nat)
    requires |Matches(mappings, authority, directory)| == 1
    ensures OnlyAt(mappings, authority, directory, i)
  {
    var rest := mappings[1..];
    assert forall j | 0 < j < |mappings| :: mappings[j] == rest[j - 1];
    if Applies(mappings[0], authority, directory) {
      NoMatches(rest, authority, directory);
      i := 0;
    } else {
      i := TheMatch(rest, authority, directory);
      i := i + 1;
    }
  }

  /** A mapping is selected exactly when one and only one position of the binding applies, and it is that one. */
  lemma SelectedIsTheOnlyOne(binding: Binding, authority: string, directory: WorkingDirectory)
    ensures SelectMapping(binding, authority, directory).Ok? <==>
              exists i :: OnlyAt(binding.mappings, authority, directory, i)
    ensures forall i: nat | OnlyAt(binding.mappings, authority, directory, i) ::
              SelectMapping(binding, authority, directory) == Ok(binding.mappings[i])
  {
    if SelectMapping(binding, authority, directory).Ok? {
      var i := TheMatch(binding.mappings, authority, directory);
    }
    forall i: nat | OnlyAt(binding.mappings, authority, directory, i)
      ensures SelectMapping(binding, authority, directory) == Ok(binding.mappings[i])
    {
      OneMatch(binding.mappings, authority, directory, i);
    }
  }

  // ---------------------------------------------------------------- what is attached

  /** Everything that goes into a catalog entry except the inodes of its blobs. */
  datatype Source = Source(
    authority: string, repositoryBinding: string, namespace: string, mapping: string, operator: string,
    directory: WorkingDirectory, launcherRequest: string, workUnit: string, crossing: string,
    sidecar: Identity, signedFinalization: Identity, signedArchive: string, journal: Identity,
    archive: FrozenObject, snapshot: FrozenObject, sidecarBytes: Bytes)

  /** The checks of `attach_protected_history`, up to the first file it writes. */
  function Prepare(binding: Binding, target: Target, sidecar: Sidecar, sidecarBytes: Bytes, j: Journal)
    : Result<Source>
  {
    var c := j.content;
    if c.request.None? then Err(ObjectInvalid)
    else
      var selected := SelectMapping(binding, c.request.value.body.authority, c.directory);
      if selected.Err? then Err(selected.error)
      else if !SelfSidecar(sidecar) || sidecar.body.archive.receiptArchive != target.archive.contentIdentity then
        Err(ObjectInvalid)
      else
        var m := selected.value;
        Ok(Source(
          m.authority, m.repositoryBinding, m.namespace, m.identity, binding.operator, m.directory,
          c.launcherRequest, c.finalization.body.completion.workUnit, c.finalization.body.completion.crossing,
          sidecar.identity, sidecar.body.signed.identity, sidecar.body.archive.identity,
          HistoryIdentity(j), target.archive, target.snapshot, sidecarBytes))
  }

  /** Retrying from a later journal of the same run attaches the very same thing. */
  lemma RetryPreparesTheSame(
    binding: Binding, target: Target, sidecar: Sidecar, sidecarBytes: Bytes, a: Journal, b: Journal)
    requires Begun(a) && Begun(b) && Extends(a.content, b.content)
    requires Rank(a.content.stage) >= Rank(SidecarIssued)
    ensures Prepare(binding, target, sidecar, sidecarBytes, a) == Prepare(binding, target, sidecar, sidecarBytes, b)
  {
    HistoryIdentityIsStable(a, b);
    StageBounds(a.content);
    hide Begun, JournalIdentity, StageValid, SelectMapping;
  }

  function MetadataOf(o: FrozenObject): Metadata { Metadata(o.inode, |o.bytes|, o.contentIdentity) }

  function BlobOf(bytes: Bytes, inode: nat): Blob {
    var body := BlobBody(Sha256(bytes), |bytes|, Metadata(inode, |bytes|, Sha256(bytes)));
    Blob(OfBlob(body), body)
  }

  function EntryOf(s: Source, archive: Blob, snapshot: Blob, sidecar: Blob): EntryBody {
    EntryBody(
      s.authority, s.repositoryBinding, s.namespace, s.mapping, s.operator, s.directory,
      s.launcherRequest, s.workUnit, s.crossing, s.archive.contentIdentity, s.snapshot.contentIdentity,
      s.sidecar, s.signedFinalization, s.signedArchive, s.journal,
      MetadataOf(s.archive), MetadataOf(s.snapshot), archive, snapshot, sidecar)
  }

  function AttachmentOf(e: EntryBody): Attachment {
    Attachment(
      1, OfEntry(e), e.repositoryBinding, e.namespace,
      e.archiveBlob.identity, e.snapshotBlob.identity, e.sidecarBlob.identity, e.journal)
  }

  /** What is attached from a journal that has just got its sidecar is what that journal may record. */
  lemma AttachmentMayBeRecorded(
    binding: Binding, target: Target, sidecar: Sidecar, sidecarBytes: Bytes, j: Journal,
    archive: Bytes, snapshot: Bytes, i: nat, k: nat, l: nat)
    requires Begun(j) && j.content.stage == SidecarIssued
    requires Prepare(binding, target, sidecar, sidecarBytes, j).Ok?
    requires forall m <- binding.mappings :: Names.IsSha256(m.repositoryBinding) && Names.IsSha256(m.namespace)
    ensures var src := Prepare(binding, target, sidecar, sidecarBytes, j).value;
            var e := EntryOf(src, BlobOf(archive, i), BlobOf(snapshot, k), BlobOf(sidecarBytes, l));
            Guard(j, TheAttachment(AttachmentOf(e)))
  {
    PreparedBinding(binding, target, sidecar, sidecarBytes, j);
    var src := Prepare(binding, target, sidecar, sidecarBytes, j).value;
    hide Prepare;
    BegunAtSidecar(j);
    IdentityIsDigest(j);
    FittingAttachment(j, EntryOf(src, BlobOf(archive, i), BlobOf(snapshot, k), BlobOf(sidecarBytes, l)));
  }

  lemma PreparedBinding(binding: Binding, target: Target, sidecar: Sidecar, sidecarBytes: Bytes, j: Journal)
    requires Prepare(binding, target, sidecar, sidecarBytes, j).Ok?
    requires forall m <- binding.mappings :: Names.IsSha256(m.repositoryBinding) && Names.IsSha256(m.namespace)
    ensures var src := Prepare(binding, target, sidecar, sidecarBytes, j).value;
            && src.journal == HistoryIdentity(j)
            && Names.IsSha256(src.repositoryBinding) && Names.IsSha256(src.namespace)
  {
    var (authority, directory) := (j.content.request.value.body.authority, j.content.directory);
    var i := TheMatch(binding.mappings, authority, directory);
    SelectedIsTheOnlyOne(binding, authority, directory);
    hide SelectMapping, OnlyAt, Names.IsSha256, SelfSidecar, HistoryIdentity;
  }

  lemma BegunAtSidecar(j: Journal)
    requires Begun(j) && j.content.stage == SidecarIssued
    ensures j.content.attachment.None? && HistoryIdentity(j) == j.identity
  {
    hide Loadable;
  }

  lemma FittingAttachment(j: Journal, e: EntryBody)
    requires j.content.stage == SidecarIssued && j.content.attachment.None? && IsDigest(j.identity)
    requires e.journal == j.identity && Names.IsSha256(e.repositoryBinding) && Names.IsSha256(e.namespace)
    requires e.archiveBlob.identity.OfBlob? && e.snapshotBlob.identity.OfBlob? && e.sidecarBlob.identity.OfBlob?
    ensures Guard(j, TheAttachment(AttachmentOf(e)))
  {
    hide Names.IsSha256;
  }

  lemma IdentityIsDigest(j: Journal)
    requires Begun(j)
    ensures IsDigest(j.identity)
  {
    LoadedIdentity(j);
    hide Loadable;
  }

  // ---------------------------------------------------------------- the attaching threads

  type BlobStore = CS.Store<ContentIdentity, Bytes>
  type Catalog = CS.Store<Identity, EntryBody>
  type BlobDisk = D.Disk<CS.Name<ContentIdentity>, CS.File<Bytes>>

  /**
   One attach: what it attaches, the blobs already persisted and measured, and whether the next one is
   written but not measured.
   */
  datatype Thread = Thread(src: Source, blobs: seq<Blob>, persisted: bool)

  /**
   Attaches among other users of the two stores. `started` are the sources that attaches were started
   with, `yielded` the attachments they returned, and `foreign` the journals of other executions.
   */
  datatype System = System(
    blobs: BlobStore, catalog: Catalog, threads: map<nat, Thread>,
    started: set<Source>, yielded: set<(Source, Attachment)>, foreign: set<Identity>)

  function Part(s: Source, i: nat): Bytes {
    if i == 0 then s.archive.bytes else if i == 1 then s.snapshot.bytes else s.sidecarBytes
  }

  datatype Action =
    | Start(t: nat, src: Source)
    | CallBlob(t: nat, w: nat)
    | BlobReturns(t: nat, w: nat)
    | Measure(t: nat)
    | CallEntry(t: nat, w: nat)
    | EntryReturns(t: nat, w: nat)
    | Stop(t: nat)
    | OthersBlobs(blobAction: CS.Action<ContentIdentity, Bytes>)
    | OthersCatalog(catalogAction: CS.Action<Identity, EntryBody>)
    | MachineCrash(keptBlobs: nat, tornBlobs: set<nat>, keptCatalog: nat, tornCatalog: set<nat>)

  /** The bytes that a thread persists next. */
  function Next(t: Thread): Bytes { Part(t.src, |t.blobs|) }

  predicate Collects(s: System, t: nat) { t in s.threads && |s.threads[t].blobs| < 3 }

  predicate Publishes(s: System, t: nat) { t in s.threads && |s.threads[t].blobs| == 3 }

  predicate HasWriter(blobs: BlobStore, w: nat, bytes: Bytes) {
    w in blobs.writers && blobs.writers[w].key == Sha256(bytes) && blobs.writers[w].bytes == bytes
  }

  function Finished(t: Thread): EntryBody
    requires |t.blobs| == 3
  {
    EntryOf(t.src, t.blobs[0], t.blobs[1], t.blobs[2])
  }

  predicate HasEntryWriter(catalog: Catalog, w: nat, e: EntryBody) {
    w in catalog.writers && catalog.writers[w].key == OfEntry(e) && catalog.writers[w].bytes == e
  }

  /**
   The steps of `attach_protected_history` in any number of threads, among any other use of the two
   stores. Others publish under names derived from the content, as `persist_blob` and
   `persist_catalog_entry` do, and entries for journals of their own.
   */
  ghost predicate May(s: System, a: Action) {
    match a
    case Start(t, src) => t !in s.threads && src.journal !in s.foreign
    case CallBlob(t, w) => Collects(s, t) && !s.threads[t].persisted && w !in s.blobs.writers
    case BlobReturns(t, w) =>
      Collects(s, t) && HasWriter(s.blobs, w, Next(s.threads[t])) && s.blobs.writers[w].phase.Synced?
    case Measure(t) =>
      Collects(s, t) && s.threads[t].persisted && CS.Published(Sha256(Next(s.threads[t]))) in D.Current(s.blobs.disk)
    case CallEntry(t, w) => Publishes(s, t) && w !in s.catalog.writers
    case EntryReturns(t, w) =>
      && Publishes(s, t)
      && HasEntryWriter(s.catalog, w, Finished(s.threads[t])) && s.catalog.writers[w].phase.Synced?
    case Stop(t) => true
    case OthersBlobs(b) =>
      CS.May(s.blobs, b) && !b.MachineCrash? && (b.Call? ==> b.key == Sha256(b.bytes))
    case OthersCatalog(c) =>
      && CS.May(s.catalog, c) && !c.MachineCrash?
      && (c.Call? ==> c.key == OfEntry(c.bytes) && forall src <- s.started :: src.journal != c.bytes.journal)
    case MachineCrash(k, u, m, v) => CS.May(s.blobs, CS.MachineCrash(k, u)) && CS.May(s.catalog, CS.MachineCrash(m, v))
  }

  ghost function Do(s: System, a: Action): System
    requires May(s, a)
  {
    match a
    case Start(t, src) =>
      s.(threads := s.threads[t := Thread(src, [], false)], started := s.started + {src})
    case CallBlob(t, w) =>
      s.(blobs := CS.Do(s.blobs, CS.Call(w, Sha256(Next(s.threads[t])), Next(s.threads[t]))))
    case BlobReturns(t, w) =>
      s.(blobs := CS.Do(s.blobs, CS.Return(w)), threads := s.threads[t := s.threads[t].(persisted := true)])
    case Measure(t) =>
      var bytes := Next(s.threads[t]);
      var blob := BlobOf(bytes, D.Current(s.blobs.disk)[CS.Published(Sha256(bytes))]);
      s.(threads := s.threads[t := Thread(s.threads[t].src, s.threads[t].blobs + [blob], false)])
    case CallEntry(t, w) =>
      var e := Finished(s.threads[t]);
      s.(catalog := CS.Do(s.catalog, CS.Call(w, OfEntry(e), e)))
    case EntryReturns(t, w) =>
      s.(catalog := CS.Do(s.catalog, CS.Return(w)), threads := s.threads - {t},
         yielded := s.yielded + {(s.threads[t].src, AttachmentOf(Finished(s.threads[t])))})
    case Stop(t) => s.(threads := s.threads - {t})
    case OthersBlobs(b) => s.(blobs := CS.Do(s.blobs, b))
    case OthersCatalog(c) =>
      s.(catalog := CS.Do(s.catalog, c), foreign := s.foreign + if c.Call? then {c.bytes.journal} else {})
    case MachineCrash(k, u, m, v) =>
      s.(blobs := CS.Do(s.blobs, CS.MachineCrash(k, u)), catalog := CS.Do(s.catalog, CS.MachineCrash(m, v)),
         threads := map[])
  }

  // ---------------------------------------------------------------- the invariant

  /** The bytes are durably in the blob store, in this inode. */
  ghost predicate Settled(d: BlobDisk, bytes: Bytes, inode: nat) {
    CS.At(d, D.Image(d, 0), Sha256(bytes), inode, bytes)
  }

  ghost predicate SettledBlob(d: BlobDisk, bytes: Bytes, b: Blob) {
    b == BlobOf(bytes, b.body.metadata.inode) && Settled(d, bytes, b.body.metadata.inode)
  }

  ghost predicate SettledEntry(d: BlobDisk, src: Source, e: EntryBody) {
    && e == EntryOf(src, e.archiveBlob, e.snapshotBlob, e.sidecarBlob)
    && SettledBlob(d, src.archive.bytes, e.archiveBlob)
    && SettledBlob(d, src.snapshot.bytes, e.snapshotBlob)
    && SettledBlob(d, src.sidecarBytes, e.sidecarBlob)
  }

  ghost predicate ThreadOk(blobs: BlobStore, started: set<Source>, t: Thread) {
    && t.src in started
    && |t.blobs| <= 3
    && (forall i | 0 <= i < |t.blobs| :: SettledBlob(blobs.disk, Part(t.src, i), t.blobs[i]))
    && (t.persisted && |t.blobs| < 3 ==> (Sha256(Next(t)), Next(t)) in blobs.acked)
  }

  /** An entry of another execution, or of a started source whose blobs have settled. */
  ghost predicate EntryOk(d: BlobDisk, started: set<Source>, foreign: set<Identity>, e: EntryBody) {
    e.journal in foreign || exists src :: src in started && SettledEntry(d, src, e)
  }

  ghost predicate CatalogOk(d: BlobDisk, catalog: Catalog, started: set<Source>, foreign: set<Identity>) {
    forall r | r in catalog.asked :: r.0 == OfEntry(r.1) && EntryOk(d, started, foreign, r.1)
  }

  /** The attachment names an entry of this source that was persisted. */
  ghost predicate YieldedFor(d: BlobDisk, catalog: Catalog, src: Source, y: Attachment) {
    exists r :: r in catalog.acked && r.0 == OfEntry(r.1) && SettledEntry(d, src, r.1) && y == AttachmentOf(r.1)
  }

  ghost predicate YieldedOk(d: BlobDisk, catalog: Catalog, started: set<Source>, yielded: set<(Source, Attachment)>) {
    forall y | y in yielded :: y.0 in started && YieldedFor(d, catalog, y.0, y.1)
  }

  ghost predicate Inv(s: System) {
    && CS.Inv(s.blobs) && CS.Inv(s.catalog)
    && (forall t | t in s.threads :: ThreadOk(s.blobs, s.started, s.threads[t]))
    && CatalogOk(s.blobs.disk, s.catalog, s.started, s.foreign)
    && YieldedOk(s.blobs.disk, s.catalog, s.started, s.yielded)
    && s.catalog.acked <= s.catalog.asked
    && (forall src <- s.started :: src.journal !in s.foreign)
  }

  /** Stores that others have filled, before the first attach. */
  lemma BeginningIsInv(blobs: BlobStore, catalog: Catalog, foreign: set<Identity>)
    requires CS.Inv(blobs) && CS.Inv(catalog) && catalog.acked <= catalog.asked
    requires forall r | r in catalog.asked :: r.0 == OfEntry(r.1) && r.1.journal in foreign
    ensures Inv(System(blobs, catalog, map[], {}, {}, foreign))
  {
    hide CS.Inv;
  }

  // ---------------------------------------------------------------- every step keeps it

  /** What has settled stays settled in `after`, inode and all. */
  ghost predicate KeepsSettled(d: BlobDisk, after: BlobDisk) {
    forall bytes, blob | SettledBlob(d, bytes, blob) :: SettledBlob(after, bytes, blob)
  }

  lemma BlobsKeepSettled(blobs: BlobStore, b: CS.Action<ContentIdentity, Bytes>)
    requires CS.Inv(blobs) && CS.May(blobs, b)
    ensures KeepsSettled(blobs.disk, CS.Do(blobs, b).disk)
  {
    hide CS.Inv, CS.Do, CS.May;
    var after := CS.Do(blobs, b);
    forall bytes, blob | SettledBlob(blobs.disk, bytes, blob) ensures SettledBlob(after.disk, bytes, blob) {
      CS.DurableStays(blobs, b, Sha256(bytes), blob.body.metadata.inode, bytes);
    }
  }

  lemma SettledEntryStays(d: BlobDisk, after: BlobDisk, src: Source, e: EntryBody)
    requires KeepsSettled(d, after) && SettledEntry(d, src, e)
    ensures SettledEntry(after, src, e)
  {
    hide EntryOf, BlobOf;
  }

  lemma EntryStaysOk(d: BlobDisk, after: BlobDisk, started: set<Source>, more: set<Source>,
                     foreign: set<Identity>, others: set<Identity>, e: EntryBody)
    requires KeepsSettled(d, after) && EntryOk(d, started, foreign, e) && started <= more && foreign <= others
    ensures EntryOk(after, more, others, e)
  {
    if e.journal !in foreign {
      var src :| src in started && SettledEntry(d, src, e);
      SettledEntryStays(d, after, src, e);
      assert src in more;
    }
  }

  lemma YieldedStaysOk(d: BlobDisk, after: BlobDisk, catalog: Catalog, next: Catalog, src: Source, y: Attachment)
    requires KeepsSettled(d, after) && YieldedFor(d, catalog, src, y) && catalog.acked <= next.acked
    ensures YieldedFor(after, next, src, y)
  {
    var r :| r in catalog.acked && r.0 == OfEntry(r.1) && SettledEntry(d, src, r.1) && y == AttachmentOf(r.1);
    SettledEntryStays(d, after, src, r.1);
    assert r in next.acked;
  }

  /** The blob store may do anything: what has settled stays. */
  lemma BlobsMove(s: System, b: CS.Action<ContentIdentity, Bytes>)
    requires Inv(s) && CS.May(s.blobs, b)
    ensures Inv(s.(blobs := CS.Do(s.blobs, b)))
  {
    var after := CS.Do(s.blobs, b);
    CS.StepKeeps(s.blobs, b);
    CS.Books(s.blobs, b);
    BlobsKeepSettled(s.blobs, b);
    hide CS.Inv, CS.Do, CS.May, YieldedFor, EntryOk, KeepsSettled, SettledBlob;
    forall r | r in s.catalog.asked ensures EntryOk(after.disk, s.started, s.foreign, r.1) {
      EntryStaysOk(s.blobs.disk, after.disk, s.started, s.started, s.foreign, s.foreign, r.1);
    }
    forall y | y in s.yielded ensures YieldedFor(after.disk, s.catalog, y.0, y.1) {
      YieldedStaysOk(s.blobs.disk, after.disk, s.catalog, s.catalog, y.0, y.1);
    }
    forall t | t in s.threads ensures ThreadOk(after, s.started, s.threads[t]) {
      ThreadStaysOk(s.blobs, after, s.started, s.threads[t]);
    }
  }

  lemma ThreadStaysOk(blobs: BlobStore, after: BlobStore, started: set<Source>, t: Thread)
    requires KeepsSettled(blobs.disk, after.disk) && blobs.acked <= after.acked && ThreadOk(blobs, started, t)
    ensures ThreadOk(after, started, t)
  {
    hide SettledBlob;
    forall i | 0 <= i < |t.blobs| ensures SettledBlob(after.disk, Part(t.src, i), t.blobs[i]) {
      assert SettledBlob(blobs.disk, Part(t.src, i), t.blobs[i]);
    }
  }

  /** So may the catalog, as long as what is published there is in order. */
  lemma CatalogMove(s: System, c: CS.Action<Identity, EntryBody>, foreign: set<Identity>)
    requires Inv(s) && CS.May(s.catalog, c)
    requires s.foreign <= foreign && forall src <- s.started :: src.journal !in foreign
    requires c.Call? ==> c.key == OfEntry(c.bytes) && EntryOk(s.blobs.disk, s.started, foreign, c.bytes)
    ensures Inv(s.(catalog := CS.Do(s.catalog, c), foreign := foreign))
  {
    var after := CS.Do(s.catalog, c);
    CS.StepKeeps(s.catalog, c);
    CS.Books(s.catalog, c);
    ReturnedWasAsked(s.catalog, c);
    YieldedGrows(s.blobs.disk, s.catalog, after, s.started, s.yielded);
    CatalogGrows(s.blobs.disk, s.catalog, after, s.started, s.foreign, foreign, c);
    hide CS.Inv, CS.Do, CS.May, ThreadOk, CatalogOk, YieldedOk;
  }

  lemma CatalogGrows(
    d: BlobDisk, before: Catalog, after: Catalog, started: set<Source>,
    foreign: set<Identity>, others: set<Identity>, c: CS.Action<Identity, EntryBody>)
    requires CatalogOk(d, before, started, foreign) && foreign <= others
    requires after.asked == before.asked + if c.Call? then {(c.key, c.bytes)} else {}
    requires c.Call? ==> c.key == OfEntry(c.bytes) && EntryOk(d, started, others, c.bytes)
    ensures CatalogOk(d, after, started, others)
  {
    hide SettledEntry, SettledBlob;
    forall r | r in after.asked ensures EntryOk(d, started, others, r.1) {
      if r in before.asked {
        assert EntryOk(d, started, foreign, r.1);
      }
    }
  }

  lemma YieldedGrows(
    d: BlobDisk, before: Catalog, after: Catalog, started: set<Source>, yielded: set<(Source, Attachment)>)
    requires YieldedOk(d, before, started, yielded) && before.acked <= after.acked
    ensures YieldedOk(d, after, started, yielded)
  {
    hide YieldedFor, SettledBlob;
    forall y | y in yielded ensures YieldedFor(d, after, y.0, y.1) {
      YieldedStaysOk(d, d, before, after, y.0, y.1);
    }
  }

  lemma ReturnedWasAsked(catalog: Catalog, c: CS.Action<Identity, EntryBody>)
    requires CS.Inv(catalog) && CS.May(catalog, c)
    ensures c.Return? ==> (catalog.writers[c.w].key, catalog.writers[c.w].bytes) in catalog.asked
  {
  }

  lemma ThreadMoves(s: System, t: nat, thread: Thread)
    requires Inv(s) && ThreadOk(s.blobs, s.started, thread)
    ensures Inv(s.(threads := s.threads[t := thread]))
  {
    hide CS.Inv, ThreadOk, CatalogOk, YieldedOk;
  }

  lemma StartKeeps(s: System, a: Action)
    requires Inv(s) && May(s, a) && a.Start?
    ensures Inv(Do(s, a))
  {
    hide CS.Inv, YieldedFor, EntryOk, SettledBlob;
    var more := s.started + {a.src};
    forall r | r in s.catalog.asked ensures EntryOk(s.blobs.disk, more, s.foreign, r.1) {
      EntryStaysOk(s.blobs.disk, s.blobs.disk, s.started, more, s.foreign, s.foreign, r.1);
    }
  }

  /** The measured inode is the durable one: the blob was synced before. */
  lemma MeasuredIsSettled(s: System, t: nat)
    requires Inv(s) && May(s, Measure(t))
    ensures var p := Next(s.threads[t]);
            SettledBlob(s.blobs.disk, p, BlobOf(p, D.Current(s.blobs.disk)[CS.Published(Sha256(p))]))
  {
    var p := Next(s.threads[t]);
    assert ThreadOk(s.blobs, s.started, s.threads[t]);
    AckedIsDurable(s.blobs, Sha256(p), p);
  }

  lemma AckedIsDurable(blobs: BlobStore, key: ContentIdentity, bytes: Bytes)
    requires CS.Inv(blobs) && (key, bytes) in blobs.acked
    ensures CS.Published(key) in D.Current(blobs.disk)
    ensures CS.At(blobs.disk, D.Image(blobs.disk, 0), key, D.Current(blobs.disk)[CS.Published(key)], bytes)
  {
    var r := (key, bytes);
    assert CS.Present(blobs.disk, D.Image(blobs.disk, 0), r.0, r.1);
    assert CS.Keeps(D.Image(blobs.disk, 0), D.Current(blobs.disk));
  }

  lemma BlobReturnsKeeps(s: System, a: Action)
    requires Inv(s) && May(s, a) && a.BlobReturns?
    ensures Inv(Do(s, a))
  {
    CS.Books(s.blobs, CS.Return(a.w));
    BlobsMove(s, CS.Return(a.w));
    hide CS.Inv, CS.Do, CatalogOk, YieldedOk, SettledBlob;
    var moved := s.(blobs := CS.Do(s.blobs, CS.Return(a.w)));
    assert ThreadOk(moved.blobs, s.started, s.threads[a.t]);
    ThreadMoves(moved, a.t, s.threads[a.t].(persisted := true));
  }

  lemma MeasureKeeps(s: System, a: Action)
    requires Inv(s) && May(s, a) && a.Measure?
    ensures Inv(Do(s, a))
  {
    MeasuredIsSettled(s, a.t);
    assert ThreadOk(s.blobs, s.started, s.threads[a.t]);
    hide CS.Inv, CatalogOk, YieldedOk, SettledBlob;
    ThreadMoves(s, a.t, Do(s, a).threads[a.t]);
  }

  /** A thread publishes its entry only over settled blobs. */
  lemma FinishedIsSettled(blobs: BlobStore, started: set<Source>, t: Thread)
    requires ThreadOk(blobs, started, t) && |t.blobs| == 3
    ensures SettledEntry(blobs.disk, t.src, Finished(t)) && Finished(t).journal == t.src.journal
  {
    hide Settled;
    assert SettledBlob(blobs.disk, Part(t.src, 0), t.blobs[0]);
    assert SettledBlob(blobs.disk, Part(t.src, 1), t.blobs[1]);
    assert SettledBlob(blobs.disk, Part(t.src, 2), t.blobs[2]);
  }

  lemma CallEntryKeeps(s: System, a: Action)
    requires Inv(s) && May(s, a) && a.CallEntry?
    ensures Inv(Do(s, a))
  {
    var thread := s.threads[a.t];
    assert ThreadOk(s.blobs, s.started, thread);
    FinishedIsSettled(s.blobs, s.started, thread);
    var e := Finished(thread);
    assert EntryOk(s.blobs.disk, s.started, s.foreign, e);
    hide CS.Inv, CS.Do, CatalogOk, YieldedOk, EntryOk, ThreadOk;
    CatalogMove(s, CS.Call(a.w, OfEntry(e), e), s.foreign);
  }

  lemma EntryReturnsKeeps(s: System, a: Action)
    requires Inv(s) && May(s, a) && a.EntryReturns?
    ensures Inv(Do(s, a))
  {
    var thread := s.threads[a.t];
    assert ThreadOk(s.blobs, s.started, thread);
    FinishedIsSettled(s.blobs, s.started, thread);
    CS.Books(s.catalog, CS.Return(a.w));
    CatalogMove(s, CS.Return(a.w), s.foreign);
    assert thread.src in s.started;
    hide CS.Inv, CS.Do, CatalogOk, ThreadOk, YieldedOk;
    YieldedOneMore(s.blobs.disk, CS.Do(s.catalog, CS.Return(a.w)), s.started, s.yielded, thread.src, Finished(thread));
  }

  lemma YieldedOneMore(
    d: BlobDisk, catalog: Catalog, started: set<Source>, yielded: set<(Source, Attachment)>, src: Source, e: EntryBody)
    requires YieldedOk(d, catalog, started, yielded) && src in started
    requires (OfEntry(e), e) in catalog.acked && SettledEntry(d, src, e)
    ensures YieldedOk(d, catalog, started, yielded + {(src, AttachmentOf(e))})
  {
    hide AttachmentOf, SettledEntry;
    var r := (OfEntry(e), e);
    assert r in catalog.acked && r.0 == OfEntry(r.1) && SettledEntry(d, src, r.1);
    assert YieldedFor(d, catalog, src, AttachmentOf(e));
  }

  lemma OthersCatalogKeeps(s: System, a: Action)
    requires Inv(s) && May(s, a) && a.OthersCatalog?
    ensures Inv(Do(s, a))
  {
    hide CS.Inv, CS.Do, CatalogOk, YieldedOk, ThreadOk;
    CatalogMove(s, a.catalogAction, Do(s, a).foreign);
  }

  lemma MachineCrashKeeps(s: System, a: Action)
    requires Inv(s) && May(s, a) && a.MachineCrash?
    ensures Inv(Do(s, a))
  {
    hide CS.Inv, CS.Do, CatalogOk, YieldedOk, ThreadOk;
    BlobsMove(s, CS.MachineCrash(a.keptBlobs, a.tornBlobs));
    var moved := s.(blobs := CS.Do(s.blobs, CS.MachineCrash(a.keptBlobs, a.tornBlobs)));
    CatalogMove(moved, CS.MachineCrash(a.keptCatalog, a.tornCatalog), s.foreign);
  }

  lemma StepKeeps(s: System, a: Action)
    requires Inv(s) && May(s, a)
    ensures Inv(Do(s, a))
  {
    hide CS.Inv, CS.Do, CatalogOk, YieldedOk, ThreadOk;
    match a
    case Start(_, _) => StartKeeps(s, a);
    case CallBlob(t, w) => BlobsMove(s, CS.Call(w, Sha256(Next(s.threads[t])), Next(s.threads[t])));
    case BlobReturns(_, _) => BlobReturnsKeeps(s, a);
    case Measure(_) => MeasureKeeps(s, a);
    case CallEntry(_, _) => CallEntryKeeps(s, a);
    case EntryReturns(_, _) => EntryReturnsKeeps(s, a);
    case Stop(_) =>
    case OthersBlobs(b) => BlobsMove(s, b);
    case OthersCatalog(_) => OthersCatalogKeeps(s, a);
    case MachineCrash(_, _, _, _) => MachineCrashKeeps(s, a);
  }

  // ---------------------------------------------------------------- exactly once

  ghost predicate Run(states: seq<System>, actions: seq<Action>) {
    && |states| == |actions| + 1
    && Inv(states[0])
    && forall i :: 0 <= i < |actions| ==> May(states[i], actions[i]) && states[i + 1] == Do(states[i], actions[i])
  }

  lemma {:induction false} RunKeeps(states: seq<System>, actions: seq<Action>, i: nat)
    requires Run(states, actions) && i < |states|
    ensures Inv(states[i])
  {
    hide Inv, May, Do;
    if i > 0 {
      RunKeeps(states, actions, i - 1);
      StepKeeps(states[i - 1], actions[i - 1]);
    }
  }

  /** One source has one entry: the inodes of its blobs are settled. */
  lemma OneEntryPerSource(d: BlobDisk, src: Source, e: EntryBody, f: EntryBody)
    requires SettledEntry(d, src, e) && SettledEntry(d, src, f)
    ensures e == f && e.journal == src.journal
  {
  }

  /** The entry is in the catalog, as every reader sees it now. */
  ghost predicate Cataloged(catalog: Catalog, e: EntryBody) {
    CS.Present(catalog.disk, D.Current(catalog.disk), OfEntry(e), e)
  }

  ghost predicate CatalogedForGood(catalog: Catalog, e: EntryBody) {
    CS.Present(catalog.disk, D.Image(catalog.disk, 0), OfEntry(e), e)
  }

  lemma CatalogedWasAsked(catalog: Catalog, e: EntryBody)
    requires CS.Inv(catalog) && Cataloged(catalog, e)
    ensures (OfEntry(e), e) in catalog.asked
  {
    CS.PresentWasAsked(catalog, OfEntry(e), e);
  }

  lemma AckedIsCataloged(catalog: Catalog, r: (Identity, EntryBody))
    requires CS.Inv(catalog) && r in catalog.acked
    ensures CS.Present(catalog.disk, D.Image(catalog.disk, 0), r.0, r.1)
    ensures CS.Present(catalog.disk, D.Current(catalog.disk), r.0, r.1)
  {
    var inode :| CS.At(catalog.disk, D.Image(catalog.disk, 0), r.0, inode, r.1);
    assert CS.Keeps(D.Image(catalog.disk, 0), D.Current(catalog.disk));
    assert CS.At(catalog.disk, D.Current(catalog.disk), r.0, inode, r.1);
  }

  /** What was yielded for a source is in the catalog for good. */
  lemma EntryBehind(s: System, src: Source, y: Attachment) returns (e: EntryBody)
    requires Inv(s) && (src, y) in s.yielded
    ensures y == AttachmentOf(e) && SettledEntry(s.blobs.disk, src, e) && src in s.started
    ensures CatalogedForGood(s.catalog, e) && Cataloged(s.catalog, e)
  {
    hide ThreadOk, CatalogOk, SettledEntry;
    var p := (src, y);
    assert p in s.yielded && YieldedFor(s.blobs.disk, s.catalog, p.0, p.1);
    var r :| r in s.catalog.acked && r.0 == OfEntry(r.1) && SettledEntry(s.blobs.disk, src, r.1)
      && y == AttachmentOf(r.1);
    e := r.1;
    AckedIsCataloged(s.catalog, r);
  }

  /** An entry that a reader finds for the journal of a started source is the settled entry of such a source. */
  lemma SourceBehind(s: System, e: EntryBody) returns (src: Source)
    requires Inv(s) && Cataloged(s.catalog, e) && e.journal !in s.foreign
    ensures src in s.started && SettledEntry(s.blobs.disk, src, e)
  {
    hide CS.Inv, ThreadOk, YieldedOk, SettledEntry;
    CatalogedWasAsked(s.catalog, e);
    var r := (OfEntry(e), e);
    assert r in s.catalog.asked && EntryOk(s.blobs.disk, s.started, s.foreign, r.1);
    src :| src in s.started && SettledEntry(s.blobs.disk, src, e);
  }

  /** All attaches for the journal of this source were started with this very source. */
  ghost predicate Alone(s: System, src: Source) {
    forall other <- s.started :: other.journal == src.journal ==> other == src
  }

  /** The catalog holds exactly this entry for its journal. */
  ghost predicate OnlyEntry(catalog: Catalog, e: EntryBody) {
    Cataloged(catalog, e) && forall f | Cataloged(catalog, f) && f.journal == e.journal :: f == e
  }

  /**
   Attachment is exactly once per source: over every run, with any number of retries and crashes, all
   attaches of a source return the same attachment. When no other source was attached for its journal,
   the catalog holds exactly one entry for the journal, for good.
   */
  lemma ExactlyOnce(
    states: seq<System>, actions: seq<Action>, i: nat, j: nat, src: Source, y: Attachment, z: Attachment)
    requires Run(states, actions) && i <= j < |states|
    requires (src, y) in states[i].yielded && (src, z) in states[j].yielded
    ensures y == z
    ensures Alone(states[j], src) ==>
              exists e :: y == AttachmentOf(e) && e.journal == src.journal
                          && CatalogedForGood(states[j].catalog, e) && OnlyEntry(states[j].catalog, e)
  {
    RunKeeps(states, actions, j);
    YieldedStays(states, actions, i, j);
    hide Inv, CatalogedForGood, AttachmentOf, May, Do, SettledEntry, Cataloged, OnlyEntry, Alone;
    var e := EntryBehind(states[j], src, y);
    var f := EntryBehind(states[j], src, z);
    OneEntryPerSource(states[j].blobs.disk, src, e, f);
    if Alone(states[j], src) {
      AloneIsOnly(states[j], src, e);
    }
  }

  lemma AloneIsOnly(s: System, src: Source, e: EntryBody)
    requires Inv(s) && Alone(s, src) && src in s.started && SettledEntry(s.blobs.disk, src, e)
             && Cataloged(s.catalog, e)
    ensures OnlyEntry(s.catalog, e)
  {
    assert src.journal !in s.foreign;
    hide Inv, SettledEntry, Cataloged;
    OneEntryPerSource(s.blobs.disk, src, e, e);
    forall f | Cataloged(s.catalog, f) && f.journal == e.journal ensures f == e {
      var other := SourceBehind(s, f);
      OneEntryPerSource(s.blobs.disk, other, f, f);
      OneEntryPerSource(s.blobs.disk, src, e, f);
    }
  }

  lemma {:induction false} YieldedStays(states: seq<System>, actions: seq<Action>, i: nat, j: nat)
    requires Run(states, actions) && i <= j < |states|
    ensures states[i].yielded <= states[j].yielded
    decreases j
  {
    hide Inv;
    if i < j {
      YieldedStays(states, actions, i, j - 1);
      assert states[j] == Do(states[j - 1], actions[j - 1]);
    }
  }

  /** Two sources with different journals, both attached, leave two entries. */
  lemma TwoSourcesTwoEntries(s: System, one: Source, two: Source, y: Attachment, z: Attachment)
    returns (e: EntryBody, f: EntryBody)
    requires Inv(s) && (one, y) in s.yielded && (two, z) in s.yielded && one.journal != two.journal
    ensures y != z && e != f && CatalogedForGood(s.catalog, e) && CatalogedForGood(s.catalog, f)
  {
    hide Inv, CatalogedForGood, SettledEntry;
    e := EntryBehind(s, one, y);
    f := EntryBehind(s, two, z);
    OneEntryPerSource(s.blobs.disk, one, e, e);
    OneEntryPerSource(s.blobs.disk, two, f, f);
  }
}
