/** Reading the protected history back, and the attach operation call by call. */
module HistoryCatalog {
  import opened Wrappers
  import opened Protocol
  import opened FinalizationJournal
  import opened ProtectedHistory
  import Names
  import D = Durability
  import CS = ContentStore
  import X = ExactFile

  type BlobDirectory = X.Directory<ContentIdentity, Bytes>
  type CatalogDirectory = X.Directory<Identity, EntryBody>
  type CatalogDisk = D.Disk<CS.Name<Identity>, CS.File<EntryBody>>

  // ---------------------------------------------------------------- attaching, call by call

  /** `persist_blob`: the metadata it returns is that of the durable file. */
  method PersistBlob(dir: BlobDirectory, bytes: Bytes, tmp: nat, ghost asked: set<(ContentIdentity, Bytes)>)
    returns (r: ProtectedHistory.Result<Blob>)
    requires (Sha256(bytes), bytes) in asked && CS.Backed(dir.disk, asked)
    modifies dir
    ensures X.Developed(old(dir.disk), dir.disk, asked)
    ensures r.Ok? ==> SettledBlob(dir.disk, bytes, r.value)
  {
    var persisted := X.PersistExactFile(dir, Sha256(bytes), bytes, tmp, asked);
    if persisted.Err? { return Err(PersistenceFailed); }
    var readable: bool := *;
    if !readable { return Err(StoreUnavailable); }
    ghost var d := dir.disk;
    ghost var inode :| CS.At(d, D.Image(d, 0), Sha256(bytes), inode, bytes);
    assert CS.Keeps(D.Image(d, 0), D.Current(d));
    return Ok(BlobOf(bytes, D.Current(dir.disk)[CS.Published(Sha256(bytes))]));
  }

  lemma SettledStays(d: BlobDisk, e: BlobDisk, bytes: Bytes, b: Blob, asked: set<(ContentIdentity, Bytes)>)
    requires X.Developed(d, e, asked) && SettledBlob(d, bytes, b)
    ensures SettledBlob(e, bytes, b)
  {
    assert CS.Keeps(D.Image(d, 0), D.Current(d));
  }

  /** `attach_protected_history`, once its source is prepared: the blobs, and then the entry that names them. */
  method Attach(
    blobs: BlobDirectory, catalog: CatalogDirectory, src: Source, tmp: nat,
    ghost askedBlobs: set<(ContentIdentity, Bytes)>, ghost askedEntries: set<(Identity, EntryBody)>)
    returns (r: ProtectedHistory.Result<Attachment>, ghost entry: EntryBody)
    requires blobs as object != catalog as object
    requires CS.Backed(blobs.disk, askedBlobs) && CS.Backed(catalog.disk, askedEntries)
    requires forall i: nat | i < 3 :: (Sha256(Part(src, i)), Part(src, i)) in askedBlobs
    modifies blobs, catalog
    ensures X.Developed(old(blobs.disk), blobs.disk, askedBlobs)
    ensures CS.Steady(old(catalog.disk), catalog.disk)
    ensures r.Ok? ==>
      && r.value == AttachmentOf(entry)
      && SettledEntry(blobs.disk, src, entry)
      && CS.Present(catalog.disk, D.Image(catalog.disk, 0), OfEntry(entry), entry)
  {
    hide SettledBlob, EntryOf, AttachmentOf;
    entry := *;
    CS.SameDisk(blobs.disk, askedBlobs);
    CS.SameDisk(catalog.disk, askedEntries);
    ghost var begin := blobs.disk;
    assert (Sha256(Part(src, 0)), Part(src, 0)) in askedBlobs;
    var archive := PersistBlob(blobs, src.archive.bytes, tmp, askedBlobs);
    if archive.Err? { return Err(archive.error), entry; }
    ghost var first := blobs.disk;
    assert (Sha256(Part(src, 1)), Part(src, 1)) in askedBlobs;
    var snapshot := PersistBlob(blobs, src.snapshot.bytes, tmp, askedBlobs);
    X.DevelopedTransitive(begin, first, blobs.disk, askedBlobs);
    if snapshot.Err? { return Err(snapshot.error), entry; }
    ghost var second := blobs.disk;
    SettledStays(first, second, src.archive.bytes, archive.value, askedBlobs);
    assert (Sha256(Part(src, 2)), Part(src, 2)) in askedBlobs;
    var sidecar := PersistBlob(blobs, src.sidecarBytes, tmp, askedBlobs);
    X.DevelopedTransitive(begin, second, blobs.disk, askedBlobs);
    if sidecar.Err? { return Err(sidecar.error), entry; }
    SettledStays(second, blobs.disk, src.archive.bytes, archive.value, askedBlobs);
    SettledStays(second, blobs.disk, src.snapshot.bytes, snapshot.value, askedBlobs);
    var e := EntryOf(src, archive.value, snapshot.value, sidecar.value);
    EntryParts(src, archive.value, snapshot.value, sidecar.value);
    ghost var asked := askedEntries + {(OfEntry(e), e)};
    CS.MoreAsked(catalog.disk, askedEntries, asked);
    var published := X.PersistExactFile(catalog, OfEntry(e), e, tmp, asked);
    if published.Err? { return Err(PersistenceFailed), entry; }
    entry := e;
    return Ok(AttachmentOf(e)), entry;
  }

  lemma EntryParts(src: Source, archive: Blob, snapshot: Blob, sidecar: Blob)
    ensures var e := EntryOf(src, archive, snapshot, sidecar);
            e.archiveBlob == archive && e.snapshotBlob == snapshot && e.sidecarBlob == sidecar
  {
  }

  // ---------------------------------------------------------------- reading blobs back

  /** `read_blob` */
  function ReadBlob(d: BlobDisk, b: Blob): ProtectedHistory.Result<Bytes>
    requires forall n <- D.Current(d) :: D.Current(d)[n] < |d.content|
  {
    if b.identity != OfBlob(b.body) || b.body.size != b.body.metadata.size
       || b.body.contentIdentity != b.body.metadata.contentIdentity then Err(ObjectInvalid)
    else
      var n := CS.Published(b.body.contentIdentity);
      if n !in D.Current(d) then Err(StoreUnavailable)
      else
        var inode := D.Current(d)[n];
        match d.content[inode]
        case Blank => Err(ObjectInvalid)
        case Data(bytes) =>
          if Sha256(bytes) != b.body.contentIdentity || |bytes| != b.body.size || inode != b.body.metadata.inode
          then Err(ObjectInvalid)
          else Ok(bytes)
  }

  lemma CurrentInBounds(blobs: BlobStore)
    requires CS.Inv(blobs)
    ensures forall n <- D.Current(blobs.disk) :: D.Current(blobs.disk)[n] < |blobs.disk.content|
  {
    CS.CurrentIsImage(blobs.disk);
  }

  /** Whatever `read_blob` returns is what the blob's identity stands for. */
  lemma ReadIsGenuine(d: BlobDisk, b: Blob)
    requires forall n <- D.Current(d) :: D.Current(d)[n] < |d.content|
    ensures ReadBlob(d, b).Ok? ==> b.body.contentIdentity == Sha256(ReadBlob(d, b).value)
    ensures ReadBlob(d, b).Ok? ==> b.identity == OfBlob(b.body) && b.body.size == |ReadBlob(d, b).value|
  {
  }

  lemma SettledReadsBack(blobs: BlobStore, bytes: Bytes, b: Blob)
    requires CS.Inv(blobs) && SettledBlob(blobs.disk, bytes, b)
    requires forall n <- D.Current(blobs.disk) :: D.Current(blobs.disk)[n] < |blobs.disk.content|
    ensures ReadBlob(blobs.disk, b) == Ok(bytes)
  {
    assert CS.Keeps(D.Image(blobs.disk, 0), D.Current(blobs.disk));
  }

  /** In every run, the blobs of a cataloged entry read back as the bytes that were attached. */
  lemma AttachedReadsBack(states: seq<System>, actions: seq<Action>, i: nat, e: EntryBody)
    returns (src: Source)
    requires Run(states, actions) && i < |states|
    requires Cataloged(states[i].catalog, e) && e.journal !in states[i].foreign
    ensures src in states[i].started && e.journal == src.journal
    ensures forall n <- D.Current(states[i].blobs.disk) ::
              D.Current(states[i].blobs.disk)[n] < |states[i].blobs.disk.content|
    ensures ReadBlob(states[i].blobs.disk, e.archiveBlob) == Ok(src.archive.bytes)
    ensures ReadBlob(states[i].blobs.disk, e.snapshotBlob) == Ok(src.snapshot.bytes)
    ensures ReadBlob(states[i].blobs.disk, e.sidecarBlob) == Ok(src.sidecarBytes)
  {
    var s := states[i];
    RunKeeps(states, actions, i);
    src := SourceBehind(s, e);
    CurrentInBounds(s.blobs);
    hide CS.Inv, ReadBlob, SettledBlob, Cataloged, ProtectedHistory.May, ProtectedHistory.Do;
    SettledReadsBack(s.blobs, src.archive.bytes, e.archiveBlob);
    SettledReadsBack(s.blobs, src.snapshot.bytes, e.snapshotBlob);
    SettledReadsBack(s.blobs, src.sidecarBytes, e.sidecarBlob);
  }

  // ---------------------------------------------------------------- loading the catalog

  /**
   What was found behind one name of the listing: a staging file, an entry file with what it decodes to,
   anything else, or nothing that can be read.
   */
  datatype Listed = StagingFile | EntryFile(name: Identity, content: Option<Entry>) | ForeignFile | Unread

  /** The checks that `load_catalog_entries` makes of one entry. */
  predicate Acceptable(e: Entry, binding: Binding, m: Mapping) {
    var b := e.body;
    && e.identity == OfEntry(b)
    && b.mapping == m.identity && b.repositoryBinding == m.repositoryBinding && b.namespace == m.namespace
    && b.operator == binding.operator && b.authority == m.authority && b.directory == m.directory
    && b.archive == b.archiveBlob.body.contentIdentity && b.archive == b.archiveSource.contentIdentity
    && b.snapshot == b.snapshotBlob.body.contentIdentity && b.snapshot == b.snapshotSource.contentIdentity
    && Names.IsSha256(b.launcherRequest) && Names.IsSha256(b.workUnit) && Names.IsSha256(b.crossing)
    && IsDigest(b.sidecar) && IsDigest(b.signedFinalization) && Names.IsSha256(b.signedArchive) && IsDigest(b.journal)
  }

  predicate Sound(f: Listed, binding: Binding, m: Mapping) {
    f.StagingFile? || (f.EntryFile? && f.content.Some? && Acceptable(f.content.value, binding, m))
  }

  function EntriesIn(listing: seq<Listed>): seq<Entry> {
    if listing == [] then []
    else
      var last := listing[|listing| - 1];
      EntriesIn(listing[..|listing| - 1])
      + if last.EntryFile? && last.content.Some? then [last.content.value] else []
  }

  /** Identities are fixed-length hexadecimal digests, so their order is that of the digests as numbers. */
  ghost predicate SortedBy(entries: seq<Entry>, digest: Identity -> nat) {
    forall i, j :: 0 <= i < j < |entries| ==> digest(entries[i].identity) <= digest(entries[j].identity)
  }

  function Insert(entries: seq<Entry>, e: Entry, digest: Identity -> nat): seq<Entry> {
    if entries == [] then [e]
    else if digest(e.identity) < digest(entries[|entries| - 1].identity)
    then Insert(entries[..|entries| - 1], e, digest) + [entries[|entries| - 1]]
    else entries + [e]
  }

  lemma {:induction false} InsertSorts(entries: seq<Entry>, e: Entry, digest: Identity -> nat)
    requires SortedBy(entries, digest)
    ensures SortedBy(Insert(entries, e, digest), digest)
    ensures multiset(Insert(entries, e, digest)) == multiset(entries) + multiset{e}
  {
    hide EntriesIn;
    if entries != [] {
      var before, last := entries[..|entries| - 1], entries[|entries| - 1];
      assert entries == before + [last];
      if digest(e.identity) < digest(last.identity) {
        InsertSorts(before, e, digest);
        InsertedAreBelow(before, e, last, digest);
      }
    }
  }

  lemma InsertedAreBelow(before: seq<Entry>, e: Entry, last: Entry, digest: Identity -> nat)
    requires SortedBy(Insert(before, e, digest), digest) && SortedBy(before + [last], digest)
    requires multiset(Insert(before, e, digest)) == multiset(before) + multiset{e}
    requires digest(e.identity) < digest(last.identity)
    ensures SortedBy(Insert(before, e, digest) + [last], digest)
  {
    var inserted := Insert(before, e, digest);
    forall x <- inserted ensures digest(x.identity) <= digest(last.identity) {
      assert x in multiset(inserted);
      if x in before {
        var i :| 0 <= i < |before| && before[i] == x;
        assert (before + [last])[i] == x && (before + [last])[|before|] == last;
      }
    }
  }

  /** The listing is refused at this file, with this error. */
  ghost predicate RefusedAt(listing: seq<Listed>, k: nat, binding: Binding, m: Mapping, e: ProtectedHistory.Error) {
    && k < |listing| && !Sound(listing[k], binding, m) && (forall i :: 0 <= i < k ==> Sound(listing[i], binding, m))
    && e == if listing[k].Unread? then StoreUnavailable else ObjectInvalid
  }

  method LoadCatalogEntries(listing: seq<Listed>, binding: Binding, m: Mapping, digest: Identity -> nat)
    returns (r: ProtectedHistory.Result<seq<Entry>>)
    ensures r.Ok? <==> forall f <- listing :: Sound(f, binding, m)
    ensures r.Err? ==> exists k :: RefusedAt(listing, k, binding, m, r.error)
    ensures r.Ok? ==> SortedBy(r.value, digest) && multiset(r.value) == multiset(EntriesIn(listing))
  {
    hide Acceptable;
    var entries: seq<Entry> := [];
    for i := 0 to |listing|
      invariant entries == EntriesIn(listing[..i])
      invariant forall k :: 0 <= k < i ==> Sound(listing[k], binding, m)
    {
      assert listing[..i + 1][..i] == listing[..i];
      if !Sound(listing[i], binding, m) {
        assert RefusedAt(listing, i, binding, m, if listing[i].Unread? then StoreUnavailable else ObjectInvalid);
        return Err(if listing[i].Unread? then StoreUnavailable else ObjectInvalid);
      }
      if listing[i].EntryFile? {
        entries := entries + [listing[i].content.value];
      }
    }
    assert listing[..|listing|] == listing;
    var sorted := SortEntries(entries, digest);
    return Ok(sorted);
  }

  method SortEntries(entries: seq<Entry>, digest: Identity -> nat) returns (sorted: seq<Entry>)
    ensures SortedBy(sorted, digest) && multiset(sorted) == multiset(entries)
  {
    sorted := [];
    for i := 0 to |entries|
      invariant SortedBy(sorted, digest) && multiset(sorted) == multiset(entries[..i])
    {
      InsertSorts(sorted, entries[i], digest);
      sorted := Insert(sorted, entries[i], digest);
      assert entries[..i + 1] == entries[..i] + [entries[i]];
    }
    assert entries[..|entries|] == entries;
  }

  // ---------------------------------------------------------------- the catalog that the attaches leave

  /** What a reader finds behind a name of the catalog directory. */
  function View(d: CatalogDisk, n: CS.Name<Identity>): Listed
    requires n in D.Current(d) && D.Current(d)[n] < |d.content|
  {
    match n
    case Staging(_) => StagingFile
    case Published(identity) =>
      match d.content[D.Current(d)[n]]
      case Blank => EntryFile(identity, None)
      case Data(e) => EntryFile(identity, Some(Entry(OfEntry(e), e)))
  }

  ghost predicate Lists(catalog: Catalog, names: seq<CS.Name<Identity>>, listing: seq<Listed>) {
    && |listing| == |names|
    && (forall n :: n in names <==> n in D.Current(catalog.disk))
    && (forall i, j :: 0 <= i < j < |names| ==> names[i] != names[j])
    && (forall i :: 0 <= i < |names| ==>
          && names[i] in D.Current(catalog.disk)
          && D.Current(catalog.disk)[names[i]] < |catalog.disk.content|
          && listing[i] == View(catalog.disk, names[i]))
  }

  ghost predicate ContentAddressed(catalog: Catalog) {
    CS.Inv(catalog) && forall r | r in catalog.asked :: r.0 == OfEntry(r.1)
  }

  /** A published name holds the entry it is the identity of. */
  lemma PublishedView(catalog: Catalog, identity: Identity)
    requires ContentAddressed(catalog) && CS.Published(identity) in D.Current(catalog.disk)
    ensures D.Current(catalog.disk)[CS.Published(identity)] < |catalog.disk.content|
    ensures var f := View(catalog.disk, CS.Published(identity));
            && f.EntryFile? && f.content.Some? && f.content.value.identity == identity == OfEntry(f.content.value.body)
            && Cataloged(catalog, f.content.value.body)
  {
    var n := CS.Published(identity);
    var inode := D.Current(catalog.disk)[n];
    assert CS.Genuine(catalog.disk, catalog.asked, identity, inode);
    var e := catalog.disk.content[inode].bytes;
    var r := (identity, e);
    assert r in catalog.asked;
    assert CS.At(catalog.disk, D.Current(catalog.disk), OfEntry(e), inode, e);
  }

  lemma ListedView(catalog: Catalog, names: seq<CS.Name<Identity>>, listing: seq<Listed>, i: nat)
    requires ContentAddressed(catalog) && Lists(catalog, names, listing) && i < |listing|
    ensures listing[i].StagingFile? <==> names[i].Staging?
    ensures names[i].Published? ==>
              && listing[i].EntryFile? && listing[i].content.Some?
              && listing[i].content.value == Entry(names[i].key, listing[i].content.value.body)
              && names[i].key == OfEntry(listing[i].content.value.body)
              && Cataloged(catalog, listing[i].content.value.body)
  {
    hide CS.Inv, Cataloged;
    if names[i].Published? {
      PublishedView(catalog, names[i].key);
    }
  }

  lemma {:induction false} EntryIsListed(listing: seq<Listed>, e: Entry)
    ensures e in EntriesIn(listing) <==>
              exists i :: 0 <= i < |listing| && listing[i].EntryFile? && listing[i].content == Some(e)
  {
    if listing != [] {
      var before := listing[..|listing| - 1];
      EntryIsListed(before, e);
      assert forall i :: 0 <= i < |before| ==> before[i] == listing[i];
      if i :| 0 <= i < |before| && before[i].EntryFile? && before[i].content == Some(e) {
        assert listing[i].EntryFile?;
      }
    }
  }

  lemma ListedOnce(catalog: Catalog, names: seq<CS.Name<Identity>>, listing: seq<Listed>, i: nat, j: nat)
    requires ContentAddressed(catalog) && Lists(catalog, names, listing) && i < j < |listing|
    requires listing[j].EntryFile? && listing[j].content.Some?
    ensures listing[i].EntryFile? ==> listing[i].content != listing[j].content
  {
    hide ContentAddressed, Cataloged, View;
    ListedView(catalog, names, listing, i);
    ListedView(catalog, names, listing, j);
  }

  /** Entries of different identities, in file order: none comes twice. */
  lemma {:induction false} NoEntryTwice(catalog: Catalog, names: seq<CS.Name<Identity>>, listing: seq<Listed>, k: nat)
    requires ContentAddressed(catalog) && Lists(catalog, names, listing) && k <= |listing|
    ensures forall e :: multiset(EntriesIn(listing[..k]))[e] <= 1
    decreases k
  {
    hide ContentAddressed, Cataloged, View;
    if k > 0 {
      NoEntryTwice(catalog, names, listing, k - 1);
      var before := listing[..k - 1];
      assert listing[..k][..k - 1] == before;
      var last := listing[k - 1];
      if last.EntryFile? && last.content.Some? {
        var e := last.content.value;
        EntryIsListed(before, e);
        forall i | 0 <= i < |before| ensures before[i].EntryFile? ==> before[i].content != Some(e) {
          ListedOnce(catalog, names, listing, i, k - 1);
        }
        assert multiset(EntriesIn(before))[e] == 0;
      }
    }
  }

  /** A sorted sequence without repeats is sorted strictly when no two identities share a digest. */
  ghost predicate StrictlySortedBy(entries: seq<Entry>, digest: Identity -> nat) {
    forall i, j :: 0 <= i < j < |entries| ==> digest(entries[i].identity) < digest(entries[j].identity)
  }

  /**
   Loading the catalog of a store that attaches have filled, in whatever order it is listed and
   whatever staging files crashes have left: exactly the published entries, strictly sorted.
   */
  lemma LoadsExactlyThePublished(
    catalog: Catalog, names: seq<CS.Name<Identity>>, listing: seq<Listed>, loaded: seq<Entry>, digest: Identity -> nat)
    requires ContentAddressed(catalog) && Lists(catalog, names, listing)
    requires forall a, b :: digest(a) == digest(b) ==> a == b
    requires SortedBy(loaded, digest) && multiset(loaded) == multiset(EntriesIn(listing))
    ensures StrictlySortedBy(loaded, digest)
    ensures forall e :: e in loaded <==> e.identity == OfEntry(e.body) && Cataloged(catalog, e.body)
  {
    NoEntryTwice(catalog, names, listing, |listing|);
    assert listing[..|listing|] == listing;
    forall e ensures e in loaded <==> e.identity == OfEntry(e.body) && Cataloged(catalog, e.body) {
      assert e in loaded <==> e in multiset(EntriesIn(listing));
      LoadedIsCataloged(catalog, names, listing, e);
    }
    hide ContentAddressed, Lists, Cataloged;
    StrictWithoutRepeats(loaded, digest);
  }

  lemma LoadedIsCataloged(catalog: Catalog, names: seq<CS.Name<Identity>>, listing: seq<Listed>, e: Entry)
    requires ContentAddressed(catalog) && Lists(catalog, names, listing)
    ensures e in EntriesIn(listing) <==> e.identity == OfEntry(e.body) && Cataloged(catalog, e.body)
  {
    EntryIsListed(listing, e);
    if i :| 0 <= i < |listing| && listing[i].EntryFile? && listing[i].content == Some(e) {
      ListedView(catalog, names, listing, i);
    }
    if e.identity == OfEntry(e.body) && Cataloged(catalog, e.body) {
      var n := CS.Published(OfEntry(e.body));
      assert n in D.Current(catalog.disk);
      assert n in names;
      var i :| 0 <= i < |names| && names[i] == n;
      assert listing[i] == View(catalog.disk, n);
    }
  }

  lemma StrictWithoutRepeats(entries: seq<Entry>, digest: Identity -> nat)
    requires SortedBy(entries, digest)
    requires forall a, b :: digest(a) == digest(b) ==> a == b
    requires forall e :: multiset(entries)[e] <= 1
    requires forall e <- entries :: e.identity == OfEntry(e.body)
    ensures StrictlySortedBy(entries, digest)
  {
    forall i, j | 0 <= i < j < |entries| ensures digest(entries[i].identity) < digest(entries[j].identity) {
      RepeatCounts(entries, i, j);
      SameEntry(entries[i], entries[j]);
    }
  }

  lemma SameEntry(a: Entry, b: Entry)
    requires a.identity == OfEntry(a.body) && b.identity == OfEntry(b.body)
    ensures a.identity == b.identity ==> a == b
  {
  }

  lemma RepeatCounts(entries: seq<Entry>, i: nat, j: nat)
    requires i < j < |entries|
    ensures entries[i] == entries[j] ==> multiset(entries)[entries[i]] >= 2
  {
    assert entries == entries[..i] + [entries[i]] + entries[i + 1..j] + [entries[j]] + entries[j + 1..];
  }

  // ---------------------------------------------------------------- when the catalog loads

  /** The strings of a source that only the loader checks, and digests that are those of their bytes. */
  predicate Readable(src: Source) {
    && src.archive.contentIdentity == Sha256(src.archive.bytes)
    && src.snapshot.contentIdentity == Sha256(src.snapshot.bytes)
    && Names.IsSha256(src.launcherRequest) && Names.IsSha256(src.workUnit) && Names.IsSha256(src.crossing)
    && IsDigest(src.sidecar) && IsDigest(src.signedFinalization) && Names.IsSha256(src.signedArchive)
      && IsDigest(src.journal)
  }

  /** The source is filed under this mapping of this binding. */
  predicate FiledUnder(src: Source, binding: Binding, m: Mapping) {
    && src.mapping == m.identity && src.repositoryBinding == m.repositoryBinding && src.namespace == m.namespace
    && src.operator == binding.operator && src.authority == m.authority && src.directory == m.directory
  }

  /** An attached entry is one that the loader accepts exactly when its source is readable and filed there. */
  lemma AcceptableExactly(d: BlobDisk, src: Source, e: EntryBody, binding: Binding, m: Mapping)
    requires SettledEntry(d, src, e)
    ensures Acceptable(Entry(OfEntry(e), e), binding, m) <==> Readable(src) && FiledUnder(src, binding, m)
  {
    hide Settled, Names.IsSha256;
  }

  /** What is prepared is filed under the mapping that was selected. */
  lemma PreparedIsFiled(binding: Binding, target: Target, sidecar: Sidecar, sidecarBytes: Bytes, j: Journal)
    returns (m: Mapping)
    requires Prepare(binding, target, sidecar, sidecarBytes, j).Ok?
    ensures m in binding.mappings && FiledUnder(Prepare(binding, target, sidecar, sidecarBytes, j).value, binding, m)
    ensures Applies(m, j.content.request.value.body.authority, j.content.directory)
  {
    var (authority, directory) := (j.content.request.value.body.authority, j.content.directory);
    var i := TheMatch(binding.mappings, authority, directory);
    SelectedIsTheOnlyOne(binding, authority, directory);
    m := binding.mappings[i];
    hide SelectMapping, SelfSidecar, HistoryIdentity;
  }

  ghost predicate AllAcceptable(catalog: Catalog, binding: Binding, m: Mapping) {
    forall e | Cataloged(catalog, e) :: Acceptable(Entry(OfEntry(e), e), binding, m)
  }

  /** A listing of the catalog is sound exactly when every published entry is acceptable. */
  lemma SoundExactly(
    catalog: Catalog, names: seq<CS.Name<Identity>>, listing: seq<Listed>, binding: Binding, m: Mapping)
    requires ContentAddressed(catalog) && Lists(catalog, names, listing)
    ensures (forall f <- listing :: Sound(f, binding, m)) <==> AllAcceptable(catalog, binding, m)
  {
    hide Acceptable, Cataloged, View, ContentAddressed;
    if AllAcceptable(catalog, binding, m) {
      forall f <- listing ensures Sound(f, binding, m) {
        var i :| 0 <= i < |listing| && listing[i] == f;
        ListedView(catalog, names, listing, i);
      }
    }
    if forall f <- listing :: Sound(f, binding, m) {
      forall e | Cataloged(catalog, e) ensures Acceptable(Entry(OfEntry(e), e), binding, m) {
        LoadedIsCataloged(catalog, names, listing, Entry(OfEntry(e), e));
        EntryIsListed(listing, Entry(OfEntry(e), e));
        var i :| 0 <= i < |listing| && listing[i].EntryFile? && listing[i].content == Some(Entry(OfEntry(e), e));
        assert Sound(listing[i], binding, m);
      }
    }
  }

  /** Writers at work in the catalog between two reads; by `OthersAreTheStore` they keep what is published. */
  method Meanwhile(dir: CatalogDirectory, ghost asked: set<(Identity, EntryBody)>)
    requires CS.Backed(dir.disk, asked)
    modifies dir
    ensures X.Developed(old(dir.disk), dir.disk, asked)
  {
    CS.SameDisk(dir.disk, asked);
  }

  /** `read_exact_file`: a name that is gone cannot be read, and reading may fail. */
  method ReadListed(dir: CatalogDirectory, n: CS.Name<Identity>) returns (f: Listed)
    requires D.Valid(dir.disk)
    ensures || f == Unread
            || (n in D.Current(dir.disk) && D.Current(dir.disk)[n] < |dir.disk.content| && f == View(dir.disk, n))
  {
    assert D.Current(dir.disk) == D.Image(dir.disk, |dir.disk.log|);
    var readable: bool := *;
    if !readable || n !in D.Current(dir.disk) { return Unread; }
    return View(dir.disk, n);
  }

  /** What the reads have found so far: a published file as it was listed, a staging file while it was there. */
  ghost predicate Found(d: CatalogDisk, names: seq<CS.Name<Identity>>, listing: seq<Listed>, seen: seq<CatalogDisk>) {
    && |listing| == |seen| <= |names|
    && (forall i :: 0 <= i < |names| ==> names[i] in D.Current(d) && D.Current(d)[names[i]] < |d.content|)
    && (forall i :: 0 <= i < |listing| ==>
          || listing[i] == Unread
          || (names[i] in D.Current(seen[i]) && listing[i] == View(d, names[i])))
  }

  /** Nothing that was published when the directory was listed reads differently later. */
  lemma ListedReadsTheSame(
    d: CatalogDisk, e: CatalogDisk, names: seq<CS.Name<Identity>>, listing: seq<Listed>, seen: seq<CatalogDisk>,
    f: Listed, asked: set<(Identity, EntryBody)>)
    requires Found(d, names, listing, seen) && |listing| < |names| && X.Developed(d, e, asked)
    requires var n := names[|listing|];
             f == Unread || (n in D.Current(e) && D.Current(e)[n] < |e.content| && f == View(e, n))
    ensures Found(d, names, listing + [f], seen + [e])
  {
  }

  /** The files are read one by one, with writers at work in between, as far as the first that is refused. */
  method ReadAll(
    dir: CatalogDirectory, names: seq<CS.Name<Identity>>, binding: Binding, m: Mapping,
    ghost asked: set<(Identity, EntryBody)>)
    returns (listing: seq<Listed>, ghost seen: seq<CatalogDisk>)
    requires CS.Backed(dir.disk, asked) && Found(dir.disk, names, [], [])
    modifies dir
    ensures X.Developed(old(dir.disk), dir.disk, asked) && Found(old(dir.disk), names, listing, seen)
    ensures forall i :: 0 <= i < |seen| ==> X.Developed(old(dir.disk), seen[i], asked)
    ensures forall i :: 0 <= i < |listing| - 1 ==> Sound(listing[i], binding, m)
    ensures |listing| < |names| ==> listing != [] && !Sound(listing[|listing| - 1], binding, m)
  {
    hide X.Developed, Found, Sound;
    ghost var d := dir.disk;
    DevelopedItself(d, asked);
    listing, seen := [], [];
    var i := 0;
    while i < |names| && (i == 0 || Sound(listing[i - 1], binding, m))
      invariant i == |listing| == |seen| <= |names| && Found(d, names, listing, seen)
      invariant X.Developed(d, dir.disk, asked) && CS.Backed(dir.disk, asked)
      invariant forall k :: 0 <= k < i ==> X.Developed(d, seen[k], asked)
      invariant forall k :: 0 <= k < i - 1 ==> Sound(listing[k], binding, m)
    {
      ghost var before := dir.disk;
      Meanwhile(dir, asked);
      X.DevelopedTransitive(d, before, dir.disk, asked);
      DevelopedIsBacked(d, dir.disk, asked);
      var f := ReadListed(dir, names[i]);
      ListedReadsTheSame(d, dir.disk, names, listing, seen, f, asked);
      listing, seen, i := listing + [f], seen + [dir.disk], i + 1;
    }
  }

  lemma DevelopedItself(d: CatalogDisk, asked: set<(Identity, EntryBody)>)
    requires CS.Backed(d, asked)
    ensures X.Developed(d, d, asked)
  {
    CS.SameDisk(d, asked);
  }

  lemma DevelopedIsBacked(d: CatalogDisk, e: CatalogDisk, asked: set<(Identity, EntryBody)>)
    requires X.Developed(d, e, asked)
    ensures CS.Backed(e, asked) && D.Valid(e)
  {
  }

  /**
   `load_catalog_entries` on the store that attaches leave, with writers at work between any two reads:
   `seen` are the disks that the reads met. It returns exactly the entries that were published when the
   directory was listed, strictly sorted, and refuses an entry only if one of them is not acceptable. A
   staging file that was listed and is gone when it is read makes the whole load fail.
   */
  method LoadPublished(
    dir: CatalogDirectory, ghost catalog: Catalog, names: seq<CS.Name<Identity>>,
    binding: Binding, m: Mapping, digest: Identity -> nat)
    returns (r: ProtectedHistory.Result<seq<Entry>>, ghost seen: seq<CatalogDisk>)
    requires ContentAddressed(catalog) && dir.disk == catalog.disk && ListedOf(catalog, names)
    requires forall a, b :: digest(a) == digest(b) ==> a == b
    modifies dir
    ensures X.Developed(old(dir.disk), dir.disk, catalog.asked) && |seen| <= |names|
    ensures forall i :: 0 <= i < |seen| ==> X.Developed(old(dir.disk), seen[i], catalog.asked)
    ensures r.Ok? ==> AllAcceptable(catalog, binding, m) && StrictlySortedBy(r.value, digest) && |seen| == |names|
    ensures r.Ok? ==> forall e :: e in r.value <==> e.identity == OfEntry(e.body) && Cataloged(catalog, e.body)
    ensures r == Err(ObjectInvalid) ==> !AllAcceptable(catalog, binding, m)
    ensures r.Err? ==> r.error == ObjectInvalid || r.error == StoreUnavailable
    ensures (exists i :: 0 <= i < |seen| && names[i] !in D.Current(seen[i])) ==> r == Err(StoreUnavailable)
  {
    hide Acceptable, StrictlySortedBy, SortedBy, AllAcceptable, Cataloged, Sound;
    hide X.Developed, CS.Backed, ContentAddressed, ListedOf;
    CatalogIsBacked(catalog);
    ListedIsThere(catalog, names);
    var listing;
    listing, seen := ReadAll(dir, names, binding, m, catalog.asked);
    r := LoadCatalogEntries(listing, binding, m, digest);
    if r.Ok? {
      SoundWasRead(listing, binding, m);
      AllFound(catalog, names, listing, seen);
      SoundExactly(catalog, names, listing, binding, m);
      LoadsExactlyThePublished(catalog, names, listing, r.value, digest);
    } else {
      ghost var k :| RefusedAt(listing, k, binding, m, r.error);
      RefusedIsUnacceptable(catalog, names, listing, seen, k, binding, m, r.error);
    }
  }

  lemma SoundWasRead(listing: seq<Listed>, binding: Binding, m: Mapping)
    requires forall f <- listing :: Sound(f, binding, m)
    ensures forall f <- listing :: !f.Unread?
    ensures listing != [] ==> Sound(listing[|listing| - 1], binding, m)
  {
    hide Acceptable;
  }

  /** The names of the directory, each once. */
  ghost predicate ListedOf(catalog: Catalog, names: seq<CS.Name<Identity>>) {
    && (forall n :: n in names <==> n in D.Current(catalog.disk))
    && (forall i, j :: 0 <= i < j < |names| ==> names[i] != names[j])
  }

  lemma CatalogIsBacked(catalog: Catalog)
    requires ContentAddressed(catalog)
    ensures CS.Backed(catalog.disk, catalog.asked)
  {
  }

  lemma ListedIsThere(catalog: Catalog, names: seq<CS.Name<Identity>>)
    requires CS.Backed(catalog.disk, catalog.asked) && ListedOf(catalog, names)
    ensures Found(catalog.disk, names, [], [])
  {
    var d := catalog.disk;
    assert D.Current(d) == D.Image(d, |d.log|);
    forall i | 0 <= i < |names| ensures names[i] in D.Current(d) && D.Current(d)[names[i]] < |d.content| {
      assert names[i] in names;
    }
  }

  lemma AllFound(catalog: Catalog, names: seq<CS.Name<Identity>>, listing: seq<Listed>, seen: seq<CatalogDisk>)
    requires ListedOf(catalog, names) && Found(catalog.disk, names, listing, seen) && |listing| == |names|
    requires forall f <- listing :: !f.Unread?
    ensures Lists(catalog, names, listing)
  {
    hide View;
    assert forall i :: 0 <= i < |listing| ==> listing[i] in listing;
  }

  lemma RefusedIsUnacceptable(
    catalog: Catalog, names: seq<CS.Name<Identity>>, listing: seq<Listed>, seen: seq<CatalogDisk>, k: nat,
    binding: Binding, m: Mapping, e: ProtectedHistory.Error)
    requires ContentAddressed(catalog) && Found(catalog.disk, names, listing, seen)
    requires RefusedAt(listing, k, binding, m, e)
    requires forall i :: 0 <= i < |listing| - 1 ==> Sound(listing[i], binding, m)
    ensures e == ObjectInvalid || e == StoreUnavailable
    ensures e == ObjectInvalid ==> !AllAcceptable(catalog, binding, m)
    ensures (exists i :: 0 <= i < |seen| && names[i] !in D.Current(seen[i])) ==> e == StoreUnavailable
  {
    hide Acceptable, CS.Inv;
    if e == ObjectInvalid && names[k].Published? {
      PublishedView(catalog, names[k].key);
    }
  }

  /** A writer that renames its staging file takes it away from a load that has listed it. */
  lemma StagingFileVanishes(catalog: Catalog, w: nat)
    requires CS.Inv(catalog) && CS.May(catalog, CS.Rename(w))
    requires CS.Published(catalog.writers[w].key) !in D.Current(catalog.disk)
    ensures var n, e := CS.Staging(catalog.writers[w].phase.tmp), CS.Do(catalog, CS.Rename(w)).disk;
            && n in D.Current(catalog.disk) && n !in D.Current(e)
            && X.Developed(catalog.disk, e, catalog.asked)
  {
    CS.StepKeeps(catalog, CS.Rename(w));
    CS.Books(catalog, CS.Rename(w));
    assert CS.WriterOk(catalog.disk, catalog.writers[w]);
    var writer := catalog.writers[w];
    D.ImagesAfterIssue(catalog.disk, D.Move(CS.Staging(writer.phase.tmp), CS.Published(writer.key)));
  }

  /** Some attach behind this entry was of a readable source filed here. */
  ghost predicate WellSourced(s: System, e: EntryBody, binding: Binding, m: Mapping) {
    exists src :: src in s.started && SettledEntry(s.blobs.disk, src, e) && Readable(src) && FiledUnder(src, binding, m)
  }

  /**
   Over every run of attaches, the catalog loads exactly when the entries of other executions are
   acceptable and the published ones of this machine come from readable sources filed here. One that does
   not makes every load of the namespace fail.
   */
  lemma CatalogLoadsExactly(states: seq<System>, actions: seq<Action>, i: nat, binding: Binding, m: Mapping)
    requires Run(states, actions) && i < |states|
    ensures ContentAddressed(states[i].catalog)
    ensures var s := states[i];
            AllAcceptable(s.catalog, binding, m) <==>
              && (forall e | Cataloged(s.catalog, e) && e.journal in s.foreign ::
                Acceptable(Entry(OfEntry(e), e), binding, m))
              && (forall e | Cataloged(s.catalog, e) && e.journal !in s.foreign :: WellSourced(s, e, binding, m))
  {
    var s := states[i];
    RunKeeps(states, actions, i);
    RunIsContentAddressed(s);
    hide Inv, Acceptable, SettledEntry, Readable, FiledUnder, Cataloged, ContentAddressed;
    forall e | Cataloged(s.catalog, e) && e.journal !in s.foreign
      ensures Acceptable(Entry(OfEntry(e), e), binding, m) <==> WellSourced(s, e, binding, m)
    {
      WellSourcedExactly(s, e, binding, m);
    }
  }

  lemma RunIsContentAddressed(s: System)
    requires Inv(s)
    ensures ContentAddressed(s.catalog)
  {
    hide CS.Inv, ThreadOk, YieldedOk, EntryOk;
  }

  lemma WellSourcedExactly(s: System, e: EntryBody, binding: Binding, m: Mapping)
    requires Inv(s) && Cataloged(s.catalog, e) && e.journal !in s.foreign
    ensures Acceptable(Entry(OfEntry(e), e), binding, m) <==> WellSourced(s, e, binding, m)
  {
    hide Inv, Acceptable, SettledEntry, Readable, FiledUnder, Cataloged;
    var src := SourceBehind(s, e);
    AcceptableExactly(s.blobs.disk, src, e, binding, m);
    if WellSourced(s, e, binding, m) {
      var other :| other in s.started && SettledEntry(s.blobs.disk, other, e) && Readable(other)
        && FiledUnder(other, binding, m);
      AcceptableExactly(s.blobs.disk, other, e, binding, m);
    }
  }
}
