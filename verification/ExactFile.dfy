/**
 Publishing one file without replacing any, call by call: `persist_exact_file` and
 `persist_sidecar`, with other writers at work in the same directory between any two calls.
 */
module ExactFile {
  import opened Wrappers
  import opened Durability
  import opened ContentStore
  import P = ProtectedDirectory

  datatype Error = StoreUnavailable | ObjectInvalid | PersistenceFailed

  type Result<+T> = Wrappers.Result<T, Error>

  type Directory<!K(==), !B> = P.Directory<Name<K>, File<B>>

  /** What others may have done to a directory: nothing published is gone or changed. */
  ghost predicate Developed<K(!new), B(!new)>(
    d: Disk<Name<K>, File<B>>, e: Disk<Name<K>, File<B>>, asked: set<(K, B)>)
  {
    Steady(d, e) && Backed(d, asked) && Backed(e, asked)
  }

  lemma DevelopedTransitive<K(!new), B(!new)>(
    a: Disk<Name<K>, File<B>>, b: Disk<Name<K>, File<B>>, c: Disk<Name<K>, File<B>>, asked: set<(K, B)>)
    requires Developed(a, b, asked) && Developed(b, c, asked)
    ensures Developed(a, c, asked)
  {
  }

  /**
   The other writers of the store between two calls of this one. By `StepKeeps` of the store they keep
   what is published and leave this writer's own file alone; a caller may rely on no more than that.
   */
  method Others<K(==,!new), B(!new)>(dir: Directory<K, B>, ghost me: Writer<K, B>, ghost asked: set<(K, B)>)
    requires Backed(dir.disk, asked) && WriterOk(dir.disk, me)
    modifies dir
    ensures Developed(old(dir.disk), dir.disk, asked) && WriterOk(dir.disk, me)
    ensures dir.calls == old(dir.calls) && dir.failures == old(dir.failures)
  {
    SameDisk(dir.disk, asked);
  }

  /**
   What `Others` promises is what the store does: any step of any other writer, or the death of one, keeps
   what is published and leaves this writer's file alone.
   */
  lemma OthersAreTheStore<K(!new), B(!new)>(s: Store<K, B>, a: Action<K, B>, w: nat)
    requires Inv(s) && May(s, a) && !a.MachineCrash? && w in s.writers
    requires a.ProcessCrash? ==> w !in a.dead
    requires !a.ProcessCrash? ==> a.w != w
    ensures var t := Do(s, a);
            Developed(s.disk, t.disk, t.asked) && w in t.writers && t.writers[w] == s.writers[w]
              && WriterOk(t.disk, s.writers[w])
  {
    StepKeeps(s, a);
    Books(s, a);
    MoreAsked(s.disk, s.asked, Do(s, a).asked);
  }

  /** `try_read_exact_file_at` */
  method TryRead<K(==,!new), B(!new)>(dir: Directory<K, B>, key: K, ghost asked: set<(K, B)>)
    returns (r: Result<Option<B>>)
    requires Backed(dir.disk, asked)
    ensures r.Err? ==> r.error == StoreUnavailable
    ensures r.Ok? && r.value.None? ==> Published(key) !in Current(dir.disk)
    ensures r.Ok? && r.value.Some? ==> Present(dir.disk, Current(dir.disk), key, r.value.value)
  {
    var readable: bool := *;
    if !readable { return Err(StoreUnavailable); }
    if Published(key) !in Current(dir.disk) { return Ok(None); }
    assert Genuine(dir.disk, asked, key, Current(dir.disk)[Published(key)]);
    var inode := Current(dir.disk)[Published(key)];
    var bytes := dir.disk.content[inode].bytes;
    assert At(dir.disk, Current(dir.disk), key, inode, bytes);
    return Ok(Some(bytes));
  }

  /** The directory sync after a rename */
  method SyncPublished<K(==,!new), B(!new)>(dir: Directory<K, B>, ghost me: Writer<K, B>, ghost asked: set<(K, B)>)
    returns (r: Result<()>)
    requires Backed(dir.disk, asked) && WriterOk(dir.disk, me) && (me.phase.Linked? || me.phase.Matched?)
    modifies dir
    ensures Developed(old(dir.disk), dir.disk, asked)
    ensures r.Ok? ==> Present(dir.disk, Image(dir.disk, 0), me.key, me.bytes)
    ensures dir.calls == old(dir.calls) + [P.SyncsDirectory(r.Ok?)]
    ensures r.Err? ==> r.error != ObjectInvalid
    ensures old(dir.failures) <= dir.failures && (r == Err(PersistenceFailed) ==> old(dir.failures) < dir.failures)
    ensures r.Ok? ==> dir.failures == old(dir.failures)
  {
    Others(dir, me, asked);
    FlushBacked(dir.disk, asked);
    PresentStays(dir.disk, Flush(dir.disk), me.key, me.bytes);
    SameDisk(dir.disk, asked);
    ghost var seen := dir.disk;
    var synced := dir.Sync();
    DevelopedTransitive(old(dir.disk), seen, dir.disk, asked);
    if !synced { return Err(PersistenceFailed); }
    return Ok(());
  }

  /** `sync_existing_file_at`: a file that another writer published is synced, and then its directory. */
  method SyncExisting<K(==,!new), B(!new)>(dir: Directory<K, B>, key: K, bytes: B, ghost asked: set<(K, B)>)
    returns (r: Result<()>)
    requires Backed(dir.disk, asked) && Present(dir.disk, Current(dir.disk), key, bytes)
    modifies dir
    ensures Developed(old(dir.disk), dir.disk, asked)
    ensures r.Ok? ==> Present(dir.disk, Image(dir.disk, 0), key, bytes)
    ensures r.Ok? ==>
      dir.calls == old(dir.calls)
                   + [P.SyncsFile(old(Current(dir.disk)[Published(key)]), true), P.SyncsDirectory(true)]
    ensures r.Err? ==> r.error != ObjectInvalid
    ensures old(dir.failures) <= dir.failures && (r == Err(PersistenceFailed) ==> old(dir.failures) < dir.failures)
    ensures r.Ok? ==> dir.failures == old(dir.failures)
  {
    ghost var begin := dir.disk;
    SameDisk(dir.disk, asked);
    var found := dir.Open(Published(key));
    if !found { return Err(PersistenceFailed); }
    var inode := Current(dir.disk)[Published(key)];
    ghost var me := Writer(key, bytes, Matched(None));
    Others(dir, me, asked);
    ghost var seen := dir.disk;
    SameDisk(dir.disk, asked);
    SyncFileBacked(dir.disk, inode, asked);
    PresentStays(dir.disk, SyncFile(dir.disk, inode), key, bytes);
    var filed := dir.SyncAll(inode);
    DevelopedTransitive(begin, seen, dir.disk, asked);
    if !filed { return Err(PersistenceFailed); }
    ghost var filled := dir.disk;
    r := SyncPublished(dir, me, asked);
    DevelopedTransitive(begin, filled, dir.disk, asked);
  }

  /**
   The calls of a publication that succeeds, in order: the staging file is written and synced before it is
   renamed, and the directory after that. When the name is taken, the file that has it is synced instead.
   */
  function PublishCalls<K>(key: K, tmp: nat, inode: nat, existing: Option<nat>): seq<P.Call<Name<K>>> {
    [P.Writes(inode, true), P.SyncsFile(inode, true), P.Renames(Staging(tmp), Published(key), existing.None?)]
    + (if existing.Some? then [P.SyncsFile(existing.value, true)] else [])
    + [P.SyncsDirectory(true)]
  }

  /** How the call went: the file was there, or it was staged, published and its staging name removed. */
  datatype Way = Found(inode: nat) | Made(inode: nat, existing: Option<nat>, removed: bool)

  function PersistCalls<K>(key: K, tmp: nat, w: Way): seq<P.Call<Name<K>>> {
    match w
    case Found(inode) => [P.SyncsFile(inode, true), P.SyncsDirectory(true)]
    case Made(inode, existing, removed) =>
      [P.Creates(Staging(tmp), true)] + PublishCalls(key, tmp, inode, existing) + [P.Removes(Staging(tmp), removed)]
  }

  /** The staging file is unlinked whatever happened; what is published is not affected. */
  method Clean<K(==,!new), B(!new)>(dir: Directory<K, B>, tmp: nat, ghost asked: set<(K, B)>)
    requires Backed(dir.disk, asked)
    modifies dir
    ensures Developed(old(dir.disk), dir.disk, asked)
    ensures forall key, bytes | Present(old(dir.disk), Image(old(dir.disk), 0), key, bytes) ::
              Present(dir.disk, Image(dir.disk, 0), key, bytes)
    ensures exists ok :: dir.calls == old(dir.calls) + [P.Removes(Staging(tmp), ok)]
    ensures old(dir.failures) <= dir.failures
  {
    CleanedBacked(dir.disk, Some(tmp), asked);
    SameDisk(dir.disk, asked);
    ghost var before := dir.disk;
    var _ := dir.Remove(Staging(tmp));
    assert Keeps(Image(before, 0), Current(before));
    forall key, bytes | Present(before, Image(before, 0), key, bytes)
      ensures Present(dir.disk, Image(dir.disk, 0), key, bytes)
    {
      PresentStays(before, dir.disk, key, bytes);
    }
  }

  /** The staging file is written and synced before it gets its name. */
  method WriteStaged<K(==,!new), B(==,!new)>(
    dir: Directory<K, B>, key: K, bytes: B, tmp: nat, inode: nat, ghost asked: set<(K, B)>)
    returns (ok: bool)
    requires Backed(dir.disk, asked) && WriterOk(dir.disk, Writer(key, bytes, Staged(tmp, inode)))
    modifies dir
    ensures Developed(old(dir.disk), dir.disk, asked)
    ensures ok ==> WriterOk(dir.disk, Writer(key, bytes, Ready(tmp, inode)))
    ensures ok ==> dir.calls == old(dir.calls) + [P.Writes(inode, true), P.SyncsFile(inode, true)]
    ensures old(dir.failures) <= dir.failures && (!ok ==> old(dir.failures) < dir.failures)
  {
    ghost var begin := dir.disk;
    Others(dir, Writer(key, bytes, Staged(tmp, inode)), asked);
    ghost var staged := dir.disk;
    SameDisk(dir.disk, asked);
    WriteBacked(dir.disk, inode, bytes, asked);
    ok := dir.WriteAll(inode, Data(bytes));
    DevelopedTransitive(begin, staged, dir.disk, asked);
    if !ok { return; }
    ghost var drafted := dir.disk;
    Others(dir, Writer(key, bytes, Drafted(tmp, inode)), asked);
    DevelopedTransitive(begin, drafted, dir.disk, asked);
    ghost var seen := dir.disk;
    SameDisk(dir.disk, asked);
    SyncFileBacked(dir.disk, inode, asked);
    ok := dir.SyncAll(inode);
    DevelopedTransitive(begin, seen, dir.disk, asked);
  }

  /** Another writer was first: its file will do if it has the same bytes. */
  method SettleForExisting<K(==,!new), B(==,!new)>(
    dir: Directory<K, B>, key: K, bytes: B, tmp: nat, ghost asked: set<(K, B)>)
    returns (r: Result<()>)
    requires Backed(dir.disk, asked) && Staging(tmp) in Current(dir.disk)
    modifies dir
    ensures Developed(old(dir.disk), dir.disk, asked)
    ensures r.Ok? ==> Present(dir.disk, Image(dir.disk, 0), key, bytes)
    ensures r.Ok? ==> exists taken :: dir.calls == old(dir.calls) + [P.SyncsFile(taken, true), P.SyncsDirectory(true)]
    ensures r.Err? ==> r.error != ObjectInvalid
    ensures old(dir.failures) <= dir.failures
  {
    ghost var begin := dir.disk;
    Others(dir, Writer(key, bytes, Contended(tmp)), asked);
    ghost var seen := dir.disk;
    var existing := TryRead(dir, key, asked);
    if existing.Err? { return Err(existing.error); }
    if existing.value != Some(bytes) { return Err(PersistenceFailed); }
    r := SyncExisting(dir, key, bytes, asked);
    DevelopedTransitive(begin, seen, dir.disk, asked);
  }

  /** From the staging file to the published one; the staging name may remain. */
  method Publish<K(==,!new), B(==,!new)>(
    dir: Directory<K, B>, key: K, bytes: B, tmp: nat, inode: nat, ghost asked: set<(K, B)>)
    returns (r: Result<()>)
    requires (key, bytes) in asked && Backed(dir.disk, asked)
    requires WriterOk(dir.disk, Writer(key, bytes, Staged(tmp, inode)))
    modifies dir
    ensures Developed(old(dir.disk), dir.disk, asked)
    ensures r.Ok? ==> Present(dir.disk, Image(dir.disk, 0), key, bytes)
    ensures r.Ok? ==> exists existing :: dir.calls == old(dir.calls) + PublishCalls(key, tmp, inode, existing)
    ensures r.Err? ==> r.error != ObjectInvalid
    ensures old(dir.failures) <= dir.failures && (r == Err(PersistenceFailed) ==> old(dir.failures) < dir.failures)
  {
    hide PublishCalls;
    ghost var begin := dir.disk;
    var written := WriteStaged(dir, key, bytes, tmp, inode, asked);
    if !written { return Err(PersistenceFailed); }
    ghost var filled := dir.disk;
    ghost var me := Writer(key, bytes, Ready(tmp, inode));
    Others(dir, me, asked);
    DevelopedTransitive(begin, filled, dir.disk, asked);
    ghost var ready := dir.disk;
    var renamed := dir.RenameNoReplace(Staging(tmp), Published(key));
    ghost var attempted := dir.calls;
    match renamed {
      case NotRenamed => return Err(PersistenceFailed);
      case TargetExists =>
        r := SettleForExisting(dir, key, bytes, tmp, asked);
        DevelopedTransitive(begin, ready, dir.disk, asked);
        if r.Ok? {
          PublishedInOrder(old(dir.calls), attempted, dir.calls, key, tmp, inode, false);
        }
      case Renamed =>
        LinkBacked(ready, me, asked);
        ghost var linked := dir.disk;
        r := SyncPublished(dir, Writer(key, bytes, Linked), asked);
        DevelopedTransitive(begin, ready, linked, asked);
        DevelopedTransitive(begin, linked, dir.disk, asked);
        if r.Ok? {
          PublishedInOrder(old(dir.calls), attempted, dir.calls, key, tmp, inode, true);
        }
    }
  }

  lemma PublishedInOrder<K(!new)>(
    first: seq<P.Call<Name<K>>>, attempted: seq<P.Call<Name<K>>>, now: seq<P.Call<Name<K>>>,
    key: K, tmp: nat, inode: nat, renamed: bool)
    requires attempted == first + [P.Writes(inode, true), P.SyncsFile(inode, true)]
                          + [P.Renames(Staging(tmp), Published(key), renamed)]
    requires if renamed then now == attempted + [P.SyncsDirectory(true)]
             else exists taken :: now == attempted + [P.SyncsFile(taken, true), P.SyncsDirectory(true)]
    ensures exists existing :: now == first + PublishCalls(key, tmp, inode, existing)
  {
    if renamed {
      assert now == first + PublishCalls(key, tmp, inode, None);
    } else {
      var taken :| now == attempted + [P.SyncsFile(taken, true), P.SyncsDirectory(true)];
      assert now == first + PublishCalls(key, tmp, inode, Some(taken));
    }
  }

  lemma LinkBacked<K(!new), B(!new)>(d: Disk<Name<K>, File<B>>, me: Writer<K, B>, asked: set<(K, B)>)
    requires Backed(d, asked) && WriterOk(d, me) && me.phase.Ready? && (me.key, me.bytes) in asked
    requires Published(me.key) !in Current(d)
    ensures var e := Issue(d, Move(Staging(me.phase.tmp), Published(me.key)));
            Developed(d, e, asked) && WriterOk(e, me.(phase := Linked))
  {
    var op := Move(Staging(me.phase.tmp), Published(me.key));
    forall key: K | Published(key) in Apply(Current(d), op)
      ensures Genuine(d, asked, key, Apply(Current(d), op)[Published(key)])
    {
      if key != me.key {
        assert Genuine(d, asked, key, Current(d)[Published(key)]);
      }
    }
    IssueBacked(d, op, asked);
    var e := Issue(d, op);
    assert At(e, Current(e), me.key, me.phase.inode, me.bytes);
  }

  /** The name was free when it was looked up: the bytes are staged and published, and the staging name removed. */
  method StageAndPublish<K(==,!new), B(==,!new)>(
    dir: Directory<K, B>, key: K, bytes: B, tmp: nat, ghost asked: set<(K, B)>)
    returns (r: Result<()>)
    requires (key, bytes) in asked && Backed(dir.disk, asked)
    modifies dir
    ensures Developed(old(dir.disk), dir.disk, asked)
    ensures r.Ok? ==> Present(dir.disk, Image(dir.disk, 0), key, bytes)
    ensures r.Ok? ==> exists w :: dir.calls == old(dir.calls) + PersistCalls(key, tmp, w)
    ensures r.Err? ==> r.error != ObjectInvalid
    ensures old(dir.failures) <= dir.failures && (r == Err(PersistenceFailed) ==> old(dir.failures) < dir.failures)
  {
    ghost var begin := dir.disk;
    Others(dir, Writer(key, bytes, Absent), asked);
    ghost var seen := dir.disk;
    var made := dir.CreateNew(Staging(tmp), Blank);
    if !made.Made? { return Err(PersistenceFailed); }
    CreateBacked(seen, tmp, asked);
    ghost var staged := dir.disk;
    DevelopedTransitive(begin, seen, staged, asked);
    r := Publish(dir, key, bytes, tmp, made.inode, asked);
    DevelopedTransitive(begin, staged, dir.disk, asked);
    ghost var published := dir.disk;
    Others(dir, Writer(key, bytes, if r.Ok? then Synced(None) else Failing(None)), asked);
    DevelopedTransitive(begin, published, dir.disk, asked);
    ghost var left, before := dir.disk, dir.calls;
    Clean(dir, tmp, asked);
    DevelopedTransitive(begin, left, dir.disk, asked);
    if r.Ok? {
      PersistedInOrder(old(dir.calls), before, dir.calls, key, tmp, made.inode);
    }
  }

  lemma PersistedInOrder<K(!new)>(
    first: seq<P.Call<Name<K>>>, before: seq<P.Call<Name<K>>>, now: seq<P.Call<Name<K>>>, key: K, tmp: nat, inode: nat)
    requires exists existing ::
               before == first + [P.Creates(Staging(tmp), true)] + PublishCalls(key, tmp, inode, existing)
    requires exists ok :: now == before + [P.Removes(Staging(tmp), ok)]
    ensures exists w :: now == first + PersistCalls(key, tmp, w)
  {
    var existing :| before == first + [P.Creates(Staging(tmp), true)] + PublishCalls(key, tmp, inode, existing);
    var ok :| now == before + [P.Removes(Staging(tmp), ok)];
    assert now == first + PersistCalls(key, tmp, Made(inode, existing, ok));
  }

  /**
   `persist_exact_file`: `Ok` only when the exact bytes are durable under the name, and never at the
   cost of anything published.
   */
  method PersistExactFile<K(==,!new), B(==,!new)>(
    dir: Directory<K, B>, key: K, bytes: B, tmp: nat, ghost asked: set<(K, B)>)
    returns (r: Result<()>)
    requires (key, bytes) in asked && Backed(dir.disk, asked)
    modifies dir
    ensures Developed(old(dir.disk), dir.disk, asked)
    ensures r.Ok? ==> Present(dir.disk, Image(dir.disk, 0), key, bytes)
    ensures Published(key) in old(Current(dir.disk)) && !Present(old(dir.disk), Current(old(dir.disk)), key, bytes) ==>
              r.Err? && r.error != PersistenceFailed && dir.disk == old(dir.disk)
    ensures r.Ok? ==> exists w :: dir.calls == old(dir.calls) + PersistCalls(key, tmp, w)
    ensures r == Err(ObjectInvalid) ==>
              Published(key) in old(Current(dir.disk)) && !Present(old(dir.disk), Current(old(dir.disk)), key, bytes)
    ensures old(dir.failures) <= dir.failures && (r == Err(PersistenceFailed) ==> old(dir.failures) < dir.failures)
  {
    SameDisk(dir.disk, asked);
    var existing := TryRead(dir, key, asked);
    if existing.Err? { return Err(existing.error); }
    if existing.value.Some? {
      if existing.value.value != bytes { return Err(ObjectInvalid); }
      ghost var there := Current(dir.disk)[Published(key)];
      r := SyncExisting(dir, key, bytes, asked);
      assert r.Ok? ==> dir.calls == old(dir.calls) + PersistCalls(key, tmp, Found(there));
      return;
    }
    r := StageAndPublish(dir, key, bytes, tmp, asked);
  }

  /**
   `persist_sidecar`: the same publication in the archive's own directory, refused without effect when the
   archive there is not the one that was attached. It is idempotent: a sidecar that is already there is
   only synced.
   */
  method PersistSidecar<K(==,!new), B(==,!new)>(
    dir: Directory<K, B>, archiveKey: K, archive: B, key: K, bytes: B, tmp: nat, ghost asked: set<(K, B)>)
    returns (r: Result<()>)
    requires (key, bytes) in asked && Backed(dir.disk, asked)
    modifies dir
    ensures Developed(old(dir.disk), dir.disk, asked)
    ensures !Present(old(dir.disk), Current(old(dir.disk)), archiveKey, archive) ==>
              r.Err? && r.error != PersistenceFailed && dir.disk == old(dir.disk)
    ensures r.Ok? ==> Present(dir.disk, Image(dir.disk, 0), key, bytes)
    ensures r.Ok? ==> Present(dir.disk, Current(dir.disk), archiveKey, archive)
    ensures Published(key) in old(Current(dir.disk)) && !Present(old(dir.disk), Current(old(dir.disk)), key, bytes) ==>
              r.Err? && dir.disk == old(dir.disk)
    ensures r.Ok? ==> exists w :: dir.calls == old(dir.calls) + PersistCalls(key, tmp, w)
    ensures old(dir.failures) <= dir.failures && (r == Err(PersistenceFailed) ==> old(dir.failures) < dir.failures)
  {
    SameDisk(dir.disk, asked);
    var found := TryRead(dir, archiveKey, asked);
    if found.Err? { return Err(found.error); }
    if found.value != Some(archive) {
      return Err(ObjectInvalid);
    }
    ghost var before := dir.disk;
    r := PersistExactFile(dir, key, bytes, tmp, asked);
    PresentStays(before, dir.disk, archiveKey, archive);
  }

  /** A second publication of the same bytes finds them where the first put them. */
  lemma PublishingIsIdempotent<K(!new), B(!new)>(
    d: Disk<Name<K>, File<B>>, e: Disk<Name<K>, File<B>>, key: K, inode: nat, bytes: B, other: nat, asked: set<(K, B)>)
    requires Developed(d, e, asked)
    requires At(d, Image(d, 0), key, inode, bytes) && At(e, Current(e), key, other, bytes)
    ensures other == inode
  {
    assert Keeps(Image(d, 0), Current(d));
  }
}
