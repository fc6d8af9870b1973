/**
 A store of whole files that are published under a name once and never replaced.

 Any number of writers work at the same time, each as `persist_exact_file` and `persist_sidecar` do:
 look, stage under a random name, write, sync the file, rename without replacing, sync the directory,
 remove the staging file. Processes and the machine may crash at every step. Staging names carry 128
 random bits; a name is taken only while no file has it.
 */
module ContentStore {
  import opened Wrappers
  import opened Durability

  datatype Name<K> = Published(key: K) | Staging(id: nat)

  datatype File<B> = Blank | Data(bytes: B)

  datatype Phase =
    | Opening
    | Absent
    | Staged(tmp: nat, inode: nat)
    | Drafted(tmp: nat, inode: nat)
    | Ready(tmp: nat, inode: nat)
    | Contended(tmp: nat)
    | Linked
    | Matched(leftover: Option<nat>)
    | Synced(leftover: Option<nat>)
    | Failing(leftover: Option<nat>)

  datatype Writer<K, B> = Writer(key: K, bytes: B, phase: Phase)

  /** `asked` are the requests ever made, `acked` those that returned `Ok`. */
  datatype Store<K(==), B(==)> = Store(
    disk: Disk<Name<K>, File<B>>, writers: map<nat, Writer<K, B>>, asked: set<(K, B)>, acked: set<(K, B)>)

  datatype Action<K, B> =
    | Call(w: nat, key: K, bytes: B)
    | Look(w: nat)
    | Stage(w: nat, tmp: nat)
    | Write(w: nat)
    | SyncStaged(w: nat)
    | Rename(w: nat)
    | Reread(w: nat)
    | Sync(w: nat)
    | Return(w: nat)
    | Fail(w: nat)
    | Abandon(w: nat)
    | ProcessCrash(dead: set<nat>)
    | MachineCrash(kept: nat, torn: set<nat>)

  function Leftover(p: Phase): Option<nat> {
    match p
    case Opening => None
    case Absent => None
    case Staged(tmp, _) => Some(tmp)
    case Drafted(tmp, _) => Some(tmp)
    case Ready(tmp, _) => Some(tmp)
    case Contended(tmp) => Some(tmp)
    case Linked => None
    case Matched(t) => t
    case Synced(t) => t
    case Failing(t) => t
  }

  /** The writer has a staging file whose inode only it knows. */
  predicate Owns(p: Phase) { p.Staged? || p.Drafted? || p.Ready? }

  /** The file under a published name holds these bytes, in this inode. */
  ghost predicate At<K(!new), B(!new)>(
    d: Disk<Name<K>, File<B>>, entries: Entries<Name<K>>, key: K, inode: nat, bytes: B)
  {
    && Published(key) in entries && entries[Published(key)] == inode
    && inode < |d.content| && d.content[inode] == Data(bytes)
  }

  ghost predicate Present<K(!new), B(!new)>(d: Disk<Name<K>, File<B>>, entries: Entries<Name<K>>, key: K, bytes: B) {
    exists inode :: At(d, entries, key, inode, bytes)
  }

  ghost predicate May<K(!new), B(!new)>(s: Store<K, B>, a: Action<K, B>) {
    match a
    case Call(w, key, bytes) => w !in s.writers
    case Look(w) => w in s.writers && s.writers[w].phase.Opening?
    case Stage(w, tmp) => w in s.writers && s.writers[w].phase.Absent? && Staging(tmp) !in Current(s.disk)
    case Write(w) => w in s.writers && s.writers[w].phase.Staged? && s.writers[w].phase.inode < |s.disk.content|
    case SyncStaged(w) => w in s.writers && s.writers[w].phase.Drafted?
    case Rename(w) => w in s.writers && s.writers[w].phase.Ready?
    case Reread(w) => w in s.writers && s.writers[w].phase.Contended?
    case Sync(w) => w in s.writers && (s.writers[w].phase.Linked? || s.writers[w].phase.Matched?)
    case Return(w) => w in s.writers && s.writers[w].phase.Synced?
    case Fail(w) => w in s.writers && !s.writers[w].phase.Synced?
    case Abandon(w) => w in s.writers && s.writers[w].phase.Failing?
    case ProcessCrash(dead) => true
    case MachineCrash(kept, torn) => kept <= |s.disk.log| && torn <= s.disk.unsynced
  }

  ghost function Moved<K(!new), B(!new)>(s: Store<K, B>, w: nat, phase: Phase): Store<K, B>
    requires w in s.writers
  {
    s.(writers := s.writers[w := s.writers[w].(phase := phase)])
  }

  ghost function Cleaned<K(!new), B(!new)>(d: Disk<Name<K>, File<B>>, leftover: Option<nat>): Disk<Name<K>, File<B>> {
    if leftover.Some? then Issue(d, Unlink(Staging(leftover.value))) else d
  }

  ghost function Do<K(!new), B(!new)>(s: Store<K, B>, a: Action<K, B>): Store<K, B>
    requires May(s, a)
  {
    match a
    case Call(w, key, bytes) =>
      s.(writers := s.writers[w := Writer(key, bytes, Opening)], asked := s.asked + {(key, bytes)})
    case Look(w) =>
      var writer := s.writers[w];
      Moved(s, w,
        if Published(writer.key) !in Current(s.disk) then Absent
        else if Present(s.disk, Current(s.disk), writer.key, writer.bytes) then Matched(None)
        else Failing(None))
    case Stage(w, tmp) =>
      Moved(s, w, Staged(tmp, |s.disk.content|)).(disk := Create(s.disk, Staging(tmp), Blank))
    case Write(w) =>
      var p := s.writers[w].phase;
      Moved(s, w, Drafted(p.tmp, p.inode)).(disk := Durability.Write(s.disk, p.inode, Data(s.writers[w].bytes)))
    case SyncStaged(w) =>
      var p := s.writers[w].phase;
      Moved(s, w, Ready(p.tmp, p.inode)).(disk := SyncFile(s.disk, p.inode))
    case Rename(w) =>
      var p := s.writers[w].phase;
      var to := Published(s.writers[w].key);
      if to in Current(s.disk) then Moved(s, w, Contended(p.tmp))
      else Moved(s, w, Linked).(disk := Issue(s.disk, Move(Staging(p.tmp), to)))
    case Reread(w) =>
      var writer := s.writers[w];
      Moved(s, w,
        if Present(s.disk, Current(s.disk), writer.key, writer.bytes) then Matched(Some(writer.phase.tmp))
        else Failing(Some(writer.phase.tmp)))
    case Sync(w) =>
      Moved(s, w, Synced(Leftover(s.writers[w].phase))).(disk := Flush(s.disk))
    case Return(w) =>
      s.(disk := Cleaned(s.disk, s.writers[w].phase.leftover), writers := s.writers - {w},
         acked := s.acked + {(s.writers[w].key, s.writers[w].bytes)})
    case Fail(w) => Moved(s, w, Failing(Leftover(s.writers[w].phase)))
    case Abandon(w) =>
      s.(disk := Cleaned(s.disk, s.writers[w].phase.leftover), writers := s.writers - {w})
    case ProcessCrash(dead) => s.(writers := s.writers - dead)
    case MachineCrash(kept, torn) => s.(disk := Crash(s.disk, kept, torn, Blank), writers := map[])
  }

  // ---------------------------------------------------------------- the invariant

  /** Nothing published in `a` is missing or elsewhere in `b`. */
  ghost predicate Keeps<K(!new)>(a: Entries<Name<K>>, b: Entries<Name<K>>) {
    forall key: K | Published(key) in a :: Published(key) in b && b[Published(key)] == a[Published(key)]
  }

  ghost predicate Backed<K(!new), B(!new)>(d: Disk<Name<K>, File<B>>, asked: set<(K, B)>) {
    && Valid(d)
    && (forall k :: 0 <= k <= |d.log| ==> Keeps(Image(d, 0), Image(d, k)) && Keeps(Image(d, k), Current(d)))
    && (forall key: K | Published(key) in Current(d) :: Genuine(d, asked, key, Current(d)[Published(key)]))
  }

  /** A file worth publishing: whole, synced, and asked for. */
  ghost predicate Genuine<K(!new), B(!new)>(d: Disk<Name<K>, File<B>>, asked: set<(K, B)>, key: K, inode: nat) {
    && inode < |d.content| && inode !in d.unsynced
    && d.content[inode].Data? && (key, d.content[inode].bytes) in asked
  }

  /** No published name leads to the inode, so writing to it disturbs no reader. */
  ghost predicate Private<K(!new), B(!new)>(d: Disk<Name<K>, File<B>>, inode: nat) {
    inode < |d.content| && forall key: K | Published(key) in Current(d) :: Current(d)[Published(key)] != inode
  }

  ghost predicate WriterOk<K(!new), B(!new)>(d: Disk<Name<K>, File<B>>, w: Writer<K, B>) {
    && (Leftover(w.phase).Some? ==> Staging(Leftover(w.phase).value) in Current(d))
    && match w.phase
       case Staged(tmp, inode) => Current(d)[Staging(tmp)] == inode && Private(d, inode)
       case Drafted(tmp, inode) =>
         Current(d)[Staging(tmp)] == inode && Private(d, inode) && d.content[inode] == Data(w.bytes)
       case Ready(tmp, inode) =>
         && Current(d)[Staging(tmp)] == inode && Private(d, inode) && d.content[inode] == Data(w.bytes)
         && inode !in d.unsynced
       case Linked => Present(d, Current(d), w.key, w.bytes)
       case Matched(_) => Present(d, Current(d), w.key, w.bytes)
       case Synced(_) => Present(d, Image(d, 0), w.key, w.bytes)
       case _ => true
  }

  predicate Apart(p: Phase, q: Phase) {
    && (Leftover(p).Some? ==> Leftover(p) != Leftover(q))
    && (Owns(p) && Owns(q) ==> p.inode != q.inode)
  }

  ghost predicate Inv<K(!new), B(!new)>(s: Store<K, B>) {
    && Backed(s.disk, s.asked)
    && (forall w :: w in s.writers ==>
          WriterOk(s.disk, s.writers[w]) && (s.writers[w].key, s.writers[w].bytes) in s.asked)
    && (forall v, w :: v in s.writers && w in s.writers && v != w ==>
          Apart(s.writers[v].phase, s.writers[w].phase))
    && (forall r :: r in s.acked ==> Present(s.disk, Image(s.disk, 0), r.0, r.1))
  }

  /** An empty directory with no writer at work. */
  lemma EmptyIsInv<K(!new), B(!new)>()
    ensures Inv<K, B>(Store(Empty(), map[], {}, {}))
  {
  }

  /** What an action may do to the disk as the other writers see it. */
  ghost predicate Steady<K(!new), B(!new)>(d: Disk<Name<K>, File<B>>, e: Disk<Name<K>, File<B>>) {
    && Valid(d) && Valid(e)
    && Keeps(Image(d, 0), Image(e, 0))
    && Keeps(Current(d), Current(e))
    && |d.content| <= |e.content|
    && forall key: K | Published(key) in Current(d) ::
         var inode := Current(d)[Published(key)]; inode < |d.content| && e.content[inode] == d.content[inode]
  }

  // ---------------------------------------------------------------- the disk operations

  lemma CurrentIsImage<K(!new), B(!new)>(d: Disk<Name<K>, File<B>>)
    ensures Current(d) == Image(d, |d.log|)
  {
  }

  /** An operation that keeps the published entries keeps every image below the current state. */
  lemma IssueBacked<K(!new), B(!new)>(d: Disk<Name<K>, File<B>>, op: Op<Name<K>>, asked: set<(K, B)>)
    requires Backed(d, asked) && !op.Link?
    requires Keeps(Current(d), Apply(Current(d), op))
    requires forall key: K | Published(key) in Apply(Current(d), op) ::
               Genuine(d, asked, key, Apply(Current(d), op)[Published(key)])
    ensures Steady(d, Issue(d, op)) && Backed(Issue(d, op), asked)
    ensures Current(Issue(d, op)) == Apply(Current(d), op)
  {
    var e := Issue(d, op);
    ImagesAfterIssue(d, op);
    assert forall k :: 0 <= k <= |d.log| ==> Image(e, k) == Image(d, k);
    assert Image(e, |e.log|) == Apply(Current(d), op);
    forall k, n | 0 <= k <= |e.log| && n in Image(e, k) ensures Image(e, k)[n] < |e.content| {
      if k <= |d.log| {
        assert n in Image(d, k);
      } else {
        CurrentIsImage(d);
        assert forall m | m in Current(d) :: Current(d)[m] < |d.content|;
      }
    }
    forall k | 0 <= k <= |e.log| ensures Keeps(Image(e, 0), Image(e, k)) && Keeps(Image(e, k), Current(e)) {
      if k <= |d.log| {
        assert Keeps(Image(d, 0), Image(d, k)) && Keeps(Image(d, k), Current(d));
      } else {
        assert Keeps(Image(d, 0), Current(d));
      }
    }
  }

  lemma CreateBacked<K(!new), B(!new)>(d: Disk<Name<K>, File<B>>, tmp: nat, asked: set<(K, B)>)
    requires Backed(d, asked) && Staging(tmp) !in Current(d)
    ensures var e := Create(d, Staging(tmp), Blank);
            && Steady(d, e) && Backed(e, asked)
            && Current(e) == Current(d)[Staging(tmp) := |d.content|]
            && Private(e, |d.content|)
  {
    var e := Create(d, Staging(tmp), Blank);
    ImagesAfterCreate(d, Staging(tmp), Blank);
    CurrentIsImage(d);
    assert forall k :: 0 <= k <= |d.log| ==> Image(e, k) == Image(d, k);
    forall k | 0 <= k <= |e.log| ensures Keeps(Image(e, 0), Image(e, k)) && Keeps(Image(e, k), Current(e)) {
      if k <= |d.log| {
        assert Keeps(Image(d, 0), Image(d, k)) && Keeps(Image(d, k), Current(d));
      } else {
        assert Keeps(Image(d, 0), Current(d));
      }
    }
    forall key: K | Published(key) in Current(e) ensures Genuine(e, asked, key, Current(e)[Published(key)]) {
      assert Genuine(d, asked, key, Current(d)[Published(key)]);
    }
  }

  /** Neither the write nor the sync of a private file shows in a published one. */
  lemma WriteBacked<K(!new), B(!new)>(d: Disk<Name<K>, File<B>>, inode: nat, bytes: B, asked: set<(K, B)>)
    requires Backed(d, asked) && Private(d, inode)
    ensures var e := Durability.Write(d, inode, Data(bytes));
            Steady(d, e) && Backed(e, asked) && Current(e) == Current(d)
  {
    var e := Durability.Write(d, inode, Data(bytes));
    ImagesAfterWrite(d, inode, Data(bytes));
    forall k | 0 <= k <= |e.log| ensures Keeps(Image(e, 0), Image(e, k)) && Keeps(Image(e, k), Current(e)) {
      assert Keeps(Image(d, 0), Image(d, k)) && Keeps(Image(d, k), Current(d));
    }
    forall key: K | Published(key) in Current(e)
      ensures Genuine(e, asked, key, Current(e)[Published(key)])
      ensures e.content[Current(d)[Published(key)]] == d.content[Current(d)[Published(key)]]
    {
      assert Genuine(d, asked, key, Current(d)[Published(key)]);
    }
  }

  lemma SyncFileBacked<K(!new), B(!new)>(d: Disk<Name<K>, File<B>>, inode: nat, asked: set<(K, B)>)
    requires Backed(d, asked)
    ensures var e := SyncFile(d, inode);
            Steady(d, e) && Backed(e, asked) && Current(e) == Current(d)
  {
    var e := SyncFile(d, inode);
    ImagesAfterSyncFile(d, inode);
    forall k | 0 <= k <= |e.log| ensures Keeps(Image(e, 0), Image(e, k)) && Keeps(Image(e, k), Current(e)) {
      assert Keeps(Image(d, 0), Image(d, k)) && Keeps(Image(d, k), Current(d));
    }
    forall key: K | Published(key) in Current(e) ensures Genuine(e, asked, key, Current(e)[Published(key)]) {
      assert Genuine(d, asked, key, Current(d)[Published(key)]);
    }
  }

  lemma FlushBacked<K(!new), B(!new)>(d: Disk<Name<K>, File<B>>, asked: set<(K, B)>)
    requires Backed(d, asked)
    ensures Steady(d, Flush(d)) && Backed(Flush(d), asked)
    ensures Current(Flush(d)) == Current(d) == Image(Flush(d), 0)
  {
    ImagesAfterFlush(d);
    assert Keeps(Image(d, 0), Current(d));
    forall key: K | Published(key) in Current(d) ensures Genuine(Flush(d), asked, key, Current(d)[Published(key)]) {
      assert Genuine(d, asked, key, Current(d)[Published(key)]);
    }
  }

  /** A writer syncs its file before it publishes it, so a crash tears no published file. */
  lemma CrashBacked<K(!new), B(!new)>(d: Disk<Name<K>, File<B>>, kept: nat, torn: set<nat>, asked: set<(K, B)>)
    requires Backed(d, asked) && kept <= |d.log| && torn <= d.unsynced
    ensures var e := Crash(d, kept, torn, Blank);
            && Backed(e, asked) && Current(e) == Image(d, kept) == Image(e, 0)
            && |e.content| == |d.content|
            && forall key: K | Published(key) in Image(d, kept) ::
                 var inode := Image(d, kept)[Published(key)];
                 inode < |d.content| && e.content[inode] == d.content[inode]
  {
    var e := Crash(d, kept, torn, Blank);
    ImagesAfterCrash(d, kept, torn, Blank);
    assert Keeps(Image(d, kept), Current(d));
    forall key: K | Published(key) in Current(e)
      ensures Genuine(e, asked, key, Current(e)[Published(key)])
      ensures Image(d, kept)[Published(key)] < |d.content|
              && e.content[Image(d, kept)[Published(key)]] == d.content[Image(d, kept)[Published(key)]]
    {
      assert Genuine(d, asked, key, Current(d)[Published(key)]);
    }
  }

  // ---------------------------------------------------------------- what others notice

  lemma PresentStays<K(!new), B(!new)>(d: Disk<Name<K>, File<B>>, e: Disk<Name<K>, File<B>>, key: K, bytes: B)
    requires Steady(d, e)
    ensures Present(d, Current(d), key, bytes) ==> Present(e, Current(e), key, bytes)
    ensures Keeps(Image(d, 0), Current(d)) && Present(d, Image(d, 0), key, bytes) ==>
            Present(e, Image(e, 0), key, bytes)
  {
    if inode :| At(d, Current(d), key, inode, bytes) {
      assert At(e, Current(e), key, inode, bytes);
    }
    if Keeps(Image(d, 0), Current(d)) {
      if inode :| At(d, Image(d, 0), key, inode, bytes) {
        assert At(e, Image(e, 0), key, inode, bytes);
      }
    }
  }

  /** The action leaves a writer's own staging file alone. */
  ghost predicate Spares<K(!new), B(!new)>(d: Disk<Name<K>, File<B>>, e: Disk<Name<K>, File<B>>, p: Phase) {
    && (Leftover(p).Some? ==> Staging(Leftover(p).value) in Current(e))
    && (Owns(p) ==>
          && Current(e)[Staging(p.tmp)] == p.inode && Private(e, p.inode)
          && p.inode < |d.content| && e.content[p.inode] == d.content[p.inode]
          && (p.inode in e.unsynced ==> p.inode in d.unsynced))
  }

  lemma WriterStays<K(!new), B(!new)>(d: Disk<Name<K>, File<B>>, e: Disk<Name<K>, File<B>>, w: Writer<K, B>)
    requires Steady(d, e) && WriterOk(d, w) && Spares(d, e, w.phase) && Keeps(Image(d, 0), Current(d))
    ensures WriterOk(e, w)
  {
    PresentStays(d, e, w.key, w.bytes);
  }

  /** One writer's action: the invariant follows from what it does to itself and spares of the others. */
  lemma Rebuilt<K(!new), B(!new)>(s: Store<K, B>, t: Store<K, B>, w: nat)
    requires Inv(s)
    requires Steady(s.disk, t.disk) && Backed(t.disk, t.asked) && s.asked <= t.asked
    requires forall v :: v in t.writers && v != w ==>
               && v in s.writers && t.writers[v] == s.writers[v]
               && Spares(s.disk, t.disk, s.writers[v].phase)
    requires w in t.writers ==>
               && WriterOk(t.disk, t.writers[w]) && (t.writers[w].key, t.writers[w].bytes) in t.asked
               && forall v :: v in s.writers && v != w ==>
                    Apart(t.writers[w].phase, s.writers[v].phase) && Apart(s.writers[v].phase, t.writers[w].phase)
    requires forall r :: r in t.acked ==> r in s.acked || Present(t.disk, Image(t.disk, 0), r.0, r.1)
    ensures Inv(t)
  {
    assert Keeps(Image(s.disk, 0), Current(s.disk));
    forall v | v in t.writers && v != w ensures WriterOk(t.disk, t.writers[v]) {
      WriterStays(s.disk, t.disk, s.writers[v]);
    }
    forall r | r in t.acked ensures Present(t.disk, Image(t.disk, 0), r.0, r.1) {
      if r in s.acked {
        PresentStays(s.disk, t.disk, r.0, r.1);
      }
    }
  }

  // ---------------------------------------------------------------- every action keeps the invariant

  lemma SameDisk<K(!new), B(!new)>(d: Disk<Name<K>, File<B>>, asked: set<(K, B)>)
    requires Backed(d, asked)
    ensures Steady(d, d)
    ensures forall w: Writer<K, B> | WriterOk(d, w) :: Spares(d, d, w.phase)
  {
    forall key: K | Published(key) in Current(d) ensures Current(d)[Published(key)] < |d.content| {
      assert Genuine(d, asked, key, Current(d)[Published(key)]);
    }
  }

  lemma MoreAsked<K(!new), B(!new)>(d: Disk<Name<K>, File<B>>, asked: set<(K, B)>, more: set<(K, B)>)
    requires Backed(d, asked) && asked <= more
    ensures Backed(d, more)
  {
    forall key: K | Published(key) in Current(d) ensures Genuine(d, more, key, Current(d)[Published(key)]) {
      assert Genuine(d, asked, key, Current(d)[Published(key)]);
    }
  }

  lemma CallKeeps<K(!new), B(!new)>(s: Store<K, B>, a: Action<K, B>)
    requires Inv(s) && May(s, a) && a.Call?
    ensures Inv(Do(s, a)) && Steady(s.disk, Do(s, a).disk)
  {
    SameDisk(s.disk, s.asked);
    MoreAsked(s.disk, s.asked, s.asked + {(a.key, a.bytes)});
    Rebuilt(s, Do(s, a), a.w);
  }

  /** Looks and failures only move the writer, to a phase with the same staging file. */
  lemma QuietKeeps<K(!new), B(!new)>(s: Store<K, B>, w: nat, phase: Phase)
    requires Inv(s) && w in s.writers
    requires Leftover(phase) == Leftover(s.writers[w].phase)
    requires !Owns(phase) && !phase.Linked? && !phase.Synced?
    requires phase.Matched? ==> Present(s.disk, Current(s.disk), s.writers[w].key, s.writers[w].bytes)
    ensures Inv(Moved(s, w, phase)) && Steady(s.disk, s.disk)
  {
    var t := Moved(s, w, phase);
    SameDisk(s.disk, s.asked);
    assert WriterOk(s.disk, s.writers[w]);
    forall v | v in s.writers && v != w
      ensures Apart(phase, s.writers[v].phase) && Apart(s.writers[v].phase, phase)
    {
      assert Apart(s.writers[v].phase, s.writers[w].phase) && Apart(s.writers[w].phase, s.writers[v].phase);
    }
    Rebuilt(s, t, w);
  }

  lemma StageKeeps<K(!new), B(!new)>(s: Store<K, B>, a: Action<K, B>)
    requires Inv(s) && May(s, a) && a.Stage?
    ensures Inv(Do(s, a)) && Steady(s.disk, Do(s, a).disk)
  {
    var t := Do(s, a);
    CreateBacked(s.disk, a.tmp, s.asked);
    forall v | v in s.writers && v != a.w
      ensures Spares(s.disk, t.disk, s.writers[v].phase)
      ensures Apart(t.writers[a.w].phase, s.writers[v].phase) && Apart(s.writers[v].phase, t.writers[a.w].phase)
    {
      assert WriterOk(s.disk, s.writers[v]);
    }
    Rebuilt(s, t, a.w);
  }

  lemma WriteKeeps<K(!new), B(!new)>(s: Store<K, B>, a: Action<K, B>)
    requires Inv(s) && May(s, a) && a.Write?
    ensures Inv(Do(s, a)) && Steady(s.disk, Do(s, a).disk)
  {
    var t := Do(s, a);
    assert WriterOk(s.disk, s.writers[a.w]);
    WriteBacked(s.disk, s.writers[a.w].phase.inode, s.writers[a.w].bytes, s.asked);
    forall v | v in s.writers && v != a.w ensures Spares(s.disk, t.disk, s.writers[v].phase) {
      assert WriterOk(s.disk, s.writers[v]) && Apart(s.writers[v].phase, s.writers[a.w].phase);
    }
    Rebuilt(s, t, a.w);
  }

  lemma SyncStagedKeeps<K(!new), B(!new)>(s: Store<K, B>, a: Action<K, B>)
    requires Inv(s) && May(s, a) && a.SyncStaged?
    ensures Inv(Do(s, a)) && Steady(s.disk, Do(s, a).disk)
  {
    var t := Do(s, a);
    assert WriterOk(s.disk, s.writers[a.w]);
    SyncFileBacked(s.disk, s.writers[a.w].phase.inode, s.asked);
    forall v | v in s.writers && v != a.w ensures Spares(s.disk, t.disk, s.writers[v].phase) {
      assert WriterOk(s.disk, s.writers[v]) && Apart(s.writers[v].phase, s.writers[a.w].phase);
    }
    Rebuilt(s, t, a.w);
  }

  lemma LinkKeeps<K(!new), B(!new)>(s: Store<K, B>, a: Action<K, B>)
    requires Inv(s) && May(s, a) && a.Rename? && Published(s.writers[a.w].key) !in Current(s.disk)
    ensures Inv(Do(s, a)) && Steady(s.disk, Do(s, a).disk)
  {
    var t := Do(s, a);
    var writer := s.writers[a.w];
    var d, op := s.disk, Move(Staging(writer.phase.tmp), Published(writer.key));
    assert WriterOk(d, writer);
    forall key: K | Published(key) in Apply(Current(d), op)
      ensures Genuine(d, s.asked, key, Apply(Current(d), op)[Published(key)])
    {
      if key != writer.key {
        assert Genuine(d, s.asked, key, Current(d)[Published(key)]);
      }
    }
    IssueBacked(d, op, s.asked);
    assert At(t.disk, Current(t.disk), writer.key, writer.phase.inode, writer.bytes);
    forall v | v in s.writers && v != a.w ensures Spares(s.disk, t.disk, s.writers[v].phase) {
      assert WriterOk(s.disk, s.writers[v]) && Apart(s.writers[v].phase, writer.phase);
    }
    Rebuilt(s, t, a.w);
  }

  lemma SyncKeeps<K(!new), B(!new)>(s: Store<K, B>, a: Action<K, B>)
    requires Inv(s) && May(s, a) && a.Sync?
    ensures Inv(Do(s, a)) && Steady(s.disk, Do(s, a).disk)
  {
    var t := Do(s, a);
    assert WriterOk(s.disk, s.writers[a.w]);
    FlushBacked(s.disk, s.asked);
    PresentStays(s.disk, t.disk, s.writers[a.w].key, s.writers[a.w].bytes);
    forall v | v in s.writers && v != a.w ensures Spares(s.disk, t.disk, s.writers[v].phase) {
      assert WriterOk(s.disk, s.writers[v]);
    }
    Rebuilt(s, t, a.w);
  }

  lemma CleanedBacked<K(!new), B(!new)>(d: Disk<Name<K>, File<B>>, leftover: Option<nat>, asked: set<(K, B)>)
    requires Backed(d, asked)
    ensures var e := Cleaned(d, leftover);
            && Steady(d, e) && Backed(e, asked) && e.content == d.content && e.unsynced == d.unsynced
            && (forall n :: n in Current(d) && (leftover.None? || n != Staging(leftover.value)) ==>
                 n in Current(e) && Current(e)[n] == Current(d)[n])
            && (forall n :: n in Current(e) ==> n in Current(d))
  {
    SameDisk(d, asked);
    if leftover.Some? {
      forall key: K | Published(key) in Current(d) ensures Genuine(d, asked, key, Current(d)[Published(key)]) {}
      IssueBacked(d, Unlink(Staging(leftover.value)), asked);
    }
  }

  lemma LeaveKeeps<K(!new), B(!new)>(s: Store<K, B>, a: Action<K, B>)
    requires Inv(s) && May(s, a) && (a.Return? || a.Abandon?)
    ensures Inv(Do(s, a)) && Steady(s.disk, Do(s, a).disk)
  {
    var t := Do(s, a);
    var writer := s.writers[a.w];
    assert WriterOk(s.disk, writer);
    CleanedBacked(s.disk, writer.phase.leftover, s.asked);
    assert Keeps(Image(s.disk, 0), Current(s.disk));
    PresentStays(s.disk, t.disk, writer.key, writer.bytes);
    forall v | v in s.writers && v != a.w ensures Spares(s.disk, t.disk, s.writers[v].phase) {
      assert WriterOk(s.disk, s.writers[v]) && Apart(s.writers[v].phase, writer.phase);
      assert Backed(t.disk, t.asked);
      SparedByCleaning(s.disk, t.disk, s.writers[v], writer.phase.leftover);
    }
    Rebuilt(s, t, a.w);
  }

  lemma SparedByCleaning<K(!new), B(!new)>(
    d: Disk<Name<K>, File<B>>, e: Disk<Name<K>, File<B>>, w: Writer<K, B>, leftover: Option<nat>)
    requires WriterOk(d, w) && Steady(d, e) && e.content == d.content && e.unsynced == d.unsynced
    requires Leftover(w.phase).Some? ==> Leftover(w.phase) != leftover
    requires forall n :: n in Current(d) && (leftover.None? || n != Staging(leftover.value)) ==>
               n in Current(e) && Current(e)[n] == Current(d)[n]
    requires forall key: K | Published(key) in Current(e) :: Published(key) in Current(d)
    ensures Spares(d, e, w.phase)
  {
  }

  lemma ProcessCrashKeeps<K(!new), B(!new)>(s: Store<K, B>, a: Action<K, B>)
    requires Inv(s) && May(s, a) && a.ProcessCrash?
    ensures Inv(Do(s, a)) && Steady(s.disk, Do(s, a).disk)
  {
    SameDisk(s.disk, s.asked);
  }

  lemma MachineCrashKeeps<K(!new), B(!new)>(s: Store<K, B>, a: Action<K, B>)
    requires Inv(s) && May(s, a) && a.MachineCrash?
    ensures Inv(Do(s, a))
  {
    CrashBacked(s.disk, a.kept, a.torn, s.asked);
    assert Keeps(Image(s.disk, 0), Image(s.disk, a.kept));
    var t := Do(s, a);
    forall r | r in t.acked ensures Present(t.disk, Image(t.disk, 0), r.0, r.1) {
      var inode :| At(s.disk, Image(s.disk, 0), r.0, inode, r.1);
      assert At(t.disk, Image(t.disk, 0), r.0, inode, r.1);
    }
  }

  lemma StepKeeps<K(!new), B(!new)>(s: Store<K, B>, a: Action<K, B>)
    requires Inv(s) && May(s, a)
    ensures Inv(Do(s, a))
    ensures !a.MachineCrash? ==> Steady(s.disk, Do(s, a).disk)
  {
    hide Inv, Steady;
    match a
    case Call(_, _, _) => CallKeeps(s, a);
    case Look(w) => QuietKeeps(s, w, Do(s, a).writers[w].phase);
    case Reread(w) => QuietKeeps(s, w, Do(s, a).writers[w].phase);
    case Fail(w) => QuietKeeps(s, w, Do(s, a).writers[w].phase);
    case Rename(w) =>
      if Published(s.writers[w].key) in Current(s.disk) {
        QuietKeeps(s, w, Do(s, a).writers[w].phase);
      } else {
        LinkKeeps(s, a);
      }
    case Stage(_, _) => StageKeeps(s, a);
    case Write(_) => WriteKeeps(s, a);
    case SyncStaged(_) => SyncStagedKeeps(s, a);
    case Sync(_) => SyncKeeps(s, a);
    case Return(_) => LeaveKeeps(s, a);
    case Abandon(_) => LeaveKeeps(s, a);
    case ProcessCrash(_) => ProcessCrashKeeps(s, a);
    case MachineCrash(_, _) => MachineCrashKeeps(s, a);
  }

  /** What is durable stays where it is, with the same bytes, through every action and every crash. */
  lemma DurableStays<K(!new), B(!new)>(s: Store<K, B>, a: Action<K, B>, key: K, inode: nat, bytes: B)
    requires Inv(s) && May(s, a)
    requires At(s.disk, Image(s.disk, 0), key, inode, bytes)
    ensures var t := Do(s, a);
            At(t.disk, Image(t.disk, 0), key, inode, bytes) && At(t.disk, Current(t.disk), key, inode, bytes)
  {
    StepKeeps(s, a);
    assert Keeps(Image(s.disk, 0), Current(s.disk));
    var t := Do(s, a);
    assert Keeps(Image(t.disk, 0), Current(t.disk));
    if a.MachineCrash? {
      CrashBacked(s.disk, a.kept, a.torn, s.asked);
      assert Keeps(Image(s.disk, 0), Image(s.disk, a.kept));
    }
  }

  /** What is published stays where it is, with the same bytes, until a machine crash at least. */
  lemma PublishedStays<K(!new), B(!new)>(s: Store<K, B>, a: Action<K, B>, key: K, inode: nat, bytes: B)
    requires Inv(s) && May(s, a) && !a.MachineCrash?
    requires At(s.disk, Current(s.disk), key, inode, bytes)
    ensures At(Do(s, a).disk, Current(Do(s, a).disk), key, inode, bytes)
  {
    StepKeeps(s, a);
  }

  /** Only a call adds a request, and only a return an acknowledgement. */
  lemma Books<K(!new), B(!new)>(s: Store<K, B>, a: Action<K, B>)
    requires May(s, a)
    ensures Do(s, a).asked == s.asked + if a.Call? then {(a.key, a.bytes)} else {}
    ensures Do(s, a).acked
            == s.acked + if a.Return? then {(s.writers[a.w].key, s.writers[a.w].bytes)} else {}
  {
  }

  // ---------------------------------------------------------------- whole runs

  ghost predicate Run<K(!new), B(!new)>(states: seq<Store<K, B>>, actions: seq<Action<K, B>>) {
    && |states| == |actions| + 1
    && Inv(states[0])
    && forall i :: 0 <= i < |actions| ==> May(states[i], actions[i]) && states[i + 1] == Do(states[i], actions[i])
  }

  lemma {:induction false} RunKeeps<K(!new), B(!new)>(states: seq<Store<K, B>>, actions: seq<Action<K, B>>, i: nat)
    requires Run(states, actions) && i < |states|
    ensures Inv(states[i])
  {
    hide Inv, May, Do;
    if i > 0 {
      RunKeeps(states, actions, i - 1);
      StepKeeps(states[i - 1], actions[i - 1]);
    }
  }

  /** `Ok` means that the exact bytes are durable, and they stay so for the rest of every run. */
  lemma {:induction false} OkIsDurable<K(!new), B(!new)>(
    states: seq<Store<K, B>>, actions: seq<Action<K, B>>, i: nat, j: nat, w: nat)
    requires Run(states, actions) && i < |actions| && i < j < |states|
    requires actions[i] == Return(w)
    ensures Present(states[j].disk, Image(states[j].disk, 0), states[i].writers[w].key, states[i].writers[w].bytes)
    decreases j
  {
    RunKeeps(states, actions, j);
    AckedStays(states, actions, i + 1, j, (states[i].writers[w].key, states[i].writers[w].bytes));
  }

  lemma {:induction false} AckedStays<K(!new), B(!new)>(
    states: seq<Store<K, B>>, actions: seq<Action<K, B>>, i: nat, j: nat, r: (K, B))
    requires Run(states, actions) && i <= j < |states| && r in states[i].acked
    ensures r in states[j].acked
    decreases j
  {
    hide Inv;
    if i < j {
      AckedStays(states, actions, i, j - 1, r);
      assert states[j] == Do(states[j - 1], actions[j - 1]);
    }
  }

  lemma {:induction false} AskedStays<K(!new), B(!new)>(
    states: seq<Store<K, B>>, actions: seq<Action<K, B>>, i: nat, j: nat)
    requires Run(states, actions) && i <= j < |states|
    ensures states[i].asked <= states[j].asked
    decreases j
  {
    hide Inv;
    if i < j {
      AskedStays(states, actions, i, j - 1);
      assert states[j] == Do(states[j - 1], actions[j - 1]);
    }
  }

  /**
   A published name never changes its bytes. Between machine crashes this holds for any name; for a
   name that is derived from the bytes it holds over the whole run.
   */
  lemma {:induction false} NeverReplaced<K(!new), B(!new)>(
    states: seq<Store<K, B>>, actions: seq<Action<K, B>>, i: nat, j: nat, key: K, inode: nat, bytes: B)
    requires Run(states, actions) && i <= j < |states|
    requires forall k :: i <= k < j ==> !actions[k].MachineCrash?
    requires At(states[i].disk, Current(states[i].disk), key, inode, bytes)
    ensures At(states[j].disk, Current(states[j].disk), key, inode, bytes)
    decreases j
  {
    hide Inv, May, Do;
    if i < j {
      NeverReplaced(states, actions, i, j - 1, key, inode, bytes);
      RunKeeps(states, actions, j - 1);
      PublishedStays(states[j - 1], actions[j - 1], key, inode, bytes);
    }
  }

  lemma ContentAddressedNeverChanges<K(!new), B(!new)>(
    states: seq<Store<K, B>>, actions: seq<Action<K, B>>, i: nat, j: nat, key: K, a: B, b: B)
    requires Run(states, actions) && i <= j < |states|
    requires forall r, q :: r in states[j].asked && q in states[j].asked && r.0 == q.0 ==> r == q
    requires Present(states[i].disk, Current(states[i].disk), key, a)
    requires Present(states[j].disk, Current(states[j].disk), key, b)
    ensures a == b
  {
    RunKeeps(states, actions, i);
    RunKeeps(states, actions, j);
    AskedStays(states, actions, i, j);
    PresentWasAsked(states[i], key, a);
    PresentWasAsked(states[j], key, b);
    assert (key, a) in states[j].asked && (key, b) in states[j].asked;
  }

  lemma PresentWasAsked<K(!new), B(!new)>(s: Store<K, B>, key: K, bytes: B)
    requires Inv(s) && Present(s.disk, Current(s.disk), key, bytes)
    ensures (key, bytes) in s.asked
  {
    assert Genuine(s.disk, s.asked, key, Current(s.disk)[Published(key)]);
  }
}
