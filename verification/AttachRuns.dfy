/** Attaches that complete, as runs of the two stores: what a publication can always do, and what follows. */
module AttachRuns {
  import opened Wrappers
  import opened Protocol
  import opened FinalizationJournal
  import D = Durability
  import CS = ContentStore
  import H = ProtectedHistory

  // ---------------------------------------------------------------- a publication that returns

  ghost predicate Reaches<K(!new), B(!new)>(
    s: CS.Store<K, B>, states: seq<CS.Store<K, B>>, actions: seq<CS.Action<K, B>>, q: CS.Store<K, B>)
  {
    && CS.Run(states, actions) && states[0] == s && states[|states| - 1] == q
    && forall a <- actions :: !a.Call? && !a.MachineCrash?
  }

  lemma OneMore<K(!new), B(!new)>(
    s: CS.Store<K, B>, states: seq<CS.Store<K, B>>, actions: seq<CS.Action<K, B>>, q: CS.Store<K, B>,
    a: CS.Action<K, B>)
    requires Reaches(s, states, actions, q) && CS.May(q, a) && !a.Call? && !a.MachineCrash?
    ensures Reaches(s, states + [CS.Do(q, a)], actions + [a], CS.Do(q, a))
  {
    hide CS.Inv, CS.May, CS.Do;
  }

  /** The writer is this far, with the request it was called with. */
  ghost predicate At<K(!new), B(!new)>(
    s: CS.Store<K, B>, w: nat, key: K, bytes: B, phase: CS.Phase, asked: set<(K, B)>)
  {
    w in s.writers && s.writers[w] == CS.Writer(key, bytes, phase) && s.asked == asked
  }

  /** Nobody else has published under the name, or only these bytes. */
  ghost predicate Free<K(!new), B(!new)>(s: CS.Store<K, B>, key: K, bytes: B) {
    CS.Published(key) in D.Current(s.disk) ==> CS.Present(s.disk, D.Current(s.disk), key, bytes)
  }

  /** A call under a free name can go through to its sync. */
  lemma CanFinish<K(!new), B(!new)>(s: CS.Store<K, B>, w: nat, key: K, bytes: B)
    returns (states: seq<CS.Store<K, B>>, actions: seq<CS.Action<K, B>>, q: CS.Store<K, B>)
    requires CS.Inv(s) && At(s, w, key, bytes, CS.Opening, s.asked) && Free(s, key, bytes)
    ensures Reaches(s, states, actions, q) && At(q, w, key, bytes, CS.Synced(None), s.asked)
  {
    states, actions, q := [s], [], s;
    OneMore(s, states, actions, q, CS.Look(w));
    var r := CS.Do(q, CS.Look(w));
    states, actions, q := states + [r], actions + [CS.Look(w)], r;
    hide Reaches, CS.Inv;
    if CS.Published(key) !in D.Current(s.disk) {
      states, actions, q := CanStage(s, states, actions, q, w, key, bytes);
    }
    OneMore(s, states, actions, q, CS.Sync(w));
    r := CS.Do(q, CS.Sync(w));
    states, actions, q := states + [r], actions + [CS.Sync(w)], r;
  }

  lemma CanStage<K(!new), B(!new)>(
    s: CS.Store<K, B>, before: seq<CS.Store<K, B>>, did: seq<CS.Action<K, B>>, p: CS.Store<K, B>,
    w: nat, key: K, bytes: B)
    returns (states: seq<CS.Store<K, B>>, actions: seq<CS.Action<K, B>>, q: CS.Store<K, B>)
    requires Reaches(s, before, did, p) && At(p, w, key, bytes, CS.Absent, s.asked)
    requires CS.Published(key) !in D.Current(p.disk)
    ensures Reaches(s, states, actions, q) && At(q, w, key, bytes, CS.Linked, s.asked)
  {
    hide Reaches;
    var tmp := FreshTmp(D.Current(p.disk));
    var inode := |p.disk.content|;
    D.ImagesAfterCreate(p.disk, CS.Staging(tmp), CS.Blank);
    OneMore(s, before, did, p, CS.Stage(w, tmp));
    var r1 := CS.Do(p, CS.Stage(w, tmp));
    OneMore(s, before + [r1], did + [CS.Stage(w, tmp)], r1, CS.Write(w));
    var r2 := CS.Do(r1, CS.Write(w));
    OneMore(s, before + [r1] + [r2], did + [CS.Stage(w, tmp)] + [CS.Write(w)], r2, CS.SyncStaged(w));
    var r3 := CS.Do(r2, CS.SyncStaged(w));
    assert CS.Published(key) !in D.Current(r3.disk);
    states, actions := before + [r1] + [r2] + [r3], did + [CS.Stage(w, tmp)] + [CS.Write(w)] + [CS.SyncStaged(w)];
    OneMore(s, states, actions, r3, CS.Rename(w));
    q := CS.Do(r3, CS.Rename(w));
    states, actions := states + [q], actions + [CS.Rename(w)];
  }

  lemma FreshTmp<K(!new)>(entries: D.Entries<CS.Name<K>>) returns (tmp: nat)
    ensures CS.Staging(tmp) !in entries
  {
    var ids := set n | n in entries.Keys && n.Staging? :: n.id;
    tmp := D.Above(ids);
    forall n | n in entries.Keys && n.Staging? ensures n.id in ids && n.id != tmp {}
  }

  // ---------------------------------------------------------------- an attach that returns

  /** A run of the attaches that starts none, survives no machine crash and ends in `q`. */
  ghost predicate Goes(s: H.System, states: seq<H.System>, actions: seq<H.Action>, q: H.System) {
    && H.Run(states, actions) && states[0] == s && states[|states| - 1] == q
    && forall a <- actions :: !a.Start? && !a.MachineCrash?
  }

  lemma GoesOn(s: H.System, states: seq<H.System>, actions: seq<H.Action>, q: H.System, a: H.Action)
    requires Goes(s, states, actions, q) && H.May(q, a) && !a.Start? && !a.MachineCrash?
    ensures Goes(s, states + [H.Do(q, a)], actions + [a], H.Do(q, a)) && H.Inv(H.Do(q, a))
  {
    hide H.Inv, H.May, H.Do;
    H.RunKeeps(states, actions, |states| - 1);
    H.StepKeeps(q, a);
  }

  /** What the blob store does is a run of the attaches. */
  lemma {:induction false} BlobsGo(
    s: H.System, before: seq<H.System>, did: seq<H.Action>, p: H.System,
    states: seq<CS.Store<ContentIdentity, H.Bytes>>, actions: seq<CS.Action<ContentIdentity, H.Bytes>>, q: H.BlobStore)
    returns (more: seq<H.System>, done: seq<H.Action>)
    requires Goes(s, before, did, p) && Reaches(p.blobs, states, actions, q)
    ensures Goes(s, more, done, p.(blobs := q))
    decreases |actions|
  {
    hide Goes, CS.Inv, CS.Do;
    if actions == [] {
      more, done := before, did;
      assert p.(blobs := q) == p;
    } else {
      var k := |actions| - 1;
      var a := actions[k];
      ReachesFront(p.blobs, states, actions, q);
      more, done := BlobsGo(s, before, did, p, states[..k + 1], actions[..k], states[k]);
      var r := p.(blobs := states[k]);
      hide Reaches, CS.May;
      GoesOn(s, more, done, r, H.OthersBlobs(a));
      assert H.Do(r, H.OthersBlobs(a)) == p.(blobs := q);
      more, done := more + [p.(blobs := q)], done + [H.OthersBlobs(a)];
    }
  }

  lemma ReachesFront<K(!new), B(!new)>(
    s: CS.Store<K, B>, states: seq<CS.Store<K, B>>, actions: seq<CS.Action<K, B>>, q: CS.Store<K, B>)
    requires Reaches(s, states, actions, q) && actions != []
    ensures var k := |actions| - 1;
            && |states| == k + 2 && Reaches(s, states[..k + 1], actions[..k], states[k])
            && CS.May(states[k], actions[k]) && q == CS.Do(states[k], actions[k])
            && !actions[k].Call? && !actions[k].MachineCrash?
  {
    hide CS.Inv, CS.May, CS.Do;
  }

  lemma {:induction false} CatalogGoes(
    s: H.System, before: seq<H.System>, did: seq<H.Action>, p: H.System,
    states: seq<CS.Store<Identity, EntryBody>>, actions: seq<CS.Action<Identity, EntryBody>>, q: H.Catalog)
    returns (more: seq<H.System>, done: seq<H.Action>)
    requires Goes(s, before, did, p) && Reaches(p.catalog, states, actions, q)
    ensures Goes(s, more, done, p.(catalog := q))
    decreases |actions|
  {
    hide Goes, CS.Inv, CS.Do;
    if actions == [] {
      more, done := before, did;
      assert p.(catalog := q) == p;
    } else {
      var k := |actions| - 1;
      var a := actions[k];
      ReachesFront(p.catalog, states, actions, q);
      more, done := CatalogGoes(s, before, did, p, states[..k + 1], actions[..k], states[k]);
      var r := p.(catalog := states[k]);
      hide Reaches, CS.May;
      GoesOn(s, more, done, r, H.OthersCatalog(a));
      assert H.Do(r, H.OthersCatalog(a)) == p.(catalog := q);
      more, done := more + [p.(catalog := q)], done + [H.OthersCatalog(a)];
    }
  }

  /** Blobs are filed under the digest of their bytes, by everyone. */
  ghost predicate Addressed(s: H.System) {
    forall r <- s.blobs.asked :: r.0 == Sha256(r.1)
  }

  /** Thread `t` attaches `src` and has measured `i` blobs; the rest is as in `s`. */
  ghost predicate Attaching(q: H.System, t: nat, src: H.Source, i: nat, s: H.System) {
    && Addressed(q) && t in q.threads && q.threads[t].src == src && |q.threads[t].blobs| == i
    && !q.threads[t].persisted
    && q.started == s.started && q.yielded == s.yielded && q.foreign == s.foreign
  }

  lemma FreshWriter<K, B>(writers: map<nat, CS.Writer<K, B>>) returns (w: nat)
    ensures w !in writers
  {
    w := D.Above(writers.Keys);
  }

  lemma BlobIsFree(s: H.System, bytes: H.Bytes)
    requires CS.Inv(s.blobs) && Addressed(s)
    ensures Free(s.blobs, Sha256(bytes), bytes)
  {
    var d, key := s.blobs.disk, Sha256(bytes);
    if CS.Published(key) in D.Current(d) {
      var inode := D.Current(d)[CS.Published(key)];
      assert CS.Genuine(d, s.blobs.asked, key, inode);
      assert (key, d.content[inode].bytes) in s.blobs.asked;
      assert CS.At(d, D.Current(d), key, inode, bytes);
    }
  }

  lemma EntryIsFree(s: H.System, e: EntryBody)
    requires H.Inv(s)
    ensures CS.Inv(s.catalog) && Free(s.catalog, OfEntry(e), e)
  {
    hide H.ThreadOk, H.YieldedOk, H.EntryOk;
    var d, key := s.catalog.disk, OfEntry(e);
    if CS.Published(key) in D.Current(d) {
      var inode := D.Current(d)[CS.Published(key)];
      assert CS.Genuine(d, s.catalog.asked, key, inode);
      var r := (key, d.content[inode].bytes);
      assert r in s.catalog.asked;
      assert CS.At(d, D.Current(d), key, inode, e);
    }
  }

  /** The next blob is persisted and measured. */
  lemma OneBlob(s: H.System, before: seq<H.System>, did: seq<H.Action>, p: H.System, t: nat, src: H.Source, i: nat)
    returns (states: seq<H.System>, actions: seq<H.Action>, q: H.System)
    requires Goes(s, before, did, p) && Attaching(p, t, src, i, s) && i < 3
    ensures Goes(s, states, actions, q) && Attaching(q, t, src, i + 1, s)
  {
    hide Goes, H.Inv, CS.Inv, Reaches, Free;
    var w := FreshWriter(p.blobs.writers);
    var bytes := H.Next(p.threads[t]);
    GoesOn(s, before, did, p, H.CallBlob(t, w));
    var r := H.Do(p, H.CallBlob(t, w));
    states, actions := before + [r], did + [H.CallBlob(t, w)];
    BlobsInv(r);
    BlobIsFree(r, bytes);
    var inner, work, blobs := CanFinish(r.blobs, w, Sha256(bytes), bytes);
    states, actions := BlobsGo(s, states, actions, r, inner, work, blobs);
    r := r.(blobs := blobs);
    GoesOn(s, states, actions, r, H.BlobReturns(t, w));
    var u := H.Do(r, H.BlobReturns(t, w));
    states, actions := states + [u], actions + [H.BlobReturns(t, w)];
    PersistedIsThere(u, t);
    GoesOn(s, states, actions, u, H.Measure(t));
    q := H.Do(u, H.Measure(t));
    states, actions := states + [q], actions + [H.Measure(t)];
  }

  lemma BlobsInv(s: H.System)
    requires H.Inv(s)
    ensures CS.Inv(s.blobs)
  {
    hide H.ThreadOk, H.YieldedOk, H.EntryOk, CS.Inv;
  }

  lemma PersistedIsThere(s: H.System, t: nat)
    requires H.Inv(s) && H.Collects(s, t) && s.threads[t].persisted
    ensures CS.Published(Sha256(H.Next(s.threads[t]))) in D.Current(s.blobs.disk)
  {
    hide H.YieldedOk, H.CatalogOk, H.SettledBlob;
    assert H.ThreadOk(s.blobs, s.started, s.threads[t]);
    var r := (Sha256(H.Next(s.threads[t])), H.Next(s.threads[t]));
    assert r in s.blobs.acked;
    assert CS.Present(s.blobs.disk, D.Image(s.blobs.disk, 0), r.0, r.1);
    assert CS.Keeps(D.Image(s.blobs.disk, 0), D.Current(s.blobs.disk));
  }

  /** The entry is persisted and its attachment returned. */
  lemma TheEntry(s: H.System, before: seq<H.System>, did: seq<H.Action>, p: H.System, t: nat, src: H.Source)
    returns (states: seq<H.System>, actions: seq<H.Action>, q: H.System, y: Attachment)
    requires Goes(s, before, did, p) && Attaching(p, t, src, 3, s)
    ensures Goes(s, states, actions, q) && Addressed(q)
    ensures q.started == s.started && q.foreign == s.foreign && q.yielded == s.yielded + {(src, y)}
  {
    hide Goes, H.Inv, CS.Inv, Reaches, Free, H.AttachmentOf, H.EntryOf;
    var w := FreshWriter(p.catalog.writers);
    var e := H.Finished(p.threads[t]);
    y := H.AttachmentOf(e);
    GoesOn(s, before, did, p, H.CallEntry(t, w));
    var r := H.Do(p, H.CallEntry(t, w));
    states, actions := before + [r], did + [H.CallEntry(t, w)];
    EntryIsFree(r, e);
    var inner, work, catalog := CanFinish(r.catalog, w, OfEntry(e), e);
    states, actions := CatalogGoes(s, states, actions, r, inner, work, catalog);
    r := r.(catalog := catalog);
    GoesOn(s, states, actions, r, H.EntryReturns(t, w));
    q := H.Do(r, H.EntryReturns(t, w));
    states, actions := states + [q], actions + [H.EntryReturns(t, w)];
  }

  /** An attach that was started can always complete. */
  lemma AttachCompletes(s: H.System, t: nat, src: H.Source)
    returns (states: seq<H.System>, actions: seq<H.Action>, q: H.System, y: Attachment)
    requires H.Inv(s) && Addressed(s) && t in s.threads && s.threads[t] == H.Thread(src, [], false)
    ensures Goes(s, states, actions, q) && Addressed(q)
    ensures q.started == s.started && q.foreign == s.foreign && q.yielded == s.yielded + {(src, y)}
  {
    states, actions, q := [s], [], s;
    assert Goes(s, states, actions, q);
    hide Goes, H.Inv;
    states, actions, q := OneBlob(s, states, actions, q, t, src, 0);
    states, actions, q := OneBlob(s, states, actions, q, t, src, 1);
    states, actions, q := OneBlob(s, states, actions, q, t, src, 2);
    states, actions, q, y := TheEntry(s, states, actions, q, t, src);
  }
}
