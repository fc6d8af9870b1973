/**
 Sign once: the issuer's durable calls. Each call runs under an exclusive lock on the issuance
 directory, so calls are serialized; a process may die at any file system call and the lock goes with it.
 */
module Issuance {
  import opened Wrappers
  import opened Attestation
  import D = Durability
  import P = ProtectedDirectory

  /** The three kinds of request that are signed at most once. */
  datatype SigningRequest =
    | Attest(request: Request)
    | Finalize(finalizationIdentity: string, finalization: string, fits: bool)
    | Archive(archiveIdentity: string, archive: string, fits: bool)

  datatype SigningResponse =
    | Attested(response: Response)
    | SignedAt(request: SigningRequest, key: string, issuedAt: int)

  /** The name of the state file: the kind of the request and its identity. */
  datatype Key = AttestKey(identity: Identity) | FinalizeKey(text: string) | ArchiveKey(text: string)

  function KeyOf(r: SigningRequest): Key {
    match r
    case Attest(request) => AttestKey(request.identity)
    case Finalize(identity, _, _) => FinalizeKey(identity)
    case Archive(identity, _, _) => ArchiveKey(identity)
  }

  /** What would be signed now, `None` for a refusal. */
  function Produce(binding: Binding, key: string, r: SigningRequest, clock: int, wellFormed: bool)
    : Option<SigningResponse>
  {
    match r
    case Attest(request) =>
      var issued := Issue(binding, key, request, clock, wellFormed);
      if issued.Ok? then Some(Attested(issued.value)) else None
    case _ =>
      if !r.fits || !wellFormed || binding.keyNotBefore.None? || binding.keyNotAfter.None? then None
      else
        var now := ToSecond(clock);
        if now < binding.keyNotBefore.value || now >= binding.keyNotAfter.value || Format(now).None? then None
        else Some(SignedAt(r, key, now))
  }

  /**
   When exactly a finalization or an archive is signed, and what: it fits, the key is valid in the second of
   the clock, and the response carries that second and this key.
   */
  lemma SignsExactly(
    binding: Binding, key: string, r: SigningRequest, clock: int, wellFormed: bool, response: SigningResponse)
    requires !r.Attest?
    ensures Produce(binding, key, r, clock, wellFormed) == Some(response) <==>
              && r.fits && wellFormed
              && exists second ::
                   && response == SignedAt(r, key, second)
                   && second % SECOND == 0 && second <= clock < second + SECOND && second >= FIRST_WRITABLE
                   && binding.keyNotBefore.Some? && binding.keyNotBefore.value <= second
                   && binding.keyNotAfter.Some? && second < binding.keyNotAfter.value
  {
    TruncationIsSmall(clock);
    if Produce(binding, key, r, clock, wellFormed) == Some(response) {
      assert response == SignedAt(r, key, response.issuedAt);
    }
    forall second | second % SECOND == 0 && second <= clock < second + SECOND ensures second == ToSecond(clock) {
    }
  }

  /** An attestation is what `issue` gives. */
  lemma AttestsExactly(
    binding: Binding, key: string, request: Request, clock: int, wellFormed: bool, response: SigningResponse)
    ensures Produce(binding, key, Attest(request), clock, wellFormed) == Some(response) <==>
              response.Attested? && Issue(binding, key, request, clock, wellFormed) == Ok(response.response)
  {
  }

  datatype Persisted = Persisted(request: SigningRequest, response: SigningResponse)

  /** A stored attestation is only good until it expires; the other responses do not expire. */
  predicate Current(p: Persisted, clock: int) {
    p.response.Attested? ==>
      var expires := p.response.response.body.attestation.payload.expiresAt;
      expires.Some? && expires.value > clock
  }

  predicate Reusable(p: Persisted, r: SigningRequest, clock: int) {
    p.request == r && Current(p, clock)
  }

  datatype Name = StateFile(key: Key) | TemporaryFile(tmpKey: Key, pid: nat)

  datatype File = Partial | Complete(stored: Persisted)

  type IssuanceDisk = D.Disk<Name, File>
  type Directory = P.Directory<Name, File>

  datatype Failure = StateUnavailable | NotIssued | PeerChanged

  datatype Outcome = Returned(response: SigningResponse) | Failed(failure: Failure)

  function Moved(d: IssuanceDisk, key: Key, pid: nat, p: Persisted): IssuanceDisk {
    D.Issue(Written(d, key, pid, p), D.Move(TemporaryFile(key, pid), StateFile(key)))
  }

  function DraftOf(d: IssuanceDisk, key: Key, pid: nat, p: Persisted): IssuanceDisk {
    D.Write(D.Create(d, TemporaryFile(key, pid), Partial), |d.content|, Complete(p))
  }

  function Written(d: IssuanceDisk, key: Key, pid: nat, p: Persisted): IssuanceDisk {
    D.SyncFile(DraftOf(d, key, pid, p), |d.content|)
  }

  /** Where a call may stop, by an error or by the death of its process. */
  predicate PartlyStored(d: IssuanceDisk, key: Key, pid: nat, p: Persisted, now: IssuanceDisk) {
    || now == d || now == D.Create(d, TemporaryFile(key, pid), Partial) || now == DraftOf(d, key, pid, p)
    || now == Written(d, key, pid, p) || now == Moved(d, key, pid, p)
  }

  /** The state file of a key holds this, as every process sees it. */
  ghost predicate Stored(d: IssuanceDisk, key: Key, p: Persisted) {
    && D.Valid(d) && StateFile(key) in D.Current(d)
    && d.content[D.Current(d)[StateFile(key)]] == Complete(p)
  }

  ghost predicate Absent(d: IssuanceDisk, key: Key) { StateFile(key) !in D.Current(d) }

  /**
   Whatever survives a crash: state files are whole, synced, belong to their own request, and are never
   taken away.
   */
  ghost predicate Sane(d: IssuanceDisk) {
    D.Valid(d) && forall k: nat | k <= |d.log| :: SaneAt(d, k)
  }

  ghost predicate SaneAt(d: IssuanceDisk, k: nat)
    requires D.Valid(d) && k <= |d.log|
  {
    && (forall key | StateFile(key) in D.Image(d, k) ::
          && D.Image(d, k)[StateFile(key)] !in d.unsynced
          && var f := d.content[D.Image(d, k)[StateFile(key)]];
          f.Complete? && KeyOf(f.stored.request) == key)
    && (forall key | StateFile(key) in D.Image(d, 0) ::
          StateFile(key) in D.Image(d, k) && D.Image(d, k)[StateFile(key)] == D.Image(d, 0)[StateFile(key)])
  }

  /** `issue_durable` and its two siblings. */
  method IssueDurable(
    dir: Directory, binding: Binding, signingKey: string, r: SigningRequest, clock: int, pid: nat)
    returns (o: Outcome, ghost p: Persisted)
    requires Sane(dir.disk)
    modifies dir
    ensures o.Returned? ==> Stored(dir.disk, KeyOf(r), p) && p == Persisted(r, o.response)
    ensures !old(Absent(dir.disk, KeyOf(r))) ==> dir.disk == old(dir.disk)
    ensures forall q | Stored(old(dir.disk), KeyOf(r), q) ::
      && (o.Returned? ==> Reusable(q, r, clock) && o.response == q.response)
      && (!Reusable(q, r, clock) ==> o == Failed(StateUnavailable) || o == Failed(NotIssued))
      && (Reusable(q, r, clock) ==> o.Returned? || o == Failed(PeerChanged) || o == Failed(NotIssued))
    ensures o == Failed(NotIssued) ==>
      || (r.Attest? && !ValidRequest(binding, r.request))
      || (old(Absent(dir.disk, KeyOf(r))) && exists w :: Produce(binding, signingKey, r, clock, w) == None)
    ensures r.Attest? && !ValidRequest(binding, r.request) ==> o == Failed(NotIssued)
    ensures o == Failed(StateUnavailable) && old(Absent(dir.disk, KeyOf(r))) ==> old(dir.failures) < dir.failures
    ensures o.Returned? && old(Absent(dir.disk, KeyOf(r))) ==>
      && (exists w :: Produce(binding, signingKey, r, clock, w) == Some(o.response))
      && dir.disk == D.Flush(Moved(old(dir.disk), KeyOf(r), pid, p))
    ensures o.Failed? ==> dir.disk == old(dir.disk) || PartlyStored(old(dir.disk), KeyOf(r), pid, p, dir.disk)
    ensures TemporaryFile(KeyOf(r), pid) in old(D.Current(dir.disk)) && old(Absent(dir.disk, KeyOf(r))) ==>
      o.Failed? && dir.disk == old(dir.disk)
    ensures o.Failed? && dir.disk != old(dir.disk) ==>
      p.request == r && exists w :: Produce(binding, signingKey, r, clock, w) == Some(p.response)
  {
    p := *;
    var key := KeyOf(r);
    assert SaneAt(dir.disk, |dir.disk.log|);
    if r.Attest? && !ValidRequest(binding, r.request) { return Failed(NotIssued), p; }
    var peerUnchanged: bool := *;
    D.ImagesAfterFlush(dir.disk);
    if StateFile(key) in D.Current(dir.disk) {
      var file := dir.disk.content[D.Current(dir.disk)[StateFile(key)]];
      if file.Partial? || !Reusable(file.stored, r, clock) { return Failed(StateUnavailable), p; }
      if !peerUnchanged { return Failed(PeerChanged), p; }
      p := file.stored;
      return Returned(file.stored.response), p;
    }
    if !peerUnchanged { return Failed(PeerChanged), p; }
    var wellFormed: bool := *;
    var response := Produce(binding, signingKey, r, clock, wellFormed);
    if response.None? { return Failed(NotIssued), p; }
    var persisted := Persisted(r, response.value);
    p := persisted;
    ghost var d := dir.disk;
    var made := dir.CreateNew(TemporaryFile(key, pid), Partial);
    if !made.Made? { return Failed(StateUnavailable), p; }
    var written := dir.WriteAll(made.inode, Complete(persisted));
    if !written { return Failed(StateUnavailable), p; }
    var filed := dir.SyncAll(made.inode);
    if !filed { return Failed(StateUnavailable), p; }
    var renamed := dir.Rename(TemporaryFile(key, pid), StateFile(key));
    if !renamed { return Failed(StateUnavailable), p; }
    MovedIsStored(d, key, pid, persisted);
    var synced := dir.Sync();
    if !synced { return Failed(StateUnavailable), p; }
    D.ImagesAfterFlush(Moved(d, key, pid, persisted));
    return Returned(response.value), p;
  }

  /** Writing a new state file leaves all the others where they are. */
  lemma WrittenKeeps(d: IssuanceDisk, key: Key, pid: nat, p: Persisted)
    requires Sane(d)
    ensures Sane(D.Create(d, TemporaryFile(key, pid), Partial)) && Sane(DraftOf(d, key, pid, p))
            && Sane(Written(d, key, pid, p))
    ensures D.Current(Written(d, key, pid, p)) == D.Current(d)[TemporaryFile(key, pid) := |d.content|]
    ensures forall k, q | Stored(d, k, q) ::
              && Stored(D.Create(d, TemporaryFile(key, pid), Partial), k, q)
              && Stored(DraftOf(d, key, pid, p), k, q) && Stored(Written(d, key, pid, p), k, q)
  {
    var t := TemporaryFile(key, pid);
    var c, u, w := D.Create(d, t, Partial), DraftOf(d, key, pid, p), Written(d, key, pid, p);
    D.ImagesAfterCreate(d, t, Partial);
    D.ImagesAfterWrite(c, |d.content|, Complete(p));
    D.ImagesAfterSyncFile(u, |d.content|);
    assert D.Image(d, |d.log|) == D.Current(d);
    forall k: nat | k <= |c.log| ensures SaneAt(c, k) && SaneAt(u, k) && SaneAt(w, k) {
      assert SaneAt(d, if k <= |d.log| then k else |d.log|);
    }
  }

  lemma MovedIsStored(d: IssuanceDisk, key: Key, pid: nat, p: Persisted)
    requires Sane(d) && Absent(d, key) && KeyOf(p.request) == key
    ensures Stored(Moved(d, key, pid, p), key, p) && Sane(Moved(d, key, pid, p))
    ensures forall k, q | Stored(d, k, q) :: Stored(Moved(d, key, pid, p), k, q)
  {
    WrittenKeeps(d, key, pid, p);
    var op := D.Move(TemporaryFile(key, pid), StateFile(key));
    var w, m := Written(d, key, pid, p), Moved(d, key, pid, p);
    D.ImagesAfterIssue(w, op);
    P.IssueKeepsValid(w, op);
    assert D.Image(w, |w.log|) == D.Current(w);
    forall k: nat | k <= |m.log| ensures SaneAt(m, k) {
      assert SaneAt(w, if k <= |w.log| then k else |w.log|);
    }
  }

  // ---------------------------------------------------------------- runs

  /** `returned` are all responses that any call ever returned, each under the key of its request. */
  datatype System = System(disk: IssuanceDisk, returned: set<(Key, SigningResponse)>)

  datatype Issuer = Issuer(binding: Binding, signingKey: string)

  datatype Action =
    | Reuses(r: SigningRequest, clock: int, stored: Persisted)
    | Issues(r: SigningRequest, clock: int, p: Persisted, pid: nat)
    | Stops(r: SigningRequest, clock: int, p: Persisted, pid: nat, left: IssuanceDisk)
    | Refuses
    | MachineCrash(kept: nat, torn: set<nat>)

  ghost predicate Produces(issuer: Issuer, r: SigningRequest, clock: int, p: Persisted) {
    p.request == r && exists w :: Produce(issuer.binding, issuer.signingKey, r, clock, w) == Some(p.response)
  }

  /**
   What a call may do, by the contract of `IssueDurable`; `Stops` also covers a process that dies on the
   way. A leftover temporary of the same process id stops a call at its first write.
   */
  ghost predicate May(s: System, issuer: Issuer, a: Action) {
    match a
    case Reuses(r, clock, stored) => Stored(s.disk, KeyOf(r), stored) && Reusable(stored, r, clock)
    case Issues(r, clock, p, pid) =>
      && Absent(s.disk, KeyOf(r)) && Produces(issuer, r, clock, p)
      && TemporaryFile(KeyOf(r), pid) !in D.Current(s.disk)
    case Stops(r, clock, p, pid, left) =>
      && Absent(s.disk, KeyOf(r)) && Produces(issuer, r, clock, p)
      && PartlyStored(s.disk, KeyOf(r), pid, p, left)
      && (TemporaryFile(KeyOf(r), pid) in D.Current(s.disk) ==> left == s.disk)
    case Refuses => true
    case MachineCrash(kept, torn) => kept <= |s.disk.log| && torn <= s.disk.unsynced
  }

  function Do(s: System, a: Action): System
    requires a.MachineCrash? ==> a.kept <= |s.disk.log|
  {
    match a
    case Reuses(r, _, stored) => s.(returned := s.returned + {(KeyOf(r), stored.response)})
    case Issues(r, _, p, pid) =>
      System(D.Flush(Moved(s.disk, KeyOf(r), pid, p)), s.returned + {(KeyOf(r), p.response)})
    case Stops(_, _, _, _, left) => s.(disk := left)
    case Refuses => s
    case MachineCrash(kept, torn) => s.(disk := D.Crash(s.disk, kept, torn, Partial))
  }

  ghost predicate Held(d: IssuanceDisk, key: Key, response: SigningResponse) {
    exists p :: Stored(d, key, p) && p.response == response
  }

  /** Held where no crash can touch it. */
  ghost predicate HeldForGood(d: IssuanceDisk, key: Key, response: SigningResponse) {
    D.Valid(d) && Held(D.Survive(d, 0), key, response)
  }

  ghost predicate Inv(s: System) {
    && Sane(s.disk)
    && forall e | e in s.returned :: Held(s.disk, e.0, e.1)
  }

  lemma EmptyIsInv()
    ensures Inv(System(D.Empty(), {}))
  {
  }

  /** The crash loses no response that a call returned: its state file is in the part that survives. */
  ghost predicate Harmless(s: System, kept: nat)
    requires kept <= |s.disk.log|
  {
    forall e | e in s.returned :: Held(D.Survive(s.disk, kept), e.0, e.1)
  }

  lemma HeldStays(d: IssuanceDisk, e: IssuanceDisk, key: Key, response: SigningResponse)
    requires forall k, q | Stored(d, k, q) :: Stored(e, k, q)
    ensures Held(d, key, response) ==> Held(e, key, response)
  {
    if p :| Stored(d, key, p) && p.response == response {
      assert Stored(e, key, p);
    }
  }

  lemma FlushKeeps(d: IssuanceDisk)
    requires Sane(d)
    ensures Sane(D.Flush(d)) && forall k, q | Stored(d, k, q) :: Stored(D.Flush(d), k, q)
  {
    D.ImagesAfterFlush(d);
    assert SaneAt(d, |d.log|);
  }

  lemma SurviveIsSane(d: IssuanceDisk, kept: nat)
    requires Sane(d) && kept <= |d.log|
    ensures Sane(D.Survive(d, kept))
    ensures forall k, q | Stored(D.Survive(d, 0), k, q) :: Stored(D.Survive(d, kept), k, q)
  {
    D.ImagesAfterSurvive(d, kept);
    D.ImagesAfterSurvive(d, 0);
    assert SaneAt(d, kept);
  }

  /** A state file was synced before it got its name, so no crash tears one: which files it tears does not matter. */
  lemma TearingIsHarmless(d: IssuanceDisk, kept: nat, torn: set<nat>)
    requires Sane(d) && kept <= |d.log| && torn <= d.unsynced
    ensures var e := D.Crash(d, kept, torn, Partial);
            && Sane(e) && D.Current(e) == D.Image(d, kept)
            && (forall k, q | Stored(D.Survive(d, kept), k, q) :: Stored(e, k, q) && Stored(D.Survive(e, 0), k, q))
  {
    D.ImagesAfterCrash(d, kept, torn, Partial);
    D.ImagesAfterSurvive(d, kept);
    var e := D.Crash(d, kept, torn, Partial);
    D.ImagesAfterSurvive(e, 0);
    assert SaneAt(d, kept);
    forall k, q | Stored(D.Survive(d, kept), k, q) ensures Stored(e, k, q) && Stored(D.Survive(e, 0), k, q) {
      assert StateFile(k) in D.Image(d, kept);
    }
  }

  lemma StoredStays(s: System, issuer: Issuer, a: Action)
    requires Sane(s.disk) && May(s, issuer, a) && !a.MachineCrash?
    ensures Sane(Do(s, a).disk)
    ensures forall k, q | Stored(s.disk, k, q) :: Stored(Do(s, a).disk, k, q)
    ensures a.Issues? ==> Stored(Do(s, a).disk, KeyOf(a.r), a.p)
  {
    if a.Issues? || a.Stops? {
      WrittenKeeps(s.disk, KeyOf(a.r), a.pid, a.p);
      MovedIsStored(s.disk, KeyOf(a.r), a.pid, a.p);
      FlushKeeps(Moved(s.disk, KeyOf(a.r), a.pid, a.p));
    }
  }

  lemma StepKeeps(s: System, issuer: Issuer, a: Action)
    requires Inv(s) && May(s, issuer, a) && (a.MachineCrash? ==> Harmless(s, a.kept))
    ensures Inv(Do(s, a))
  {
    if a.MachineCrash? {
      TearingIsHarmless(s.disk, a.kept, a.torn);
      var t := Do(s, a);
      forall e | e in t.returned ensures Held(t.disk, e.0, e.1) {
        HeldStays(D.Survive(s.disk, a.kept), t.disk, e.0, e.1);
      }
    } else {
      StoredStays(s, issuer, a);
      hide Sane, Stored;
      var t := Do(s, a);
      forall e | e in t.returned ensures Held(t.disk, e.0, e.1) {
        HeldStays(s.disk, t.disk, e.0, e.1);
      }
    }
  }

  /** Any calls and process crashes, and machine crashes that are harmless. */
  ghost predicate Run(states: seq<System>, issuer: Issuer, actions: seq<Action>) {
    && Follows(states, issuer, actions)
    && forall i :: 0 <= i < |actions| && actions[i].MachineCrash? ==> Harmless(states[i], actions[i].kept)
  }

  ghost predicate Follows(states: seq<System>, issuer: Issuer, actions: seq<Action>) {
    && |states| == |actions| + 1
    && Inv(states[0])
    && forall i :: 0 <= i < |actions| ==>
         May(states[i], issuer, actions[i]) && states[i + 1] == Do(states[i], actions[i])
  }

  lemma {:induction false} RunKeeps(states: seq<System>, issuer: Issuer, actions: seq<Action>, i: nat)
    requires Run(states, issuer, actions) && i < |states|
    ensures Inv(states[i])
  {
    hide Inv, Produces, Stored, Harmless;
    if i > 0 {
      RunKeeps(states, issuer, actions, i - 1);
      StepKeeps(states[i - 1], issuer, actions[i - 1]);
    }
  }

  lemma {:induction false} ReturnedStays(states: seq<System>, issuer: Issuer, actions: seq<Action>, i: nat, j: nat)
    requires Follows(states, issuer, actions) && i <= j < |states|
    ensures states[i].returned <= states[j].returned
    decreases j
  {
    hide Inv, Produces, Stored;
    if i < j {
      ReturnedStays(states, issuer, actions, i, j - 1);
      assert states[j] == Do(states[j - 1], actions[j - 1]);
    }
  }

  /** All responses ever returned for one request identity are the same. */
  lemma SignOnce(
    states: seq<System>, issuer: Issuer, actions: seq<Action>, i: nat, j: nat,
    key: Key, a: SigningResponse, b: SigningResponse)
    requires Run(states, issuer, actions) && i <= j < |states|
    requires (key, a) in states[i].returned && (key, b) in states[j].returned
    ensures a == b
  {
    RunKeeps(states, issuer, actions, j);
    ReturnedStays(states, issuer, actions, i, j);
    var x, y := (key, a), (key, b);
    assert x in states[j].returned && y in states[j].returned;
    assert Held(states[j].disk, x.0, x.1) && Held(states[j].disk, y.0, y.1);
  }

  /** Stored where no crash can touch it. */
  ghost predicate StoredForGood(d: IssuanceDisk, key: Key, p: Persisted) {
    D.Valid(d) && Stored(D.Survive(d, 0), key, p)
  }

  lemma {:induction false} SaneForever(states: seq<System>, issuer: Issuer, actions: seq<Action>, i: nat)
    requires Follows(states, issuer, actions) && i < |states|
    ensures Sane(states[i].disk)
  {
    hide Stored, Sane, Produces;
    if i == 0 {
      InvIsSane(states[0]);
    } else {
      SaneForever(states, issuer, actions, i - 1);
      if actions[i - 1].MachineCrash? {
        TearingIsHarmless(states[i - 1].disk, actions[i - 1].kept, actions[i - 1].torn);
      } else {
        StoredStays(states[i - 1], issuer, actions[i - 1]);
      }
    }
  }

  lemma InvIsSane(s: System)
    requires Inv(s)
    ensures Sane(s.disk)
  {
  }

  lemma {:induction false} StoredForever(
    states: seq<System>, issuer: Issuer, actions: seq<Action>, i: nat, j: nat, key: Key, p: Persisted)
    requires Follows(states, issuer, actions) && i <= j < |states|
    requires forall k | i <= k < j :: !actions[k].MachineCrash?
    requires Stored(states[i].disk, key, p)
    ensures Stored(states[j].disk, key, p)
    decreases j
  {
    hide Inv, Stored, Sane, Produces;
    if i < j {
      StoredForever(states, issuer, actions, i, j - 1, key, p);
      SaneForever(states, issuer, actions, j - 1);
      StoredStays(states[j - 1], issuer, actions[j - 1]);
    }
  }

  lemma {:induction false} DurableForever(
    states: seq<System>, issuer: Issuer, actions: seq<Action>, i: nat, j: nat, key: Key, p: Persisted)
    requires Follows(states, issuer, actions) && i <= j < |states| && StoredForGood(states[i].disk, key, p)
    ensures StoredForGood(states[j].disk, key, p) && Stored(states[j].disk, key, p)
    decreases j
  {
    hide Inv, Stored, Sane, Produces, StoredForGood;
    if i < j {
      DurableForever(states, issuer, actions, i, j - 1, key, p);
      SaneForever(states, issuer, actions, j - 1);
      DurableStays(states[j - 1], issuer, actions[j - 1], key, p);
    }
    SaneForever(states, issuer, actions, j);
    DurableIsStored(states[j].disk, key, p);
  }

  lemma DurableIsStored(d: IssuanceDisk, key: Key, p: Persisted)
    requires Sane(d) && StoredForGood(d, key, p)
    ensures Stored(d, key, p)
  {
    D.ImagesAfterSurvive(d, 0);
    assert SaneAt(d, |d.log|);
  }

  lemma DurableStays(s: System, issuer: Issuer, a: Action, key: Key, p: Persisted)
    requires Sane(s.disk) && May(s, issuer, a) && StoredForGood(s.disk, key, p)
    ensures StoredForGood(Do(s, a).disk, key, p)
  {
    if a.MachineCrash? {
      SurviveIsSane(s.disk, a.kept);
      TearingIsHarmless(s.disk, a.kept, a.torn);
    } else if a.Stops? {
      StoredStays(s, issuer, a);
      DurableUnderStops(s.disk, KeyOf(a.r), a.pid, a.p, a.left, key, p);
    } else if a.Issues? {
      DurableIsStored(s.disk, key, p);
      StoredStays(s, issuer, a);
      FlushedForGood(Moved(s.disk, KeyOf(a.r), a.pid, a.p), key, p);
    }
  }

  /**
   Once a stored attestation has expired its request is refused from then on, and never signed again: a
   later call can only reuse it, and only at a clock before it expires. This holds until a machine crash,
   and through every machine crash once the file is durable.
   */
  lemma ExpiredIsRefusedForever(
    states: seq<System>, issuer: Issuer, actions: seq<Action>, i: nat, j: nat, p: Persisted)
    requires Follows(states, issuer, actions) && i <= j < |actions|
    requires Stored(states[i].disk, KeyOf(p.request), p) && p.response.Attested?
    requires (forall k | i <= k < j :: !actions[k].MachineCrash?) || StoredForGood(states[i].disk, KeyOf(p.request), p)
    ensures actions[j].Issues? || actions[j].Stops? ==> KeyOf(actions[j].r) != KeyOf(p.request)
    ensures actions[j].Reuses? && KeyOf(actions[j].r) == KeyOf(p.request) ==>
      && actions[j].stored == p
      && var expires := p.response.response.body.attestation.payload.expiresAt;
         expires.Some? && actions[j].clock < expires.value
  {
    hide Inv, Sane, Produces, StoredForGood;
    if StoredForGood(states[i].disk, KeyOf(p.request), p) {
      DurableForever(states, issuer, actions, i, j, KeyOf(p.request), p);
    } else {
      StoredForever(states, issuer, actions, i, j, KeyOf(p.request), p);
    }
    assert May(states[j], issuer, actions[j]);
  }

  // ---------------------------------------------------------------- what is returned was signed

  /** Signed by this issuer at some time. */
  ghost predicate Made(issuer: Issuer, p: Persisted) {
    exists clock :: Produces(issuer, p.request, clock, p)
  }

  ghost predicate AllMade(issuer: Issuer, d: IssuanceDisk) {
    forall i | 0 <= i < |d.content| && d.content[i].Complete? :: Made(issuer, d.content[i].stored)
  }

  lemma MadeStays(s: System, issuer: Issuer, a: Action)
    requires May(s, issuer, a) && AllMade(issuer, s.disk)
    ensures AllMade(issuer, Do(s, a).disk)
  {
    hide Produce, Stored, Reusable;
    if a.Issues? || a.Stops? {
      assert Produces(issuer, a.p.request, a.clock, a.p);
      assert Made(issuer, a.p);
    }
  }

  /** Every response of a run was signed for a request of its key. */
  ghost predicate SignedFor(issuer: Issuer, key: Key, response: SigningResponse) {
    exists r, clock, w :: KeyOf(r) == key && Produce(issuer.binding, issuer.signingKey, r, clock, w) == Some(response)
  }

  lemma OneReturned(s: System, issuer: Issuer, a: Action, e: (Key, SigningResponse))
    requires May(s, issuer, a) && AllMade(issuer, s.disk) && e in Do(s, a).returned && e !in s.returned
    ensures SignedFor(issuer, e.0, e.1)
  {
    hide Produce;
    var p := if a.Issues? then a.p else a.stored;
    if a.Reuses? {
      var i := D.Current(s.disk)[StateFile(KeyOf(a.r))];
      assert s.disk.content[i].Complete?;
    } else {
      assert Made(issuer, p);
    }
    var clock :| Produces(issuer, p.request, clock, p);
    var w :| Produce(issuer.binding, issuer.signingKey, p.request, clock, w) == Some(p.response);
    assert KeyOf(p.request) == e.0;
  }

  /** Over every run from an empty store, crashes included, whatever is returned was signed by this issuer. */
  lemma {:induction false} ReturnedWasSigned(
    states: seq<System>, issuer: Issuer, actions: seq<Action>, i: nat, key: Key, response: SigningResponse)
    requires Follows(states, issuer, actions) && i < |states| && (key, response) in states[i].returned
    requires states[0] == System(D.Empty(), {})
    ensures SignedFor(issuer, key, response)
  {
    hide Inv, May, Do, SignedFor;
    if (key, response) in states[i - 1].returned {
      ReturnedWasSigned(states, issuer, actions, i - 1, key, response);
    } else {
      MadeForever(states, issuer, actions, i - 1);
      OneReturned(states[i - 1], issuer, actions[i - 1], (key, response));
    }
  }

  lemma {:induction false} MadeForever(states: seq<System>, issuer: Issuer, actions: seq<Action>, i: nat)
    requires Follows(states, issuer, actions) && i < |states| && states[0] == System(D.Empty(), {})
    ensures AllMade(issuer, states[i].disk)
  {
    hide Inv, May, Do;
    if i > 0 {
      MadeForever(states, issuer, actions, i - 1);
      MadeStays(states[i - 1], issuer, actions[i - 1]);
    }
  }

  /**
   A finalization or an archive that was returned carries a second in which the key was valid, and its
   own request.
   */
  lemma ReturnedInTheKeyWindow(
    states: seq<System>, issuer: Issuer, actions: seq<Action>, i: nat, key: Key, response: SigningResponse)
    requires Follows(states, issuer, actions) && i < |states| && (key, response) in states[i].returned
    requires states[0] == System(D.Empty(), {}) && !key.AttestKey?
    ensures response.SignedAt? && response.key == issuer.signingKey
    ensures if key.FinalizeKey? then response.request.Finalize? else response.request.Archive?
    ensures key.FinalizeKey? ==> response.request == Finalize(key.text, response.request.finalization, true)
    ensures key.ArchiveKey? ==> response.request == Archive(key.text, response.request.archive, true)
    ensures response.issuedAt % SECOND == 0
    ensures issuer.binding.keyNotBefore.Some? && issuer.binding.keyNotBefore.value <= response.issuedAt
    ensures issuer.binding.keyNotAfter.Some? && response.issuedAt < issuer.binding.keyNotAfter.value
  {
    hide Follows, Produce;
    ReturnedWasSigned(states, issuer, actions, i, key, response);
    var r, clock, w :| KeyOf(r) == key && Produce(issuer.binding, issuer.signingKey, r, clock, w) == Some(response);
    SignsExactly(issuer.binding, issuer.signingKey, r, clock, w, response);
  }

  /** An attestation that was returned verifies at every instant of its window, and at no other. */
  lemma ReturnedVerifies(
    states: seq<System>, issuer: Issuer, actions: seq<Action>, i: nat, key: Key, response: SigningResponse)
    returns (request: Request, issued: int, expires: int)
    requires Follows(states, issuer, actions) && i < |states| && (key, response) in states[i].returned
    requires states[0] == System(D.Empty(), {}) && key.AttestKey? && issuer.signingKey == issuer.binding.publicKey
    ensures response.Attested? && key == AttestKey(request.identity) && issued < expires
    ensures forall at :: VerifyResponse(issuer.binding, request, response.response, at) <==> issued <= at < expires
  {
    hide Follows, Produce, Issue, VerifyResponse;
    ReturnedWasSigned(states, issuer, actions, i, key, response);
    var r, clock, w :| KeyOf(r) == key && Produce(issuer.binding, issuer.signingKey, r, clock, w) == Some(response);
    request := r.request;
    AttestsExactly(issuer.binding, issuer.signingKey, request, clock, w, response);
    IssuesExactly(issuer.binding, issuer.signingKey, request, clock, w, response.response);
    ProducerAndVerifierAgree(issuer.binding, request, clock, clock);
    issued := response.response.body.attestation.payload.issuedAt.value;
    expires := response.response.body.attestation.payload.expiresAt.value;
    forall at ensures VerifyResponse(issuer.binding, request, response.response, at) <==> issued <= at < expires {
      ProducerAndVerifierAgree(issuer.binding, request, clock, at);
    }
    IssuedWindow(issuer.binding, request, clock);
  }

  lemma IssuedWindow(binding: Binding, request: Request, clock: int)
    requires Issue(binding, binding.publicKey, request, clock, true).Ok?
    ensures var p := Issue(binding, binding.publicKey, request, clock, true).value.body.attestation.payload;
            p.issuedAt.Some? && p.expiresAt.Some? && p.issuedAt.value < p.expiresAt.value
  {
  }

  // ---------------------------------------------------------------- machine crashes

  /** The reuse path does not sync. It happens to be safe when the reused file itself is durable. */
  ghost predicate ReusesDurable(s: System, a: Action) {
    a.Reuses? ==> StoredForGood(s.disk, KeyOf(a.r), a.stored)
  }

  ghost predicate AllForGood(s: System) {
    forall e | e in s.returned :: HeldForGood(s.disk, e.0, e.1)
  }

  lemma DurableUnderStops(d: IssuanceDisk, key: Key, pid: nat, p: Persisted, left: IssuanceDisk, k: Key, q: Persisted)
    requires Sane(d) && Absent(d, key) && KeyOf(p.request) == key && PartlyStored(d, key, pid, p, left)
    requires Stored(D.Survive(d, 0), k, q)
    ensures Stored(D.Survive(left, 0), k, q)
  {
    WrittenKeeps(d, key, pid, p);
    MovedIsStored(d, key, pid, p);
    D.ImagesAfterSurvive(d, 0);
    D.ImagesAfterSurvive(left, 0);
    D.ImagesAfterCreate(d, TemporaryFile(key, pid), Partial);
    D.ImagesAfterWrite(D.Create(d, TemporaryFile(key, pid), Partial), |d.content|, Complete(p));
    D.ImagesAfterSyncFile(DraftOf(d, key, pid, p), |d.content|);
  }

  lemma FlushedForGood(d: IssuanceDisk, key: Key, p: Persisted)
    requires Stored(D.Flush(d), key, p)
    ensures HeldForGood(D.Flush(d), key, p.response) && StoredForGood(D.Flush(d), key, p)
  {
    D.ImagesAfterFlush(d);
    D.ImagesAfterSurvive(D.Flush(d), 0);
    assert Stored(D.Survive(D.Flush(d), 0), key, p);
  }

  lemma ForGoodStays(s: System, issuer: Issuer, a: Action, key: Key, response: SigningResponse)
    requires Sane(s.disk) && May(s, issuer, a) && HeldForGood(s.disk, key, response)
    ensures HeldForGood(Do(s, a).disk, key, response)
  {
    var p :| Stored(D.Survive(s.disk, 0), key, p) && p.response == response;
    SurviveIsSane(s.disk, |s.disk.log|);
    if a.MachineCrash? {
      SurviveIsSane(s.disk, a.kept);
      TearingIsHarmless(s.disk, a.kept, a.torn);
      assert Stored(D.Survive(Do(s, a).disk, 0), key, p);
    } else if a.Stops? {
      StoredStays(s, issuer, a);
      DurableUnderStops(s.disk, KeyOf(a.r), a.pid, a.p, a.left, key, p);
    } else if a.Issues? {
      StoredStays(s, issuer, a);
      D.ImagesAfterSurvive(s.disk, |s.disk.log|);
      assert Stored(s.disk, key, p);
      FlushedForGood(Moved(s.disk, KeyOf(a.r), a.pid, a.p), key, p);
    }
  }

  lemma ForGoodIsHarmless(s: System, kept: nat)
    requires Sane(s.disk) && AllForGood(s) && kept <= |s.disk.log|
    ensures Harmless(s, kept)
  {
    SurviveIsSane(s.disk, kept);
    forall e | e in s.returned ensures Held(D.Survive(s.disk, kept), e.0, e.1) {
      assert HeldForGood(s.disk, e.0, e.1);
      HeldStays(D.Survive(s.disk, 0), D.Survive(s.disk, kept), e.0, e.1);
    }
  }

  lemma DurableReuseKeeps(s: System, issuer: Issuer, a: Action)
    requires Inv(s) && AllForGood(s) && May(s, issuer, a) && ReusesDurable(s, a)
    ensures Inv(Do(s, a)) && AllForGood(Do(s, a))
  {
    if a.MachineCrash? {
      ForGoodIsHarmless(s, a.kept);
    }
    StepKeeps(s, issuer, a);
    var t := Do(s, a);
    forall e | e in t.returned ensures HeldForGood(t.disk, e.0, e.1) {
      if e in s.returned {
        ForGoodStays(s, issuer, a, e.0, e.1);
      } else if a.Issues? {
        StoredStays(s, issuer, a);
        FlushedForGood(Moved(s.disk, KeyOf(a.r), a.pid, a.p), KeyOf(a.r), a.p);
      } else {
        assert Stored(D.Survive(s.disk, 0), KeyOf(a.r), a.stored);
      }
    }
  }

  /** When every reused file is durable, machine crashes at any time are harmless, and `SignOnce` holds of every run. */
  lemma {:induction false} DurableReuseIsEnough(states: seq<System>, issuer: Issuer, actions: seq<Action>, n: nat)
    requires Follows(states, issuer, actions) && AllForGood(states[0]) && n <= |actions|
    requires forall i | 0 <= i < |actions| :: ReusesDurable(states[i], actions[i])
    ensures Inv(states[n]) && AllForGood(states[n])
    ensures Run(states[..n + 1], issuer, actions[..n])
  {
    hide Inv, Produces, Stored, AllForGood, Harmless, ReusesDurable;
    if n > 0 {
      DurableReuseIsEnough(states, issuer, actions, n - 1);
      DurableReuseKeeps(states[n - 1], issuer, actions[n - 1]);
      if actions[n - 1].MachineCrash? {
        InvIsSane(states[n - 1]);
        ForGoodIsHarmless(states[n - 1], actions[n - 1].kept);
      }
    }
  }

  /**
   Without it, any request for which the clock makes a difference can be signed twice. A process dies
   between the rename and the directory sync, the next call reuses the stored response, the machine
   crashes before anything is synced, and a later call signs another.
   */
  lemma UnsyncedReuseSignsTwice(issuer: Issuer, r: SigningRequest, clock: int, later: int, p: Persisted, q: Persisted)
    returns (states: seq<System>, actions: seq<Action>)
    requires Produces(issuer, r, clock, p) && Reusable(p, r, clock) && Produces(issuer, r, later, q)
    ensures Follows(states, issuer, actions) && AllForGood(states[0]) && |actions| == 4
    ensures (KeyOf(r), p.response) in states[4].returned && (KeyOf(r), q.response) in states[4].returned
  {
    var empty: IssuanceDisk := D.Empty();
    var left := Moved(empty, KeyOf(r), 0, p);
    AfterTheCrash(KeyOf(r), p);
    hide Produces, Reusable, Stored, Sane, Moved, Absent, Inv, D.Current, D.Crash;
    actions := [Stops(r, clock, p, 0, left), Reuses(r, clock, p), MachineCrash(0, {}), Issues(r, later, q, 0)];
    var s0 := System(empty, {});
    var s1 := Do(s0, actions[0]);
    var s2 := Do(s1, actions[1]);
    var s3 := Do(s2, actions[2]);
    states := [s0, s1, s2, s3, Do(s3, actions[3])];
    FourSteps(states, issuer, actions);
  }

  lemma AfterTheCrash(key: Key, p: Persisted)
    requires KeyOf(p.request) == key
    ensures var empty: IssuanceDisk := D.Empty();
            var left := Moved(empty, key, 0, p);
            && Inv(System(empty, {})) && Absent(empty, key) && TemporaryFile(key, 0) !in D.Current(empty)
            && Stored(left, key, p)
            && var cut := D.Crash(left, 0, {}, Partial);
            Absent(cut, key) && TemporaryFile(key, 0) !in D.Current(cut)
  {
    var empty: IssuanceDisk := D.Empty();
    var left := Moved(empty, key, 0, p);
    assert Sane(empty) && Absent(empty, key);
    MovedIsStored(empty, key, 0, p);
    D.ImagesAfterCrash(left, 0, {}, Partial);
    assert D.Image(left, 0) == map[];
  }

  /** Every finalization signed in one second is signed differently in another. */
  lemma TheClockMatters(binding: Binding, signingKey: string, r: SigningRequest, clock: int, later: int)
    requires !r.Attest? && ToSecond(clock) != ToSecond(later)
    requires Produce(binding, signingKey, r, clock, true).Some? && Produce(binding, signingKey, r, later, true).Some?
    ensures Produce(binding, signingKey, r, clock, true) != Produce(binding, signingKey, r, later, true)
  {
  }

  lemma FourSteps(states: seq<System>, issuer: Issuer, actions: seq<Action>)
    requires |states| == 5 && |actions| == 4 && Inv(states[0])
    requires May(states[0], issuer, actions[0]) && states[1] == Do(states[0], actions[0])
    requires May(states[1], issuer, actions[1]) && states[2] == Do(states[1], actions[1])
    requires May(states[2], issuer, actions[2]) && states[3] == Do(states[2], actions[2])
    requires May(states[3], issuer, actions[3]) && states[4] == Do(states[3], actions[3])
    ensures Follows(states, issuer, actions)
  {
    hide Inv, Produces, Stored;
  }

  /**
   So it is from any state: a reuse of a file that is not durable can be followed by a second signature, as
   soon as the issuer produces anything for the request at a later clock.
   */
  lemma UndurableReuseSignsTwice(
    s: System, issuer: Issuer, r: SigningRequest, clock: int, stored: Persisted, later: int, q: Persisted)
    returns (states: seq<System>, actions: seq<Action>)
    requires Inv(s) && May(s, issuer, Reuses(r, clock, stored)) && !StoredForGood(s.disk, KeyOf(r), stored)
    requires Produces(issuer, r, later, q)
    ensures Follows(states, issuer, actions) && states[0] == s && |actions| == 3
    ensures (KeyOf(r), stored.response) in states[3].returned && (KeyOf(r), q.response) in states[3].returned
  {
    UndurableIsLost(s.disk, KeyOf(r), stored);
    var cut := D.Survive(s.disk, 0);
    var pid := FreshPid(D.Current(cut), KeyOf(r));
    hide Inv, Produces, Stored, Moved, StoredForGood, Reusable;
    actions := [Reuses(r, clock, stored), MachineCrash(0, {}), Issues(r, later, q, pid)];
    var s1 := Do(s, actions[0]);
    var s2 := Do(s1, actions[1]);
    states := [s, s1, s2, Do(s2, actions[2])];
  }

  lemma UndurableIsLost(d: IssuanceDisk, key: Key, p: Persisted)
    requires Sane(d) && Stored(d, key, p) && !StoredForGood(d, key, p)
    ensures Absent(D.Survive(d, 0), key)
  {
    D.ImagesAfterSurvive(d, 0);
    assert SaneAt(d, |d.log|);
  }

  lemma FreshPid(entries: D.Entries<Name>, key: Key) returns (pid: nat)
    ensures TemporaryFile(key, pid) !in entries
  {
    var pids := set n | n in entries.Keys && n.TemporaryFile? :: n.pid;
    pid := D.Above(pids);
    forall n | n in entries.Keys && n.TemporaryFile? ensures n.pid in pids && n.pid != pid {}
  }

  /** One finalization, signed in two different seconds: all of it happens. */
  lemma SignedTwice()
    returns (states: seq<System>, issuer: Issuer, actions: seq<Action>, key: Key, a: SigningResponse,
      b: SigningResponse)
    ensures Follows(states, issuer, actions) && AllForGood(states[0]) && |actions| == 4
    ensures (key, a) in states[4].returned && (key, b) in states[4].returned && a != b
  {
    var binding := Binding("", "", "", "", "", "", "", "", "", Some(0), Some(10 * SECOND), 1, 1);
    issuer := Issuer(binding, "");
    var r := Finalize("", "", true);
    key := KeyOf(r);
    assert ToSecond(0) == 0 && ToSecond(SECOND) == SECOND;
    var one, two := Produce(binding, "", r, 0, true), Produce(binding, "", r, SECOND, true);
    TheClockMatters(binding, "", r, 0, SECOND);
    a, b := one.value, two.value;
    hide Follows, AllForGood;
    states, actions := UnsyncedReuseSignsTwice(issuer, r, 0, SECOND, Persisted(r, a), Persisted(r, b));
  }

  // ---------------------------------------------------------------- leftover temporaries

  /**
   A temporary that a stopped call leaves is never removed. Until a machine crash at least, every later
   call for the same request by a process with the same id stops without a response.
   */
  lemma {:induction false} StaleTemporaryBlocks(
    states: seq<System>, issuer: Issuer, actions: seq<Action>, i: nat, j: nat, key: Key, pid: nat)
    requires Follows(states, issuer, actions) && i <= j < |states|
    requires forall k | i <= k < j :: !actions[k].MachineCrash?
    requires TemporaryFile(key, pid) in D.Current(states[i].disk)
    ensures TemporaryFile(key, pid) in D.Current(states[j].disk)
    ensures j < |actions| && actions[j].Issues? && KeyOf(actions[j].r) == key ==> actions[j].pid != pid
    ensures j < |actions| && actions[j].Stops? && KeyOf(actions[j].r) == key && actions[j].pid == pid ==>
              actions[j].left == states[j].disk
    decreases j
  {
    hide Inv, Produces, Stored;
    if i < j {
      StaleTemporaryBlocks(states, issuer, actions, i, j - 1, key, pid);
      TemporaryStays(states[j - 1], issuer, actions[j - 1], key, pid);
    }
    if j < |actions| {
      assert May(states[j], issuer, actions[j]);
    }
  }

  lemma TemporaryStays(s: System, issuer: Issuer, a: Action, key: Key, pid: nat)
    requires May(s, issuer, a) && !a.MachineCrash? && TemporaryFile(key, pid) in D.Current(s.disk)
    ensures TemporaryFile(key, pid) in D.Current(Do(s, a).disk)
  {
    hide Produces, Stored;
    if a.Issues? || a.Stops? {
      var t := TemporaryFile(KeyOf(a.r), a.pid);
      D.ImagesAfterCreate(s.disk, t, Partial);
      D.ImagesAfterWrite(D.Create(s.disk, t, Partial), |s.disk.content|, Complete(a.p));
      D.ImagesAfterSyncFile(DraftOf(s.disk, KeyOf(a.r), a.pid, a.p), |s.disk.content|);
      D.ImagesAfterIssue(Written(s.disk, KeyOf(a.r), a.pid, a.p), D.Move(t, StateFile(KeyOf(a.r))));
      D.ImagesAfterFlush(Moved(s.disk, KeyOf(a.r), a.pid, a.p));
    }
  }
}
