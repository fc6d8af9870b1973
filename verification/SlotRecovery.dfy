/** `load_all` as it runs: three passes over the directory, mutating it on the way. */
module SlotRecovery {
  import opened Wrappers
  import opened Protocol
  import opened Names
  import opened SlotJournal
  import opened SlotStore
  import opened SlotMachine
  import opened ActiveSlotStore
  import D = Durability

  lemma RunExtends(d: Dir, ops: seq<D.Op<Name>>, op: D.Op<Name>)
    requires RecoveryRun(d, ops) && RecoveryMay(AfterAll(d, ops), op)
    ensures RecoveryRun(d, ops + [op]) && AfterAll(d, ops + [op]) == After(AfterAll(d, ops), op)
  {
    hide RecoveryMay, After;
    var more := ops + [op];
    assert !op.Link? by { LinkIsNotRecovery(AfterAll(d, ops), op); }
    assert more[..|more| - 1] == ops;
    forall i | 0 <= i < |more| ensures RecoveryMay(AfterAll(d, more[..i]), more[i]) {
      if i < |ops| {
        assert more[..i] == ops[..i];
      } else {
        assert more[..i] == ops;
      }
    }
  }

  lemma LinkIsNotRecovery(d: Dir, op: D.Op<Name>)
    requires RecoveryMay(d, op)
    ensures !op.Link?
  {
  }

  /** A listing of the directory, in any order. */
  ghost predicate Lists(names: seq<Name>, d: Dir) {
    && (forall n :: n in names <==> n in d)
    && (forall i, j :: 0 <= i < j < |names| ==> names[i] != names[j])
  }

  /** The first pass: the journals, by path. */
  ghost predicate CanonicalMap(d: Dir, canonical: map<Name, Journal>) {
    && (forall n :: n in canonical <==> n in d && !n.Temporary?)
    && (forall n :: n in canonical ==> CanonicalOk(d, n) && d[n] == Complete(canonical[n]))
  }

  lemma CanonicalMapIsOk(d: Dir, canonical: map<Name, Journal>)
    requires CanonicalMap(d, canonical)
    ensures CanonicalsOk(d)
  {
    hide Loadable;
  }

  /** Recovery is left with the same journals, and without the temporaries it removed. */
  ghost predicate Pruned(d: Dir, cur: Dir) {
    && (forall n :: n in cur ==> n in d && cur[n] == d[n])
    && (forall n :: n in d && !n.Temporary? ==> n in cur)
  }

  lemma PrunedOwners(d: Dir, cur: Dir, invocation: string)
    requires Pruned(d, cur)
    ensures Owners(cur, invocation) == Owners(d, invocation)
  {
    hide Loadable;
  }

  function Matching(canonical: map<Name, Journal>, invocation: string): set<Name> {
    set n | n in canonical && canonical[n].content.invocation == invocation
  }

  lemma MatchingIsOwners(d: Dir, canonical: map<Name, Journal>, invocation: string)
    requires CanonicalMap(d, canonical)
    ensures Matching(canonical, invocation) == Owners(d, invocation)
  {
    hide Loadable;
  }

  /** The first pass of `load_all`. */
  method ReadJournals(d: Dir, names: seq<Name>)
    returns (r: ActiveSlotStore.Result<map<Name, Journal>>, temporaries: seq<Name>)
    requires Lists(names, d)
    ensures r.Err? ==> r.error == InvalidJournal && !CanonicalsOk(d)
    ensures r.Ok? ==> CanonicalMap(d, r.value)
    ensures r.Ok? ==> forall t :: t in temporaries <==> t in d && t.Temporary?
    ensures Distinct(temporaries)
  {
    hide Loadable;
    var canonical: map<Name, Journal> := map[];
    temporaries := [];
    for i := 0 to |names|
      invariant forall n :: n in canonical <==> n in names[..i] && !n.Temporary?
      invariant forall n :: n in canonical ==> n in d && CanonicalOk(d, n) && d[n] == Complete(canonical[n])
      invariant forall t :: t in temporaries <==> t in names[..i] && t.Temporary?
      invariant forall x, y :: 0 <= x < y < |temporaries| ==> temporaries[x] != temporaries[y]
    {
      var n := names[i];
      assert names[..i + 1] == names[..i] + [n];
      assert n !in names[..i];
      if n.Temporary? {
        temporaries := temporaries + [n];
      } else {
        if !n.Canonical? || Load(d[n]).None? || Load(d[n]).value.content.mapping != n.mapping {
          assert !CanonicalOk(d, n);
          return Err(InvalidJournal), temporaries;
        }
        canonical := canonical[n := Load(d[n]).value];
      }
    }
    assert names[..|names|] == names;
    r := Ok(canonical);
  }

  /** Some temporary of the original directory is not acceptable. */
  lemma RefusedBy(d: Dir, t: Name)
    requires t in d && t.Temporary? && !TemporaryOk(d, t)
    ensures LoadOutcome(d) == None
  {
    hide TemporaryOk, CanonicalsOk;
  }

  /** Two temporaries cannot both continue the same journal. */
  lemma TwoForOne(d: Dir, t: Name, u: Name)
    requires t in d && u in d && t.Temporary? && u.Temporary? && t != u
    requires Load(d[t]).Some? && Load(d[u]).Some?
    requires Load(d[t]).value.content.mapping == Load(d[u]).value.content.mapping
    ensures LoadOutcome(d) == None
  {
    hide Loadable, IsDirectSuccessor, CanonicalsOk, Owners;
    if TemporaryOk(d, t) {
      assert !TemporaryOk(d, u);
      RefusedBy(d, u);
    } else {
      RefusedBy(d, t);
    }
  }

  /** The complete temporaries found by the second pass, by the path they continue. */
  ghost predicate StagedMap(d: Dir, staged: map<Name, Name>, seen: set<Name>) {
    && (forall c :: c in staged ==>
          && staged[c] in seen && staged[c] in d && staged[c].Temporary?
          && Load(d[staged[c]]).Some?
          && Canonical(Load(d[staged[c]]).value.content.mapping) == c
          && Load(d[staged[c]]).value.content.invocation == staged[c].invocation
          && Load(d[staged[c]]).value.content.stage != IntentStage)
    && (forall t :: t in seen && t in d && t.Temporary? && Load(d[t]).Some? ==>
          var c := Canonical(Load(d[t]).value.content.mapping);
          c in staged && staged[c] == t)
    && (forall t :: t in seen && t in d && t.Temporary? && Load(d[t]).None? ==> TemporaryOk(d, t))
  }

  lemma PrunedCanonicals(d: Dir, canonical: map<Name, Journal>, cur: Dir)
    requires CanonicalMap(d, canonical) && Pruned(d, cur)
    ensures CanonicalsOk(cur)
  {
    hide Loadable;
  }

  /** A failure of this kind has a failed call behind it. */
  predicate Blamed(fails: bool, before: nat, now: nat) {
    if fails then before < now else before <= now
  }

  /** Every repair so far is synced, and without a repair nothing was touched. */
  predicate Repaired(was: SlotDisk, now: SlotDisk, before: nat, after: nat) {
    if before == after then now == was else before < after && now.log == []
  }

  /** A removal or a promotion, and the directory sync behind it. */
  method Commit(dir: Directory, ghost d: Dir, ghost ops: seq<D.Op<Name>>, op: D.Op<Name>)
    returns (ok: bool, ghost more: seq<D.Op<Name>>)
    requires dir.Valid() && RecoveryRun(d, ops) && AfterAll(d, ops) == FilesNow(dir.disk)
    requires RecoveryMay(FilesNow(dir.disk), op)
    modifies dir
    ensures dir.Valid() && RecoveryRun(d, more) && AfterAll(d, more) == FilesNow(dir.disk)
    ensures ok ==> !op.Link? && FilesNow(dir.disk) == After(old(FilesNow(dir.disk)), op)
    ensures ok ==> Repaired(old(dir.disk), dir.disk, |ops|, |more|) && more == ops + [op]
    ensures old(dir.failures) <= dir.failures && (!ok ==> old(dir.failures) < dir.failures)
  {
    hide CanonicalsOk, Owners, Promotable;
    more := ops;
    FilesAfterIssue(dir.disk, op);
    RunExtends(d, ops, op);
    match op {
      case Unlink(t) => ok := dir.Remove(t);
      case Move(t, n) => ok := dir.Rename(t, n);
    }
    if ok {
      more := ops + [op];
      FilesAfterFlush(dir.disk);
      ok := dir.Sync();
    }
  }

  lemma TornMayGo(d: Dir, canonical: map<Name, Journal>, cur: Dir, t: Name)
    requires CanonicalMap(d, canonical) && Pruned(d, cur) && t.Temporary? && t in cur && Load(cur[t]).None?
    ensures |Matching(canonical, t.invocation)| == 1 ==> RecoveryMay(cur, D.Unlink(t)) && TemporaryOk(d, t)
    ensures |Matching(canonical, t.invocation)| != 1 ==> LoadOutcome(d) == None
  {
    hide Loadable, Step;
    MatchingIsOwners(d, canonical, t.invocation);
    PrunedOwners(d, cur, t.invocation);
    PrunedCanonicals(d, canonical, cur);
    if |Matching(canonical, t.invocation)| != 1 {
      RefusedBy(d, t);
    }
  }

  /** One temporary of the second pass: it is torn and removed, or complete and returned. */
  method ReadTemporary(dir: Directory, ghost d: Dir, canonical: map<Name, Journal>, t: Name, ghost ops: seq<D.Op<Name>>)
    returns (r: ActiveSlotStore.Result<Option<Journal>>, ghost more: seq<D.Op<Name>>)
    requires dir.Valid() && CanonicalMap(d, canonical)
    requires t.Temporary? && t in FilesNow(dir.disk) && Pruned(d, FilesNow(dir.disk))
    requires RecoveryRun(d, ops) && AfterAll(d, ops) == FilesNow(dir.disk)
    modifies dir
    ensures dir.Valid() && RecoveryRun(d, more) && AfterAll(d, more) == FilesNow(dir.disk)
    ensures r == Err(InvalidJournal) ==> LoadOutcome(d) == None
    ensures r.Ok? ==> Pruned(d, FilesNow(dir.disk)) && r.value == Load(d[t])
    ensures r.Ok? ==> Repaired(old(dir.disk), dir.disk, |ops|, |more|)
    ensures Blamed(r.Err? && r.error != InvalidJournal, old(dir.failures), dir.failures)
    ensures r.Ok? && r.value.None? ==>
              TemporaryOk(d, t) && FilesNow(dir.disk) == old(FilesNow(dir.disk)) - {t}
    ensures r.Ok? && r.value.Some? ==>
              && FilesNow(dir.disk) == old(FilesNow(dir.disk))
              && r.value.value.content.invocation == t.invocation && r.value.value.content.stage != IntentStage
  {
    hide Loadable, Step, RecoveryMay, RecoveryRun, CanonicalMap, LoadOutcome, Owners;
    more := ops;
    var loaded := Load(FilesNow(dir.disk)[t]);
    if loaded.None? {
      TornMayGo(d, canonical, FilesNow(dir.disk), t);
      if |Matching(canonical, t.invocation)| != 1 {
        return Err(InvalidJournal), more;
      }
      var ok;
      ok, more := Commit(dir, d, ops, D.Unlink(t));
      if !ok { return Err(PersistenceFailed), more; }
      return Ok(None), more;
    }
    if loaded.value.content.invocation != t.invocation || loaded.value.content.stage == IntentStage {
      RefusedBy(d, t);
      return Err(InvalidJournal), more;
    }
    return Ok(loaded), more;
  }

  /** The second pass has read the first `i` temporaries. */
  ghost predicate SecondPass(d: Dir, cur: Dir, staged: map<Name, Name>, temporaries: seq<Name>, i: nat)
    requires i <= |temporaries|
  {
    && Pruned(d, cur)
    && StagedMap(d, staged, set t | t in temporaries[..i])
    && (forall t :: t in temporaries[i..] ==> t in cur)
    && (forall c :: c in staged ==> staged[c] in cur)
    && (forall t :: t in cur && t.Temporary? ==> t in temporaries[i..] || t in staged.Values)
  }

  ghost predicate Distinct(names: seq<Name>) {
    forall i, j :: 0 <= i < j < |names| ==> names[i] != names[j]
  }

  lemma SecondPassTorn(d: Dir, cur: Dir, staged: map<Name, Name>, ts: seq<Name>, i: nat)
    requires i < |ts| && Distinct(ts) && SecondPass(d, cur, staged, ts, i)
    requires ts[i].Temporary? && ts[i] in d && Load(d[ts[i]]).None? && TemporaryOk(d, ts[i])
    ensures SecondPass(d, cur - {ts[i]}, staged, ts, i + 1)
  {
    hide Loadable, TemporaryOk;
    assert ts[i..] == [ts[i]] + ts[i + 1..];
    assert ts[..i + 1] == ts[..i] + [ts[i]];
    assert ts[i] !in ts[..i] && ts[i] !in ts[i + 1..];
  }

  lemma SecondPassStaged(d: Dir, cur: Dir, staged: map<Name, Name>, ts: seq<Name>, i: nat, c: Name)
    requires i < |ts| && Distinct(ts) && SecondPass(d, cur, staged, ts, i) && c !in staged
    requires ts[i] in d && ts[i].Temporary? && Load(d[ts[i]]).Some?
    requires Canonical(Load(d[ts[i]]).value.content.mapping) == c
    requires Load(d[ts[i]]).value.content.invocation == ts[i].invocation
             && Load(d[ts[i]]).value.content.stage != IntentStage
    ensures SecondPass(d, cur, staged[c := ts[i]], ts, i + 1)
  {
    hide Loadable, TemporaryOk, StagedMap;
    assert ts[i..] == [ts[i]] + ts[i + 1..];
    assert ts[..i + 1] == ts[..i] + [ts[i]];
    assert ts[i] !in ts[..i];
    StagedGrows(d, staged, ts[..i], c, ts[i]);
  }

  lemma SecondPassStarts(d: Dir, ts: seq<Name>)
    requires forall t :: t in ts <==> t in d && t.Temporary?
    ensures SecondPass(d, d, map[], ts, 0)
  {
    hide Loadable, TemporaryOk;
    assert ts[0..] == ts;
  }

  /** The second pass of `load_all`. */
  method ReadTemporaries(dir: Directory, ghost d: Dir, canonical: map<Name, Journal>, temporaries: seq<Name>)
    returns (r: ActiveSlotStore.Result<map<Name, Name>>, ghost ops: seq<D.Op<Name>>)
    requires dir.Valid() && d == FilesNow(dir.disk) && CanonicalMap(d, canonical)
    requires forall t :: t in temporaries <==> t in d && t.Temporary?
    requires Distinct(temporaries)
    modifies dir
    ensures dir.Valid() && RecoveryRun(d, ops) && AfterAll(d, ops) == FilesNow(dir.disk)
    ensures r == Err(InvalidJournal) ==> LoadOutcome(d) == None
    ensures r.Ok? ==> SecondPass(d, FilesNow(dir.disk), r.value, temporaries, |temporaries|)
    ensures r.Ok? ==> Repaired(old(dir.disk), dir.disk, 0, |ops|)
    ensures Blamed(r.Err? && r.error != InvalidJournal, old(dir.failures), dir.failures)
  {
    hide Loadable, Step, RecoveryMay, CanonicalMap, LoadOutcome, TemporaryOk, SecondPass, Distinct, StagedMap;
    ops := [];
    var staged: map<Name, Name> := map[];
    SecondPassStarts(d, temporaries);
    for i := 0 to |temporaries|
      invariant dir.Valid() && RecoveryRun(d, ops) && AfterAll(d, ops) == FilesNow(dir.disk)
      invariant SecondPass(d, FilesNow(dir.disk), staged, temporaries, i)
      invariant Repaired(old(dir.disk), dir.disk, 0, |ops|) && old(dir.failures) <= dir.failures
    {
      var t := temporaries[i];
      ghost var cur := FilesNow(dir.disk);
      SecondPassNext(d, cur, staged, temporaries, i);
      var read;
      read, ops := ReadTemporary(dir, d, canonical, t, ops);
      if read.Err? { return Err(read.error), ops; }
      if read.value.Some? {
        var c := Canonical(read.value.value.content.mapping);
        if c in staged {
          SecondPassNext(d, cur, staged, temporaries, i);
          TwoForOne(d, t, staged[c]);
          return Err(InvalidJournal), ops;
        }
        SecondPassStaged(d, cur, staged, temporaries, i, c);
        staged := staged[c := t];
      } else {
        SecondPassTorn(d, cur, staged, temporaries, i);
      }
    }
    r := Ok(staged);
  }

  lemma SecondPassNext(d: Dir, cur: Dir, staged: map<Name, Name>, ts: seq<Name>, i: nat)
    requires i < |ts| && SecondPass(d, cur, staged, ts, i) && Distinct(ts)
    ensures Pruned(d, cur) && ts[i] in cur
    ensures forall c :: c in staged ==>
              && staged[c] != ts[i] && staged[c] in d && staged[c].Temporary? && Load(d[staged[c]]).Some?
              && Canonical(Load(d[staged[c]]).value.content.mapping) == c
  {
    hide Loadable, TemporaryOk;
    assert ts[i] in ts[i..];
  }

  lemma StagedGrows(d: Dir, staged: map<Name, Name>, seen: seq<Name>, c: Name, t: Name)
    requires StagedMap(d, staged, set u | u in seen) && t !in seen && c !in staged
    requires t in d && t.Temporary? && Load(d[t]).Some?
    requires Canonical(Load(d[t]).value.content.mapping) == c
    requires Load(d[t]).value.content.invocation == t.invocation && Load(d[t]).value.content.stage != IntentStage
    ensures StagedMap(d, staged[c := t], set u | u in seen + [t])
    ensures forall u :: u in staged.Values ==> u in staged[c := t].Values
    ensures t in staged[c := t].Values
  {
    hide Loadable, TemporaryOk;
    var more := staged[c := t];
    assert more[c] == t;
    forall u | u in staged.Values ensures u in more.Values {
      var x :| x in staged && staged[x] == u;
      assert more[x] == u;
    }
  }

  /** The path that a complete temporary continues. */
  function Continues(f: File): Name
    requires Load(f).Some?
  {
    Canonical(Load(f).value.content.mapping)
  }

  /** The third pass has promoted every staged temporary but those of `pending`. */
  ghost predicate ThirdPass(d: Dir, cur: Dir, read: map<Name, Journal>, canonical: map<Name, Journal>,
                            staged: map<Name, Name>, pending: set<Name>) {
    && pending <= staged.Keys && (forall c :: c in staged ==> staged[c] in d)
    && PromotedInMemory(d, read, canonical, staged, pending)
    && PromotedOnDisk(d, cur, canonical, staged, pending)
  }

  ghost predicate PromotedInMemory(d: Dir, read: map<Name, Journal>, canonical: map<Name, Journal>,
                                   staged: map<Name, Name>, pending: set<Name>)
    requires forall c :: c in staged ==> staged[c] in d
  {
    && canonical.Keys == read.Keys
    && (forall c :: c in staged && c !in pending ==>
          c in read && Step(read[c], canonical[c]) && Load(d[staged[c]]) == Some(canonical[c]))
    && (forall n :: n in canonical && (n !in staged || n in pending) ==> canonical[n] == read[n])
  }

  ghost predicate PromotedOnDisk(d: Dir, cur: Dir, canonical: map<Name, Journal>,
                                 staged: map<Name, Name>, pending: set<Name>)
    requires pending <= staged.Keys && (forall c :: c in staged ==> staged[c] in d)
  {
    && CanonicalsOk(cur)
    && (forall n :: n in canonical ==> !n.Temporary? && n in cur && cur[n] == Complete(canonical[n]))
    && (forall c :: c in pending ==> staged[c] in cur && cur[staged[c]] == d[staged[c]])
    && (forall t :: t in cur && t.Temporary? ==>
          && t in d && Load(d[t]).Some?
          && Continues(d[t]) in pending && staged[Continues(d[t])] == t)
    && (forall n :: n in cur && !n.Temporary? ==> n in canonical)
  }

  lemma ThirdPassStarts(d: Dir, cur: Dir, read: map<Name, Journal>, staged: map<Name, Name>, ts: seq<Name>)
    requires CanonicalMap(d, read) && SecondPass(d, cur, staged, ts, |ts|)
    requires forall t :: t in ts <==> t in d && t.Temporary?
    ensures StagedMap(d, staged, set t | t in ts) && ThirdPass(d, cur, read, read, staged, staged.Keys)
  {
    hide Loadable, Step, TemporaryOk;
    assert ts[..|ts|] == ts && ts[|ts|..] == [];
    forall t | t in cur && t.Temporary?
      ensures Load(d[t]).Some? && Continues(d[t]) in staged && staged[Continues(d[t])] == t
    {
      var c :| c in staged && staged[c] == t;
    }
  }

  lemma PromotionMayGo(d: Dir, cur: Dir, read: map<Name, Journal>, canonical: map<Name, Journal>,
                       staged: map<Name, Name>, seen: set<Name>, pending: set<Name>, c: Name)
    requires CanonicalMap(d, read) && StagedMap(d, staged, seen)
    requires ThirdPass(d, cur, read, canonical, staged, pending) && c in pending
    ensures staged[c] in d && Load(d[staged[c]]).Some?
    ensures var j := Load(d[staged[c]]).value;
            if c in canonical && Step(canonical[c], j) then RecoveryMay(cur, D.Move(staged[c], c))
            else LoadOutcome(d) == None
  {
    hide Loadable, Step, TemporaryOk, CanonicalsOk, Owners;
    var t := staged[c];
    var j := Load(d[t]).value;
    if !(c in canonical && Step(canonical[c], j)) {
      NotPromotable(d, read, t, c);
    }
  }

  lemma NotPromotable(d: Dir, read: map<Name, Journal>, t: Name, c: Name)
    requires CanonicalMap(d, read) && t in d && t.Temporary? && Load(d[t]).Some?
    requires Canonical(Load(d[t]).value.content.mapping) == c
    requires !(c in read && Step(read[c], Load(d[t]).value))
    ensures LoadOutcome(d) == None
  {
    hide Loadable, Step, CanonicalsOk, Owners;
    RefusedBy(d, t);
  }

  lemma StagedFacts(d: Dir, staged: map<Name, Name>, seen: set<Name>)
    requires StagedMap(d, staged, seen)
    ensures forall c :: c in staged ==> c.Canonical? && staged[c] in d && staged[c].Temporary?
    ensures forall c :: c in staged ==> Load(d[staged[c]]).Some? && Continues(d[staged[c]]) == c
    ensures forall b, c :: b in staged && c in staged && staged[b] == staged[c] ==> b == c
  {
    hide Load, TemporaryOk;
  }

  lemma LoadedIsComplete(f: File)
    requires Load(f).Some?
    ensures f == Complete(Load(f).value)
  {
    hide Loadable;
  }

  lemma PromotedCanonicals(cur: Dir, t: Name, c: Name)
    requires CanonicalsOk(cur) && t in cur && t.Temporary? && c.Canonical?
    requires Load(cur[t]).Some? && Load(cur[t]).value.content.mapping == c.mapping
    ensures CanonicalsOk(After(cur, D.Move(t, c)))
  {
    hide Load;
    var next := After(cur, D.Move(t, c));
    forall n | n in next && !n.Temporary? ensures CanonicalOk(next, n) {
      if n != c { assert CanonicalOk(cur, n); }
    }
  }

  lemma ThirdPassStep(d: Dir, cur: Dir, read: map<Name, Journal>, canonical: map<Name, Journal>,
                      staged: map<Name, Name>, seen: set<Name>, pending: set<Name>, c: Name)
    requires CanonicalMap(d, read) && StagedMap(d, staged, seen)
    requires ThirdPass(d, cur, read, canonical, staged, pending) && c in pending && c in canonical
    requires Load(d[staged[c]]).Some? && Step(canonical[c], Load(d[staged[c]]).value)
    ensures ThirdPass(d, After(cur, D.Move(staged[c], c)), read, canonical[c := Load(d[staged[c]]).value], staged,
            pending - {c})
  {
    hide Load, Step, CanonicalsOk, StagedMap, CanonicalMap, PromotedOnDisk;
    StagedFacts(d, staged, seen);
    PromotedOnDiskStep(d, cur, canonical, staged, pending, c);
  }

  lemma PromotedOnDiskStep(d: Dir, cur: Dir, canonical: map<Name, Journal>,
                           staged: map<Name, Name>, pending: set<Name>, c: Name)
    requires pending <= staged.Keys && (forall x :: x in staged ==> staged[x] in d)
    requires forall x :: x in staged ==> x.Canonical? && staged[x].Temporary?
    requires forall x :: x in staged ==> Load(d[staged[x]]).Some? && Continues(d[staged[x]]) == x
    requires PromotedOnDisk(d, cur, canonical, staged, pending) && c in pending && c in canonical
    ensures PromotedOnDisk(d, After(cur, D.Move(staged[c], c)), canonical[c := Load(d[staged[c]]).value], staged,
            pending - {c})
  {
    hide Load, CanonicalsOk;
    LoadedIsComplete(d[staged[c]]);
    PromotedCanonicals(cur, staged[c], c);
  }

  lemma ThirdPassEnds(d: Dir, cur: Dir, read: map<Name, Journal>, canonical: map<Name, Journal>,
                      staged: map<Name, Name>, seen: set<Name>)
    requires CanonicalMap(d, read) && StagedMap(d, staged, seen)
    requires forall t :: t in seen <==> t in d && t.Temporary?
    requires ThirdPass(d, cur, read, canonical, staged, {})
    ensures LoadOutcome(d) == Some(canonical)
    ensures forall n :: n in cur ==> !n.Temporary?
  {
    hide Load, Step, TemporaryOk, CanonicalsOk, Recovered;
    CanonicalMapIsOk(d, read);
    forall t | t in d && t.Temporary? ensures TemporaryOk(d, t) {
      PromotedWasOk(d, cur, read, canonical, staged, seen, t);
    }
    forall n | n in canonical ensures n in Slots(d) && Slots(d)[n] == canonical[n] {
      PromotedIsRecovered(d, cur, read, canonical, staged, seen, n);
    }
    assert Slots(d) == canonical;
  }

  lemma PromotedWasOk(d: Dir, cur: Dir, read: map<Name, Journal>, canonical: map<Name, Journal>,
                      staged: map<Name, Name>, seen: set<Name>, t: Name)
    requires CanonicalMap(d, read) && StagedMap(d, staged, seen) && t in seen && t in d && t.Temporary?
    requires ThirdPass(d, cur, read, canonical, staged, {})
    ensures TemporaryOk(d, t)
  {
    hide Loadable, Step, Owners, CanonicalsOk;
    if Load(d[t]).Some? {
      var c := Canonical(Load(d[t]).value.content.mapping);
      assert staged[c] == t;
    }
  }

  lemma PromotedIsRecovered(d: Dir, cur: Dir, read: map<Name, Journal>, canonical: map<Name, Journal>,
                            staged: map<Name, Name>, seen: set<Name>, n: Name)
    requires CanonicalMap(d, read) && StagedMap(d, staged, seen) && n in canonical
    requires forall t :: t in seen <==> t in d && t.Temporary?
    requires ThirdPass(d, cur, read, canonical, staged, {})
    ensures n in d && n.Canonical? && d[n].Complete? && Recovered(d, n) == canonical[n]
  {
    hide Loadable, IsDirectSuccessor, TemporaryOk, CanonicalsOk;
    if n in staged {
      assert staged[n] == Temporary(read[n].content.invocation);
    }
  }

  /** The third pass of `load_all`. */
  method Promote(dir: Directory, ghost d: Dir, read: map<Name, Journal>, staged: map<Name, Name>,
                 ghost seen: set<Name>, ghost ops0: seq<D.Op<Name>>)
    returns (r: ActiveSlotStore.Result<map<Name, Journal>>, ghost ops: seq<D.Op<Name>>)
    requires dir.Valid() && RecoveryRun(d, ops0) && AfterAll(d, ops0) == FilesNow(dir.disk)
    requires CanonicalMap(d, read) && StagedMap(d, staged, seen)
    requires forall t :: t in seen <==> t in d && t.Temporary?
    requires ThirdPass(d, FilesNow(dir.disk), read, read, staged, staged.Keys)
    modifies dir
    ensures dir.Valid() && RecoveryRun(d, ops) && AfterAll(d, ops) == FilesNow(dir.disk)
    ensures r == Err(InvalidJournal) ==> LoadOutcome(d) == None
    ensures r.Ok? ==> LoadOutcome(d) == Some(r.value) && forall n :: n in FilesNow(dir.disk) ==> !n.Temporary?
    ensures r.Ok? ==> Repaired(old(dir.disk), dir.disk, |ops0|, |ops|)
    ensures Blamed(r.Err? && r.error != InvalidJournal, old(dir.failures), dir.failures)
  {
    hide Loadable, Step, RecoveryMay, CanonicalMap, LoadOutcome, TemporaryOk, StagedMap, CanonicalsOk;
    ops := ops0;
    var canonical, pending := read, staged.Keys;
    while pending != {}
      invariant dir.Valid() && RecoveryRun(d, ops) && AfterAll(d, ops) == FilesNow(dir.disk)
      invariant ThirdPass(d, FilesNow(dir.disk), read, canonical, staged, pending)
      invariant Repaired(old(dir.disk), dir.disk, |ops0|, |ops|) && old(dir.failures) <= dir.failures
      decreases |pending|
    {
      var c :| c in pending;
      var t := staged[c];
      var recovered := Load(FilesNow(dir.disk)[t]);
      ghost var cur := FilesNow(dir.disk);
      PromotionMayGo(d, cur, read, canonical, staged, seen, pending, c);
      if c !in canonical || !Step(canonical[c], recovered.value) {
        return Err(InvalidJournal), ops;
      }
      ThirdPassStep(d, cur, read, canonical, staged, seen, pending, c);
      var ok;
      ok, ops := Commit(dir, d, ops, D.Move(t, c));
      if !ok { return Err(PersistenceFailed), ops; }
      canonical := canonical[c := recovered.value];
      pending := pending - {c};
    }
    ThirdPassEnds(d, FilesNow(dir.disk), read, canonical, staged, seen);
    r := Ok(canonical);
  }

  /**
   `load_all`. Whatever it returns and wherever it stops, what it did to the directory is a
   recovery run, so the next attempt finds what this one found.
   */
  method LoadAll(dir: Directory, names: seq<Name>)
    returns (r: ActiveSlotStore.Result<map<Name, Journal>>, ghost ops: seq<D.Op<Name>>)
    requires dir.Valid() && Lists(names, FilesNow(dir.disk))
    modifies dir
    ensures dir.Valid()
    ensures r.Ok? ==>
              && LoadOutcome(old(FilesNow(dir.disk))) == Some(r.value)
              && forall n :: n in FilesNow(dir.disk) ==> !n.Temporary?
    ensures r.Ok? ==> if ops == [] then dir.disk == old(dir.disk) else dir.disk.log == []
    ensures r.Err? && r.error != InvalidJournal ==> old(dir.failures) < dir.failures
    ensures r == Err(InvalidJournal) ==> LoadOutcome(old(FilesNow(dir.disk))) == None
    ensures RecoveryRun(old(FilesNow(dir.disk)), ops)
            && FilesNow(dir.disk) == AfterAll(old(FilesNow(dir.disk)), ops)
    ensures LoadOutcome(FilesNow(dir.disk)) == LoadOutcome(old(FilesNow(dir.disk)))
  {
    hide Loadable, Step, RecoveryMay, CanonicalMap, TemporaryOk, SecondPass, ThirdPass, StagedMap, CanonicalsOk, Slots;
    ghost var d := FilesNow(dir.disk);
    ops := [];
    var read, temporaries := ReadJournals(FilesNow(dir.disk), names);
    if read.Err? { return Err(read.error), ops; }
    var staged;
    staged, ops := ReadTemporaries(dir, d, read.value, temporaries);
    if staged.Err? {
      r := Err(staged.error);
    } else {
      ThirdPassStarts(d, FilesNow(dir.disk), read.value, staged.value, temporaries);
      r, ops := Promote(dir, d, read.value, staged.value, (set t | t in temporaries), ops);
    }
    RecoveryIsRestartable(d, ops);
  }
}
