/** Recovery of the active-slot store from any mix of journals and temporaries. */
module SlotStore {
  import opened Wrappers
  import opened Protocol
  import opened Names
  import opened SlotJournal
  import D = Durability

  datatype File = Partial | Complete(journal: Journal)

  type Dir = map<Name, File>

  /** `load_journal`; `None` is `InvalidJournal`. */
  function Load(f: File): Option<Journal> {
    if f.Complete? && Loadable(f.journal) then Some(f.journal) else None
  }

  /** Every name that is not a temporary holds a journal stored under its own path. */
  ghost predicate CanonicalsOk(d: Dir) {
    forall n :: n in d && !n.Temporary? ==> CanonicalOk(d, n)
  }

  predicate CanonicalOk(d: Dir, n: Name)
    requires n in d
  {
    n.Canonical? && Load(d[n]).Some? && Load(d[n]).value.content.mapping == n.mapping
  }

  /** The journals of one invocation. */
  ghost function Owners(d: Dir, invocation: string): set<Name> {
    set n | n in d && n.Canonical? && Load(d[n]).Some? && Load(d[n]).value.content.invocation == invocation
  }

  /** Recovery accepts this temporary: it is torn and its slot is known, or it continues its slot. */
  ghost predicate TemporaryOk(d: Dir, t: Name)
    requires t in d && t.Temporary?
  {
    if Load(d[t]).None? then |Owners(d, t.invocation)| == 1
    else Promotable(d, t)
  }

  predicate Promotable(d: Dir, t: Name)
    requires t in d && t.Temporary? && Load(d[t]).Some?
  {
    var j := Load(d[t]).value;
    && j.content.invocation == t.invocation
    && j.content.stage != IntentStage
    && Canonical(j.content.mapping) in d
    && d[Canonical(j.content.mapping)].Complete?
    && Step(d[Canonical(j.content.mapping)].journal, j)
  }

  /** The journal that recovery settles on for a canonical name. */
  function Recovered(d: Dir, n: Name): (j: Journal)
    requires n in d && d[n].Complete?
  {
    var canonical := d[n].journal;
    var t := Temporary(canonical.content.invocation);
    if t in d && Load(d[t]).Some? && Canonical(Load(d[t]).value.content.mapping) == n
    then Load(d[t]).value
    else canonical
  }

  ghost predicate Accepts(d: Dir) {
    CanonicalsOk(d) && forall t :: t in d && t.Temporary? ==> TemporaryOk(d, t)
  }

  /** What `load_all` returns for this directory, independently of the order it works in. */
  ghost function LoadOutcome(d: Dir): Option<map<Name, Journal>> {
    if Accepts(d) then Some(Slots(d)) else None
  }

  function Slots(d: Dir): map<Name, Journal> {
    map n | n in d && n.Canonical? && d[n].Complete? :: Recovered(d, n)
  }

  // ---------------------------------------------------------------- the operations of recovery

  function After(d: Dir, op: D.Op<Name>): Dir
    requires !op.Link?
  {
    match op
    case Move(t, n) => if t in d then (d - {t})[n := d[t]] else d
    case Unlink(t) => d - {t}
  }

  /** Recovery issues `op` on `d` only when its own checks have passed. */
  ghost predicate RecoveryMay(d: Dir, op: D.Op<Name>) {
    && CanonicalsOk(d)
    && match op
       case Link(_, _) => false
       case Unlink(t) => t.Temporary? && t in d && Load(d[t]).None? && |Owners(d, t.invocation)| == 1
       case Move(t, n) =>
         t.Temporary? && t in d && Load(d[t]).Some? && Promotable(d, t)
         && n == Canonical(Load(d[t]).value.content.mapping)
  }

  /** One removal or promotion changes neither the slots recovery returns nor its refusal. */
  lemma RecoveryOpKeepsOutcome(d: Dir, op: D.Op<Name>)
    requires RecoveryMay(d, op)
    ensures LoadOutcome(After(d, op)) == LoadOutcome(d)
  {
    var e := After(d, op);
    match op {
      case Unlink(t) => UnlinkKeepsOutcome(d, t);
      case Move(t, n) => MoveKeepsOutcome(d, t, n);
    }
  }

  lemma UnlinkKeepsOutcome(d: Dir, t: Name)
    requires RecoveryMay(d, D.Unlink(t))
    ensures LoadOutcome(After(d, D.Unlink(t))) == LoadOutcome(d)
  {
    hide Loadable, Step;
    var e := After(d, D.Unlink(t));
    assert CanonicalsOk(e);
    forall u | u in d && u.Temporary? && u != t
      ensures TemporaryOk(d, u) == TemporaryOk(e, u)
    {
      assert Owners(d, u.invocation) == Owners(e, u.invocation);
    }
    assert TemporaryOk(d, t);
    assert Accepts(d) == Accepts(e);
    assert Slots(d) == Slots(e);
  }

  lemma MoveKeepsOutcome(d: Dir, t: Name, n: Name)
    requires RecoveryMay(d, D.Move(t, n))
    ensures LoadOutcome(After(d, D.Move(t, n))) == LoadOutcome(d)
  {
    MoveKeepsCanonicals(d, t, n);
    MoveKeepsSlots(d, t, n);
    hide Loadable, Step, CanonicalOk, Owners, Recovered;
    var e := After(d, D.Move(t, n));
    forall u | u in d && u.Temporary? && u != t
      ensures TemporaryOk(d, u) == TemporaryOk(e, u)
    {
      MoveKeepsTemporary(d, t, n, u);
    }
    assert TemporaryOk(d, t);
    assert forall u :: u in e && u.Temporary? ==> u in d && u != t;
  }

  /** The promoted journal is that of the same slot and the same invocation. */
  lemma MoveKeepsCanonicals(d: Dir, t: Name, n: Name)
    requires RecoveryMay(d, D.Move(t, n))
    ensures var e := After(d, D.Move(t, n));
            CanonicalsOk(e) && forall i :: Owners(e, i) == Owners(d, i)
  {
    hide Loadable, IsDirectSuccessor;
    var e := After(d, D.Move(t, n));
    assert CanonicalOk(d, n);
    forall m | m in e && !m.Temporary? ensures CanonicalOk(e, m) {
      assert CanonicalOk(d, m);
    }
  }

  lemma MoveKeepsTemporary(d: Dir, t: Name, n: Name, u: Name)
    requires RecoveryMay(d, D.Move(t, n)) && u in d && u.Temporary? && u != t
    ensures TemporaryOk(d, u) == TemporaryOk(After(d, D.Move(t, n)), u)
  {
    MoveKeepsCanonicals(d, t, n);
    hide Loadable, Step, Owners, CanonicalsOk;
    if Load(d[u]).Some? && n in d && d[n].Complete? {
      StepKeepsInvocation(d[n].journal, Load(d[t]).value);
      StepKeepsInvocation(d[n].journal, Load(d[u]).value);
      StepKeepsInvocation(Load(d[t]).value, Load(d[u]).value);
    }
  }

  lemma StepKeepsInvocation(a: Journal, b: Journal)
    ensures Step(a, b) ==> a.content.invocation == b.content.invocation
  {
    hide Loadable, IsDirectSuccessor;
  }

  lemma MoveKeepsSlots(d: Dir, t: Name, n: Name)
    requires RecoveryMay(d, D.Move(t, n))
    ensures Slots(After(d, D.Move(t, n))) == Slots(d)
  {
    hide Loadable, IsDirectSuccessor, Owners;
    var e := After(d, D.Move(t, n));
    forall c | c in Slots(d) || c in Slots(e)
      ensures c in Slots(d) && c in Slots(e) && Slots(d)[c] == Slots(e)[c]
    {
      assert c in d && CanonicalOk(d, c);
    }
  }

  /** No journal is dropped, and none is replaced but by its direct successor. */
  lemma RecoveryOpKeepsJournals(d: Dir, op: D.Op<Name>, n: Name)
    requires RecoveryMay(d, op) && n in d && n.Canonical?
    ensures var e := After(d, op);
            && n in e && e[n].Complete?
            && (e[n] == d[n] || (d[n].Complete? && Step(d[n].journal, e[n].journal)))
  {
    assert CanonicalOk(d, n);
  }

  /** The directory after the first removals and promotions of a recovery. */
  function AfterAll(d: Dir, ops: seq<D.Op<Name>>): Dir
    requires forall i :: 0 <= i < |ops| ==> !ops[i].Link?
  {
    if ops == [] then d else After(AfterAll(d, ops[..|ops| - 1]), ops[|ops| - 1])
  }

  ghost predicate RecoveryRun(d: Dir, ops: seq<D.Op<Name>>) {
    && (forall i :: 0 <= i < |ops| ==> !ops[i].Link?)
    && (forall i :: 0 <= i < |ops| ==> RecoveryMay(AfterAll(d, ops[..i]), ops[i]))
  }

  /**
   Recovery may stop after any of its operations, whatever it had still to check: running it again
   returns the same slots, or the same refusal, as never having been stopped.
   */
  lemma {:induction false} RecoveryIsRestartable(d: Dir, ops: seq<D.Op<Name>>)
    requires RecoveryRun(d, ops)
    ensures LoadOutcome(AfterAll(d, ops)) == LoadOutcome(d)
  {
    if ops != [] {
      var front := ops[..|ops| - 1];
      RecoveryRunFront(d, ops);
      RecoveryIsRestartable(d, front);
      RecoveryOpKeepsOutcome(AfterAll(d, front), ops[|ops| - 1]);
    }
  }

  lemma RecoveryRunFront(d: Dir, ops: seq<D.Op<Name>>)
    requires RecoveryRun(d, ops) && ops != []
    ensures RecoveryRun(d, ops[..|ops| - 1]) && RecoveryMay(AfterAll(d, ops[..|ops| - 1]), ops[|ops| - 1])
  {
    hide RecoveryMay, After;
    var front := ops[..|ops| - 1];
    forall i | 0 <= i < |front|
      ensures RecoveryMay(AfterAll(d, front[..i]), front[i])
    {
      assert front[..i] == ops[..i];
    }
  }

  /** A temporary whose slot is gone makes recovery refuse the whole store. */
  lemma OrphanTemporaryIsRefused(d: Dir, t: Name)
    requires t in d && t.Temporary?
    requires forall n :: n in d && n.Canonical? && d[n].Complete? ==>
               d[n].journal.content.invocation != t.invocation
    ensures LoadOutcome(d) == None
  {
    assert Owners(d, t.invocation) == {};
    assert !TemporaryOk(d, t);
  }
}
