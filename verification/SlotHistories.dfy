/** What the journals of one slot life say, over whole runs: decisions, consumption and completion. */
module SlotHistories {
  import opened Wrappers
  import opened Protocol
  import opened Names
  import opened SlotJournal
  import opened SlotStore
  import opened SlotMachine
  import opened SlotRuns
  import opened SlotProgress
  import opened SlotRefusals
  import opened SlotWitnesses
  import opened SlotExposure
  import D = Durability

  lemma LifeBinds(l: seq<Journal>, x: nat, y: nat)
    requires Life(l) && x < y < |l|
    ensures Binds(l[x], l[y])
  {
    hide Cumulative, Extends, Binds;
    ExtendedIsBound(l[x], l[y]);
  }

  lemma LifeBindsItself(l: seq<Journal>, x: nat)
    requires Life(l) && x < |l|
    ensures Binds(l[x], l[x])
  {
    hide Cumulative, Extends, Binds;
    ExtendsReflexive(l[x]);
    ExtendedIsBound(l[x], l[x]);
  }

  /** Every acknowledged journal binds every journal acknowledged after it, until the slot is finalized or torn. */
  lemma AcknowledgedBinds(states: seq<System>, actions: seq<Action>, i: nat, j: nat, n: Name, x: nat, y: nat)
    requires Run(states, actions) && i <= j < |states| && n in states[i].acks && x < |states[i].acks[n]|
    requires forall z :: i <= z < j ==> actions[z] != FinalizeRemove(n) && !Tears(states[z], actions[z], n)
    ensures n in states[j].acks && states[i].acks[n] <= states[j].acks[n]
    ensures x <= y < |states[j].acks[n]| ==> Binds(states[i].acks[n][x], states[j].acks[n][y])
  {
    hide Inv, Enabled, Perform, Binds, Life;
    AcknowledgementsStand(states, actions, i, j, n);
    RunKeeps(states, actions, j);
    AcksAreALife(states[j], n);
    if x < y < |states[j].acks[n]| {
      LifeBinds(states[j].acks[n], x, y);
    } else if x == y {
      LifeBindsItself(states[j].acks[n], x);
    }
  }

  lemma AcksAreALife(s: System, n: Name)
    requires Inv(s) && n in s.acks
    ensures Life(s.acks[n])
  {
    hide HandleOk, BlankOk, HalvesOk, ImageOk, PossibleOk, Life, Extends;
  }

  /** It also binds what any later crash leaves in its slot, whether or not recovery accepts the store. */
  lemma AcknowledgedBindsRecovered(
    states: seq<System>, actions: seq<Action>, i: nat, j: nat, n: Name, x: nat, k: nat, torn: set<nat>)
    requires Run(states, actions) && i <= j < |states| && k <= |states[j].disk.log|
    requires n in states[i].acks && x < |states[i].acks[n]| && !TornOff(states[j].disk, k, torn, n)
    requires forall z :: i <= z < j ==> actions[z] != FinalizeRemove(n) && !Tears(states[z], actions[z], n)
    ensures D.Valid(states[j].disk)
    ensures var f := Left(states[j].disk, k, torn);
            n in Slots(f) && Binds(states[i].acks[n][x], Slots(f)[n])
  {
    hide Inv, Enabled, Perform, Binds, Life, Slots, Tears, TornOff;
    OkIsNeverLost(states, actions, i, j, n, k, torn);
    var l := states[i].acks[n];
    LifeBinds(l + [Slots(Left(states[j].disk, k, torn))[n]], x, |l|);
  }

  /** Where recovery promotes no unsynced temporary, it binds both until the slot is finalized. */
  lemma CarefulBinds(
    states: seq<System>, actions: seq<Action>, i: nat, j: nat, n: Name, x: nat, y: nat, k: nat, torn: set<nat>)
    requires CarefulRun(states, actions) && i <= j < |states|
    requires k <= |states[j].disk.log| && torn <= states[j].disk.unsynced
    requires n in states[i].acks && x < |states[i].acks[n]|
    requires forall z :: i <= z < j ==> actions[z] != FinalizeRemove(n)
    ensures D.Valid(states[j].disk)
    ensures n in states[j].acks && states[i].acks[n] <= states[j].acks[n]
    ensures x <= y < |states[j].acks[n]| ==> Binds(states[i].acks[n][x], states[j].acks[n][y])
    ensures var f := Left(states[j].disk, k, torn);
            n in Slots(f) && Binds(states[i].acks[n][x], Slots(f)[n])
  {
    hide Inv, Enabled, Perform, Binds, Life, Slots, Tears, TornOff, PromotesUnsynced;
    NoTear(states, actions, i, j, n);
    AcknowledgedBinds(states, actions, i, j, n, x, y);
    AcknowledgedIsClean(states, actions, j, n);
    CleanIsWhole(states[j].disk, k, torn, n);
    AcknowledgedBindsRecovered(states, actions, i, j, n, x, k, torn);
  }

  lemma CleanIsWhole(d: SlotDisk, k: nat, torn: set<nat>, n: Name)
    requires Clean(d, n) && k <= |d.log| && torn <= d.unsynced
    ensures !TornOff(d, k, torn, n)
  {
    assert !Exposed(d, k, n);
  }

  /** Without a machine crash, whatever a reader finds binds whatever a reader finds later. */
  lemma ShownBinds(states: seq<System>, actions: seq<Action>, i: nat, j: nat, n: Name)
    requires Run(states, actions) && i <= j < |states| && n.Canonical?
    requires forall x :: i <= x < j ==> !actions[x].MachineCrash? && actions[x] != FinalizeRemove(n)
    ensures D.Valid(states[i].disk) && D.Valid(states[j].disk)
    ensures Shown(states[i], n).Some? ==>
              Shown(states[j], n).Some? && Binds(Shown(states[i], n).value, Shown(states[j], n).value)
  {
    hide Inv, Enabled, Perform, Binds, Cumulative, Extends, Shown;
    NeverFallsBack(states, actions, i, j, n);
    RunKeeps(states, actions, i);
    RunKeeps(states, actions, j);
    ShownIsCumulative(states[i], n);
    ShownIsCumulative(states[j], n);
    if Shown(states[i], n).Some? {
      ExtendedIsBound(Shown(states[i], n).value, Shown(states[j], n).value);
    }
  }

  /**
   A journal that recovery returned and nothing made durable binds nothing. A machine crash takes it
   back, and the slot acknowledges another in its place: a different final decision, for one.
   `SureExactly` says when this cannot happen.
   */
  lemma ReadBackBindsNothing(
    states: seq<System>, actions: seq<Action>, s: System, n: Name, j: Journal,
    one: Input, a: Journal, two: Input, b: Journal)
    returns (more: seq<System>, done: seq<Action>, returned: System, q: System)
    requires Reaches(states, actions, s) && Calm(s, n, j) && Records(j, one, a) && Records(j, two, b)
    ensures Reaches(more, done, q) && returned in more
    ensures n in returned.handles && returned.handles[n].journal == a
    ensures n in q.handles && q.handles[n].journal == b && n in q.acks && b in q.acks[n]
  {
    hide Reaches, Calm, Records;
    more, done, returned, q := ReturnedAndTakenBack(states, actions, s, n, j, one, a);
    var before := more;
    more, done, q := RecordedRun(more, done, q, n, j, two, b);
    CalmRests(q, n, b);
    assert returned in more by {
      var k := |before| - 3;
      assert more[k] == before[k];
    }
  }

  /** A decision that a slot with an attached scope may record. */
  lemma SomeDecision(j: Journal, verdict: Verdict) returns (input: Input, next: Journal)
    requires Loadable(j) && j.content.stage == ScopeAttached
    ensures Records(j, input, next) && next.content.decision.Some?
    ensures next.content.decision.value.body.decision.payload.verdict == verdict
  {
    var signed := SignedDecision(DecisionPayload(AuthorizationDecisionKind, verdict, "", "", "", "", "", "", ""), "");
    var admission := DecisionAdmissionBody(Text(""), OfDecision(signed), "", "", "", "", "", verdict, true);
    var body := DecisionEvidenceBody(
      Text(""), signed, OfDecision(signed), DecisionAdmission(OfDecisionAdmission(admission), admission), true);
    input := TheDecision(DecisionEvidence(OfDecisionEvidence(body), body));
    var content := Assign(j.content, input);
    next := Journal(OfSlot(content), content);
  }

  /** Recovery returned an Allowed decision, and the slot then acknowledged a Denied one. */
  lemma ReadBackAllowedThenDenied(states: seq<System>, actions: seq<Action>, s: System, n: Name, j: Journal)
    returns (more: seq<System>, done: seq<Action>, returned: System, q: System)
    requires Reaches(states, actions, s) && Calm(s, n, j) && Loadable(j) && j.content.stage == ScopeAttached
    ensures Reaches(more, done, q) && returned in more && n in returned.handles && n in q.handles && n in q.acks
    ensures var c := returned.handles[n].journal.content; c.decision.Some? && IsAllowed(c.decision.value)
    ensures var c := q.handles[n].journal.content; c.decision.Some? && IsDenied(c.decision.value)
  {
    hide Reaches, Calm, Records, Loadable;
    var one, a := SomeDecision(j, Allowed);
    var two, b := SomeDecision(j, Denied);
    more, done, returned, q := ReadBackBindsNothing(states, actions, s, n, j, one, a, two, b);
  }
}
