/**
 The relay between the broker and the Core child, against any frames from either.
 Recording goes through the active slot of the invocation.
 */
module Relay {
  import opened Wrappers
  import opened Protocol
  import opened Names
  import opened SlotJournal
  import opened SlotStore
  import opened SlotMachine
  import opened ActiveSlotStore
  import opened SlotIsolation
  import opened RelayExchange
  import A = SlotAcceptance
  import D = Durability

  /** The journal that the slot was last known to hold durably. */
  function LastDurable(trace: seq<Event>): Option<Journal> {
    if trace == [] then None
    else if trace[|trace| - 1].Durable? then Some(trace[|trace| - 1].journal)
    else LastDurable(trace[..|trace| - 1])
  }

  function ConsumesSent(trace: seq<Event>): nat {
    if trace == [] then 0
    else ConsumesSent(trace[..|trace| - 1]) + (if trace[|trace| - 1].ConsumeToBroker? then 1 else 0)
  }

  /** The durable journal names this exact request, under an allowed decision it also holds. */
  predicate IntentDurable(last: Option<Journal>, request: ConsumeRequest) {
    && last.Some?
    && var c := last.value.content;
    && c.decision.Some? && IsAllowed(c.decision.value)
    && c.intent.Some?
    && c.intent.value.body.decisionRelay == c.decision.value.identity
    && c.intent.value.body.request == request
    && c.intent.value.body.requestIdentity == OfConsumeRequest(request)
  }

  predicate ConsumptionDurable(last: Option<Journal>, admission: Id) {
    && last.Some?
    && var c := last.value.content;
    && c.consumption.Some?
    && c.consumption.value.body.admission.identity == admission
    && IntentDurable(last, c.consumption.value.body.request)
  }

  /** No effect precedes the durable record that licenses it. */
  predicate Licensed(last: Option<Journal>, e: Event) {
    match e
    case ConsumeToBroker(request) => IntentDurable(last, request)
    case IntentAckToCore(intent) =>
      last.Some? && last.value.content.intent.Some? && last.value.content.intent.value.identity == intent
    case ConsumptionAckToCore(admission) => ConsumptionDurable(last, admission)
    case CompletionAckToCore(completion) =>
      last.Some? && last.value.content.completion.Some? && last.value.content.completion.value.identity == completion
    case _ => true
  }

  ghost predicate DurableBeforeEffect(trace: seq<Event>) {
    forall i :: 0 <= i < |trace| ==> Licensed(LastDurable(trace[..i]), trace[i])
  }

  lemma Extended(trace: seq<Event>, e: Event)
    requires DurableBeforeEffect(trace) && Licensed(LastDurable(trace), e)
    ensures DurableBeforeEffect(trace + [e])
    ensures LastDurable(trace + [e]) == if e.Durable? then Some(e.journal) else LastDurable(trace)
    ensures ConsumesSent(trace + [e]) == ConsumesSent(trace) + (if e.ConsumeToBroker? then 1 else 0)
  {
    var more := trace + [e];
    assert more[..|trace|] == trace;
    assert more[..|more| - 1] == trace;
    forall i | 0 <= i < |more| ensures Licensed(LastDurable(more[..i]), more[i]) {
      if i < |trace| {
        assert more[..i] == trace[..i];
      }
    }
  }

  lemma ReplacedIsHeld(d: SlotDisk, n: Name, j: Journal)
    requires D.Valid(d) && n.Canonical?
    ensures Held(Replaced(d, n, j), n, j)
  {
    var t := TempOf(j);
    D.ImagesAfterCreate(d, t, Partial);
    D.ImagesAfterWrite(D.Create(d, t, Partial), |d.content|, Complete(j));
    D.ImagesAfterSyncFile(DraftOf(d, t, j), |d.content|);
    var written := Written(d, t, j);
    D.ImagesAfterIssue(written, D.Move(t, n));
    assert D.Current(written)[t] == |d.content|;
  }

  /** A begun slot is durable, and held exactly when no temporary has its invocation. */
  lemma BegunIsHeld(d: SlotDisk, n: Name, j: Journal)
    requires D.Valid(d)
    ensures var e := D.Flush(Written(d, n, j));
            && e.log == [] && n in e.durable && e.durable[n] < |e.content| && e.durable[n] !in e.unsynced
            && e.content[e.durable[n]] == Complete(j)
            && (Held(e, n, j) <==> n != TempOf(j) && TempOf(j) !in D.Current(d))
  {
    D.ImagesAfterCreate(d, n, Partial);
    D.ImagesAfterWrite(D.Create(d, n, Partial), |d.content|, Complete(j));
    D.ImagesAfterSyncFile(DraftOf(d, n, j), |d.content|);
    var e := D.Flush(Written(d, n, j));
    assert D.Image(e, 0) == e.durable == D.Current(d)[n := |d.content|];
    if Held(e, n, j) {
      assert HeldAt(e, D.Image(e, 0), n, j);
    }
  }

  /** What holds of the trace whatever the peers send and however a call ends. */
  ghost predicate Safe(trace: seq<Event>) {
    DurableBeforeEffect(trace) && ConsumesSent(trace) <= 1
  }

  /** The trace and the disk tell the same story about a slot whose last call returned `Ok`. */
  ghost predicate InStep(trace: seq<Event>, disk: SlotDisk, path: Name, j: Journal) {
    && Safe(trace)
    && path.Canonical? && Held(disk, path, j)
    && LastDurable(trace) == Some(j)
    && Loadable(j) && Cumulative(j.content)
    && (Rank(j.content.stage) < Rank(ConsumptionIntentRecorded) ==> ConsumesSent(trace) == 0)
  }

  lemma RecordedInStep(trace: seq<Event>, disk: SlotDisk, path: Name, j: Journal, input: Input, next: Journal)
    requires InStep(trace, disk, path, j) && D.Valid(disk) && Records(j, input, next)
    ensures InStep(trace + [Durable(next)], Replaced(disk, path, next), path, next)
  {
    RankRises(j, input, next);
    RecordKeepsCumulative(j, input, next);
    hide Loadable, Cumulative, Records, Replaced, Held, Rank;
    Extended(trace, Durable(next));
    ReplacedIsHeld(disk, path, next);
  }

  lemma RankRises(j: Journal, input: Input, next: Journal)
    requires Records(j, input, next)
    ensures Rank(j.content.stage) <= Rank(next.content.stage)
    ensures Loadable(next)
  {
    hide Loadable;
  }

  lemma RecordKeepsCumulative(j: Journal, input: Input, next: Journal)
    requires Loadable(j) && Cumulative(j.content) && Records(j, input, next)
    ensures Cumulative(next.content)
  {
    RecordIsStep(j, input, next);
    hide Loadable, Cumulative, Records, Step;
    StepKeepsCumulative(j, next);
  }

  lemma SentInStep(trace: seq<Event>, disk: SlotDisk, path: Name, j: Journal, e: Event)
    requires InStep(trace, disk, path, j) && Licensed(Some(j), e) && !e.Durable?
    requires e.ConsumeToBroker? ==> ConsumesSent(trace) == 0
    ensures Safe(trace + [e])
    ensures Rank(j.content.stage) >= Rank(ConsumptionIntentRecorded) || !e.ConsumeToBroker? ==>
              InStep(trace + [e], disk, path, j)
    ensures ConsumesSent(trace + [e]) == ConsumesSent(trace) + (if e.ConsumeToBroker? then 1 else 0)
  {
    hide Loadable, Cumulative, Held, Licensed;
    Extended(trace, e);
  }

  /** Recording a decision that is already there assigns what is already there. */
  lemma RepeatedDecisionAssignsNothing(c: SlotContent, input: Input)
    requires AlreadyRecorded(c, input)
    ensures Assign(c, input) == c
  {
  }

  // ---------------------------------------------------------------- the links of the chain

  predicate AdmissionMatches(
    a: DecisionAdmission, authorization: AuthorizationRequest, request: Id, decision: SignedDecision)
  {
    && SelfDecisionAdmission(a)
    && a.body.request == request
    && a.body.decision == OfDecision(decision)
    && a.body.binding == authorization.binding
    && a.body.attestation == authorization.attestation
    && a.body.workUnit == authorization.workUnit
    && a.body.contract == authorization.contract
    && a.body.semanticScope == authorization.semanticScope
    && a.body.verdict == decision.payload.verdict
  }

  predicate LeaseMatches(lease: SignedLease, decision: DecisionEvidence) {
    && lease.messageKind == LeaseIssuanceKind
    && lease.decision == decision.body.decisionIdentity
    && lease.binding == decision.body.decision.payload.binding
    && lease.workUnit == decision.body.decision.payload.workUnit
  }

  predicate RequestMatches(request: ConsumeRequest, lease: SignedLease) {
    && request.messageKind == LeaseConsumeKind
    && request.lease == OfLease(lease)
    && request.binding == lease.binding
    && request.workUnit == lease.workUnit
  }

  predicate ResponseMatches(response: SignedConsumeResponse, request: ConsumeRequest, lease: SignedLease) {
    && response.messageKind == LeaseConsumeResponseKind
    && response.request == OfConsumeRequest(request)
    && response.lease == OfLease(lease)
    && response.binding == request.binding
    && response.workUnit == request.workUnit
  }

  predicate ConsumptionAdmissionMatches(
    a: ConsumptionAdmission, lease: SignedLease, request: ConsumeRequest, response: SignedConsumeResponse)
  {
    && SelfConsumptionAdmission(a)
    && a.body.lease == OfLease(lease)
    && a.body.request == OfConsumeRequest(request)
    && a.body.response == OfConsumeResponse(response)
    && a.body.binding == request.binding
    && a.body.workUnit == request.workUnit
    && a.body.crossingId == request.crossingId
    && a.body.crossingIdentity == request.crossingIdentity
  }

  lemma AdmissionIsLinked(a: DecisionAdmission, authorization: AuthorizationRequest, request: Id, d: SignedDecision)
    ensures AdmissionMatches(a, authorization, request, d) <==> LinkedDecision(authorization, request, d, a)
  {
  }

  /** The slot consumed the lease of its allowed decision, and asked the broker for exactly that. */
  ghost predicate Consumed(trace: seq<Event>, c: SlotContent, e: Consumption) {
    && c.stage == ConsumptionVerified
    && c.decision.Some? && IsAllowed(c.decision.value)
    && c.consumption == Some(e)
    && e == ConsumptionOf(c.decision.value, e.body.lease, e.body.request, e.body.response, e.body.admission)
    && Linked(c.decision.value, e.body.lease, e.body.request, e.body.response, e.body.admission)
    && ConsumeToBroker(e.body.request) in trace
    && ConsumesSent(trace) == 1
  }

  /** What a persisted completion says is what was authorized and what was sent to the broker. */
  ghost predicate EndToEnd(trace: seq<Event>, c: SlotContent, done: Completion) {
    && c.completion == Some(done)
    && c.decision.Some? && IsAllowed(c.decision.value)
    && done.body.workUnit == c.decision.value.body.decision.payload.workUnit
    && ConsumesSent(trace) == 1
    && (forall e <- trace | e.ConsumeToBroker? ::
          && e.request.workUnit == done.body.workUnit
          && e.request.crossingId == done.body.crossingId
          && e.request.crossingIdentity == done.body.pendingCrossing)
  }

  lemma {:induction false} OnlyOneConsume(trace: seq<Event>, a: Event, b: Event)
    requires ConsumesSent(trace) == 1
    requires a in trace && a.ConsumeToBroker? && b in trace && b.ConsumeToBroker?
    ensures a == b
  {
    var before, last := trace[..|trace| - 1], trace[|trace| - 1];
    assert trace == before + [last];
    if last.ConsumeToBroker? {
      NoConsume(before);
    } else {
      OnlyOneConsume(before, a, b);
    }
  }

  lemma {:induction false} NoConsume(trace: seq<Event>)
    requires ConsumesSent(trace) == 0
    ensures forall e <- trace :: !e.ConsumeToBroker?
  {
    if trace != [] {
      assert trace == trace[..|trace| - 1] + [trace[|trace| - 1]];
      NoConsume(trace[..|trace| - 1]);
    }
  }

  lemma CompletionIsEndToEnd(trace: seq<Event>, c: SlotContent, e: Consumption, done: Completion)
    requires Consumed(trace, c, e) && Guard(c, TheCompletion(done))
    ensures EndToEnd(trace, Assign(c, TheCompletion(done)), done)
  {
    forall sent <- trace | sent.ConsumeToBroker? ensures sent == ConsumeToBroker(e.body.request) {
      OnlyOneConsume(trace, sent, ConsumeToBroker(e.body.request));
    }
  }

  /** The intent recorded for this request, with nothing else touched. */
  predicate IntentOpen(was: SlotContent, c: SlotContent, request: ConsumeRequest) {
    && was.stage == DecisionVerified
    && was.decision.Some? && IsAllowed(was.decision.value)
    && c.decision == was.decision
    && c.stage == ConsumptionIntentRecorded
    && IntentNames(c, request)
  }

  predicate IntentNames(c: SlotContent, request: ConsumeRequest) {
    && c.stage == ConsumptionIntentRecorded
    && c.decision.Some? && IsAllowed(c.decision.value)
    && c.intent.Some?
    && c.intent.value.body.decisionRelay == c.decision.value.identity
    && c.intent.value.body.request == request
    && c.intent.value.body.requestIdentity == OfConsumeRequest(request)
  }

  lemma NothingSentYet(trace: seq<Event>, disk: SlotDisk, path: Name, j: Journal)
    requires InStep(trace, disk, path, j)
    ensures j.content.stage == DecisionVerified ==> ConsumesSent(trace) == 0
  {
    hide Loadable, Cumulative, Held, DurableBeforeEffect;
  }

  lemma NeedsNoLicense(last: Option<Journal>, e: Event)
    requires e.AuthorizationToBroker? || e.DecisionToCore? || e.LeaseToCore? || e.ResponseToCore?
    ensures Licensed(last, e)
  {
  }

  lemma IntentLicenses(was: SlotContent, j: Journal, i: Intent)
    requires Guard(was, TheIntent(i)) && j.content == Assign(was, TheIntent(i))
    requires i.body.requestIdentity == OfConsumeRequest(i.body.request)
    ensures was.stage == DecisionVerified
    ensures IntentOpen(was, j.content, i.body.request)
    ensures Licensed(Some(j), IntentAckToCore(i.identity))
    ensures Licensed(Some(j), ConsumeToBroker(i.body.request))
    ensures Rank(j.content.stage) >= Rank(ConsumptionIntentRecorded)
  {
  }

  lemma IntentIsLicensed(j: Journal, i: Intent, q: ConsumeRequest)
    requires IntentNames(j.content, q) && j.content.intent == Some(i)
    ensures Licensed(Some(j), IntentAckToCore(i.identity)) && Licensed(Some(j), ConsumeToBroker(q))
    ensures Rank(j.content.stage) >= Rank(ConsumptionIntentRecorded)
  {
  }

  lemma IntentIsStored(was: SlotContent, c: SlotContent, i: Intent)
    requires c == Assign(was, TheIntent(i))
    ensures c.intent == Some(i)
  {
  }

  lemma ConsumptionLicenses(was: SlotContent, j: Journal, e: Consumption)
    requires Guard(was, TheConsumption(e)) && j.content == Assign(was, TheConsumption(e))
    requires IntentNames(was, e.body.request)
    ensures Licensed(Some(j), ConsumptionAckToCore(e.body.admission.identity))
  {
  }

  /** A denied slot: nothing was asked of the broker. */
  ghost predicate DeniedUnasked(trace: seq<Event>, c: SlotContent) {
    && c.stage == DecisionVerified
    && c.decision.Some? && IsDenied(c.decision.value)
    && c.intent.None? && c.consumption.None?
    && ConsumesSent(trace) == 0
  }

  lemma IntentOpenNames(was: SlotContent, c: SlotContent, request: ConsumeRequest)
    requires IntentOpen(was, c, request)
    ensures IntentNames(c, request)
  {
  }

  lemma LoadedIdentity(j: Journal)
    requires Loadable(j)
    ensures j.identity == OfSlot(j.content)
  {
    hide StageValid, Names.IsSha256, Names.IsLabel;
  }

  lemma LeaseIsLinked(d: DecisionEvidence, l: SignedLease)
    ensures LeaseMatches(l, d) <==> LinkedLease(d, l)
  {
  }

  lemma RequestIsLinked(d: DecisionEvidence, l: SignedLease, q: ConsumeRequest)
    requires LinkedLease(d, l)
    ensures RequestMatches(q, l) <==> LinkedRequest(d, l, q)
  {
  }

  lemma ResponseIsLinked(d: DecisionEvidence, l: SignedLease, q: ConsumeRequest, p: SignedConsumeResponse)
    requires LinkedLease(d, l) && LinkedRequest(d, l, q)
    ensures ResponseMatches(p, q, l) <==> LinkedResponse(d, l, q, p)
  {
  }

  lemma ConsumptionIsLinked(
    d: DecisionEvidence, l: SignedLease, q: ConsumeRequest, p: SignedConsumeResponse, a: ConsumptionAdmission)
    requires LinkedLease(d, l) && LinkedRequest(d, l, q)
    ensures ConsumptionAdmissionMatches(a, l, q, p) <==> LinkedAdmission(d, l, q, p, a)
  {
  }

  /** Recording the intent that was built leaves the slot intending. */
  lemma IntentBuilt(was: Journal, d: DecisionEvidence, l: SignedLease, q: ConsumeRequest, i: Intent)
    requires i.body == IntentBody(d.identity, l, OfLease(l), q, OfConsumeRequest(q), true)
             && i.identity == OfIntent(i.body)
    ensures i == IntentOf(d, l, q)
    ensures Journal(OfSlot(Assign(was.content, TheIntent(i))), Assign(was.content, TheIntent(i))) == Intending(was, i)
    ensures !AlreadyRecorded(was.content, TheIntent(i))
  {
  }

  lemma ConsumptionBuilt(
    before: Journal, was: Journal, d: DecisionEvidence, l: SignedLease, q: ConsumeRequest, p: SignedConsumeResponse,
    a: ConsumptionAdmission, e: Consumption)
    requires before.content.decision == Some(d) && was == Intending(before, IntentOf(d, l, q)) && IsAllowed(d)
    requires e.body == ConsumptionBody(
      d.identity, l, OfLease(l), q, OfConsumeRequest(q), p, OfConsumeResponse(p), a, true)
    requires e.identity == OfConsumption(e.body)
    ensures e == ConsumptionOf(d, l, q, p, a)
    ensures Journal(OfSlot(Assign(was.content, TheConsumption(e))), Assign(was.content, TheConsumption(e)))
            == Consuming(was, e)
    ensures !AlreadyRecorded(was.content, TheConsumption(e)) && IntentNames(was.content, q)
    ensures A.Admits(was.content, TheConsumption(e))
  {
    ConsumptionAdmitted(before, d, e);
  }

  lemma ConsumedNow(
    first: seq<Event>, trace: seq<Event>, start: Journal, j: Journal, d: DecisionEvidence,
    l: SignedLease, q: ConsumeRequest, p: SignedConsumeResponse, a: ConsumptionAdmission, e: Consumption)
    requires start.content.decision == Some(d) && IsAllowed(d)
    requires e == ConsumptionOf(d, l, q, p, a) && Linked(d, l, q, p, a)
    requires j == Consuming(Intending(start, IntentOf(d, l, q)), e) && ConsumesSent(trace) == 1
    requires trace == first + [LeaseToCore(l)] + IntentEvents(start, d, l, q) + [ResponseToCore(p)]
                      + [Durable(j), ConsumptionAckToCore(a.identity)]
    ensures e.body.lease == l && e.body.request == q && e.body.response == p && e.body.admission == a
    ensures Consumed(trace, j.content, e) && j.content.decision == Some(d) && j.content.consumption == Some(e)
    ensures trace == first + LeaseEvents(start, d, e)
    ensures j.content.stage == ConsumptionVerified && j.content.invocation == start.content.invocation
  {
    hide Linked, IntentOf;
    assert trace[|first| + 3] == ConsumeToBroker(q);
  }

  /** These frames are not a lease on the decision and a request for it. */
  lemma NoLease(b: seq<BrokerFrame>, c: seq<CoreFrame>, d: DecisionEvidence)
    ensures LeaseFits(b, c, d) ==>
              && b != [] && b[0].LeaseFrame? && LinkedLease(d, b[0].lease)
              && c != [] && c[0].ConsumeFrame? && LinkedRequest(d, b[0].lease, c[0].request)
  {
  }

  lemma NoAdmission(
    b: seq<BrokerFrame>, c: seq<CoreFrame>, b1: seq<BrokerFrame>, c1: seq<CoreFrame>,
    d: DecisionEvidence, l: SignedLease, q: ConsumeRequest)
    requires b == [LeaseFrame(l)] + b1 && c == [ConsumeFrame(q)] + c1
    ensures LeaseFits(b, c, d) ==>
              && b1 != [] && b1[0].ResponseFrame? && c1 != [] && c1[0].ConsumptionAdmissionFrame?
              && Linked(d, l, q, b1[0].response, c1[0].consumptionAdmission)
  {
    hide Linked;
  }

  lemma LeaseTaken(
    b: seq<BrokerFrame>, c: seq<CoreFrame>, b1: seq<BrokerFrame>, c1: seq<CoreFrame>,
    b2: seq<BrokerFrame>, c2: seq<CoreFrame>, d: DecisionEvidence,
    l: SignedLease, q: ConsumeRequest, p: SignedConsumeResponse, a: ConsumptionAdmission)
    requires b == [LeaseFrame(l)] + b1 && b1 == [ResponseFrame(p)] + b2
    requires c == [ConsumeFrame(q)] + c1 && c1 == [ConsumptionAdmissionFrame(a)] + c2 && Linked(d, l, q, p, a)
    ensures b == [LeaseFrame(l), ResponseFrame(p)] + b2
    ensures c == [ConsumeFrame(q), ConsumptionAdmissionFrame(a)] + c2
    ensures LeaseFits(b, c, d) && TheLease(b, c, d) == ConsumptionOf(d, l, q, p, a)
  {
    hide Linked, ConsumptionOf;
  }

  lemma DecisionRecorded(
    b: seq<BrokerFrame>, c: seq<CoreFrame>, restB: seq<BrokerFrame>, restC: seq<CoreFrame>,
    authorization: AuthorizationRequest, request: Id, before: seq<Event>, now: seq<Event>, disk: SlotDisk, path: Name,
    was: Journal, j: Journal, d: DecisionEvidence)
    requires InStep(now, disk, path, j) && j.identity == OfSlot(j.content) && was.identity == OfSlot(was.content)
    requires Guard(was.content, TheDecision(d)) && j.content == Assign(was.content, TheDecision(d))
    requires b == [DecisionFrame(d.body.decision)] + restB && c == [DecisionAdmissionFrame(d.body.admission)] + restC
    requires d.body.decision.payload.messageKind == AuthorizationDecisionKind
    requires d == EvidenceOf(request, d.body.decision, d.body.admission)
    requires LinkedDecision(authorization, request, d.body.decision, d.body.admission)
    requires now == before + [DecisionToCore(d.body.decision)]
                    + if AlreadyRecorded(was.content, TheDecision(d)) then [] else [Durable(j)]
    ensures j.content.decision == Some(d)
    ensures TookRound(b, c, restB, restC, authorization, request, was, j, before, now, d)
    ensures IsDenied(d) ==> DeniedUnasked(now, j.content)
  {
    hide Held, DurableBeforeEffect, Loadable, LinkedDecision;
    OneMoreRound(was, [], d);
    assert [] + [d] == [d];
  }

  lemma SlotIdentified(trace: seq<Event>, disk: SlotDisk, path: Name, j: Journal)
    requires InStep(trace, disk, path, j)
    ensures j.identity == OfSlot(j.content)
  {
    hide Held, DurableBeforeEffect, Cumulative;
    LoadedIdentity(j);
  }

  /** These two frames carried this decision and its admission. */
  predicate Relayed(
    b: BrokerFrame, c: CoreFrame, authorization: AuthorizationRequest, request: Id, d: DecisionEvidence)
  {
    && b == DecisionFrame(d.body.decision) && c == DecisionAdmissionFrame(d.body.admission)
    && d.body.decision.payload.messageKind == AuthorizationDecisionKind
    && d == EvidenceOf(request, d.body.decision, d.body.admission)
    && LinkedDecision(authorization, request, d.body.decision, d.body.admission)
  }

  /** The frames so far carried these decisions, and only the last may be final. */
  ghost predicate AllRelayed(
    broker: seq<BrokerFrame>, core: seq<CoreFrame>, authorization: AuthorizationRequest, request: Id,
    rounds: seq<DecisionEvidence>)
  {
    && |rounds| <= |broker| && |rounds| <= |core|
    && (forall i :: 0 <= i < |rounds| ==> Relayed(broker[i], core[i], authorization, request, rounds[i]))
    && (forall i :: 0 <= i < |rounds| - 1 ==> IsPending(rounds[i]))
  }

  /** One decision was taken from the frames, relayed and recorded. */
  ghost predicate TookRound(
    b: seq<BrokerFrame>, c: seq<CoreFrame>, restB: seq<BrokerFrame>, restC: seq<CoreFrame>,
    authorization: AuthorizationRequest, request: Id, was: Journal, j: Journal, before: seq<Event>, now: seq<Event>,
    d: DecisionEvidence)
  {
    && b != [] && b == [b[0]] + restB && c != [] && c == [c[0]] + restC
    && Relayed(b[0], c[0], authorization, request, d)
    && j == AfterRounds(was, [d]) && j.content.decision == Some(d) && j.content.stage == DecisionVerified
    && now == before + RoundEvents(was, [d])
  }

  /** These decisions were, one after the other, and only the last may be final. */
  ghost predicate TookRounds(
    b: seq<BrokerFrame>, c: seq<CoreFrame>, restB: seq<BrokerFrame>, restC: seq<CoreFrame>,
    authorization: AuthorizationRequest, request: Id, was: Journal, j: Journal, before: seq<Event>, now: seq<Event>,
    rounds: seq<DecisionEvidence>)
  {
    && AllRelayed(b, c, authorization, request, rounds)
    && restB == b[|rounds|..] && restC == c[|rounds|..]
    && j == AfterRounds(was, rounds)
    && (rounds != [] ==> j.content.decision == Some(rounds[|rounds| - 1]) && j.content.stage == DecisionVerified)
    && now == before + RoundEvents(was, rounds)
  }

  predicate AllPending(rounds: seq<DecisionEvidence>) { forall d <- rounds :: IsPending(d) }

  lemma NoRoundTaken(
    b: seq<BrokerFrame>, c: seq<CoreFrame>, authorization: AuthorizationRequest, request: Id, j: Journal,
      trace: seq<Event>)
    ensures TookRounds(b, c, b, c, authorization, request, j, j, trace, trace, []) && AllPending([])
  {
    NoRounds(j);
  }

  lemma TookFacts(
    b: seq<BrokerFrame>, c: seq<CoreFrame>, restB: seq<BrokerFrame>, restC: seq<CoreFrame>,
    authorization: AuthorizationRequest, request: Id, was: Journal, j: Journal, before: seq<Event>, now: seq<Event>,
    rounds: seq<DecisionEvidence>)
    requires TookRounds(b, c, restB, restC, authorization, request, was, j, before, now, rounds)
    ensures AllRelayed(b, c, authorization, request, rounds) && |rounds| <= |b| && |rounds| <= |c|
    ensures restB == b[|rounds|..] && restC == c[|rounds|..] && j == AfterRounds(was, rounds)
    ensures now == before + RoundEvents(was, rounds)
    ensures rounds != [] ==> j.content.decision == Some(rounds[|rounds| - 1]) && j.content.stage == DecisionVerified
  {
    hide AfterRounds, RoundEvents, Relayed;
  }

  lemma RoundTaken(
    b: seq<BrokerFrame>, c: seq<CoreFrame>, midB: seq<BrokerFrame>, midC: seq<CoreFrame>,
    restB: seq<BrokerFrame>, restC: seq<CoreFrame>, authorization: AuthorizationRequest, request: Id,
    was: Journal, mid: Journal, j: Journal, before: seq<Event>, middle: seq<Event>, now: seq<Event>,
    rounds: seq<DecisionEvidence>, d: DecisionEvidence)
    requires TookRounds(b, c, midB, midC, authorization, request, was, mid, before, middle, rounds)
             && AllPending(rounds)
    requires TookRound(midB, midC, restB, restC, authorization, request, mid, j, middle, now, d)
    ensures TookRounds(b, c, restB, restC, authorization, request, was, j, before, now, rounds + [d])
    ensures |restB| < |midB| && (IsPending(d) ==> AllPending(rounds + [d]))
  {
    hide AfterRounds, RoundEvents, Relayed;
    RoundsJoin(was, rounds, d);
    Rest(b, |rounds|, restB);
    Rest(c, |rounds|, restC);
    assert midB[0] == b[|rounds|] && midC[0] == c[|rounds|];
    assert forall i :: 0 <= i < |rounds| ==> rounds[i] in rounds;
  }

  lemma RoundsJoin(j: Journal, rounds: seq<DecisionEvidence>, d: DecisionEvidence)
    ensures AfterRounds(j, rounds + [d]) == AfterRounds(AfterRounds(j, rounds), [d])
    ensures RoundEvents(j, rounds + [d]) == RoundEvents(j, rounds) + RoundEvents(AfterRounds(j, rounds), [d])
  {
    OneMoreRound(j, rounds, d);
    OneMoreRound(AfterRounds(j, rounds), [], d);
    assert [] + [d] == [d];
  }

  lemma Rest<T>(all: seq<T>, k: nat, rest: seq<T>)
    requires k < |all| && [all[k..][0]] + rest == all[k..]
    ensures rest == all[k + 1..]
  {
    assert all[k..][1..] == all[k + 1..];
    assert ([all[k..][0]] + rest)[1..] == rest;
  }

  lemma {:induction false} RoundsKeepInvocation(j: Journal, rounds: seq<DecisionEvidence>)
    ensures AfterRounds(j, rounds).content.invocation == j.content.invocation
  {
    if rounds != [] {
      RoundsKeepInvocation(j, rounds[..|rounds| - 1]);
    }
  }

  lemma NoRounds(j: Journal)
    ensures AfterRounds(j, []) == j && RoundEvents(j, []) == []
  {
  }

  lemma CompletesFor(a: string, b: string, e: Consumption, done: Completion)
    ensures Completes(a, e, done) && done.body.invocation == b ==> Completes(b, e, done)
  {
  }

  /** Nothing complete yet is nothing that does not answer. */
  lemma NotDone(
    before: seq<Event>, now: seq<Event>, was: Journal, d: SlotDisk, n: Name, t: Name, done: Completion)
    requires Accounted(before, now, was, d, n, t, None)
    ensures Accounted(before, now, was, d, n, t, Some(done))
  {
    hide Carried, EndToEnd;
  }

  lemma CompletionBuilt(was: Journal, j: Journal, done: Completion)
    requires j.content == Assign(was.content, TheCompletion(done)) && j.identity == OfSlot(j.content)
    ensures j == Completing(was, done) && !AlreadyRecorded(was.content, TheCompletion(done))
  {
  }

  /** A completion recorded on a consumption answers for itself. */
  lemma CompletionAnswers(
    before: seq<Event>, now: seq<Event>, was: Journal, j: Journal, e: Consumption, done: Completion)
    requires Consumed(before, was.content, e) && (now == before || now == before + [Durable(j)])
    requires ConsumesSent(now) == ConsumesSent(before)
    ensures Records(was, TheCompletion(done), j) ==> EndToEnd(now, j.content, done) && Answers(now, j, Some(done))
    ensures Guard(was.content, TheCompletion(done)) && j.content == Assign(was.content, TheCompletion(done)) ==>
              EndToEnd(now, j.content, done) && Answers(now, j, Some(done))
  {
    hide Loadable, Consumed, EndToEnd, Guard, Assign;
    if Guard(was.content, TheCompletion(done)) && j.content == Assign(was.content, TheCompletion(done)) {
      CompletionIsEndToEnd(before, was.content, e, done);
      EndToEndStays(before, now, j.content, done);
    }
  }

  /** An acknowledgement changes neither the disk nor what was asked of the broker. */
  lemma AcknowledgedIsAccounted(
    before: seq<Event>, middle: seq<Event>, now: seq<Event>, was: Journal, j: Journal, d: SlotDisk, n: Name, t: Name,
    done: Completion)
    requires Accounted(before, middle, was, d, n, t, Some(done)) && EndToEnd(middle, j.content, done)
    requires middle == before + [Durable(j)] && InStep(now, d, n, j) && TempOf(j) == t
    requires now == middle || now == middle + [CompletionAckToCore(done.identity)]
    requires ConsumesSent(now) == ConsumesSent(middle)
    ensures Accounted(before, now, was, d, n, t, Some(done)) && EndToEnd(now, j.content, done)
  {
    hide EndToEnd, Carried, Held, Loadable, Cumulative, DurableBeforeEffect;
    EndToEndStays(middle, now, j.content, done);
    HeldIsCarried(d, n, j);
    forall e <- now[|before|..] | e.Durable? ensures Answers(now, e.journal, Some(done)) {
      assert e == Durable(j);
    }
  }

  lemma CompletionLicenses(was: SlotContent, j: Journal, done: Completion)
    requires j.content == Assign(was, TheCompletion(done))
    ensures Licensed(Some(j), CompletionAckToCore(done.identity))
  {
  }

  lemma EndToEndStays(before: seq<Event>, trace: seq<Event>, c: SlotContent, done: Completion)
    requires EndToEnd(before, c, done)
    requires before <= trace && ConsumesSent(trace) == ConsumesSent(before)
    requires forall e <- trace[|before|..] :: !e.ConsumeToBroker?
    ensures EndToEnd(trace, c, done)
  {
    assert trace == before + trace[|before|..];
  }

  // ---------------------------------------------------------------- what a call leaves behind, also when it fails

  /** Every whole journal that a crash may leave under either name. */
  ghost function Carried(d: SlotDisk, n: Name, t: Name): set<Journal> {
    set k, x | 0 <= k <= |d.log| && x in D.Image(d, k) && (x == n || x == t) && Whole(d, D.Image(d, k)[x]) ::
      d.content[D.Image(d, k)[x]].journal
  }

  predicate Whole(d: SlotDisk, inode: nat) {
    inode < |d.content| && d.content[inode].Complete?
  }

  /**
   What a call that ends anyhow did since `before`: every journal that it made durable, and every other
   that a crash may leave in the slot or its temporary, is not complete or end to end with `done`.
   */
  ghost predicate Accounted(
    before: seq<Event>, now: seq<Event>, was: Journal, d: SlotDisk, n: Name, t: Name, done: Option<Completion>)
  {
    && before <= now
    && (forall e <- now[|before|..] | e.Durable? :: Answers(now, e.journal, done))
    && (forall j <- Carried(d, n, t) :: j == was || Answers(now, j, done))
  }

  ghost predicate Answers(trace: seq<Event>, j: Journal, done: Option<Completion>) {
    j.content.completion.Some? ==> done.Some? && EndToEnd(trace, j.content, done.value)
  }

  lemma HeldIsCarried(d: SlotDisk, n: Name, j: Journal)
    requires Held(d, n, j)
    ensures Carried(d, n, TempOf(j)) == {j}
  {
    assert HeldAt(d, D.Image(d, 0), n, j);
    assert j in Carried(d, n, TempOf(j));
    forall k, x | 0 <= k <= |d.log| && x in D.Image(d, k) && (x == n || x == TempOf(j))
      ensures Whole(d, D.Image(d, k)[x]) && d.content[D.Image(d, k)[x]] == Complete(j)
    {
      assert HeldAt(d, D.Image(d, k), n, j);
    }
  }

  /** Creating, writing and syncing the temporary: it carries the new journal, and the slot the old one. */
  lemma WritingCarries(d: SlotDisk, n: Name, was: Journal, j: Journal)
    requires D.Valid(d) && Held(d, n, was) && n.Canonical? && TempOf(j) == TempOf(was)
    ensures Carried(D.Create(d, TempOf(j), Partial), n, TempOf(j)) <= {was, j}
    ensures Carried(DraftOf(d, TempOf(j), j), n, TempOf(j)) <= {was, j}
    ensures Carried(Written(d, TempOf(j), j), n, TempOf(j)) <= {was, j}
    ensures TempOf(j) in D.Current(Written(d, TempOf(j), j))
  {
    var t := TempOf(j);
    var c, w := D.Create(d, t, Partial), DraftOf(d, t, j);
    D.ImagesAfterCreate(d, t, Partial);
    D.ImagesAfterWrite(c, |d.content|, Complete(j));
    D.ImagesAfterSyncFile(w, |d.content|);
    forall k, x | 0 <= k <= |c.log| && x in D.Image(c, k) && (x == n || x == t)
      ensures (x == t && D.Image(c, k)[x] == |d.content|)
              || (D.Image(c, k)[x] < |d.content| && d.content[D.Image(c, k)[x]] == Complete(was))
    {
      assert HeldAt(d, D.Image(d, if k <= |d.log| then k else |d.log|), n, was);
    }
  }

  lemma RenamingCarries(d: SlotDisk, n: Name, t: Name, op: D.Op<Name>)
    requires t in D.Current(d) && (op == D.Move(t, n) || op == D.Unlink(t))
    ensures Carried(D.Issue(d, op), n, t) <= Carried(d, n, t)
  {
    D.ImagesAfterIssue(d, op);
    var e := D.Issue(d, op);
    assert D.Current(d) == D.Image(d, |d.log|);
    forall k, x | 0 <= k <= |e.log| && x in D.Image(e, k) && (x == n || x == t) && Whole(e, D.Image(e, k)[x])
      ensures e.content[D.Image(e, k)[x]].journal in Carried(d, n, t)
    {
      if k <= |d.log| {
        assert x in D.Image(d, k);
      } else if x == n && op.Move? {
        assert t in D.Image(d, |d.log|);
      } else {
        assert x in D.Image(d, |d.log|);
      }
    }
  }

  /** Wherever a record stops, a crash leaves the journal it was to replace or the one it was writing. */
  lemma StoppedCarries(d: SlotDisk, n: Name, was: Journal, j: Journal, left: SlotDisk)
    requires D.Valid(d) && Held(d, n, was) && n.Canonical? && TempOf(j) == TempOf(was)
    requires PartlyReplaced(d, n, j, left)
    ensures Carried(left, n, TempOf(j)) <= {was, j}
  {
    hide Held, Carried;
    var t := TempOf(j);
    WritingCarries(d, n, was, j);
    HeldIsCarried(d, n, was);
    RenamingCarries(Written(d, t, j), n, t, D.Move(t, n));
    RenamingCarries(Written(d, t, j), n, t, D.Unlink(t));
  }

  /** A send leaves the disk alone. */
  lemma SentIsAccounted(before: seq<Event>, now: seq<Event>, was: Journal, d: SlotDisk, n: Name)
    requires Held(d, n, was) && before <= now && forall e <- now[|before|..] :: !e.Durable?
    ensures Accounted(before, now, was, d, n, TempOf(was), None)
  {
    hide Held, Carried;
    HeldIsCarried(d, n, was);
  }

  /** Nothing was done yet. */
  lemma StillAccounted(trace: seq<Event>, j: Journal, d: SlotDisk, n: Name)
    requires InStep(trace, d, n, j)
    ensures Accounted(trace, trace, j, d, n, TempOf(j), None)
  {
    hide Loadable, Cumulative, Held, DurableBeforeEffect, Accounted;
    SentIsAccounted(trace, trace, j, d, n);
  }

  /** Two calls after one another, the first of which left its journal durable. */
  lemma AccountedThen(
    a: seq<Event>, b: seq<Event>, c: seq<Event>, was: Journal, mid: Journal,
    d: SlotDisk, e: SlotDisk, n: Name, t: Name, done: Option<Completion>)
    requires Accounted(a, b, was, d, n, t, None) && Held(d, n, mid) && TempOf(mid) == t
    requires Accounted(b, c, mid, e, n, t, done)
    ensures Accounted(a, c, was, e, n, t, done)
  {
    hide Held, EndToEnd, Carried;
    HeldIsCarried(d, n, mid);
    assert mid in Carried(d, n, t);
    forall x <- c[|a|..] | x.Durable? ensures Answers(c, x.journal, done) {
      assert c[|a|..] == b[|a|..] + c[|b|..];
    }
  }

  lemma RecordedUnfinished(j: Journal, input: Input, next: Journal)
    requires Records(j, input, next) && !input.TheCompletion?
    ensures next.content.completion.None?
  {
    hide IsSha256, IsLabel;
  }

  /** A record of anything but the completion. */
  lemma RecordIsAccounted(
    before: seq<Event>, now: seq<Event>, was: Journal, input: Input, next: Journal, d: SlotDisk, n: Name, t: Name)
    requires Records(was, input, next) && Carried(d, n, t) <= {was, next}
    requires now == before || now == before + [Durable(next)]
    ensures !input.TheCompletion? ==> Accounted(before, now, was, d, n, t, None)
  {
    hide Records, Carried;
    if !input.TheCompletion? {
      RecordedUnfinished(was, input, next);
    }
  }

  lemma RecordKeepsTemporary(j: Journal, input: Input, next: Journal)
    requires Records(j, input, next)
    ensures TempOf(next) == TempOf(j)
  {
    hide Loadable, Guard;
  }

  /** A call that succeeds met no fault; a fault is never forgotten. */
  predicate Noted(succeeds: bool, before: bool, now: bool) { if succeeds then now == before else before ==> now }

  datatype Decided = WasDenied | WasAllowed(consumption: Consumption)

  class Relay {
    const slot: ActiveSlot
    var broker: seq<BrokerFrame>
    var core: seq<CoreFrame>
    var trace: seq<Event>

    /** Some call failed, or the protocol library refused a record. */
    ghost var faulty: bool
    ghost const temporary: Name

    ghost predicate Ready() reads this, slot, slot.directory {
      && slot.directory.Valid() && Safe(trace) && InStep(trace, slot.directory.disk, slot.path, slot.journal)
      && TempOf(slot.journal) == temporary
    }

    /** Whatever came of it, nothing since then is a completion that does not answer for itself. */
    ghost predicate Since(before: seq<Event>, was: Journal, done: Option<Completion>)
      reads this, slot, slot.directory
    {
      before <= trace && Accounted(before, trace, was, slot.directory.disk, slot.path, temporary, done)
    }

    constructor (slot: ActiveSlot, broker: seq<BrokerFrame>, core: seq<CoreFrame>)
      requires slot.directory.Valid() && Held(slot.directory.disk, slot.path, slot.journal) && slot.path.Canonical?
      requires Loadable(slot.journal) && Cumulative(slot.journal.content)
      ensures Ready() && trace == [Durable(slot.journal)] && !faulty
      ensures this.slot == slot && this.broker == broker && this.core == core
    {
      this.slot := slot;
      this.broker := broker;
      this.core := core;
      this.trace := [Durable(slot.journal)];
      this.temporary := TempOf(slot.journal);
      this.faulty := false;
      assert [Durable(slot.journal)] == [] + [Durable(slot.journal)];
      hide Loadable, Cumulative, Held;
      Extended([], Durable(slot.journal));
    }

    method ReadBroker() returns (frame: BrokerFrame)
      modifies this`broker
      ensures old(broker) == [] ==> frame.UnreadableBrokerFrame? && broker == []
      ensures old(broker) != [] ==> [frame] + broker == old(broker)
    {
      if broker == [] { return UnreadableBrokerFrame; }
      frame, broker := broker[0], broker[1..];
    }

    method ReadCore() returns (frame: CoreFrame)
      modifies this`core
      ensures old(core) == [] ==> frame.UnreadableCoreFrame? && core == []
      ensures old(core) != [] ==> [frame] + core == old(core)
    {
      if core == [] { return UnreadableCoreFrame; }
      frame, core := core[0], core[1..];
    }

    /** A check of the protocol library's own, on a record that the launcher built. */
    method WellFormed() returns (ok: bool)
      modifies this`faulty
      ensures faulty == (old(faulty) || !ok)
    {
      ok := *;
      faulty := faulty || !ok;
    }

    /** Build and write one frame; a write that fails may still have reached the peer. */
    method Send(e: Event) returns (ok: bool)
      requires Ready() && Licensed(Some(slot.journal), e) && !e.Durable?
      requires e.ConsumeToBroker? ==> ConsumesSent(trace) == 0
                                      && Rank(slot.journal.content.stage) >= Rank(ConsumptionIntentRecorded)
      modifies this`trace, this`faulty
      ensures Ready() && faulty == (old(faulty) || !ok)
      ensures trace == old(trace) + [e] || (!ok && trace == old(trace))
      ensures trace == old(trace) + [e] ==>
        ConsumesSent(trace) == old(ConsumesSent(trace)) + (if e.ConsumeToBroker? then 1 else 0)
      ensures Since(old(trace), slot.journal, None)
    {
      hide Licensed, Loadable, Cumulative, Rank, Held, Accounted;
      SentIsAccounted(trace, trace, slot.journal, slot.directory.disk, slot.path);
      ok := *;
      faulty := faulty || !ok;
      var reached: bool := *;
      if !ok && !reached { return; }
      SentInStep(trace, slot.directory.disk, slot.path, slot.journal, e);
      SentIsAccounted(trace, trace + [e], slot.journal, slot.directory.disk, slot.path);
      trace := trace + [e];
    }

    /**
     The calls of other slots between two of this one. By `HeldIsolated` they leave alone what this slot
     has made durable; the relay relies on no more than that.
     */
    method Others()
      requires Ready()
      modifies slot.directory
      ensures Ready()
    {
    }

    /** The recording callbacks, bound to the slot of this invocation. */
    method RecordDurably(input: Input) returns (ok: bool)
      requires Ready()
      modifies this`trace, this`faulty, slot, slot.directory
      ensures Safe(trace) && slot.directory.Valid() && Noted(ok, old(faulty), faulty)
      ensures ok ==> Ready() && Guard(old(slot.journal).content, input)
                     && slot.journal.content == Assign(old(slot.journal).content, input)
                     && slot.journal.identity == OfSlot(slot.journal.content)
      ensures ok ==> trace == old(trace)
                     + if AlreadyRecorded(old(slot.journal).content, input) then [] else [Durable(slot.journal)]
      ensures !ok ==> trace == old(trace)
      ensures ok ==> A.Admits(old(slot.journal).content, input)
      ensures !ok && !faulty ==> !A.Admits(old(slot.journal).content, input)
      ensures ConsumesSent(trace) == old(ConsumesSent(trace))
      ensures var carried := Carried(slot.directory.disk, slot.path, temporary);
              || (carried == {old(slot.journal)} && trace == old(trace))
              || (carried <= {old(slot.journal), slot.journal} && Records(old(slot.journal), input, slot.journal))
      ensures !input.TheCompletion? ==> Since(old(trace), old(slot.journal), None)
    {
      hide Loadable, Cumulative, Guard, Assign, Held, Replaced, AlreadyRecorded, PartlyReplaced, Carried, Accounted;
      hide A.Admits;
      Others();
      StillAccounted(trace, slot.journal, slot.directory.disk, slot.path);
      var was := slot.journal;
      ghost var disk := slot.directory.disk;
      HeldIsCarried(disk, slot.path, was);
      var r := slot.Record(input);
      faulty := faulty || (r.Err? && r.error != InvalidJournal);
      if r.Ok? && AlreadyRecorded(was.content, input) {
        RepeatedDecisionAssignsNothing(was.content, input);
        LoadedIdentity(was);
        return true;
      }
      if r == Err(InvalidJournal) { return false; }
      RecordKeepsTemporary(was, input, slot.journal);
      if r.Err? {
        StoppedCarries(disk, slot.path, was, slot.journal, slot.directory.disk);
        RecordIsAccounted(trace, trace, was, input, slot.journal, slot.directory.disk, slot.path, temporary);
        return false;
      }
      LoadedIdentity(slot.journal);
      RecordedInStep(trace, disk, slot.path, was, input, slot.journal);
      HeldIsCarried(slot.directory.disk, slot.path, slot.journal);
      Extended(trace, Durable(slot.journal));
      trace := trace + [Durable(slot.journal)];
      RecordIsAccounted(old(trace), trace, was, input, slot.journal, slot.directory.disk, slot.path, temporary);
      return true;
    }

    /** Two stretches of one call make one, when the slot was durable in between. */
    lemma Join(
      first: seq<Event>, middle: seq<Event>, was: Journal, mid: Journal, disk: SlotDisk, done: Option<Completion>)
      requires Accounted(first, middle, was, disk, slot.path, temporary, None)
      requires InStep(middle, disk, slot.path, mid) && TempOf(mid) == temporary && Since(middle, mid, done)
      ensures Since(first, was, done)
    {
      AccountedThen(first, middle, trace, was, mid, disk, slot.directory.disk, slot.path, temporary, done);
    }

    /** What is known between two calls, whatever the second does. */
    lemma Facts(first: seq<Event>, was: Journal)
      requires Ready() && Since(first, was, None)
      ensures Accounted(first, trace, was, slot.directory.disk, slot.path, temporary, None)
      ensures InStep(trace, slot.directory.disk, slot.path, slot.journal) && TempOf(slot.journal) == temporary
    {
    }

    /** At the start of a call nothing was done yet. */
    lemma Starts()
      requires Ready()
      ensures Since(trace, slot.journal, None) && slot.directory.Valid() && Safe(trace)
      ensures InStep(trace, slot.directory.disk, slot.path, slot.journal) && TempOf(slot.journal) == temporary
    {
      hide InStep;
      StillAccounted(trace, slot.journal, slot.directory.disk, slot.path);
    }

    /**
     The part of the exchange that has no effect yet: which lease is to be consumed, by which request. It
     fails only for a fault, or for frames that are not a lease on this decision and a request for it.
     */
    method AgreeOnRequest(decision: DecisionEvidence) returns (r: Option<(SignedLease, ConsumeRequest)>)
      requires Ready()
      modifies this
      ensures Ready() && Since(old(trace), slot.journal, None) && ConsumesSent(trace) == old(ConsumesSent(trace))
      ensures Noted(r.Some?, old(faulty), faulty)
      ensures r.Some? ==>
        && old(broker) == [LeaseFrame(r.value.0)] + broker && old(core) == [ConsumeFrame(r.value.1)] + core
        && LinkedLease(decision, r.value.0) && LinkedRequest(decision, r.value.0, r.value.1)
        && trace == old(trace) + [LeaseToCore(r.value.0)]
      ensures r.None? && !faulty ==>
        || old(broker) == [] || !old(broker)[0].LeaseFrame? || !LinkedLease(decision, old(broker)[0].lease)
        || old(core) == [] || !old(core)[0].ConsumeFrame?
        || !LinkedRequest(decision, old(broker)[0].lease, old(core)[0].request)
    {
      hide InStep, DurableBeforeEffect;
      hide Rank, Loadable, Cumulative, Held, Accounted, LinkedLease, LinkedRequest;
      hide LeaseMatches, RequestMatches;
      StillAccounted(trace, slot.journal, slot.directory.disk, slot.path);
      var leaseFrame := ReadBroker();
      if !leaseFrame.LeaseFrame? { return None; }
      LeaseIsLinked(decision, leaseFrame.lease);
      if !LeaseMatches(leaseFrame.lease, decision) { return None; }
      var sent := Send(LeaseToCore(leaseFrame.lease));
      if !sent { return None; }
      var requestFrame := ReadCore();
      if !requestFrame.ConsumeFrame? { return None; }
      RequestIsLinked(decision, leaseFrame.lease, requestFrame.request);
      if !RequestMatches(requestFrame.request, leaseFrame.lease) { return None; }
      return Some((leaseFrame.lease, requestFrame.request));
    }

    /** The intent is built and made durable. */
    method RecordIntent(decision: DecisionEvidence, lease: SignedLease, request: ConsumeRequest)
      returns (ok: bool, intent: Intent)
      requires Ready() && slot.journal.content.decision == Some(decision)
      modifies this`trace, this`faulty, slot, slot.directory
      ensures Safe(trace) && slot.directory.Valid() && Since(old(trace), old(slot.journal), None)
      ensures ConsumesSent(trace) == old(ConsumesSent(trace)) && Noted(ok, old(faulty), faulty)
      ensures ok ==>
        && Ready() && intent == IntentOf(decision, lease, request)
        && IntentOpen(old(slot.journal).content, slot.journal.content, request)
        && slot.journal.content.intent == Some(intent)
        && slot.journal == Intending(old(slot.journal), intent)
        && trace == old(trace) + [Durable(slot.journal)] && ConsumesSent(trace) == 0
      ensures !ok && !faulty ==> old(slot.journal).content.stage != DecisionVerified || !IsAllowed(decision)
    {
      hide InStep, DurableBeforeEffect;
      hide Held, Loadable, Cumulative, Guard, Assign, Rank, Licensed, IntentOpen, Accounted;
      hide A.Admits, Intending, Carried, Records, AlreadyRecorded;
      StillAccounted(trace, slot.journal, slot.directory.disk, slot.path);
      var body := IntentBody(decision.identity, lease, OfLease(lease), request, OfConsumeRequest(request), true);
      intent := Intent(OfIntent(body), body);
      var wellFormed := WellFormed();
      if !wellFormed { return false, intent; }
      ghost var was := slot.journal;
      IntentBuilt(was, decision, lease, request, intent);
      IntentAdmitted(was.content, decision, lease, request);
      NothingSentYet(trace, slot.directory.disk, slot.path, was);
      ok := RecordDurably(TheIntent(intent));
      if ok {
        IntentLicenses(was.content, slot.journal, intent);
        IntentIsStored(was.content, slot.journal.content, intent);
      }
    }

    /** The recorded intent is acknowledged to Core, and only then is the broker asked. */
    method AcknowledgeAndAsk(intent: Intent, request: ConsumeRequest) returns (ok: bool)
      requires Ready() && IntentNames(slot.journal.content, request) && ConsumesSent(trace) == 0
      requires slot.journal.content.intent == Some(intent)
      modifies this`trace, this`faulty
      ensures Ready() && Since(old(trace), slot.journal, None) && ConsumesSent(trace) <= 1
      ensures Noted(ok, old(faulty), faulty)
      ensures ok ==> trace == old(trace) + [IntentAckToCore(intent.identity), ConsumeToBroker(request)]
                     && ConsumesSent(trace) == 1
      ensures !ok ==> faulty
    {
      hide InStep, DurableBeforeEffect;
      hide Held, Loadable, Cumulative, Rank, Licensed, Accounted, IntentNames;
      IntentIsLicensed(slot.journal, intent, request);
      ghost var first, middle, was := trace, trace, slot.journal;
      ok := Send(IntentAckToCore(intent.identity));
      if !ok { return; }
      middle := trace;
      ok := Send(ConsumeToBroker(request));
      Join(first, middle, was, was, slot.directory.disk, None);
    }

    /** The intent is made durable, acknowledged to Core, and only then is the broker asked. */
    method ForwardRequest(decision: DecisionEvidence, lease: SignedLease, request: ConsumeRequest)
      returns (ok: bool)
      requires Ready() && slot.journal.content.decision == Some(decision)
      modifies this`trace, this`faulty, slot, slot.directory
      ensures Safe(trace) && slot.directory.Valid() && Since(old(trace), old(slot.journal), None)
      ensures ConsumesSent(trace) <= old(ConsumesSent(trace)) + 1 && Noted(ok, old(faulty), faulty)
      ensures ok ==>
        && Ready()
        && old(slot.journal).content.stage == DecisionVerified && IsAllowed(decision)
        && slot.journal == Intending(old(slot.journal), IntentOf(decision, lease, request))
        && trace == old(trace) + IntentEvents(old(slot.journal), decision, lease, request)
        && ConsumesSent(trace) == 1
      ensures !ok && !faulty ==> old(slot.journal).content.stage != DecisionVerified || !IsAllowed(decision)
    {
      hide InStep, DurableBeforeEffect;
      hide Held, Loadable, Cumulative, Accounted, Intending, IntentOf;
      ghost var first, was := trace, slot.journal;
      var intent;
      ok, intent := RecordIntent(decision, lease, request);
      if !ok { return; }
      IntentOpenNames(was.content, slot.journal.content, request);
      ghost var middle, mid := trace, slot.journal;
      ok := AcknowledgeAndAsk(intent, request);
      Join(first, middle, was, mid, slot.directory.disk, None);
    }

    /** The broker's answer is passed on to Core, and Core's admission of it collected. */
    method CollectAdmission(decision: DecisionEvidence, lease: SignedLease, request: ConsumeRequest)
      returns (r: Option<(SignedConsumeResponse, ConsumptionAdmission)>)
      requires Ready() && LinkedLease(decision, lease) && LinkedRequest(decision, lease, request)
      modifies this
      ensures Ready() && Since(old(trace), slot.journal, None) && ConsumesSent(trace) == old(ConsumesSent(trace))
      ensures Noted(r.Some?, old(faulty), faulty)
      ensures r.Some? ==>
        && old(broker) == [ResponseFrame(r.value.0)] + broker
        && old(core) == [ConsumptionAdmissionFrame(r.value.1)] + core
        && Linked(decision, lease, request, r.value.0, r.value.1)
        && trace == old(trace) + [ResponseToCore(r.value.0)]
      ensures r.None? && !faulty ==>
        || old(broker) == [] || !old(broker)[0].ResponseFrame?
        || old(core) == [] || !old(core)[0].ConsumptionAdmissionFrame?
        || !Linked(decision, lease, request, old(broker)[0].response, old(core)[0].consumptionAdmission)
    {
      hide InStep, DurableBeforeEffect;
      hide Rank, Loadable, Cumulative, Held, Accounted, Licensed;
      hide ResponseMatches, ConsumptionAdmissionMatches, LinkedLease, LinkedRequest, LinkedResponse, LinkedAdmission;
      StillAccounted(trace, slot.journal, slot.directory.disk, slot.path);
      var responseFrame := ReadBroker();
      if !responseFrame.ResponseFrame? { return None; }
      var response := responseFrame.response;
      ResponseIsLinked(decision, lease, request, response);
      if !ResponseMatches(response, request, lease) { return None; }
      NeedsNoLicense(Some(slot.journal), ResponseToCore(response));
      var sent := Send(ResponseToCore(response));
      if !sent { return None; }
      var admissionFrame := ReadCore();
      if !admissionFrame.ConsumptionAdmissionFrame? { return None; }
      var admission := admissionFrame.consumptionAdmission;
      ConsumptionIsLinked(decision, lease, request, response, admission);
      if !ConsumptionAdmissionMatches(admission, lease, request, response) { return None; }
      return Some((response, admission));
    }

    /** The consumption is made durable before it is acknowledged. */
    method AdmitConsumption(
      decision: DecisionEvidence, lease: SignedLease, request: ConsumeRequest,
      response: SignedConsumeResponse, admission: ConsumptionAdmission, ghost before: Journal)
      returns (r: Option<Consumption>)
      requires Ready() && before.content.decision == Some(decision) && IsAllowed(decision)
      requires slot.journal == Intending(before, IntentOf(decision, lease, request))
      modifies this`trace, this`faulty, slot, slot.directory
      ensures Safe(trace) && slot.directory.Valid() && Since(old(trace), old(slot.journal), None)
      ensures ConsumesSent(trace) == old(ConsumesSent(trace)) && Noted(r.Some?, old(faulty), faulty)
      ensures r.None? ==> faulty
      ensures r.Some? ==>
        && Ready() && r.value == ConsumptionOf(decision, lease, request, response, admission)
        && slot.journal == Consuming(old(slot.journal), r.value)
        && trace == old(trace) + [Durable(slot.journal), ConsumptionAckToCore(admission.identity)]
    {
      hide InStep, DurableBeforeEffect;
      hide Held, Loadable, Cumulative, Guard, Assign, Rank, Licensed, Accounted, A.Admits;
      hide IntentOf, Intending, ConsumptionOf, Consuming, AlreadyRecorded, Carried, Records, IntentNames;
      ghost var first, was := trace, slot.journal;
      StillAccounted(trace, slot.journal, slot.directory.disk, slot.path);
      var wellFormed := WellFormed();
      if !wellFormed { return None; }
      var body := ConsumptionBody(
        decision.identity, lease, OfLease(lease), request, OfConsumeRequest(request),
        response, OfConsumeResponse(response), admission, true);
      var evidence := Consumption(OfConsumption(body), body);
      ConsumptionBuilt(before, was, decision, lease, request, response, admission, evidence);
      var recorded := RecordDurably(TheConsumption(evidence));
      if !recorded { return None; }
      ConsumptionLicenses(was.content, slot.journal, evidence);
      ghost var middle := trace;
      var acknowledged := Send(ConsumptionAckToCore(admission.identity));
      Join(first, middle, was, slot.journal, slot.directory.disk, None);
      if !acknowledged { return None; }
      return Some(evidence);
    }

    /**
     The lease of an allowed decision is consumed, in one request to the broker at the most. `Some` means
     that the frames were a chain from the decision to an admitted consumption, and that the seven events of
     the exchange happened in their order; `None` means a fault or frames that are no such chain.
     */
    method RelayLeaseConsumption(decision: DecisionEvidence) returns (r: Option<Consumption>)
      requires Ready() && slot.journal.content.decision == Some(decision)
      modifies this, slot, slot.directory
      ensures Safe(trace) && slot.directory.Valid() && Since(old(trace), old(slot.journal), None)
      ensures Noted(r.Some?, old(faulty), faulty)
      ensures r.Some? ==>
        && Ready() && Consumed(trace, slot.journal.content, r.value)
        && slot.journal.content.decision == Some(decision) && slot.journal.content.consumption == r
        && var e := r.value;
        && old(broker) == [LeaseFrame(e.body.lease), ResponseFrame(e.body.response)] + broker
        && old(core) == [ConsumeFrame(e.body.request), ConsumptionAdmissionFrame(e.body.admission)] + core
        && trace == old(trace) + LeaseEvents(old(slot.journal), decision, e)
        && LeaseFits(old(broker), old(core), decision) && e == TheLease(old(broker), old(core), decision)
        && slot.journal.content.stage == ConsumptionVerified
        && slot.journal.content.invocation == old(slot.journal).content.invocation
      ensures r.None? && !faulty ==>
        || old(slot.journal).content.stage != DecisionVerified || !IsAllowed(decision)
        || !LeaseFits(old(broker), old(core), decision)
    {
      hide Since, Ready, Safe, InStep, DurableBeforeEffect, Held, Loadable, Cumulative, Consumed, Accounted;
      hide LinkedLease, LinkedRequest, Linked, IntentOf, Intending, ConsumptionOf, Consuming, IntentEvents, LeaseEvents;
      hide LeaseFits, TheLease;
      ghost var first, start, b, c := trace, slot.journal, broker, core;
      Starts();
      var agreed := AgreeOnRequest(decision);
      Starts();
      if agreed.None? {
        NoLease(b, c, decision);
        return None;
      }
      var (lease, request) := agreed.value;
      ghost var middle, disk, b1, c1 := trace, slot.directory.disk, broker, core;
      Facts(first, start);
      var forwarded := ForwardRequest(decision, lease, request);
      Join(first, middle, start, start, disk, None);
      if !forwarded { return None; }
      Starts();
      ghost var open := slot.journal;
      middle, disk := trace, slot.directory.disk;
      Facts(first, start);
      var collected := CollectAdmission(decision, lease, request);
      Join(first, middle, start, open, disk, None);
      Starts();
      if collected.None? {
        NoAdmission(b, c, b1, c1, decision, lease, request);
        return None;
      }
      var (response, admission) := collected.value;
      middle, disk := trace, slot.directory.disk;
      Facts(first, start);
      r := AdmitConsumption(decision, lease, request, response, admission, start);
      Join(first, middle, start, open, disk, None);
      if r.Some? {
        Starts();
        ConsumedNow(first, trace, start, slot.journal, decision, lease, request, response, admission, r.value);
        LeaseTaken(b, c, b1, c1, broker, core, decision, lease, request, response, admission);
      }
    }

    /** One decision goes to Core and comes back admitted. */
    method AdmitDecision(authorization: AuthorizationRequest, request: Id)
      returns (r: Option<(SignedDecision, DecisionAdmission)>)
      requires Ready()
      modifies this
      ensures Ready() && Since(old(trace), slot.journal, None) && ConsumesSent(trace) == old(ConsumesSent(trace))
      ensures Noted(r.Some?, old(faulty), faulty)
      ensures r.Some? ==>
        && old(broker) == [DecisionFrame(r.value.0)] + broker
        && old(core) == [DecisionAdmissionFrame(r.value.1)] + core
        && r.value.0.payload.messageKind == AuthorizationDecisionKind
        && LinkedDecision(authorization, request, r.value.0, r.value.1)
        && trace == old(trace) + [DecisionToCore(r.value.0)]
      ensures r.None? && !faulty ==>
        || old(broker) == [] || !old(broker)[0].DecisionFrame?
        || old(broker)[0].decision.payload.messageKind != AuthorizationDecisionKind
        || old(core) == [] || !old(core)[0].DecisionAdmissionFrame?
        || !LinkedDecision(authorization, request, old(broker)[0].decision, old(core)[0].admission)
    {
      hide InStep, DurableBeforeEffect;
      hide Rank, Loadable, Cumulative, Held, Accounted, Licensed, AdmissionMatches, LinkedDecision;
      StillAccounted(trace, slot.journal, slot.directory.disk, slot.path);
      var decisionFrame := ReadBroker();
      if !decisionFrame.DecisionFrame? { return None; }
      var decision := decisionFrame.decision;
      if decision.payload.messageKind != AuthorizationDecisionKind { return None; }
      NeedsNoLicense(Some(slot.journal), DecisionToCore(decision));
      var sent := Send(DecisionToCore(decision));
      if !sent { return None; }
      var admissionFrame := ReadCore();
      if !admissionFrame.DecisionAdmissionFrame? { return None; }
      var admission := admissionFrame.admission;
      AdmissionIsLinked(admission, authorization, request, decision);
      if !AdmissionMatches(admission, authorization, request, decision) { return None; }
      var wellFormed := WellFormed();
      if !wellFormed { return None; }
      return Some((decision, admission));
    }

    /** The admitted decision is recorded before it means anything. */
    method RelayDecision(authorization: AuthorizationRequest, request: Id) returns (r: Option<DecisionEvidence>)
      requires Ready()
      modifies this, slot, slot.directory
      ensures Safe(trace) && slot.directory.Valid() && Since(old(trace), old(slot.journal), None)
      ensures Noted(r.Some?, old(faulty), faulty)
      ensures r.Some? ==>
        && Ready() && slot.journal.content.decision == r
        && TookRound(old(broker), old(core), broker, core, authorization, request,
                     old(slot.journal), slot.journal, old(trace), trace, r.value)
        && (IsDenied(r.value) ==> DeniedUnasked(trace, slot.journal.content))
      ensures r.None? && !faulty ==>
        !DecisionFits(old(broker), old(core), authorization, request, old(slot.journal).content)
    {
      hide Since, Ready, Safe, InStep, DurableBeforeEffect, TookRound, DeniedUnasked;
      hide Held, Loadable, Cumulative, Guard, Assign, Rank, Records, Carried, AlreadyRecorded;
      hide Licensed, Accounted, A.Admits, LinkedDecision;
      ghost var first, start := trace, slot.journal;
      Starts();
      SlotIdentified(trace, slot.directory.disk, slot.path, start);
      var admitted := AdmitDecision(authorization, request);
      Starts();
      if admitted.None? { return None; }
      var (decision, admission) := admitted.value;
      Facts(first, start);
      var body := DecisionEvidenceBody(request, decision, OfDecision(decision), admission, true);
      var evidence := DecisionEvidence(OfDecisionEvidence(body), body);
      ghost var middle, disk := trace, slot.directory.disk;
      var recorded := RecordDurably(TheDecision(evidence));
      Join(first, middle, start, start, disk, None);
      if !recorded { return None; }
      Starts();
      DecisionRecorded(
        old(broker), old(core), broker, core, authorization, request, first, trace, slot.directory.disk, slot.path,
        start, slot.journal, evidence);
      return Some(evidence);
    }

    /**
     Decisions are relayed and recorded until one is final. `rounds` are the decisions that were relayed: all
     but the last are Pending. Without a fault it ends early only at a frame that does not fit.
     */
    method Deliberate(authorization: AuthorizationRequest, request: Id)
      returns (r: Option<DecisionEvidence>, ghost rounds: seq<DecisionEvidence>)
      requires Ready()
      modifies this, slot, slot.directory
      ensures Safe(trace) && slot.directory.Valid() && Since(old(trace), old(slot.journal), None)
      ensures Noted(r.Some?, old(faulty), faulty)
      ensures AllRelayed(old(broker), old(core), authorization, request, rounds)
      ensures r.Some? ==>
        && Ready() && rounds != [] && r == Some(rounds[|rounds| - 1]) && !IsPending(r.value)
        && TookRounds(old(broker), old(core), broker, core, authorization, request,
                      old(slot.journal), slot.journal, old(trace), trace, rounds)
        && (IsDenied(r.value) ==> DeniedUnasked(trace, slot.journal.content))
      ensures r.None? && !faulty ==>
        && AllPending(rounds)
        && !DecisionFits(old(broker)[|rounds|..], old(core)[|rounds|..], authorization, request,
                         AfterRounds(old(slot.journal), rounds).content)
    {
      hide Since, Ready, Safe, InStep, DurableBeforeEffect, TookRounds, TookRound, AllPending, AllRelayed;
      hide Held, Loadable, Cumulative, DeniedUnasked, Relayed, Accounted, DecisionFits, RoundEvents, AfterRounds;
      ghost var first, start := trace, slot.journal;
      rounds := [];
      NoRoundTaken(broker, core, authorization, request, start, trace);
      Starts();
      while true
        invariant Ready() && Since(first, start, None) && faulty == old(faulty)
        invariant Safe(trace) && slot.directory.Valid() && AllPending(rounds)
        invariant TookRounds(
            old(broker), old(core), broker, core, authorization, request, start, slot.journal, first, trace, rounds)
        decreases |broker|
      {
        ghost var middle, mid, disk, midB, midC := trace, slot.journal, slot.directory.disk, broker, core;
        Facts(first, start);
        TookFacts(
          old(broker), old(core), broker, core, authorization, request, start, slot.journal, first, trace, rounds);
        r := RelayDecision(authorization, request);
        Join(first, middle, start, mid, disk, None);
        if r.None? { return; }
        RoundTaken(
          old(broker), old(core), midB, midC, broker, core, authorization, request, start, mid, slot.journal,
          first, middle, trace, rounds, r.value);
        rounds := rounds + [r.value];
        if r.value.body.decision.payload.verdict != Pending {
          TookFacts(
            old(broker), old(core), broker, core, authorization, request, start, slot.journal, first, trace, rounds);
          Starts();
          return;
        }
        Starts();
      }
    }

    /** The whole negotiation: an Allowed decision is followed by the consumption of its lease. */
    method RelayDecisions(authorization: AuthorizationRequest, request: Id)
      returns (r: Option<Decided>, ghost rounds: seq<DecisionEvidence>)
      requires Ready()
      modifies this, slot, slot.directory
      ensures Safe(trace) && slot.directory.Valid() && Since(old(trace), old(slot.journal), None)
      ensures Noted(r.Some?, old(faulty), faulty)
      ensures AllRelayed(old(broker), old(core), authorization, request, rounds)
      ensures r.Some? ==> Ready() && rounds != []
      ensures r.Some? && r.value.WasAllowed? ==>
        && IsAllowed(rounds[|rounds| - 1]) && Consumed(trace, slot.journal.content, r.value.consumption)
        && slot.journal.content.decision == Some(rounds[|rounds| - 1])
        && slot.journal.content.consumption == Some(r.value.consumption)
        && slot.journal.content.stage == ConsumptionVerified
        && slot.journal.content.invocation == old(slot.journal).content.invocation
        && var b, c := old(broker)[|rounds|..], old(core)[|rounds|..];
        && LeaseFits(b, c, rounds[|rounds| - 1])
        && r.value.consumption == TheLease(b, c, rounds[|rounds| - 1])
        && trace == old(trace) + [AuthorizationToBroker] + RoundEvents(old(slot.journal), rounds)
             + LeaseEvents(AfterRounds(old(slot.journal), rounds), rounds[|rounds| - 1], r.value.consumption)
      ensures r.Some? && r.value.WasDenied? ==>
        && IsDenied(rounds[|rounds| - 1]) && DeniedUnasked(trace, slot.journal.content)
        && trace == old(trace) + [AuthorizationToBroker] + RoundEvents(old(slot.journal), rounds)
      ensures r.None? && !faulty ==>
        var b, c := old(broker)[|rounds|..], old(core)[|rounds|..];
        if rounds == [] || IsPending(rounds[|rounds| - 1])
        then !DecisionFits(b, c, authorization, request, AfterRounds(old(slot.journal), rounds).content)
        else IsAllowed(rounds[|rounds| - 1]) && !LeaseFits(b, c, rounds[|rounds| - 1])
    {
      hide InStep, DurableBeforeEffect;
      hide Held, Loadable, Cumulative, Rank, Consumed, DeniedUnasked, Relayed, Licensed, Accounted;
      hide DecisionFits, LeaseFits, LeaseEvents, RoundEvents, AfterRounds, Linked;
      ghost var first, middle, start := trace, trace, slot.journal;
      ghost var disk, mid;
      rounds := [];
      NeedsNoLicense(Some(slot.journal), AuthorizationToBroker);
      var asked := Send(AuthorizationToBroker);
      if !asked { return None, rounds; }
      middle, disk := trace, slot.directory.disk;
      var final;
      final, rounds := Deliberate(authorization, request);
      Join(first, middle, start, start, disk, None);
      if final.None? {
        assert rounds != [] ==> rounds[|rounds| - 1] in rounds;
        return None, rounds;
      }
      match final.value.body.decision.payload.verdict {
        case Pending => assert false;
        case Allowed =>
          RoundsKeepInvocation(start, rounds);
          middle, mid, disk := trace, slot.journal, slot.directory.disk;
          var consumption := RelayLeaseConsumption(final.value);
          Join(first, middle, start, mid, disk, None);
          if consumption.None? { return None, rounds; }
          return Some(WasAllowed(consumption.value)), rounds;
        case Denied =>
          return Some(WasDenied), rounds;
      }
    }

    /** The completion is recorded; whatever comes of it, what a crash may leave of it is end to end. */
    method RecordCompletion(consumption: Consumption, done: Completion) returns (ok: bool)
      requires Ready()
      modifies this`trace, this`faulty, slot, slot.directory
      ensures Safe(trace) && slot.directory.Valid() && Noted(ok, old(faulty), faulty)
      ensures ok ==> Ready() && slot.journal == Completing(old(slot.journal), done)
                     && Licensed(Some(slot.journal), CompletionAckToCore(done.identity))
      ensures trace == old(trace) + if ok then [Durable(slot.journal)] else []
      ensures old(Consumed(trace, slot.journal.content, consumption)) ==>
                && Since(old(trace), old(slot.journal), Some(done))
                && (ok ==> EndToEnd(trace, slot.journal.content, done))
      ensures !ok && !faulty ==> !A.Admits(old(slot.journal).content, TheCompletion(done))
    {
      hide InStep, DurableBeforeEffect;
      hide Held, Loadable, Cumulative, Guard, Rank, Consumed, EndToEnd, Licensed, Carried, A.Admits;
      hide Assign, Completing, AlreadyRecorded, Answers, Records;
      ghost var was, before := slot.journal, trace;
      ok := RecordDurably(TheCompletion(done));
      if ok {
        CompletionBuilt(was, slot.journal, done);
        CompletionLicenses(was.content, slot.journal, done);
      }
      if Consumed(before, was.content, consumption) {
        CompletionAnswers(before, trace, was, slot.journal, consumption, done);
      }
    }

    /**
     The end of the selected execution: check, persist and acknowledge Core's completion. However it ends,
     a completion that was made durable, or that a crash may leave, is end to end.
     */
    method FinishExecution(invocation: string, consumption: Consumption, done: Completion) returns (ok: bool)
      requires Ready()
      modifies this`trace, this`faulty, slot, slot.directory
      ensures Safe(trace) && slot.directory.Valid() && old(trace) <= trace && Noted(ok, old(faulty), faulty)
      ensures ok ==> Ready() && Completes(invocation, consumption, done)
      ensures ok ==> slot.journal == Completing(old(slot.journal), done)
                     && trace == old(trace) + [Durable(slot.journal), CompletionAckToCore(done.identity)]
      ensures old(Consumed(trace, slot.journal.content, consumption)) ==>
                && Since(old(trace), old(slot.journal), Some(done))
                && (ok ==> EndToEnd(trace, slot.journal.content, done))
      ensures !ok && !faulty && old(slot.journal).content.consumption == Some(consumption) ==>
                || old(slot.journal).content.stage != ConsumptionVerified
                || !Completes(invocation, consumption, done)
                || done.body.invocation != old(slot.journal).content.invocation
    {
      hide InStep, DurableBeforeEffect;
      hide Held, Loadable, Cumulative, Rank, Consumed, EndToEnd, Accounted, Completing;
      hide CompletionBound, Completes, Licensed, A.Admits;
      StillAccounted(trace, slot.journal, slot.directory.disk, slot.path);
      NotDone(trace, trace, slot.journal, slot.directory.disk, slot.path, temporary, done);
      CompletesExactly(invocation, consumption, done);
      if !CompletionBound(invocation, done, consumption) { return false; }
      ghost var was, before := slot.journal, trace;
      if was.content.consumption == Some(consumption) {
        CompletionAdmitted(was.content, consumption, done);
        CompletesFor(invocation, was.content.invocation, consumption, done);
      }
      var recorded := RecordCompletion(consumption, done);
      if !recorded { return false; }
      ghost var middle := trace;
      ok := Send(CompletionAckToCore(done.identity));
      if Consumed(before, was.content, consumption) {
        AcknowledgedIsAccounted(
          before, middle, trace, was, slot.journal, slot.directory.disk, slot.path, temporary, done);
      }
    }

    /** One invocation from the authorization request to the acknowledged completion. */
    method RunInvocation(
      authorization: AuthorizationRequest, request: Id, invocation: string, done: Completion)
      returns (ok: bool, ghost rounds: seq<DecisionEvidence>)
      requires Ready()
      modifies this, slot, slot.directory
      ensures Safe(trace) && Since(old(trace), old(slot.journal), Some(done)) && Noted(ok, old(faulty), faulty)
      ensures ok ==>
        && Ready() && EndToEnd(trace, slot.journal.content, done)
        && rounds != [] && slot.journal.content.consumption.Some?
        && var e := slot.journal.content.consumption.value;
        && Completes(invocation, e, done)
        && trace == old(trace) + [AuthorizationToBroker] + RoundEvents(old(slot.journal), rounds)
             + LeaseEvents(AfterRounds(old(slot.journal), rounds), rounds[|rounds| - 1], e)
             + [Durable(slot.journal), CompletionAckToCore(done.identity)]
      ensures AllRelayed(old(broker), old(core), authorization, request, rounds)
      ensures !ok && !faulty ==>
        var b, c := old(broker)[|rounds|..], old(core)[|rounds|..];
        if rounds == [] || IsPending(rounds[|rounds| - 1])
        then !DecisionFits(b, c, authorization, request, AfterRounds(old(slot.journal), rounds).content)
        else || IsDenied(rounds[|rounds| - 1])
             || !LeaseFits(b, c, rounds[|rounds| - 1])
             || !Completes(invocation, TheLease(b, c, rounds[|rounds| - 1]), done)
             || done.body.invocation != old(slot.journal).content.invocation
    {
      hide InStep, DurableBeforeEffect;
      hide Held, Loadable, Cumulative, Guard, Assign, Rank, EndToEnd, DeniedUnasked;
      hide Carried, Accounted, RoundEvents, AfterRounds, LeaseEvents, Relayed, Completes, DecisionFits;
      hide LeaseFits, Linked;
      ghost var first, start := trace, slot.journal;
      var decided;
      decided, rounds := RelayDecisions(authorization, request);
      NotDone(first, trace, start, slot.directory.disk, slot.path, temporary, done);
      if decided.None? || decided.value.WasDenied? { return false, rounds; }
      ghost var middle, mid, disk := trace, slot.journal, slot.directory.disk;
      ok := FinishExecution(invocation, decided.value.consumption, done);
      Join(first, middle, start, mid, disk, Some(done));
    }
  }
}
