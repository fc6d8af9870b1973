/**
 What passes between broker, launcher and Core, and what a completed exchange is: which frames fit, and
 which events they cause, in which order.
 */
module RelayExchange {
  import opened Wrappers
  import opened Protocol
  import opened SlotJournal
  import A = SlotAcceptance

  datatype BrokerFrame =
    | DecisionFrame(decision: SignedDecision)
    | LeaseFrame(lease: SignedLease)
    | ResponseFrame(response: SignedConsumeResponse)
    | UnreadableBrokerFrame

  datatype CoreFrame =
    | DecisionAdmissionFrame(admission: DecisionAdmission)
    | ConsumeFrame(request: ConsumeRequest)
    | ConsumptionAdmissionFrame(consumptionAdmission: ConsumptionAdmission)
    | UnreadableCoreFrame

  datatype AuthorizationRequest = AuthorizationRequest(
    binding: string, attestation: string, workUnit: string, contract: string, semanticScope: string)

  /** What the relay does to the outside. A send counts from the moment it is attempted. */
  datatype Event =
    | AuthorizationToBroker
    | DecisionToCore(decision: SignedDecision)
    | LeaseToCore(lease: SignedLease)
    | IntentAckToCore(intent: Id)
    | ConsumeToBroker(request: ConsumeRequest)
    | ResponseToCore(response: SignedConsumeResponse)
    | ConsumptionAckToCore(admission: Id)
    | CompletionAckToCore(completion: Id)
    | Durable(journal: Journal)

  // ---------------------------------------------------------------- the decision

  /** Core admits this decision, for this request, under the authorization that was asked for. */
  predicate LinkedDecision(authorization: AuthorizationRequest, request: Id, d: SignedDecision, a: DecisionAdmission) {
    && a.body.wellFormed && a.identity == OfDecisionAdmission(a.body)
    && a.body.request == request && a.body.decision == OfDecision(d) && a.body.verdict == d.payload.verdict
    && a.body.binding == authorization.binding && a.body.attestation == authorization.attestation
    && a.body.workUnit == authorization.workUnit && a.body.contract == authorization.contract
    && a.body.semanticScope == authorization.semanticScope
  }

  function EvidenceOf(request: Id, d: SignedDecision, a: DecisionAdmission): DecisionEvidence {
    var body := DecisionEvidenceBody(request, d, OfDecision(d), a, true);
    DecisionEvidence(OfDecisionEvidence(body), body)
  }

  /** The next frames carry a decision that is admitted and that the slot may record. */
  predicate DecisionFits(
    broker: seq<BrokerFrame>, core: seq<CoreFrame>, authorization: AuthorizationRequest, request: Id, c: SlotContent)
  {
    && |broker| > 0 && broker[0].DecisionFrame? && broker[0].decision.payload.messageKind == AuthorizationDecisionKind
    && |core| > 0 && core[0].DecisionAdmissionFrame?
    && LinkedDecision(authorization, request, broker[0].decision, core[0].admission)
    && A.Admits(c, TheDecision(EvidenceOf(request, broker[0].decision, core[0].admission)))
  }

  /** The slot with this decision recorded. */
  function Deciding(j: Journal, d: DecisionEvidence): Journal {
    var c := j.content.(stage := DecisionVerified, decision := Some(d));
    Journal(OfSlot(c), c)
  }

  predicate Repeats(j: Journal, d: DecisionEvidence) {
    j.content.stage == DecisionVerified && j.content.decision == Some(d)
  }

  /** The slot after these decisions. */
  function AfterRounds(j: Journal, rounds: seq<DecisionEvidence>): Journal {
    if rounds == [] then j
    else
      var before := AfterRounds(j, rounds[..|rounds| - 1]);
      var d := rounds[|rounds| - 1];
      if Repeats(before, d) then before else Deciding(before, d)
  }

  /** Each decision goes to Core and is recorded, unless it repeats the last. */
  function RoundEvents(j: Journal, rounds: seq<DecisionEvidence>): seq<Event> {
    if rounds == [] then []
    else
      var front, d := rounds[..|rounds| - 1], rounds[|rounds| - 1];
      RoundEvents(j, front) + [DecisionToCore(d.body.decision)]
      + if Repeats(AfterRounds(j, front), d) then [] else [Durable(AfterRounds(j, rounds))]
  }

  lemma OneMoreRound(j: Journal, rounds: seq<DecisionEvidence>, d: DecisionEvidence)
    ensures var before := AfterRounds(j, rounds);
            && AfterRounds(j, rounds + [d]) == (if Repeats(before, d) then before else Deciding(before, d))
            && RoundEvents(j, rounds + [d]) == RoundEvents(j, rounds) + [DecisionToCore(d.body.decision)]
                 + (if Repeats(before, d) then [] else [Durable(Deciding(before, d))])
  {
    assert (rounds + [d])[..|rounds|] == rounds;
  }

  // ---------------------------------------------------------------- the lease

  /** The lease was issued on this decision. */
  predicate LinkedLease(d: DecisionEvidence, l: SignedLease) {
    && l.messageKind == LeaseIssuanceKind && l.decision == d.body.decisionIdentity
    && l.binding == d.body.decision.payload.binding && l.workUnit == d.body.decision.payload.workUnit
  }

  /** The request is for this lease, and for what the decision allowed. */
  predicate LinkedRequest(d: DecisionEvidence, l: SignedLease, q: ConsumeRequest) {
    && q.messageKind == LeaseConsumeKind && q.lease == OfLease(l)
    && q.binding == d.body.decision.payload.binding && q.workUnit == d.body.decision.payload.workUnit
  }

  /** The response is to this request, for this lease, for what the decision allowed. */
  predicate LinkedResponse(d: DecisionEvidence, l: SignedLease, q: ConsumeRequest, p: SignedConsumeResponse) {
    && p.messageKind == LeaseConsumeResponseKind && p.request == OfConsumeRequest(q) && p.lease == OfLease(l)
    && p.binding == d.body.decision.payload.binding && p.workUnit == d.body.decision.payload.workUnit
  }

  /** Core admits all three, with the crossing that was requested. */
  predicate LinkedAdmission(
    d: DecisionEvidence, l: SignedLease, q: ConsumeRequest, p: SignedConsumeResponse, a: ConsumptionAdmission)
  {
    && a.body.wellFormed && a.identity == OfConsumptionAdmission(a.body)
    && a.body.lease == OfLease(l) && a.body.request == OfConsumeRequest(q) && a.body.response == OfConsumeResponse(p)
    && a.body.binding == d.body.decision.payload.binding && a.body.workUnit == d.body.decision.payload.workUnit
    && a.body.crossingId == q.crossingId && a.body.crossingIdentity == q.crossingIdentity
  }

  predicate Linked(
    d: DecisionEvidence, l: SignedLease, q: ConsumeRequest, p: SignedConsumeResponse, a: ConsumptionAdmission)
  {
    LinkedLease(d, l) && LinkedRequest(d, l, q) && LinkedResponse(d, l, q, p) && LinkedAdmission(d, l, q, p, a)
  }

  function IntentOf(d: DecisionEvidence, l: SignedLease, q: ConsumeRequest): Intent {
    var body := IntentBody(d.identity, l, OfLease(l), q, OfConsumeRequest(q), true);
    Intent(OfIntent(body), body)
  }

  function ConsumptionOf(
    d: DecisionEvidence, l: SignedLease, q: ConsumeRequest, p: SignedConsumeResponse, a: ConsumptionAdmission)
    : Consumption
  {
    var body := ConsumptionBody(
      d.identity, l, OfLease(l), q, OfConsumeRequest(q), p, OfConsumeResponse(p), a, true);
    Consumption(OfConsumption(body), body)
  }

  /** The slot with the intent recorded. */
  function Intending(j: Journal, i: Intent): Journal {
    var c := j.content.(stage := ConsumptionIntentRecorded, intent := Some(i));
    Journal(OfSlot(c), c)
  }

  function Consuming(j: Journal, e: Consumption): Journal {
    var c := j.content.(stage := ConsumptionVerified, consumption := Some(e));
    Journal(OfSlot(c), c)
  }

  function Completing(j: Journal, done: Completion): Journal {
    var c := j.content.(stage := CompletionRecorded, completion := Some(done));
    Journal(OfSlot(c), c)
  }

  /** The intent is recorded, acknowledged and the request forwarded. */
  function IntentEvents(j: Journal, d: DecisionEvidence, l: SignedLease, q: ConsumeRequest): seq<Event> {
    var i := IntentOf(d, l, q);
    [Durable(Intending(j, i)), IntentAckToCore(i.identity), ConsumeToBroker(q)]
  }

  /** Everything that the consumption of a lease does, in this order. */
  function LeaseEvents(j: Journal, d: DecisionEvidence, e: Consumption): seq<Event> {
    var i := IntentOf(d, e.body.lease, e.body.request);
    [LeaseToCore(e.body.lease),
     Durable(Intending(j, i)), IntentAckToCore(i.identity), ConsumeToBroker(e.body.request),
     ResponseToCore(e.body.response),
     Durable(Consuming(Intending(j, i), e)), ConsumptionAckToCore(e.body.admission.identity)]
  }

  /** The next two frames of either peer are a chain from this decision to an admitted consumption. */
  predicate LeaseFits(broker: seq<BrokerFrame>, core: seq<CoreFrame>, d: DecisionEvidence) {
    && |broker| > 1 && broker[0].LeaseFrame? && broker[1].ResponseFrame?
    && |core| > 1 && core[0].ConsumeFrame? && core[1].ConsumptionAdmissionFrame?
    && Linked(d, broker[0].lease, core[0].request, broker[1].response, core[1].consumptionAdmission)
  }

  /** The consumption that these frames amount to. */
  function TheLease(broker: seq<BrokerFrame>, core: seq<CoreFrame>, d: DecisionEvidence): Consumption
    requires LeaseFits(broker, core, d)
  {
    ConsumptionOf(d, broker[0].lease, core[0].request, broker[1].response, core[1].consumptionAdmission)
  }

  // ---------------------------------------------------------------- the slot may record each of them

  lemma IntentAdmitted(c: SlotContent, d: DecisionEvidence, l: SignedLease, q: ConsumeRequest)
    requires c.decision == Some(d)
    ensures A.Admits(c, TheIntent(IntentOf(d, l, q))) <==> c.stage == DecisionVerified && IsAllowed(d)
  {
  }

  lemma ConsumptionAdmitted(j: Journal, d: DecisionEvidence, e: Consumption)
    requires j.content.decision == Some(d)
    requires e == ConsumptionOf(d, e.body.lease, e.body.request, e.body.response, e.body.admission)
    ensures A.Admits(Intending(j, IntentOf(d, e.body.lease, e.body.request)).content, TheConsumption(e))
  {
  }

  /** The completion of this invocation, for what this consumption admitted. */
  predicate Completes(invocation: string, e: Consumption, done: Completion) {
    && done.body.wellFormed && done.identity == OfCompletion(done.body)
    && done.body.invocation == invocation
    && done.body.admission == e.body.admission.identity
    && done.body.workUnit == e.body.admission.body.workUnit
    && done.body.crossingId == e.body.admission.body.crossingId
    && done.body.pendingCrossing == e.body.admission.body.crossingIdentity
  }

  lemma CompletionAdmitted(c: SlotContent, e: Consumption, done: Completion)
    requires c.consumption == Some(e)
    ensures A.Admits(c, TheCompletion(done)) <==> c.stage == ConsumptionVerified && Completes(c.invocation, e, done)
  {
  }

  lemma CompletesExactly(invocation: string, e: Consumption, done: Completion)
    ensures CompletionBound(invocation, done, e) <==> Completes(invocation, e, done)
  {
  }
}
