/**
 The records that the broker, the Core child and the launcher exchange, and their identities.

 An identity is the domain separated digest of a record without its own identity field. It is
 modelled as a constructor over that content, so two records share an identity only when they
 share their content. `Text` is any other string a peer may send in an identity field.

 `wellFormed` is the verdict of the protocol library's own validation of a record, which is not
 part of this model: an identity function refuses a record that is not well formed.
 */
module Protocol {
  import opened Wrappers

  datatype Id =
    | Text(text: string)
    | OfDirectory(directory: DirectoryBody)
    | OfChild(child: ChildBody)
    | OfScope(scope: ScopeBody)
    | OfDecision(decision: SignedDecision)
    | OfDecisionAdmission(decisionAdmission: DecisionAdmissionBody)
    | OfDecisionEvidence(decisionEvidence: DecisionEvidenceBody)
    | OfLease(lease: SignedLease)
    | OfConsumeRequest(consumeRequest: ConsumeRequest)
    | OfConsumeResponse(consumeResponse: SignedConsumeResponse)
    | OfConsumptionAdmission(consumptionAdmission: ConsumptionAdmissionBody)
    | OfIntent(intent: IntentBody)
    | OfConsumption(consumption: ConsumptionBody)
    | OfCompletion(completion: CompletionBody)
    | OfSlot(slot: SlotContent)

  datatype DirectoryBody = DirectoryBody(path: string, device: nat, inode: nat, wellFormed: bool)
  datatype WorkingDirectory = WorkingDirectory(identity: Id, body: DirectoryBody)

  datatype ChildBody = ChildBody(
    invocation: string, request: string, mapping: string, directory: Id, pid: int,
    startTime: string, binary: string, wellFormed: bool)
  datatype Child = Child(identity: Id, body: ChildBody)

  datatype ScopeBody = ScopeBody(
    invocation: string, request: string, child: Id, pid: int, unit: string, wellFormed: bool)
  datatype Scope = Scope(identity: Id, body: ScopeBody)

  datatype MessageKind =
    | AuthorizationDecisionKind
    | LeaseIssuanceKind
    | LeaseConsumeKind
    | LeaseConsumeResponseKind
    | OtherKind(text: string)

  datatype Verdict = Pending | Allowed | Denied

  datatype DecisionPayload = DecisionPayload(
    messageKind: MessageKind, verdict: Verdict, binding: string, authority: string, attestation: string,
    nonceCommitment: string, workUnit: string, contract: string, semanticScope: string)
  datatype SignedDecision = SignedDecision(payload: DecisionPayload, signature: string)

  datatype DecisionAdmissionBody = DecisionAdmissionBody(
    request: Id, decision: Id, binding: string, attestation: string, workUnit: string,
    contract: string, semanticScope: string, verdict: Verdict, wellFormed: bool)
  datatype DecisionAdmission = DecisionAdmission(identity: Id, body: DecisionAdmissionBody)

  datatype DecisionEvidenceBody = DecisionEvidenceBody(
    request: Id, decision: SignedDecision, decisionIdentity: Id, admission: DecisionAdmission,
    wellFormed: bool)
  datatype DecisionEvidence = DecisionEvidence(identity: Id, body: DecisionEvidenceBody)

  datatype SignedLease = SignedLease(
    messageKind: MessageKind, decision: Id, binding: string, workUnit: string, signature: string)
  datatype ConsumeRequest = ConsumeRequest(
    messageKind: MessageKind, lease: Id, binding: string, workUnit: string,
    crossingId: string, crossingIdentity: string)
  datatype SignedConsumeResponse = SignedConsumeResponse(
    messageKind: MessageKind, request: Id, lease: Id, binding: string, workUnit: string, signature: string)

  datatype ConsumptionAdmissionBody = ConsumptionAdmissionBody(
    lease: Id, request: Id, response: Id, binding: string, workUnit: string,
    crossingId: string, crossingIdentity: string, wellFormed: bool)
  datatype ConsumptionAdmission = ConsumptionAdmission(identity: Id, body: ConsumptionAdmissionBody)

  datatype IntentBody = IntentBody(
    decisionRelay: Id, lease: SignedLease, leaseIdentity: Id,
    request: ConsumeRequest, requestIdentity: Id, wellFormed: bool)
  datatype Intent = Intent(identity: Id, body: IntentBody)

  datatype ConsumptionBody = ConsumptionBody(
    decisionRelay: Id, lease: SignedLease, leaseIdentity: Id,
    request: ConsumeRequest, requestIdentity: Id,
    response: SignedConsumeResponse, responseIdentity: Id,
    admission: ConsumptionAdmission, wellFormed: bool)
  datatype Consumption = Consumption(identity: Id, body: ConsumptionBody)

  /** The digest of some bytes, or a string that is no digest. */
  datatype ContentIdentity = Sha256(bytes: seq<bv8>) | NoDigest(text: string)

  datatype Outcome = Completed | Failed | Cancelled
  datatype CompletionBody = CompletionBody(
    invocation: string, admission: Id, workUnit: string, crossingId: string,
    pendingCrossing: string, crossing: string, receiptArchive: Option<ContentIdentity>,
    outcome: Outcome, exitCode: Option<int>, wellFormed: bool)
  datatype Completion = Completion(identity: Id, body: CompletionBody)

  datatype Stage =
    | IntentStage
    | ChildPrepared
    | ScopeAttached
    | DecisionVerified
    | ConsumptionIntentRecorded
    | ConsumptionVerified
    | CompletionRecorded

  /** An active-slot journal without its identity field. */
  datatype SlotContent = SlotContent(
    schemaVersion: nat, stage: Stage, invocation: string, mapping: string, request: string,
    directory: WorkingDirectory, child: Option<Child>, scope: Option<Scope>,
    decision: Option<DecisionEvidence>, intent: Option<Intent>,
    consumption: Option<Consumption>, completion: Option<Completion>)

  predicate SelfDirectory(r: WorkingDirectory) { r.body.wellFormed && r.identity == OfDirectory(r.body) }
  predicate SelfChild(r: Child) { r.body.wellFormed && r.identity == OfChild(r.body) }
  predicate SelfScope(r: Scope) { r.body.wellFormed && r.identity == OfScope(r.body) }
  predicate SelfDecisionAdmission(r: DecisionAdmission) {
    r.body.wellFormed && r.identity == OfDecisionAdmission(r.body)
  }
  predicate SelfDecision(r: DecisionEvidence) {
    r.body.wellFormed && r.identity == OfDecisionEvidence(r.body)
  }
  predicate SelfConsumptionAdmission(r: ConsumptionAdmission) {
    r.body.wellFormed && r.identity == OfConsumptionAdmission(r.body)
  }
  predicate SelfIntent(r: Intent) { r.body.wellFormed && r.identity == OfIntent(r.body) }
  predicate SelfConsumption(r: Consumption) { r.body.wellFormed && r.identity == OfConsumption(r.body) }
  predicate SelfCompletion(r: Completion) { r.body.wellFormed && r.identity == OfCompletion(r.body) }
}
