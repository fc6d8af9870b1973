/** The active-slot journal: its validity, its transitions and what they preserve. */
module SlotJournal {
  import opened Wrappers
  import opened Protocol
  import Names

  datatype Journal = Journal(identity: Id, content: SlotContent)

  function Rank(stage: Stage): nat {
    match stage
    case IntentStage => 0
    case ChildPrepared => 1
    case ScopeAttached => 2
    case DecisionVerified => 3
    case ConsumptionIntentRecorded => 4
    case ConsumptionVerified => 5
    case CompletionRecorded => 6
  }

  // ---------------------------------------------------------------- validity

  predicate ChildBound(c: SlotContent) {
    && c.child.Some?
    && var child := c.child.value;
    && SelfChild(child)
    && child.body.invocation == c.invocation
    && child.body.request == c.request
    && child.body.mapping == c.mapping
    && child.body.directory == c.directory.identity
  }

  predicate ScopeBound(c: SlotContent) {
    && c.scope.Some?
    && var scope := c.scope.value;
    && SelfScope(scope)
    && scope.body.invocation == c.invocation
    && scope.body.request == c.request
    && c.child.Some?
    && scope.body.child == c.child.value.identity
    && scope.body.pid == c.child.value.body.pid
  }

  predicate CompletionBound(invocation: string, completion: Completion, consumption: Consumption) {
    var admission := consumption.body.admission;
    && SelfCompletion(completion)
    && completion.body.invocation == invocation
    && completion.body.admission == admission.identity
    && completion.body.workUnit == admission.body.workUnit
    && completion.body.crossingId == admission.body.crossingId
    && completion.body.pendingCrossing == admission.body.crossingIdentity
  }

  predicate IsAllowed(d: DecisionEvidence) { d.body.decision.payload.verdict == Allowed }
  predicate IsPending(d: DecisionEvidence) { d.body.decision.payload.verdict == Pending }
  predicate IsDenied(d: DecisionEvidence) { d.body.decision.payload.verdict == Denied }

  /** The per-stage check of `active_slot_identity`. */
  predicate StageValid(c: SlotContent) {
    match c.stage
    case IntentStage =>
      c.child.None? && c.scope.None? && c.decision.None? && c.intent.None?
      && c.consumption.None? && c.completion.None?
    case ChildPrepared =>
      ChildBound(c) && c.scope.None? && c.decision.None? && c.intent.None?
      && c.consumption.None? && c.completion.None?
    case ScopeAttached =>
      ChildBound(c) && ScopeBound(c) && c.decision.None? && c.intent.None?
      && c.consumption.None? && c.completion.None?
    case DecisionVerified =>
      ChildBound(c) && ScopeBound(c) && c.decision.Some? && SelfDecision(c.decision.value)
      && c.intent.None? && c.consumption.None? && c.completion.None?
    case ConsumptionIntentRecorded =>
      c.child.Some? && c.scope.Some?
      && c.decision.Some? && IsAllowed(c.decision.value)
      && c.intent.Some? && SelfIntent(c.intent.value)
      && c.intent.value.body.decisionRelay == c.decision.value.identity
      && c.consumption.None? && c.completion.None?
    case ConsumptionVerified =>
      ChildBound(c) && ScopeBound(c)
      && c.decision.Some? && SelfDecision(c.decision.value) && IsAllowed(c.decision.value)
      && c.consumption.Some? && SelfConsumption(c.consumption.value)
      && c.consumption.value.body.decisionRelay == c.decision.value.identity
      && c.intent.Some? && SelfIntent(c.intent.value)
      && c.intent.value.body.requestIdentity == c.consumption.value.body.requestIdentity
      && c.completion.None?
    case CompletionRecorded =>
      c.child.Some? && c.scope.Some? && c.decision.Some? && c.intent.Some? && c.consumption.Some?
      && c.completion.Some?
      && CompletionBound(c.invocation, c.completion.value, c.consumption.value)
  }

  /** `active_slot_identity`: the identity of a valid journal, `None` for `InvalidJournal`. */
  function SlotIdentity(c: SlotContent): Option<Id> {
    if && c.schemaVersion == 1
       && Names.IsLabel(c.invocation)
       && Names.IsSha256(c.mapping)
       && Names.IsSha256(c.request)
       && SelfDirectory(c.directory)
       && StageValid(c)
    then Some(OfSlot(c))
    else None
  }

  /** The checks of `load_journal` on a journal that decodes. */
  predicate Loadable(j: Journal) {
    SlotIdentity(j.content) == Some(j.identity)
  }

  // ---------------------------------------------------------------- transitions

  predicate SameAuthorizationRequest(a: DecisionEvidence, b: DecisionEvidence) {
    var p, q := a.body.decision.payload, b.body.decision.payload;
    && a.body.request == b.body.request
    && p.binding == q.binding
    && p.authority == q.authority
    && p.attestation == q.attestation
    && p.nonceCommitment == q.nonceCommitment
    && p.workUnit == q.workUnit
    && p.contract == q.contract
    && p.semanticScope == q.semanticScope
  }

  /** What a `record_*` call is given. */
  datatype Input =
    | TheChild(child: Child)
    | TheScope(scope: Scope)
    | TheDecision(decision: DecisionEvidence)
    | TheIntent(intent: Intent)
    | TheConsumption(consumption: Consumption)
    | TheCompletion(completion: Completion)

  /** The guard of the `record_*` methods, tested before the journal is touched. */
  predicate Guard(c: SlotContent, input: Input) {
    match input
    case TheChild(_) => c.stage == IntentStage && c.child.None?
    case TheScope(_) => c.stage == ChildPrepared && c.child.Some? && c.scope.None?
    case TheDecision(d) =>
      && SelfDecision(d)
      && c.child.Some? && c.scope.Some?
      && (|| (c.stage == ScopeAttached && c.decision.None?)
          || (c.stage == DecisionVerified && c.decision.Some?
              && (c.decision.value == d
                  || (IsPending(c.decision.value) && SameAuthorizationRequest(c.decision.value, d)))))
    case TheIntent(i) =>
      && SelfIntent(i)
      && c.stage == DecisionVerified
      && c.decision.Some? && c.decision.value.identity == i.body.decisionRelay
      && IsAllowed(c.decision.value)
      && c.intent.None? && c.consumption.None?
    case TheConsumption(e) =>
      && SelfConsumption(e)
      && c.stage == ConsumptionIntentRecorded
      && c.decision.Some? && c.decision.value.identity == e.body.decisionRelay
      && IsAllowed(c.decision.value)
      && c.consumption.None?
    case TheCompletion(e) =>
      && c.stage == ConsumptionVerified
      && c.completion.None?
      && c.consumption.Some?
      && CompletionBound(c.invocation, e, c.consumption.value)
  }

  /** A repeated decision is acknowledged without being written again. */
  predicate AlreadyRecorded(c: SlotContent, input: Input) {
    input.TheDecision? && c.stage == DecisionVerified && c.decision == Some(input.decision)
  }

  /** The assignments of the `record_*` methods. */
  function Assign(c: SlotContent, input: Input): SlotContent {
    match input
    case TheChild(child) => c.(stage := ChildPrepared, child := Some(child))
    case TheScope(scope) => c.(stage := ScopeAttached, scope := Some(scope))
    case TheDecision(d) => c.(stage := DecisionVerified, decision := Some(d))
    case TheIntent(i) => c.(stage := ConsumptionIntentRecorded, intent := Some(i))
    case TheConsumption(e) => c.(stage := ConsumptionVerified, consumption := Some(e))
    case TheCompletion(e) => c.(stage := CompletionRecorded, completion := Some(e))
  }

  /** The journal that `begin` writes. */
  function IntentContent(invocation: string, mapping: string, request: string, directory: WorkingDirectory)
    : SlotContent
  {
    SlotContent(1, IntentStage, invocation, mapping, request, directory, None, None, None, None, None, None)
  }

  /** `next` is the journal that recording `input` on `j` persists. */
  predicate Records(j: Journal, input: Input, next: Journal) {
    && Guard(j.content, input)
    && !AlreadyRecorded(j.content, input)
    && next.content == Assign(j.content, input)
    && Loadable(next)
  }

  /** `is_direct_successor`. */
  predicate IsDirectSuccessor(a: SlotContent, b: SlotContent) {
    match (a.stage, b.stage)
    case (IntentStage, ChildPrepared) =>
      a.child.None? && a.scope.None? && b.scope.None?
    case (ChildPrepared, ScopeAttached) =>
      a.child == b.child && a.scope.None? && b.scope.Some? && a.decision.None? && b.decision.None?
    case (ScopeAttached, DecisionVerified) =>
      a.child == b.child && a.scope == b.scope && a.decision.None? && b.decision.Some?
    case (DecisionVerified, ConsumptionIntentRecorded) =>
      a.child == b.child && a.scope == b.scope && a.decision == b.decision
      && a.intent.None? && b.intent.Some? && b.consumption.None?
    case (ConsumptionIntentRecorded, ConsumptionVerified) =>
      a.child == b.child && a.scope == b.scope && a.decision == b.decision
      && a.intent == b.intent && a.consumption.None? && b.consumption.Some?
    case (ConsumptionVerified, CompletionRecorded) =>
      a.child == b.child && a.scope == b.scope && a.decision == b.decision
      && a.intent == b.intent && a.consumption == b.consumption
      && a.completion.None? && b.completion.Some?
    case (DecisionVerified, DecisionVerified) =>
      a.child == b.child && a.scope == b.scope
      && a.decision.Some? && b.decision.Some?
      && (a.decision == b.decision
          || (IsPending(a.decision.value) && SameAuthorizationRequest(a.decision.value, b.decision.value)))
    case _ => false
  }

  predicate SameBinding(a: SlotContent, b: SlotContent) {
    && a.invocation == b.invocation
    && a.mapping == b.mapping
    && a.request == b.request
    && a.directory == b.directory
  }

  /** `b` may replace `a` at recovery. */
  predicate Step(a: Journal, b: Journal) {
    Loadable(a) && Loadable(b) && SameBinding(a.content, b.content) && IsDirectSuccessor(a.content, b.content)
  }

  // ---------------------------------------------------------------- what the transitions keep

  /** Everything a journal carries is bound to everything it carried before. */
  predicate Cumulative(c: SlotContent) {
    && SlotIdentity(c).Some?
    && (Rank(c.stage) >= 1 ==> ChildBound(c))
    && (Rank(c.stage) >= 2 ==> ScopeBound(c))
    && (Rank(c.stage) >= 3 ==> c.decision.Some? && SelfDecision(c.decision.value))
    && (Rank(c.stage) >= 4 ==>
          && IsAllowed(c.decision.value)
          && c.intent.Some? && SelfIntent(c.intent.value)
          && c.intent.value.body.decisionRelay == c.decision.value.identity)
    && (Rank(c.stage) >= 5 ==>
          && c.consumption.Some? && SelfConsumption(c.consumption.value)
          && c.consumption.value.body.decisionRelay == c.decision.value.identity
          && c.consumption.value.body.requestIdentity == c.intent.value.body.requestIdentity)
    && (Rank(c.stage) >= 6 ==>
          && c.completion.Some?
          && CompletionBound(c.invocation, c.completion.value, c.consumption.value))
    && (Rank(c.stage) < 1 ==> c.child.None?)
    && (Rank(c.stage) < 2 ==> c.scope.None?)
    && (Rank(c.stage) < 3 ==> c.decision.None?)
    && (Rank(c.stage) < 4 ==> c.intent.None?)
    && (Rank(c.stage) < 5 ==> c.consumption.None?)
    && (Rank(c.stage) < 6 ==> c.completion.None?)
  }

  predicate Kept<T(==)>(a: Option<T>, b: Option<T>) {
    a.Some? ==> b == a
  }

  /** `b` is the same slot life as `a`, the same or later: nothing recorded in `a` is undone. */
  predicate Extends(a: Journal, b: Journal) {
    var c, d := a.content, b.content;
    && SameBinding(c, d)
    && Rank(c.stage) <= Rank(d.stage)
    && (Rank(c.stage) == Rank(d.stage) ==> a == b || (c.stage == DecisionVerified && IsPendingIn(c)))
    && Kept(c.child, d.child)
    && Kept(c.scope, d.scope)
    && Kept(c.intent, d.intent)
    && Kept(c.consumption, d.consumption)
    && Kept(c.completion, d.completion)
    && (c.decision.Some? ==>
          && d.decision.Some?
          && SameAuthorizationRequest(c.decision.value, d.decision.value)
          && (!IsPending(c.decision.value) ==> d.decision == c.decision)
          && (IsDenied(c.decision.value) ==> d.stage == DecisionVerified))
  }

  predicate IsPendingIn(c: SlotContent) { c.decision.Some? && IsPending(c.decision.value) }

  lemma SameAuthorizationRequestIsEquivalence(a: DecisionEvidence, b: DecisionEvidence, c: DecisionEvidence)
    ensures SameAuthorizationRequest(a, a)
    ensures SameAuthorizationRequest(a, b) ==> SameAuthorizationRequest(b, a)
    ensures SameAuthorizationRequest(a, b) && SameAuthorizationRequest(b, c) ==> SameAuthorizationRequest(a, c)
  {
  }

  lemma IntentIsCumulative(j: Journal)
    requires Loadable(j) && j.content.stage == IntentStage
    ensures Cumulative(j.content)
  {
  }

  /** Recording produces exactly what recovery is prepared to promote. */
  lemma RecordIsStep(j: Journal, input: Input, next: Journal)
    requires Cumulative(j.content) && Loadable(j) && Records(j, input, next)
    ensures Step(j, next)
  {
  }

  /** The cumulative invariant survives a recorded change and a promotion alike. */
  lemma StepKeepsCumulative(a: Journal, b: Journal)
    requires Cumulative(a.content) && Step(a, b)
    ensures Cumulative(b.content)
    ensures Extends(a, b)
  {
    hide SelfDirectory, SelfChild, SelfScope, SelfDecision, SelfIntent, SelfConsumption, SelfCompletion;
    hide Names.IsSha256, Names.IsLabel;
    if a.content.stage == DecisionVerified && b.content.stage == DecisionVerified
       && a.content.decision == b.content.decision {
      assert a.content == b.content;
    }
  }

  lemma ExtendsTransitive(a: Journal, b: Journal, c: Journal)
    requires Extends(a, b) && Extends(b, c)
    ensures Extends(a, c)
  {
  }

  lemma ExtendsReflexive(a: Journal)
    requires Cumulative(a.content)
    ensures Extends(a, a)
  {
  }

  // ---------------------------------------------------------------- whole lives

  /** Successive journals of one slot life, each of which extends all the earlier ones. */
  ghost predicate Life(l: seq<Journal>) {
    && (forall i :: 0 <= i < |l| ==> Cumulative(l[i].content))
    && (forall i, j :: 0 <= i < j < |l| ==> Extends(l[i], l[j]))
  }

  /**
   What a journal binds all later ones of its slot life to. Decisions answer one authorization request
   and change only while Pending; a Denied slot never reaches a lease stage; there is one consumption,
   under one intent and one decision, and one completion.
   */
  predicate Binds(a: Journal, b: Journal) {
    var c, d := a.content, b.content;
    && Rank(c.stage) <= Rank(d.stage)
    && (c.decision.Some? ==>
          && d.decision.Some?
          && var p, q := c.decision.value.body, d.decision.value.body;
          && p.request == q.request
          && p.decision.payload.binding == q.decision.payload.binding
          && p.decision.payload.authority == q.decision.payload.authority
          && p.decision.payload.attestation == q.decision.payload.attestation
          && p.decision.payload.nonceCommitment == q.decision.payload.nonceCommitment
          && p.decision.payload.workUnit == q.decision.payload.workUnit
          && p.decision.payload.contract == q.decision.payload.contract
          && p.decision.payload.semanticScope == q.decision.payload.semanticScope
          && (c.decision != d.decision ==> IsPending(c.decision.value))
          && (IsDenied(c.decision.value) ==>
                Rank(d.stage) < Rank(ConsumptionIntentRecorded) && d.intent.None? && d.consumption.None?))
    && Kept(c.child, d.child) && Kept(c.scope, d.scope) && Kept(c.intent, d.intent)
    && (c.consumption.Some? ==>
          d.consumption == c.consumption && d.intent == c.intent && d.decision == c.decision)
    && Kept(c.completion, d.completion)
  }

  lemma ExtendedIsBound(a: Journal, b: Journal)
    requires Cumulative(a.content) && Cumulative(b.content) && Extends(a, b)
    ensures Binds(a, b)
  {
    hide SlotIdentity, ChildBound, ScopeBound, CompletionBound;
  }
}
