/**
 What the active slot accepts, spelled out field by field: which journals load, which records are
 accepted on them, and that recovery promotes exactly what a record can have written.
 */
module SlotAcceptance {
  import opened Wrappers
  import opened Protocol
  import Names
  import opened SlotJournal

  /** `sha256:` and 64 lower-case hexadecimal digits. */
  predicate DigestText(s: string) {
    && |s| == 71 && s[..7] == "sha256:"
    && forall i :: 7 <= i < 71 ==> '0' <= s[i] <= '9' || 'a' <= s[i] <= 'f'
  }

  /** One to 128 letters, digits, dashes, underscores and dots. */
  predicate LabelText(s: string) {
    && 1 <= |s| <= 128
    && forall c <- s :: 'a' <= c <= 'z' || 'A' <= c <= 'Z' || '0' <= c <= '9' || c in "-_."
  }

  lemma TextsAreChecked(s: string)
    ensures Names.IsSha256(s) <==> DigestText(s)
    ensures Names.IsLabel(s) <==> LabelText(s)
  {
    if |s| == 71 {
      assert forall i :: 0 <= i < 64 ==> s[7..][i] == s[i + 7];
      assert forall i :: 7 <= i < 71 ==> s[i] == s[7..][i - 7];
    }
    forall i | 0 <= i < |s| ensures s[i] in s {}
  }

  /** The child is this slot's own. */
  predicate OwnChild(c: SlotContent, x: Child) {
    && x.body.wellFormed && x.identity == OfChild(x.body)
    && x.body.invocation == c.invocation && x.body.request == c.request
    && x.body.mapping == c.mapping && x.body.directory == c.directory.identity
  }

  /** The scope is that of this slot's child. */
  predicate OwnScope(c: SlotContent, x: Scope) {
    && x.body.wellFormed && x.identity == OfScope(x.body)
    && x.body.invocation == c.invocation && x.body.request == c.request
    && c.child.Some? && x.body.child == c.child.value.identity && x.body.pid == c.child.value.body.pid
  }

  predicate OwnDecision(x: DecisionEvidence) { x.body.wellFormed && x.identity == OfDecisionEvidence(x.body) }

  predicate OwnIntent(x: Intent) { x.body.wellFormed && x.identity == OfIntent(x.body) }

  predicate OwnConsumption(x: Consumption) { x.body.wellFormed && x.identity == OfConsumption(x.body) }

  /** The completion is of this invocation and of what this consumption admitted. */
  predicate OwnCompletion(c: SlotContent, x: Completion) {
    && x.body.wellFormed && x.identity == OfCompletion(x.body)
    && x.body.invocation == c.invocation
    && c.consumption.Some?
    && var admission := c.consumption.value.body.admission;
    && x.body.admission == admission.identity
    && x.body.workUnit == admission.body.workUnit
    && x.body.crossingId == admission.body.crossingId
    && x.body.pendingCrossing == admission.body.crossingIdentity
  }

  /** Which records a journal carries at its stage. */
  predicate Carries(c: SlotContent) {
    && (c.child.Some? <==> c.stage != IntentStage)
    && (c.scope.Some? <==> c.stage != IntentStage && c.stage != ChildPrepared)
    && (c.decision.Some? <==> Late(c.stage) || c.stage == DecisionVerified)
    && (c.intent.Some? <==> Late(c.stage))
    && (c.consumption.Some? <==> c.stage == ConsumptionVerified || c.stage == CompletionRecorded)
    && (c.completion.Some? <==> c.stage == CompletionRecorded)
  }

  predicate Late(stage: Stage) {
    stage == ConsumptionIntentRecorded || stage == ConsumptionVerified || stage == CompletionRecorded
  }

  /** Which of them the loader checks again. The last stage checks its completion alone. */
  predicate Rechecked(c: SlotContent)
    requires Carries(c)
  {
    && (c.child.Some? && c.stage != ConsumptionIntentRecorded && c.stage != CompletionRecorded ==>
          OwnChild(c, c.child.value))
    && (c.scope.Some? && c.stage != ConsumptionIntentRecorded && c.stage != CompletionRecorded ==>
          OwnScope(c, c.scope.value))
    && (c.stage == DecisionVerified || c.stage == ConsumptionVerified ==> OwnDecision(c.decision.value))
    && (c.stage == ConsumptionIntentRecorded || c.stage == ConsumptionVerified ==>
          OwnIntent(c.intent.value) && c.decision.value.body.decision.payload.verdict == Allowed)
    && (c.stage == ConsumptionIntentRecorded ==>
          c.intent.value.body.decisionRelay == c.decision.value.identity)
    && (c.stage == ConsumptionVerified ==>
          && OwnConsumption(c.consumption.value)
          && c.consumption.value.body.decisionRelay == c.decision.value.identity
          && c.consumption.value.body.requestIdentity == c.intent.value.body.requestIdentity)
    && (c.stage == CompletionRecorded ==> OwnCompletion(c, c.completion.value))
  }

  /** Which journals load, record by record. */
  lemma LoadsExactly(j: Journal)
    ensures Loadable(j) <==>
              && var c := j.content;
              && j.identity == OfSlot(c) && c.schemaVersion == 1
              && LabelText(c.invocation) && DigestText(c.mapping) && DigestText(c.request)
              && c.directory.body.wellFormed && c.directory.identity == OfDirectory(c.directory.body)
              && Carries(c) && Rechecked(c)
  {
    TextsAreChecked(j.content.invocation);
    TextsAreChecked(j.content.mapping);
    TextsAreChecked(j.content.request);
    hide Names.IsSha256, Names.IsLabel, DigestText, LabelText;
  }

  /** The second decision answers the very request that the first left pending. */
  predicate AnswersTheSame(a: DecisionEvidence, b: DecisionEvidence) {
    && a.body.decision.payload.verdict == Pending
    && b.body.request == a.body.request
    && b.body.decision.payload.binding == a.body.decision.payload.binding
    && b.body.decision.payload.authority == a.body.decision.payload.authority
    && b.body.decision.payload.attestation == a.body.decision.payload.attestation
    && b.body.decision.payload.nonceCommitment == a.body.decision.payload.nonceCommitment
    && b.body.decision.payload.workUnit == a.body.decision.payload.workUnit
    && b.body.decision.payload.contract == a.body.decision.payload.contract
    && b.body.decision.payload.semanticScope == a.body.decision.payload.semanticScope
  }

  /** When a record is accepted: at its stage, and bound to what the journal holds. */
  predicate Admits(c: SlotContent, input: Input) {
    match input
    case TheChild(x) => c.stage == IntentStage && OwnChild(c, x)
    case TheScope(x) => c.stage == ChildPrepared && OwnScope(c, x)
    case TheDecision(x) =>
      && OwnDecision(x)
      && (|| c.stage == ScopeAttached
          || (c.stage == DecisionVerified && c.decision == Some(x))
          || (c.stage == DecisionVerified && c.decision.Some? && AnswersTheSame(c.decision.value, x)))
    case TheIntent(x) =>
      && c.stage == DecisionVerified && OwnIntent(x) && c.decision.Some?
      && c.decision.value.body.decision.payload.verdict == Allowed
      && x.body.decisionRelay == c.decision.value.identity
    case TheConsumption(x) =>
      && c.stage == ConsumptionIntentRecorded && OwnConsumption(x) && c.decision.Some? && c.intent.Some?
      && x.body.decisionRelay == c.decision.value.identity
      && x.body.requestIdentity == c.intent.value.body.requestIdentity
    case TheCompletion(x) => c.stage == ConsumptionVerified && OwnCompletion(c, x)
  }

  /** Which inputs a record call refuses before it touches the journal in memory. */
  lemma RefusesUntouched(c: SlotContent, input: Input)
    ensures Guard(c, input) <==>
              match input
              case TheChild(_) => c.stage == IntentStage && c.child.None?
              case TheScope(_) => c.stage == ChildPrepared && c.child.Some? && c.scope.None?
              case TheDecision(x) =>
                && OwnDecision(x) && c.child.Some? && c.scope.Some?
                && (if c.stage == ScopeAttached then c.decision.None?
                    else c.stage == DecisionVerified && c.decision.Some?
                         && (c.decision.value == x || AnswersTheSame(c.decision.value, x)))
              case TheIntent(x) =>
                && OwnIntent(x) && c.stage == DecisionVerified && c.decision.Some?
                && c.decision.value.body.decision.payload.verdict == Allowed
                && x.body.decisionRelay == c.decision.value.identity
                && c.intent.None? && c.consumption.None?
              case TheConsumption(x) =>
                && OwnConsumption(x) && c.stage == ConsumptionIntentRecorded && c.decision.Some?
                && c.decision.value.body.decision.payload.verdict == Allowed
                && x.body.decisionRelay == c.decision.value.identity
                && c.consumption.None?
              case TheCompletion(x) => c.stage == ConsumptionVerified && c.completion.None? && OwnCompletion(c, x)
  {
  }

  /** The guard passes and the journal that is then written is valid, or there is nothing to write. */
  predicate Accepted(c: SlotContent, input: Input) {
    Guard(c, input) && (AlreadyRecorded(c, input) || SlotIdentity(Assign(c, input)).Some?)
  }

  lemma AcceptsPreparation(c: SlotContent, input: Input)
    requires Cumulative(c) && (input.TheChild? || input.TheScope?)
    ensures Accepted(c, input) <==> Admits(c, input)
  {
    hide Names.IsSha256, Names.IsLabel, SelfDirectory;
  }

  lemma AcceptsDecision(c: SlotContent, input: Input)
    requires Cumulative(c) && input.TheDecision?
    ensures Accepted(c, input) <==> Admits(c, input)
  {
    hide Names.IsSha256, Names.IsLabel, SelfDirectory, CompletionBound;
    if c.stage == ScopeAttached || c.stage == DecisionVerified {
      BoundStays(c, Assign(c, input));
    }
  }

  lemma AcceptsIntent(c: SlotContent, input: Input)
    requires Cumulative(c) && input.TheIntent?
    ensures Accepted(c, input) <==> Admits(c, input)
  {
    hide Names.IsSha256, Names.IsLabel, SelfDirectory, CompletionBound;
  }

  lemma AcceptsConsumption(c: SlotContent, input: Input)
    requires Cumulative(c) && input.TheConsumption?
    ensures Accepted(c, input) <==> Admits(c, input)
  {
    BoundIsThere(c);
    hide Names.IsSha256, Names.IsLabel, SelfDirectory, CompletionBound, ChildBound, ScopeBound;
    if c.stage == ConsumptionIntentRecorded {
      BoundStays(c, Assign(c, input));
    }
  }

  lemma BoundIsThere(c: SlotContent)
    ensures ChildBound(c) ==> c.child.Some?
    ensures ScopeBound(c) ==> c.scope.Some?
  {
  }

  lemma AcceptsCompletion(c: SlotContent, input: Input)
    requires Cumulative(c) && input.TheCompletion?
    ensures Accepted(c, input) <==> Admits(c, input)
  {
    hide Names.IsSha256, Names.IsLabel, SelfDirectory;
  }

  lemma BoundStays(c: SlotContent, d: SlotContent)
    requires c.invocation == d.invocation && c.request == d.request && c.mapping == d.mapping
    requires c.directory == d.directory && c.child == d.child && c.scope == d.scope
    ensures ChildBound(c) <==> ChildBound(d)
    ensures ScopeBound(c) <==> ScopeBound(d)
  {
  }

  /** A record is refused as invalid exactly when the journal does not admit it. */
  lemma AcceptsExactly(c: SlotContent, input: Input)
    requires Cumulative(c)
    ensures Accepted(c, input) <==> Admits(c, input)
    ensures AlreadyRecorded(c, input) <==>
              input.TheDecision? && c.stage == DecisionVerified && c.decision == Some(input.decision)
  {
    hide Cumulative, Accepted, Admits;
    match input
    case TheChild(_) => AcceptsPreparation(c, input);
    case TheScope(_) => AcceptsPreparation(c, input);
    case TheDecision(_) => AcceptsDecision(c, input);
    case TheIntent(_) => AcceptsIntent(c, input);
    case TheConsumption(_) => AcceptsConsumption(c, input);
    case TheCompletion(_) => AcceptsCompletion(c, input);
  }

  /** What a record stores, and that it leaves everything else alone. */
  lemma RecordStores(j: Journal, input: Input, next: Journal)
    requires Records(j, input, next)
    ensures var c, d := j.content, next.content;
            && next.identity == OfSlot(d) && d.schemaVersion == c.schemaVersion
            && d.invocation == c.invocation && d.mapping == c.mapping
            && d.request == c.request && d.directory == c.directory
            && d.child == (if input.TheChild? then Some(input.child) else c.child)
            && d.scope == (if input.TheScope? then Some(input.scope) else c.scope)
            && d.decision == (if input.TheDecision? then Some(input.decision) else c.decision)
            && d.intent == (if input.TheIntent? then Some(input.intent) else c.intent)
            && d.consumption == (if input.TheConsumption? then Some(input.consumption) else c.consumption)
            && d.completion == (if input.TheCompletion? then Some(input.completion) else c.completion)
    ensures next.content.stage ==
              match input
              case TheChild(_) => ChildPrepared
              case TheScope(_) => ScopeAttached
              case TheDecision(_) => DecisionVerified
              case TheIntent(_) => ConsumptionIntentRecorded
              case TheConsumption(_) => ConsumptionVerified
              case TheCompletion(_) => CompletionRecorded
  {
    hide Guard, StageValid, Names.IsSha256, Names.IsLabel;
  }

  /** A decision that replaces another answers the same request, in all eight fields. */
  lemma ReplacedDecision(j: Journal, d: DecisionEvidence, next: Journal)
    requires Cumulative(j.content) && j.content.stage == DecisionVerified && Records(j, TheDecision(d), next)
    ensures AnswersTheSame(j.content.decision.value, d) && next.content.decision == Some(d)
  {
    AcceptsExactly(j.content, TheDecision(d));
    RecordStores(j, TheDecision(d), next);
    hide Guard, Loadable, Cumulative;
  }

  /** What recovery promotes over a journal is what a record on it can have written, and nothing else. */
  lemma StepIsRecord(a: Journal, b: Journal)
    requires Cumulative(a.content) && Loadable(a)
    ensures Step(a, b) <==> (a == b && a.content.stage == DecisionVerified) || exists input :: Records(a, input, b)
  {
    hide Names.IsSha256, Names.IsLabel;
    if Step(a, b) {
      StepRecords(a, b);
    }
    if input :| Records(a, input, b) {
      RecordIsStep(a, input, b);
    }
  }

  lemma StepRecords(a: Journal, b: Journal)
    requires Cumulative(a.content) && Step(a, b)
    ensures a == b || exists input :: Records(a, input, b)
    ensures a == b ==> a.content.stage == DecisionVerified
  {
    var d := b.content;
    var input := match d.stage
      case IntentStage => TheChild(Child(Text(""), ChildBody("", "", "", Text(""), 0, "", "", false)))
      case ChildPrepared => TheChild(d.child.value)
      case ScopeAttached => TheScope(d.scope.value)
      case DecisionVerified => TheDecision(d.decision.value)
      case ConsumptionIntentRecorded => TheIntent(d.intent.value)
      case ConsumptionVerified => TheConsumption(d.consumption.value)
      case CompletionRecorded => TheCompletion(d.completion.value);
    hide Names.IsSha256, Names.IsLabel, SelfDirectory;
    assert d == Assign(a.content, input);
    if a != b {
      assert Records(a, input, b);
    }
  }
}
