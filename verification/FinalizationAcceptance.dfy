/**
 What the finalization journal accepts, spelled out field by field: the chain from the finalization to its
 signature, the archive request, the sidecar, its acknowledgement and the terminal.
 */
module FinalizationAcceptance {
  import opened Wrappers
  import opened Protocol
  import opened FinalizationJournal
  import Names
  import A = SlotAcceptance

  /** The digest of a record, or text that reads like one. */
  predicate DigestLike(id: Identity) { !id.Text? || A.DigestText(id.text) }

  /** `sha256:` and 64 hexadecimal digits of either case. */
  predicate PathText(s: string) {
    && |s| == 71 && s[..7] == "sha256:"
    && forall i :: 7 <= i < 71 ==> '0' <= s[i] <= '9' || 'a' <= s[i] <= 'f' || 'A' <= s[i] <= 'F'
  }

  /** The signature is over this very finalization. */
  predicate SignsThis(c: Content, x: SignedFinalization) {
    x.body.wellFormed && x.identity == OfSignedFinalization(x.body) && x.body.finalization == c.finalization
  }

  /** The request is for the archive, the crossing and the launcher request of this finalization. */
  predicate RequestsThis(c: Content, x: ArchiveRequest) {
    && x.body.wellFormed && x.identity == OfArchiveRequest(x.body)
    && x.body.launcherRequest == c.launcherRequest
    && x.body.crossing == c.finalization.body.completion.crossing
    && c.finalization.body.completion.receiptArchive == Some(x.body.receiptArchive)
    && (x.body.signedFinalization.None?
        || (c.signed.Some? && x.body.signedFinalization == Some(c.signed.value.identity)))
  }

  /** The sidecar holds this signature and answers this request. */
  predicate AnswersThis(c: Content, x: Sidecar) {
    && x.body.wellFormed && x.identity == OfSidecar(x.body)
    && c.signed == Some(x.body.signed)
    && c.request.Some?
    && x.body.archive.receiptArchive == c.request.value.body.receiptArchive
    && x.body.archive.crossing == c.request.value.body.crossing
  }

  predicate AcknowledgesThis(c: Content, x: SidecarPersistence) {
    && x.body.wellFormed && x.identity == OfSidecarPersistence(x.body)
    && c.request.Some? && x.body.request == c.request.value.identity
    && c.sidecar.Some? && x.body.sidecar == c.sidecar.value.identity
  }

  predicate EndsThis(c: Content, x: Terminal) {
    x.wellFormed && x.invocation == c.invocation && x.finalization == Some(c.finalization)
  }

  predicate IsAttachment(x: Attachment) {
    && x.schemaVersion == 1
    && DigestLike(x.catalog) && A.DigestText(x.repositoryBinding) && A.DigestText(x.namespace)
    && DigestLike(x.archiveBlob) && DigestLike(x.snapshotBlob) && DigestLike(x.sidecarBlob) && DigestLike(x.journal)
  }

  lemma DigestsAreChecked(x: Attachment)
    ensures AttachmentIsDigests(x) && x.schemaVersion == 1 <==> IsAttachment(x)
  {
    forall t: string ensures Names.IsSha256(t) <==> A.DigestText(t) { A.TextsAreChecked(t); }
    hide Names.IsSha256, A.DigestText;
  }

  /** Whether the stage is this one or a later. */
  predicate From(c: Content, stage: FinalizationJournal.Stage) { Rank(c.stage) >= Rank(stage) }

  /** Which journals load: the chain as far as the stage has come, and nothing beyond it. */
  predicate Chain(c: Content) {
    && (if From(c, SignedStage) then c.signed.Some? && SignsThis(c, c.signed.value) else c.signed.None?)
    && (if From(c, ArchiveRequested) then c.request.Some? && RequestsThis(c, c.request.value) else c.request.None?)
    && (if From(c, SidecarIssued) then c.sidecar.Some? && AnswersThis(c, c.sidecar.value) else c.sidecar.None?)
    && (if From(c, ProtectedHistoryAttached)
        then (c.attachment.None? && c.stage != ProtectedHistoryAttached)
             || (c.attachment.Some? && IsAttachment(c.attachment.value))
        else c.attachment.None?)
    && (if From(c, SidecarAcknowledged)
        then c.persistence.Some? && AcknowledgesThis(c, c.persistence.value) else c.persistence.None?)
    && (if From(c, TerminalIssued) then c.terminal.Some? && EndsThis(c, c.terminal.value) else c.terminal.None?)
  }

  lemma LoadsExactly(j: Journal)
    ensures Loadable(j) <==>
              && var c := j.content;
              && j.identity == OfJournal(c) && c.schemaVersion == 1
              && "invocation-" <= c.invocation && "sha256:" <= c.mapping && "sha256:" <= c.launcherRequest
              && c.directory.body.wellFormed && c.directory.identity == OfDirectory(c.directory.body)
              && c.finalization.body.wellFormed && c.finalization.identity == OfFinalization(c.finalization.body)
              && c.finalization.body.completion.invocation == c.invocation
              && Chain(c)
  {
    FitsExactly(j.content);
    hide SignedFits, RequestFits, SidecarFits, PersistenceFits, TerminalFits, AttachmentFits;
    hide SignsThis, RequestsThis, AnswersThis, AcknowledgesThis, EndsThis, IsAttachment;
  }

  lemma FitsExactly(c: Content)
    ensures c.signed.Some? ==> (SignedFits(c, c.signed.value) <==> SignsThis(c, c.signed.value))
    ensures c.request.Some? ==> (RequestFits(c, c.request.value) <==> RequestsThis(c, c.request.value))
    ensures c.sidecar.Some? ==> (SidecarFits(c, c.sidecar.value) <==> AnswersThis(c, c.sidecar.value))
    ensures c.persistence.Some? ==>
              (PersistenceFits(c, c.persistence.value) <==> AcknowledgesThis(c, c.persistence.value))
    ensures c.terminal.Some? ==> (TerminalFits(c, c.terminal.value) <==> EndsThis(c, c.terminal.value))
    ensures c.attachment.Some? ==> (AttachmentFits(c.attachment.value) <==> IsAttachment(c.attachment.value))
  {
    if c.attachment.Some? {
      DigestsAreChecked(c.attachment.value);
    }
    hide AttachmentIsDigests, IsAttachment;
  }

  /** When a record is accepted: at its stage, with the record that continues the chain. */
  predicate Admits(j: Journal, input: Input) {
    var c := j.content;
    match input
    case TheSigned(x) => c.stage == Intended && SignsThis(c, x)
    case TheRequest(x) => c.stage == SignedStage && RequestsThis(c, x)
    case TheSidecar(x) => c.stage == ArchiveRequested && AnswersThis(c, x)
    case TheAttachment(x) =>
      && (c.stage == SidecarIssued || c.stage == SidecarAcknowledged || c.stage == TerminalIssued)
      && c.attachment.None? && IsAttachment(x) && x.journal == j.identity
    case ThePersistence(x) => c.stage == ProtectedHistoryAttached && AcknowledgesThis(c, x)
    case TheTerminal(x) => c.stage == SidecarAcknowledged && EndsThis(c, x)
  }

  /** Which inputs a record call refuses before it touches the journal in memory. */
  lemma RefusesUntouched(j: Journal, input: Input)
    ensures Guard(j, input) <==>
              var c := j.content;
              match input
              case TheSigned(x) => c.stage == Intended && SignsThis(c, x)
              case TheRequest(x) => c.stage == SignedStage && c.signed.Some? && RequestsThis(c, x)
              case TheSidecar(x) => c.stage == ArchiveRequested && AnswersThis(c, x)
              case TheAttachment(x) =>
                && (c.stage == SidecarIssued || c.stage == SidecarAcknowledged || c.stage == TerminalIssued)
                && c.attachment.None? && IsAttachment(x.(schemaVersion := 1)) && x.journal == j.identity
              case ThePersistence(x) => c.stage == ProtectedHistoryAttached && AcknowledgesThis(c, x)
              case TheTerminal(x) => c.stage == SidecarAcknowledged && EndsThis(c, x)
  {
    if input.TheAttachment? {
      DigestsAreChecked(input.attachment.(schemaVersion := 1));
    }
    hide Names.IsSha256, A.DigestText;
  }

  predicate Accepted(j: Journal, input: Input) {
    Guard(j, input) && JournalIdentity(Assign(j.content, input)).Some?
  }

  /** A record is refused as invalid exactly when the journal does not admit it. */
  lemma AcceptsExactly(j: Journal, input: Input)
    requires Loadable(j)
    ensures Accepted(j, input) <==> Admits(j, input)
  {
    var d := Assign(j.content, input);
    LoadsExactly(j);
    LoadsExactly(Journal(OfJournal(d), d));
    IdentityIsLoadable(d);
    hide Loadable, JournalIdentity, SelfDirectory;
    match input
    case TheSigned(x) => AcceptsSigned(j, x);
    case TheRequest(x) => AcceptsRequest(j, x);
    case TheSidecar(x) => AcceptsSidecar(j, x);
    case TheAttachment(x) => AcceptsAttachment(j, x);
    case ThePersistence(x) => AcceptsPersistence(j, x);
    case TheTerminal(x) => AcceptsTerminal(j, x);
  }

  lemma IdentityIsLoadable(d: Content)
    ensures JournalIdentity(d).Some? <==> Loadable(Journal(OfJournal(d), d))
  {
    hide StageValid;
  }

  lemma AcceptsSigned(j: Journal, x: SignedFinalization)
    requires Chain(j.content)
    ensures Guard(j, TheSigned(x)) && Chain(Assign(j.content, TheSigned(x))) <==> Admits(j, TheSigned(x))
  {
    FitsExactly(Assign(j.content, TheSigned(x)));
  }

  lemma AcceptsRequest(j: Journal, x: ArchiveRequest)
    requires Chain(j.content)
    ensures Guard(j, TheRequest(x)) && Chain(Assign(j.content, TheRequest(x))) <==> Admits(j, TheRequest(x))
  {
    FitsExactly(Assign(j.content, TheRequest(x)));
  }

  lemma AcceptsSidecar(j: Journal, x: Sidecar)
    requires Chain(j.content)
    ensures Guard(j, TheSidecar(x)) && Chain(Assign(j.content, TheSidecar(x))) <==> Admits(j, TheSidecar(x))
  {
    FitsExactly(Assign(j.content, TheSidecar(x)));
  }

  lemma AcceptsAttachment(j: Journal, x: Attachment)
    requires Chain(j.content)
    ensures Guard(j, TheAttachment(x)) && Chain(Assign(j.content, TheAttachment(x))) <==> Admits(j, TheAttachment(x))
  {
    DigestsAreChecked(x);
    hide AttachmentIsDigests, IsAttachment;
  }

  lemma AcceptsPersistence(j: Journal, x: SidecarPersistence)
    requires Chain(j.content)
    ensures Guard(j, ThePersistence(x)) && Chain(Assign(j.content, ThePersistence(x))) <==> Admits(j, ThePersistence(x))
  {
    FitsExactly(Assign(j.content, ThePersistence(x)));
    hide IsAttachment, AttachmentIsDigests;
  }

  lemma AcceptsTerminal(j: Journal, x: Terminal)
    requires Chain(j.content)
    ensures Guard(j, TheTerminal(x)) && Chain(Assign(j.content, TheTerminal(x))) <==> Admits(j, TheTerminal(x))
  {
    hide IsAttachment, AttachmentIsDigests;
  }

  /** What a record stores, and that it leaves everything else alone. */
  lemma RecordStores(j: Journal, input: Input, next: Journal)
    requires Records(j, input, next)
    ensures var c, d := j.content, next.content;
            && next.identity == OfJournal(d) && d.schemaVersion == c.schemaVersion
            && d.invocation == c.invocation && d.mapping == c.mapping && d.launcherRequest == c.launcherRequest
            && d.directory == c.directory && d.finalization == c.finalization
            && d.signed == (if input.TheSigned? then Some(input.signed) else c.signed)
            && d.request == (if input.TheRequest? then Some(input.request) else c.request)
            && d.sidecar == (if input.TheSidecar? then Some(input.sidecar) else c.sidecar)
            && d.attachment == (if input.TheAttachment? then Some(input.attachment) else c.attachment)
            && d.persistence == (if input.ThePersistence? then Some(input.persistence) else c.persistence)
            && d.terminal == (if input.TheTerminal? then Some(input.terminal) else c.terminal)
    ensures next.content.stage ==
              match input
              case TheSigned(_) => SignedStage
              case TheRequest(_) => ArchiveRequested
              case TheSidecar(_) => SidecarIssued
              case TheAttachment(_) =>
                if j.content.stage == SidecarIssued then ProtectedHistoryAttached else j.content.stage
              case ThePersistence(_) => SidecarAcknowledged
              case TheTerminal(_) => TerminalIssued
  {
    hide Guard, StageValid;
  }

  /** When the journal may be removed: attached, ended, and its very terminal acknowledged. */
  lemma ReleasesExactly(c: Content, p: TerminalPersistence)
    ensures MayFinalize(c, p) <==>
              && c.stage == TerminalIssued && c.attachment.Some?
              && p.body.wellFormed && p.identity == OfTerminalPersistence(p.body)
              && p.body.invocation == c.invocation
              && c.terminal.Some? && c.terminal.value.wellFormed && p.body.terminal == OfTerminal(c.terminal.value)
  {
  }
}
