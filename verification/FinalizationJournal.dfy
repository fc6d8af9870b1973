/** The finalization journal: the state retained after a slot is gone, until its evidence is archived. */
module FinalizationJournal {
  import opened Wrappers
  import opened Protocol
  import Names

  /** As in `Protocol`, an identity is a constructor over the record without its identity field. */
  datatype Identity =
    | Text(text: string)
    | OfFinalization(finalization: FinalizationBody)
    | OfSignedFinalization(signed: SignedBody)
    | OfArchiveRequest(request: ArchiveRequestBody)
    | OfSidecar(sidecar: SidecarBody)
    | OfSidecarPersistence(persistence: SidecarPersistenceBody)
    | OfTerminal(terminal: Terminal)
    | OfTerminalPersistence(terminalPersistence: TerminalPersistenceBody)
    | OfBlob(blob: BlobBody)
    | OfEntry(entry: EntryBody)
    | OfJournal(journal: Content)

  datatype FinalizationBody = FinalizationBody(completion: CompletionBody, wellFormed: bool)
  datatype Finalization = Finalization(identity: Identity, body: FinalizationBody)

  datatype SignedBody = SignedBody(finalization: Finalization, signature: string, wellFormed: bool)
  datatype SignedFinalization = SignedFinalization(identity: Identity, body: SignedBody)

  datatype ArchiveRequestBody = ArchiveRequestBody(
    authority: string, launcherRequest: string, crossing: string, receiptArchive: ContentIdentity,
    signedFinalization: Option<Identity>, wellFormed: bool)
  datatype ArchiveRequest = ArchiveRequest(identity: Identity, body: ArchiveRequestBody)

  datatype SignedArchive = SignedArchive(receiptArchive: ContentIdentity, crossing: string, identity: string)
  datatype SidecarBody = SidecarBody(signed: SignedFinalization, archive: SignedArchive, wellFormed: bool)
  datatype Sidecar = Sidecar(identity: Identity, body: SidecarBody)

  datatype SidecarPersistenceBody = SidecarPersistenceBody(request: Identity, sidecar: Identity, wellFormed: bool)
  datatype SidecarPersistence = SidecarPersistence(identity: Identity, body: SidecarPersistenceBody)

  datatype Terminal = Terminal(
    invocation: string, finalization: Option<Finalization>, result: string, wellFormed: bool)

  datatype TerminalPersistenceBody = TerminalPersistenceBody(
    invocation: string, terminal: Identity, wellFormed: bool)
  datatype TerminalPersistence = TerminalPersistence(identity: Identity, body: TerminalPersistenceBody)

  /** A file of the protected history: the object it holds and the inode it sits in. */
  datatype Metadata = Metadata(inode: nat, size: nat, contentIdentity: ContentIdentity)
  datatype BlobBody = BlobBody(contentIdentity: ContentIdentity, size: nat, metadata: Metadata)
  datatype Blob = Blob(identity: Identity, body: BlobBody)

  datatype EntryBody = EntryBody(
    authority: string, repositoryBinding: string, namespace: string, mapping: string, operator: string,
    directory: WorkingDirectory, launcherRequest: string, workUnit: string, crossing: string,
    archive: ContentIdentity, snapshot: ContentIdentity, sidecar: Identity, signedFinalization: Identity,
    signedArchive: string, journal: Identity, archiveSource: Metadata, snapshotSource: Metadata,
    archiveBlob: Blob, snapshotBlob: Blob, sidecarBlob: Blob)

  datatype Attachment = Attachment(
    schemaVersion: nat, catalog: Identity, repositoryBinding: string, namespace: string,
    archiveBlob: Identity, snapshotBlob: Identity, sidecarBlob: Identity, journal: Identity)

  datatype Stage =
    | Intended
    | SignedStage
    | ArchiveRequested
    | SidecarIssued
    | ProtectedHistoryAttached
    | SidecarAcknowledged
    | TerminalIssued

  /** A journal without its identity field. */
  datatype Content = Content(
    schemaVersion: nat, stage: Stage, invocation: string, mapping: string, launcherRequest: string,
    directory: WorkingDirectory, finalization: Finalization,
    signed: Option<SignedFinalization>, request: Option<ArchiveRequest>, sidecar: Option<Sidecar>,
    attachment: Option<Attachment>, persistence: Option<SidecarPersistence>, terminal: Option<Terminal>)

  datatype Journal = Journal(identity: Identity, content: Content)

  function Rank(stage: Stage): nat {
    match stage
    case Intended => 0
    case SignedStage => 1
    case ArchiveRequested => 2
    case SidecarIssued => 3
    case ProtectedHistoryAttached => 4
    case SidecarAcknowledged => 5
    case TerminalIssued => 6
  }

  // ---------------------------------------------------------------- validity

  predicate IsDigest(id: Identity) { id.Text? ==> Names.IsSha256(id.text) }

  predicate SelfFinalization(r: Finalization) { r.body.wellFormed && r.identity == OfFinalization(r.body) }
  predicate SelfSigned(r: SignedFinalization) { r.body.wellFormed && r.identity == OfSignedFinalization(r.body) }
  predicate SelfRequest(r: ArchiveRequest) { r.body.wellFormed && r.identity == OfArchiveRequest(r.body) }
  predicate SelfSidecar(r: Sidecar) { r.body.wellFormed && r.identity == OfSidecar(r.body) }
  predicate SelfPersistence(r: SidecarPersistence) {
    r.body.wellFormed && r.identity == OfSidecarPersistence(r.body)
  }
  predicate SelfTerminalPersistence(r: TerminalPersistence) {
    r.body.wellFormed && r.identity == OfTerminalPersistence(r.body)
  }

  predicate SignedFits(c: Content, signed: SignedFinalization) {
    SelfSigned(signed) && signed.body.finalization == c.finalization
  }

  predicate RequestFits(c: Content, request: ArchiveRequest) {
    && SelfRequest(request)
    && request.body.launcherRequest == c.launcherRequest
    && request.body.crossing == c.finalization.body.completion.crossing
    && c.finalization.body.completion.receiptArchive == Some(request.body.receiptArchive)
    && (request.body.signedFinalization.Some? ==>
          c.signed.Some? && c.signed.value.identity == request.body.signedFinalization.value)
  }

  predicate SidecarFits(c: Content, sidecar: Sidecar) {
    && SelfSidecar(sidecar)
    && c.signed == Some(sidecar.body.signed)
    && c.request.Some?
    && sidecar.body.archive.receiptArchive == c.request.value.body.receiptArchive
    && sidecar.body.archive.crossing == c.request.value.body.crossing
  }

  predicate PersistenceFits(c: Content, persistence: SidecarPersistence) {
    && SelfPersistence(persistence)
    && c.request.Some? && c.request.value.identity == persistence.body.request
    && c.sidecar.Some? && c.sidecar.value.identity == persistence.body.sidecar
  }

  predicate AttachmentFits(a: Attachment) {
    && a.schemaVersion == 1
    && AttachmentIsDigests(a)
  }

  predicate AttachmentIsDigests(a: Attachment) {
    && IsDigest(a.catalog) && Names.IsSha256(a.repositoryBinding) && Names.IsSha256(a.namespace)
    && IsDigest(a.archiveBlob) && IsDigest(a.snapshotBlob) && IsDigest(a.sidecarBlob)
    && IsDigest(a.journal)
  }

  predicate TerminalFits(c: Content, terminal: Terminal) {
    terminal.wellFormed && terminal.invocation == c.invocation && terminal.finalization == Some(c.finalization)
  }

  /** `stage_is_valid` */
  predicate StageValid(c: Content) {
    var signed := c.signed.Some? && SignedFits(c, c.signed.value);
    var request := c.request.Some? && RequestFits(c, c.request.value);
    var sidecar := c.sidecar.Some? && SidecarFits(c, c.sidecar.value);
    var persistence := c.persistence.Some? && PersistenceFits(c, c.persistence.value);
    var attachment := c.attachment.Some? && AttachmentFits(c.attachment.value);
    var terminal := c.terminal.Some? && TerminalFits(c, c.terminal.value);
    match c.stage
    case Intended =>
      c.signed.None? && c.request.None? && c.sidecar.None? && c.attachment.None?
      && c.persistence.None? && c.terminal.None?
    case SignedStage =>
      signed && c.request.None? && c.sidecar.None? && c.attachment.None?
      && c.persistence.None? && c.terminal.None?
    case ArchiveRequested =>
      signed && request && c.sidecar.None? && c.attachment.None? && c.persistence.None? && c.terminal.None?
    case SidecarIssued =>
      signed && request && sidecar && c.attachment.None? && c.persistence.None? && c.terminal.None?
    case ProtectedHistoryAttached =>
      signed && request && sidecar && attachment && c.persistence.None? && c.terminal.None?
    case SidecarAcknowledged =>
      signed && request && sidecar && (attachment || c.attachment.None?) && persistence && c.terminal.None?
    case TerminalIssued =>
      signed && request && sidecar && (attachment || c.attachment.None?) && persistence && terminal
  }

  predicate StartsWith(text: string, prefix: string) { prefix <= text }

  /** `finalization_journal_identity` */
  function JournalIdentity(c: Content): Option<Identity> {
    if && c.schemaVersion == 1
       && StartsWith(c.invocation, "invocation-")
       && StartsWith(c.mapping, "sha256:")
       && StartsWith(c.launcherRequest, "sha256:")
       && SelfDirectory(c.directory)
       && SelfFinalization(c.finalization)
       && c.invocation == c.finalization.body.completion.invocation
       && StageValid(c)
    then Some(OfJournal(c))
    else None
  }

  predicate Loadable(j: Journal) { JournalIdentity(j.content) == Some(j.identity) }

  // ---------------------------------------------------------------- transitions

  datatype Input =
    | TheSigned(signed: SignedFinalization)
    | TheRequest(request: ArchiveRequest)
    | TheSidecar(sidecar: Sidecar)
    | TheAttachment(attachment: Attachment)
    | ThePersistence(persistence: SidecarPersistence)
    | TheTerminal(terminal: Terminal)

  predicate Guard(j: Journal, input: Input) {
    var c := j.content;
    match input
    case TheSigned(signed) => c.stage == Intended && SignedFits(c, signed)
    case TheRequest(request) => c.signed.Some? && c.stage == SignedStage && RequestFits(c, request)
    case TheSidecar(sidecar) => c.request.Some? && c.stage == ArchiveRequested && SidecarFits(c, sidecar)
    case TheAttachment(a) =>
      && (c.stage == SidecarIssued || c.stage == SidecarAcknowledged || c.stage == TerminalIssued)
      && c.attachment.None?
      && AttachmentIsDigests(a)
      && a.journal == j.identity
    case ThePersistence(persistence) => c.stage == ProtectedHistoryAttached && PersistenceFits(c, persistence)
    case TheTerminal(terminal) => c.stage == SidecarAcknowledged && TerminalFits(c, terminal)
  }

  function Assign(c: Content, input: Input): Content {
    match input
    case TheSigned(signed) => c.(stage := SignedStage, signed := Some(signed))
    case TheRequest(request) => c.(stage := ArchiveRequested, request := Some(request))
    case TheSidecar(sidecar) => c.(stage := SidecarIssued, sidecar := Some(sidecar))
    case TheAttachment(a) =>
      c.(stage := if c.stage == SidecarIssued then ProtectedHistoryAttached else c.stage, attachment := Some(a))
    case ThePersistence(persistence) =>
      c.(stage := SidecarAcknowledged, persistence := Some(persistence))
    case TheTerminal(terminal) => c.(stage := TerminalIssued, terminal := Some(terminal))
  }

  predicate Records(j: Journal, input: Input, next: Journal) {
    Guard(j, input) && next.content == Assign(j.content, input) && Loadable(next)
  }

  function IntentContent(
    mapping: string, launcherRequest: string, directory: WorkingDirectory, finalization: Finalization): Content
  {
    Content(
      1, Intended, finalization.body.completion.invocation, mapping, launcherRequest, directory, finalization,
      None, None, None, None, None, None)
  }

  /** Whether the journal may be removed: attached, and its very terminal acknowledged. */
  predicate MayFinalize(c: Content, p: TerminalPersistence) {
    && c.terminal.Some?
    && c.stage == TerminalIssued
    && c.attachment.Some?
    && SelfTerminalPersistence(p)
    && p.body.invocation == c.invocation
    && c.terminal.value.wellFormed && p.body.terminal == OfTerminal(c.terminal.value)
  }

  // ---------------------------------------------------------------- what every record keeps

  predicate Kept<T(==)>(a: Option<T>, b: Option<T>) { a.Some? ==> b == a }

  /** The same journal, as far or further: nothing recorded in `a` is undone. */
  predicate Extends(a: Content, b: Content) {
    && a.invocation == b.invocation && a.mapping == b.mapping && a.launcherRequest == b.launcherRequest
    && a.directory == b.directory && a.finalization == b.finalization && a.schemaVersion == b.schemaVersion
    && Rank(a.stage) <= Rank(b.stage)
    && (Rank(a.stage) == Rank(b.stage) ==> a == b || (a.attachment.None? && Rank(a.stage) > Rank(SidecarIssued)))
    && Kept(a.signed, b.signed) && Kept(a.request, b.request) && Kept(a.sidecar, b.sidecar)
    && Kept(a.attachment, b.attachment) && Kept(a.persistence, b.persistence) && Kept(a.terminal, b.terminal)
  }

  /** The journal as it was when its history attachment was computed. */
  function PreAttachment(c: Content): Content {
    if Rank(c.stage) <= Rank(SidecarIssued) then c
    else c.(stage := SidecarIssued, attachment := None, persistence := None, terminal := None)
  }

  /** The identity that `attach_protected_history` puts in the catalog entry. */
  function HistoryIdentity(j: Journal): Identity {
    if j.content.attachment.Some? then j.content.attachment.value.journal else j.identity
  }

  /**
   Journals of a run that `begin` started: attached from `ProtectedHistoryAttached` on, and to the
   identity that the journal had just before.
   */
  predicate Begun(j: Journal) {
    && Loadable(j)
    && (Rank(j.content.stage) > Rank(SidecarIssued) <==> j.content.attachment.Some?)
    && HistoryIdentity(j) == OfJournal(PreAttachment(j.content))
  }

  lemma IntentIsBegun(j: Journal)
    requires Loadable(j) && j.content.stage == Intended
    ensures Begun(j)
  {
  }

  lemma RecordExtends(j: Journal, input: Input, next: Journal)
    requires Loadable(j) && Records(j, input, next)
    ensures Extends(j.content, next.content) && j.content != next.content
  {
    StageBounds(j.content);
    hide Loadable, StageValid, JournalIdentity, Extends;
    hide SignedFits, RequestFits, SidecarFits, PersistenceFits, TerminalFits, AttachmentIsDigests;
    if input.TheAttachment? {
      AttachingExtends(j, input);
    } else {
      AdvancingExtends(j, input);
    }
  }

  lemma AttachingExtends(j: Journal, input: Input)
    requires Shape(j.content) && Guard(j, input) && input.TheAttachment?
    ensures Extends(j.content, Assign(j.content, input)) && j.content != Assign(j.content, input)
  {
    hide AttachmentIsDigests;
  }

  /** The other records move to the next stage and fill what was empty. */
  lemma AdvancingExtends(j: Journal, input: Input)
    requires Shape(j.content) && Guard(j, input) && !input.TheAttachment?
    ensures Extends(j.content, Assign(j.content, input)) && j.content != Assign(j.content, input)
  {
    hide SignedFits, RequestFits, SidecarFits, PersistenceFits, TerminalFits;
    var c, d := j.content, Assign(j.content, input);
    assert Rank(c.stage) < Rank(d.stage);
  }

  /** Which records a stage carries. */
  predicate Shape(c: Content) {
    && (c.signed.Some? <==> Rank(c.stage) >= Rank(SignedStage))
    && (c.request.Some? <==> Rank(c.stage) >= Rank(ArchiveRequested))
    && (c.sidecar.Some? <==> Rank(c.stage) >= Rank(SidecarIssued))
    && (c.stage == ProtectedHistoryAttached ==> c.attachment.Some?)
    && (c.attachment.Some? ==> Rank(c.stage) > Rank(SidecarIssued))
    && (c.persistence.Some? <==> Rank(c.stage) >= Rank(SidecarAcknowledged))
    && (c.terminal.Some? <==> c.stage == TerminalIssued)
  }

  lemma StageBounds(c: Content)
    requires JournalIdentity(c).Some?
    ensures Shape(c)
  {
    hide SignedFits, RequestFits, SidecarFits, PersistenceFits, TerminalFits, AttachmentFits;
  }

  lemma RecordKeepsBegun(j: Journal, input: Input, next: Journal)
    requires Begun(j) && Records(j, input, next)
    ensures Begun(next)
  {
    StageBounds(j.content);
    StageBounds(next.content);
    LoadedIdentity(j);
    LoadedIdentity(next);
    hide Loadable, StageValid, JournalIdentity, Shape;
    if Rank(j.content.stage) >= Rank(SidecarIssued) {
      LatePreAttachment(j, input);
    } else {
      EarlyPreAttachment(j, input);
    }
  }

  lemma LatePreAttachment(j: Journal, input: Input)
    requires Shape(j.content) && Guard(j, input) && Rank(j.content.stage) >= Rank(SidecarIssued)
    requires Rank(j.content.stage) > Rank(SidecarIssued) <==> j.content.attachment.Some?
    ensures var d := Assign(j.content, input);
            && PreAttachment(d) == PreAttachment(j.content)
            && Rank(d.stage) > Rank(SidecarIssued) && d.attachment.Some?
            && d.attachment.value.journal == HistoryIdentity(j)
  {
    hide PersistenceFits, TerminalFits, AttachmentIsDigests;
  }

  lemma EarlyPreAttachment(j: Journal, input: Input)
    requires Shape(j.content) && Guard(j, input) && Rank(j.content.stage) < Rank(SidecarIssued)
    ensures var d := Assign(j.content, input);
            Rank(d.stage) <= Rank(SidecarIssued) && d.attachment.None? && PreAttachment(d) == d
  {
    hide SignedFits, RequestFits, SidecarFits;
  }

  lemma LoadedIdentity(j: Journal)
    requires Loadable(j)
    ensures j.identity == OfJournal(j.content)
  {
    hide StageValid;
  }

  lemma ExtendsTransitive(a: Content, b: Content, c: Content)
    requires Extends(a, b) && Extends(b, c)
    ensures Extends(a, c)
  {
  }

  /** Once the sidecar is issued, every later journal of the run attaches under the same identity. */
  lemma HistoryIdentityIsStable(a: Journal, b: Journal)
    requires Begun(a) && Begun(b) && Extends(a.content, b.content)
    requires Rank(a.content.stage) >= Rank(SidecarIssued)
    ensures HistoryIdentity(a) == HistoryIdentity(b)
  {
    StageBounds(a.content);
    StageBounds(b.content);
    SamePreAttachment(a.content, b.content);
    hide Loadable, StageValid, JournalIdentity, Shape, Extends, PreAttachment;
  }

  lemma SamePreAttachment(a: Content, b: Content)
    requires Shape(a) && Shape(b) && Extends(a, b) && Rank(a.stage) >= Rank(SidecarIssued)
    ensures PreAttachment(a) == PreAttachment(b)
  {
  }

  /**
   `stage_is_valid` still admits late journals without an attachment. They load, but no run that
   `begin` started contains one, and none of them may be removed.
   */
  lemma OlderStateIsAdmitted() returns (j: Journal)
    ensures Loadable(j) && j.content.stage == SidecarAcknowledged && j.content.attachment.None?
    ensures !Begun(j)
    ensures forall p :: !MayFinalize(j.content, p)
  {
    var wd := DirectoryBody("/", 0, 0, true);
    var completion := CompletionBody(
      "invocation-1", Protocol.Text(""), "", "", "", "", Some(Sha256([])), Completed, None, true);
    var fb := FinalizationBody(completion, true);
    var finalization := Finalization(OfFinalization(fb), fb);
    var sb := SignedBody(finalization, "", true);
    var signed := SignedFinalization(OfSignedFinalization(sb), sb);
    var rb := ArchiveRequestBody("", "sha256:", "", Sha256([]), None, true);
    var request := ArchiveRequest(OfArchiveRequest(rb), rb);
    var cb := SidecarBody(signed, SignedArchive(Sha256([]), "", ""), true);
    var sidecar := Sidecar(OfSidecar(cb), cb);
    var pb := SidecarPersistenceBody(request.identity, sidecar.identity, true);
    var persistence := SidecarPersistence(OfSidecarPersistence(pb), pb);
    j := LateWithoutAttachment(wd, finalization, signed, request, sidecar, persistence);
  }

  /** Such a journal exists for every chain of fitting records. */
  lemma LateWithoutAttachment(
    wd: DirectoryBody, finalization: Finalization, signed: SignedFinalization, request: ArchiveRequest,
    sidecar: Sidecar, persistence: SidecarPersistence)
    returns (j: Journal)
    requires wd.wellFormed && SelfFinalization(finalization)
    requires finalization.body.completion.invocation == "invocation-1"
    requires SelfSigned(signed) && signed.body.finalization == finalization
    requires SelfRequest(request) && request.body.launcherRequest == "sha256:"
    requires request.body.crossing == finalization.body.completion.crossing && request.body.signedFinalization.None?
    requires finalization.body.completion.receiptArchive == Some(request.body.receiptArchive)
    requires SelfSidecar(sidecar) && sidecar.body.signed == signed
    requires sidecar.body.archive.receiptArchive == request.body.receiptArchive
    requires sidecar.body.archive.crossing == request.body.crossing
    requires SelfPersistence(persistence)
    requires persistence.body.request == request.identity && persistence.body.sidecar == sidecar.identity
    ensures Loadable(j) && j.content.stage == SidecarAcknowledged && j.content.attachment.None?
    ensures !Begun(j)
    ensures forall p :: !MayFinalize(j.content, p)
  {
    hide SelfFinalization, SelfSigned, SelfRequest, SelfSidecar, SelfPersistence;
    var content := Content(
      1, SidecarAcknowledged, "invocation-1", "sha256:", "sha256:", WorkingDirectory(OfDirectory(wd), wd),
      finalization, Some(signed), Some(request), Some(sidecar), None, Some(persistence), None);
    j := Journal(OfJournal(content), content);
  }
}
