# A verified model of the authority launcher's journals and relays

The authority launcher starts one protected child per principal, relays its authorization through a
broker, and leaves behind evidence that has to survive any crash. Its core is a set of write-once
journals and content-addressed stores on the file system, and the relay that drives them. This
project models that core and proves what it promises over whole runs: under failing calls, process
crashes, machine crashes, any frames from the two peers, and any interleaving of concurrent users.

`dafny verify dfyconfig.toml` checks everything.

## How the model is built

- **Disk** (`Durability.dfy`, `ProtectedDirectory.dfy`). A directory maps names to inodes. Creating,
  renaming and removing queue directory operations, which become durable at the next directory sync.
  A process crash keeps all of them, a machine crash any prefix. Writing a file and syncing it are two
  calls: what is written is there for every process, and a machine crash may tear any file that is not
  synced. Every call may fail; the directory counts failures, so that contracts can say that an error has a
  failed call behind it, and keeps the calls of its holder.
- **Identities** (`Protocol.dfy`, `FinalizationJournal.dfy`, `Attestation.dfy`). A domain-separated
  identity is a constructor over the record without its identity field, so identities are injective.
  What the protocol library checks inside a record is the record's `wellFormed` flag, which no proof
  looks into. Signatures are ideal.
- **Active slots**. `SlotJournal.dfy` has the journal, its validity, its transitions and what they
  preserve; `SlotAcceptance.dfy` spells out, field by field and without those definitions, what loads and
  what each record accepts; `SlotStore.dfy` what recovery makes of a directory; `SlotMachine.dfy` the store of many
  slots at the granularity of single file system calls, with its invariant. `SlotRuns.dfy`,
  `SlotProgress.dfy`, `SlotIsolation.dfy` and `SlotHistories.dfy` hold the results over whole runs;
  `SlotExposure.dfy` says when an acknowledged slot can be lost. `SlotRefusals.dfy` and
  `SlotWitnesses.dfy` have the exact conditions under which recovery refuses or a returned journal is
  taken back, with runs that get there, and `SlotLosses.dfy` the run that loses a slot. `ActiveSlot.dfy`
  and `SlotRecovery.dfy` are the code itself, the handle and `load_all` as methods over a directory, proved
  against the same functions; `SlotLinks.dfy` ties their calls and their stopping points to the machine.
- **Relay** (`RelayExchange.dfy`, `Relay.dfy`, `SecretDelivery.dfy`, `OutputRelay.dfy`). The relay loops
  run against any broker and Core frames and append what they do to a trace; recording goes through an
  `ActiveSlot`, with the calls of other slots in between. `RelayExchange.dfy` says which frames fit and which
  events they cause. A ghost flag notes whether any call failed, so that success and refusal are exact.
- **Finalization and history** (`FinalizationJournal.dfy`, `FinalizationAcceptance.dfy`,
  `FinalizationStore.dfy`, `ContentStore.dfy`, `ExactFile.dfy`, `ProtectedHistory.dfy`,
  `HistoryCatalog.dfy`, `EntryContents.dfy`), and in `ExecutionHistory.dfy` the journal of one execution and its attaches together. `AttachRuns.dfy` and
  `HistoryWitnesses.dfy` have attaches that complete, from `begin` on.
- **Attestation** (`Attestation.dfy`, `Issuance.dfy`) and **evidence capture** (`EvidenceCapture.dfy`).

## What did not hold

- `load_all` promotes a temporary that is a direct successor and syncs the directory, but not the file
  (src/active_slot.rs:181-198), while the process that wrote it may have died before its own file sync. The
  rename has then unlinked the acknowledged journal, and a machine crash can tear the only copy: the slot is
  gone, and recovery refuses the store (`SlotLosses.LostByPromotion`, `SlotLosses.AcknowledgedAndLost`). An
  acknowledged slot can be lost exactly when some image links its name to an unsynced file
  (`SlotExposure.LosableExactly`), and exactly such a promotion brings that about
  (`SlotExposure.ExposureIsPromotion`, `SlotExposure.PromotionExposes`). In runs without one, what calls
  acknowledged is never lost (`SlotExposure.CarefulOkIsNeverLost`). The other stores rename only files they
  have synced, and no crash tears one of theirs (`FinalizationStore.RunKeeps`, `ContentStore.StepKeeps`,
  `Issuance.TearingIsHarmless`).
- A crash while `begin` writes its first journal leaves a partial canonical file, and `load_all` then
  refuses the whole store, every other slot included (`SlotRefusals.HalfWrittenBegin` is such a run).
- The launcher finalizes a slot as soon as recording its child or scope fails
  (src/systemd_service.rs:1917-1925, 1950-1962). If the record left its temporary, the journal goes and
  the temporary stays, and recovery refuses the store. `SlotRefusals.FinalizeIsRefusedExactly` is the exact
  condition, `SlotWitnesses.RefusedAfterFinalize` a run. Together: recovery refuses if and only if a
  journal is half-written or a temporary has lost its journal (`SlotRuns.CrashRefinement`), and the
  second cannot happen where `finalize` is called only without a leftover temporary
  (`SlotRefusals.TidyCrashRefinement`).
- `load_all` syncs nothing when it finds nothing to repair, so a journal it returns can be taken back by a
  machine crash (`SlotWitnesses.ReturnedAndTakenBack`), and the slot can then acknowledge another, a
  different final decision for one (`SlotHistories.ReadBackAllowedThenDenied`). A slot is sure to be
  found again when nothing queued names it and its file is synced (`SlotWitnesses.UndisturbedIsSure`).
- Attachment is exactly once for attaches that start from the same request and sidecar, and only for them
  (`ExecutionHistory.AttachedOnce`, `AttachmentsAgreeExactly`). A sidecar that was loaded back and is not
  durable can be replaced by another after a machine crash, and an attach from each leaves two entries
  for one execution, in one run from `begin` (`HistoryWitnesses.SomeExecutionTwice`); repeating an attach is
  safe exactly when the sidecar is durable (`ExecutionHistory.PinnedExactly`).
- The finalization journal checks only the prefix of the launcher's request identity, while the catalog
  loader checks the whole digest. An execution can be attached whose entry makes every load of its namespace
  fail (`HistoryWitnesses.PreparedMayBeUnreadable`; `HistoryCatalog.CatalogLoadsExactly` is the condition).
- The catalog loader reads staging files only to check them. One that its writer renames or removes between
  the listing and the read makes the whole load fail (`HistoryCatalog.LoadPublished`,
  `HistoryCatalog.StagingFileVanishes`).
- The attestor returns a stored response without syncing its directory. Over process crashes a request
  is signed once; over machine crashes it is signed once if every reused file is durable
  (`Issuance.DurableReuseIsEnough`), and the reuse of one that is not can be followed by a second
  signature (`Issuance.UndurableReuseSignsTwice`, `Issuance.SignedTwice`).
- A capture that finds its bundle already retained publishes the record without syncing the store, also
  when the run that renamed the bundle died before it did (the clause on `storeSynced` of
  `EvidenceCapture.CaptureStore.Capture`).
- A temporary named after a process id is never removed, and blocks every later call with that id
  (`FinalizationStore.StaleTemporaryBlocks`, `Issuance.StaleTemporaryBlocks`).
- The nested control flow of the secret-delivery relay and its transition function differ on one input:
  a first frame of a snapshot kind is decoded as a completion instead of being refused
  (`SecretDelivery.NestedAgreesWithFold`). Whether such a completion passes is then up to the protocol
  library's check of its identity.
- Output frame numbers saturate, so they repeat from frame 2^64 on (`OutputRelay.NoRepeatExactly`).
- `stage_is_valid` admits late finalization journals without a history attachment; no run that `begin`
  started contains one, and none of them may be removed (`FinalizationJournal.OlderStateIsAdmitted`).

## Model

| member | source | states |
|---|---|---|
| `Names.Classify` | src/active_slot.rs:124-151 | recovery's reading of a file name loses nothing: the name renders back to the text, and it is foreign unless it is a canonical slot name or a temporary of a bounded label |
| `Names.ClassifyInvertsRender` | src/active_slot.rs:772-777 | names that the store writes are read back as what they were written for |
| `Names.NamesAreDistinct` | src/active_slot.rs:772-813 | two slots share a file exactly when they have the same mapping, and no journal is taken for a temporary |
| `Names.FileNames` | src/active_slot.rs:772-777 | the names themselves: 64 digits and `.json`, and the hidden temporary of an invocation |
| `SlotJournal.SameAuthorizationRequestIsEquivalence` | src/active_slot.rs:726-754 | agreement on the eight authorization fields is an equivalence |
| `SlotJournal.IntentIsCumulative` | src/active_slot.rs:210-243 | the journal that `begin` writes satisfies the cumulative invariant |
| `SlotJournal.RecordIsStep` | src/active_slot.rs:246-418 | whatever a record call persists is a direct successor that recovery is prepared to promote |
| `SlotJournal.StepKeepsCumulative` | src/active_slot.rs:447-518 | any valid journal that passes `is_direct_successor` keeps the full chain of bindings (child, scope, Allowed decision, intent, consumption, completion), also at the stages whose own check tests only presence, and undoes nothing |
| `SlotJournal.ExtendedIsBound` | src/active_slot.rs:447-518 | a journal binds every continuation: decisions answer one request, in eight fields written out, and change only while Pending, Denied never reaches a lease stage, one consumption and one completion |
| `SlotAcceptance.TextsAreChecked` | src/active_slot.rs:833-847 | what passes for a label and for a digest, character by character |
| `SlotAcceptance.LoadsExactly` | src/active_slot.rs:519-724 | which journals load, if and only if, record by record: what a stage carries and what of it is checked again |
| `SlotAcceptance.AcceptsExactly` | src/active_slot.rs:246-418 | when each of the six records is accepted on a cumulative journal, if and only if, with every binding written out and a Pending decision replaced exactly for the same eight fields |
| `SlotAcceptance.RefusesUntouched` | src/active_slot.rs:246-418 | which inputs are refused before the journal in memory is touched |
| `SlotAcceptance.RecordStores` | src/active_slot.rs:246-418 | a record stores its input at its stage and leaves every other field alone |
| `SlotAcceptance.ReplacedDecision` | src/active_slot.rs:318-328 | a decision that replaces another follows a Pending one and agrees with it in all eight fields |
| `SlotAcceptance.StepIsRecord` | src/active_slot.rs:447-518 | recovery promotes over a journal exactly what a record on it can have written |
| `SlotStore.RecoveryOpKeepsOutcome` | src/active_slot.rs:146-196 | one removal or promotion changes neither the slots that recovery returns nor its refusal |
| `SlotStore.RecoveryOpKeepsJournals` | src/active_slot.rs:181-198 | recovery drops no journal and replaces none except by a direct successor |
| `SlotStore.RecoveryIsRestartable` | src/active_slot.rs:146-207 | stopping recovery after any of its operations and running it again gives the slots or the refusal of an uninterrupted run |
| `SlotStore.OrphanTemporaryIsRefused` | src/active_slot.rs:146-178 | a temporary without a journal of its invocation makes recovery refuse the store |
| `SlotMachine.BeginIsExclusive` | src/active_slot.rs:210-244 | a journal can be created only for a mapping without a live slot |
| `SlotMachine.AcceptsUnlessDamaged` | src/active_slot.rs:109-208 | recovery accepts a directory that a crash can leave, exactly unless a journal is half-written or a temporary has lost its journal |
| `SlotIsolation.StepIsolated` | src/active_slot.rs:772-813 | no call of one slot alters the journal, the temporary or the handle of another |
| `SlotIsolation.RunIsolated` | src/active_slot.rs:210-445 | over any stretch of a run in which only others act, a slot stays as it is |
| `SlotIsolation.HeldIsolated` | src/active_slot.rs:772-819 | what a slot has made durable, in every image, no call of another slot disturbs |
| `SlotIsolation.SlotsAreApart` | src/active_slot.rs:772-813 | in every reachable state two live slots have different mappings, paths and temporaries |
| `SlotMachine.RecoveredIsPossible` | src/active_slot.rs:109-208 | what recovery settles on for a slot is a journal that the slot may be at |
| `SlotRuns.ActionKeeps` | src/active_slot.rs:109-445 | every file system call of every slot, write and file sync apart, every failure, every crash whatever it tears, and every recovery step keeps the invariant of the store |
| `SlotRuns.CrashRefinement` | src/active_slot.rs:109-208 | after any run, `finalize` on failed handles included, and any crash, whatever it keeps and tears: recovery refuses if and only if a journal is half-written or a temporary has lost its journal, and otherwise returns for each slot a journal it may be at; refused or not, every acknowledged slot whose file is not torn is there, at or beyond all it acknowledged |
| `SlotRuns.LastOrNext` | src/active_slot.rs:246-418 | for a handle that has not failed, a crash leaves the journal last acknowledged or the one being written; a refused store without orphans has a slot being opened or one whose file was never synced |
| `SlotRuns.AcknowledgementStands` | src/active_slot.rs:441-445 | only the start of its own finalization, or a crash that tears its file, takes an acknowledgement away |
| `SlotRuns.OkIsNeverLost` | src/active_slot.rs:246-418 | until its slot is finalized or torn, every crash of every later state leaves an acknowledged journal or a continuation of it, whether or not recovery accepts the store |
| `SlotExposure.LosableExactly` | src/active_slot.rs:181-198 | an acknowledged slot can be lost to a machine crash exactly when some image links its name to a file that was never synced |
| `SlotExposure.TornIsLost` | src/active_slot.rs:181-198 | a crash that tears its file takes the slot from recovery, which then refuses the store |
| `SlotExposure.ExposureIsPromotion` | src/active_slot.rs:181-198 | of all actions only a recovery that promotes an unsynced temporary exposes an acknowledged slot |
| `SlotExposure.PromotionExposes` | src/active_slot.rs:181-198 | every such promotion does |
| `SlotExposure.AcknowledgedIsClean` | src/active_slot.rs:779-819 | over every run without such a promotion, the files of acknowledged slots are synced in every image |
| `SlotExposure.CarefulOkIsNeverLost` | src/active_slot.rs:246-418 | over every run without such a promotion, an acknowledged slot is lost to no crash until it is finalized |
| `SlotExposure.CarefulLastOrNext` | src/active_slot.rs:210-244 | in such a run a refused store without orphans owes it to a slot that nothing was acknowledged for |
| `SlotLosses.LostByPromotion` | src/active_slot.rs:181-198 | from any calm state: a record dies between its write and its file sync, recovery promotes and returns the slot, the machine crashes, and the acknowledged slot is gone |
| `SlotLosses.AcknowledgedAndLost` | src/active_slot.rs:793-797 | such a run from the empty store, without a finalization |
| `SlotRuns.RecoveryKeepsOutcome` | src/active_slot.rs:146-196 | a recovery in progress keeps what it is going to return, in memory and in every image it leaves |
| `SlotRuns.RecoveryReturnsOutcome` | src/active_slot.rs:199-207 | a completed recovery holds exactly the slots it promised, each as it stands on disk |
| `SlotProgress.ChangeIsStep` | src/active_slot.rs:246-418 | without a machine crash a journal on disk is replaced only by its direct successor, and removed only by its own finalization |
| `SlotProgress.NeverFallsBack` | src/active_slot.rs:246-418 | over every such run the stage never falls, and child, scope, intent, consumption, completion and final decision never change |
| `SlotHistories.AcknowledgedBinds` | src/active_slot.rs:295-418 | over every run, crashes and recoveries included, an acknowledged journal binds every later acknowledged one until the slot is finalized or torn |
| `SlotHistories.AcknowledgedBindsRecovered` | src/active_slot.rs:295-418 | it binds what any later crash leaves in its slot, whether or not recovery accepts the store |
| `SlotHistories.CarefulBinds` | src/active_slot.rs:295-418 | both until the slot is finalized, in every run without the promotion of an unsynced temporary |
| `SlotHistories.ShownBinds` | src/active_slot.rs:295-418 | without a machine crash, whatever a reader finds binds whatever a reader finds later |
| `SlotHistories.ReadBackBindsNothing` | src/active_slot.rs:198-207 | a journal that recovery returned and nothing made durable can be replaced by another of the same slot life |
| `SlotHistories.ReadBackAllowedThenDenied` | src/active_slot.rs:295-328 | recovery returned Allowed, and the slot then acknowledged Denied |
| `SlotRefusals.BeginWindowIsRefused` | src/active_slot.rs:210-244 | a crash of `begin` before its journal is written makes recovery refuse |
| `SlotRefusals.HalfWrittenBegin` | src/active_slot.rs:779-798 | a reachable run of one call and a crash that ends in a refusal |
| `SlotRefusals.FinalizeIsRefusedExactly` | src/systemd_service.rs:1917-1925 | after `finalize` recovery refuses exactly when a journal is half-written, a temporary was orphaned before, or the slot's own temporary is still there |
| `SlotRefusals.StepNoOrphans` | src/active_slot.rs:441-445 | only a `finalize` over a leftover temporary creates an orphan |
| `SlotRefusals.TidyCrashRefinement` | src/active_slot.rs:109-208 | where that never happens, a crash makes recovery refuse exactly when it leaves a half-written journal, torn files included |
| `SlotWitnesses.FailedRecordThenFinalize` | src/systemd_service.rs:1917-1925 | from any calm state, a failed record and `finalize` end in a store that recovery refuses |
| `SlotWitnesses.RefusedAfterFinalize` | src/systemd_service.rs:1917-1925 | such a state is reachable |
| `SlotWitnesses.ReturnedAndTakenBack` | src/active_slot.rs:198-207 | a journal that recovery returned is gone after a machine crash |
| `SlotWitnesses.ReadBackMayChange` | src/active_slot.rs:246-257 | recovery returned one child, and the same slot life acknowledged another |
| `SlotWitnesses.SureExactly` | src/active_slot.rs:109-208 | after a crash recovery finds a slot at a journal, or refuses, exactly when what the crash leaves is damaged or carries it by its files |
| `SlotWitnesses.UndisturbedIsSure` | src/active_slot.rs:815-819 | when no queued operation names the slot or its temporary and its file is synced, what its handle stands at is sure after every crash, whatever is queued for others |
| `ActiveSlotStore.WriteNew` | src/active_slot.rs:779-798 | the new file holds the journal and is synced, or an error leaves nothing, a partial file or a whole one that is not synced; an existing name is never touched |
| `ActiveSlotStore.ReplaceAtomically` | src/active_slot.rs:800-813 | `Ok` means written, synced, renamed and the directory synced; an error stops at one of six named disks |
| `ActiveSlotStore.ActiveSlot.Begin` | src/active_slot.rs:210-244 | the handle exists only once its journal is durable; the call is refused as invalid exactly for malformed texts or a foreign directory record, and each other error is tied to its cause and to the disks it may leave |
| `ActiveSlotStore.ActiveSlot.Record` | src/active_slot.rs:246-418 | the six record calls: refused as invalid exactly when the journal does not admit the input, repeated decisions acknowledged unwritten, otherwise the assigned journal replaces the old one atomically |
| `ActiveSlotStore.ActiveSlot.Finalize` | src/active_slot.rs:441-445 | the journal is durably removed, or an error, behind which there is a failed call, leaves it present or queued for removal |
| `ActiveSlotStore.RecordOrFinalize` | src/systemd_service.rs:1917-1925 | when the record fails the slot is finalized, and recovery refuses the store if the record left its temporary |
| `ActiveSlotStore.WhenTheTemporaryStays` | src/active_slot.rs:800-813 | a failed record leaves its temporary exactly when it was created, written or synced and not renamed |
| `ActiveSlotStore.RecordIsFiveActions` | src/active_slot.rs:800-813 | a record call is five actions of the machine and ends in the machine's disk and handle |
| `ActiveSlotStore.BeginIsFourActions` | src/active_slot.rs:237-238 | a begin call is four actions of the machine |
| `SlotLinks.RecordStopsInTheMachine` | src/active_slot.rs:800-813 | every disk that a failed record may leave is one of the machine's |
| `SlotLinks.BeginStopsInTheMachine` | src/active_slot.rs:779-798 | so is every disk that a failed begin may leave |
| `SlotLinks.RecoveryIsActions` | src/active_slot.rs:146-196 | whatever `load_all` did before it stopped is a run of the machine's recovery steps |
| `SlotLinks.LoadAllIsRecovery` | src/active_slot.rs:109-208 | when `load_all` returns, the machine has recovered, with exactly the slots returned |
| `SlotRecovery.ReadJournals` | src/active_slot.rs:124-144 | the first pass accepts exactly the stores whose canonical names all hold journals of their own path, and sets the temporaries aside |
| `SlotRecovery.ReadTemporary` | src/active_slot.rs:146-177 | a torn temporary is removed, and the removal synced, only when exactly one journal has its invocation; any other is refused or kept for promotion |
| `SlotRecovery.ReadTemporaries` | src/active_slot.rs:146-177 | the second pass removes or keeps every temporary, or finds a reason why recovery refuses |
| `SlotRecovery.Promote` | src/active_slot.rs:181-198 | the third pass promotes every kept temporary in turn, syncing each, or finds a reason why recovery refuses |
| `SlotRecovery.LoadAll` | src/active_slot.rs:109-208 | `load_all` returns exactly the outcome defined for the directory it started from; when it returns, all its repairs are synced, and without a repair nothing was touched; whatever stops it has issued a run of permitted operations, and any error but a refusal has a failed call behind it |
| `Relay.Extended` | src/prepared_child.rs:358-511 | a licensed event keeps the trace durable before effect |
| `Relay.OnlyOneConsume` | src/prepared_child.rs:441-442 | a trace with one consume request has only one, so what it says is what was sent |
| `Relay.BegunIsHeld` | src/active_slot.rs:210-244 | a slot that `begin` returned is durable, and a relay may start on it exactly when no temporary has its invocation |
| `Relay.RecordedInStep` | src/active_slot.rs:246-418 | a record call that returns leaves trace, journal and disk in step |
| `Relay.CompletionIsEndToEnd` | src/prepared_child.rs:946-958 | a completion bound to the consumption carries the work unit of the Allowed decision and the crossing of the one consume request in the trace |
| `Relay.StoppedCarries` | src/active_slot.rs:800-813 | wherever a record stops, all that a crash can leave in the slot or its temporary is the journal it was to replace or the one it was writing |
| `Relay.Relay.RelayDecision` | src/prepared_child.rs:296-336 | a decision is relayed and recorded before it counts: on success exactly its two events happened, from frames whose admission matches field by field; without a fault it fails only for frames that do not fit |
| `Relay.Relay.AdmitDecision` | src/prepared_child.rs:296-322 | a decision reaches Core and comes back admitted, field by field |
| `Relay.Relay.Deliberate` | src/prepared_child.rs:292-350 | the rounds: all but the last decision Pending, each relayed and recorded once, in the order of the frames |
| `Relay.Relay.RelayDecisions` | src/prepared_child.rs:271-356 | the whole trace of a negotiation: the request, each round in order, and for `Allowed` the seven events of the lease; `Denied` asks nothing of the broker; without a fault it fails only at the first frames that do not fit |
| `Relay.Relay.AgreeOnRequest` | src/prepared_child.rs:368-403 | the lease names this very decision and the request this lease, field by field, and the lease went to Core; without a fault it fails only for frames that are not such a pair |
| `Relay.Relay.ForwardRequest` | src/prepared_child.rs:404-442 | exactly three events in order: the intent durable, its acknowledgement, the one request to the broker |
| `Relay.Relay.RecordIntent` | src/prepared_child.rs:404-420 | the intent that names lease and request is durable before anything is asked |
| `Relay.Relay.AcknowledgeAndAsk` | src/prepared_child.rs:421-442 | the intent is acknowledged and then the broker asked, once |
| `Relay.Relay.CollectAdmission` | src/prepared_child.rs:444-480 | the response to this request reaches Core, and Core's admission links lease, request, response and crossing |
| `Relay.Relay.AdmitConsumption` | src/prepared_child.rs:481-510 | the consumption is durable and then acknowledged to Core: exactly these two events, failing only for a fault |
| `Relay.Relay.RelayLeaseConsumption` | src/prepared_child.rs:358-511 | success means the seven events in order with their arguments, from frames that are a chain from the recorded Allowed decision to an admitted consumption; without a fault it fails only for frames that are no such chain |
| `Relay.Relay.FinishExecution` | src/prepared_child.rs:946-970 | a completion is recorded and acknowledged, in two events, exactly when it is bound to the consumption and no call fails; however the call ends, every completion it made durable, and every one that a crash may leave, is end to end |
| `Relay.Relay.RunInvocation` | src/prepared_child.rs:271-511 | the whole trace of a completed invocation, and without a fault the reason why one was not; however it ends, work unit and crossing of every completion that was made durable or that a crash may leave are those authorized and those sent |
| `SecretDelivery.FoldIsSound` | src/prepared_child.rs:153-199 | what the folded transition function accepts spells one of the listed frame sequences, reads exactly it and answers each request in it once |
| `SecretDelivery.FoldIsComplete` | src/prepared_child.rs:153-199 | every listed frame sequence is accepted |
| `SecretDelivery.ExchangeAcceptsExactly` | src/prepared_child.rs:736-945 | the exchange yields a completion exactly for the eight listed frame sequences, or for a first frame of a snapshot kind that decodes as one |
| `SecretDelivery.NestedAgreesWithFold` | src/prepared_child.rs:736-945 | nested control flow and transition function agree exactly when the first frame is no snapshot request |
| `SecretDelivery.CallbacksRunOnce` | src/prepared_child.rs:736-945 | no callback runs twice, whatever the child sends |
| `SecretDelivery.Session.Exchange` | src/prepared_child.rs:736-945 | the nested control flow has the result, the callbacks and the unread frames of the fold, errors included |
| `SecretDelivery.Session.Observed` | src/prepared_child.rs:759-833 | the observation branch equals the fold from its first request |
| `SecretDelivery.Session.Snapshotted` | src/prepared_child.rs:835-918 | the binding branch equals the fold from its snapshot state |
| `OutputRelay.StepKeeps` | src/prepared_child.rs:1467-1507 | every step of either thread keeps frames numbered and bytes accounted for |
| `OutputRelay.SequenceNumbers` | src/prepared_child.rs:717-734 | in every interleaving frame i at the client carries the number i, up to saturation |
| `OutputRelay.NoRepeatExactly` | src/prepared_child.rs:1504 | no number is skipped or repeated exactly while there are at most 2^64 frames |
| `OutputRelay.NothingLost` | src/prepared_child.rs:1467-1507 | when both relays return `Ok` the payloads of each stream concatenate to exactly the bytes read from it |
| `OutputRelay.AlwaysAPrefix` | src/prepared_child.rs:1467-1507 | at every moment, also after a torn write, they are a prefix of them |
| `OutputRelay.FramesAreBounded` | src/prepared_child.rs:1473-1482 | in every interleaving each frame carries at least one byte and at most the buffer's size |
| `FinalizationJournal.RecordExtends` | src/finalization_journal.rs:174-327 | a record keeps all earlier evidence and never lowers the stage |
| `FinalizationJournal.RecordKeepsBegun` | src/finalization_journal.rs:285-311 | runs from `begin` carry an attachment from ProtectedHistoryAttached on, made under the identity that the journal had just before |
| `FinalizationJournal.StageBounds` | src/finalization_journal.rs:392-534 | `stage_is_valid` fixes which records a stage carries |
| `FinalizationJournal.HistoryIdentityIsStable` | src/finalization_journal.rs:285-311 | once the sidecar is issued, every later journal attaches under the same identity |
| `FinalizationJournal.OlderStateIsAdmitted` | src/finalization_journal.rs:509-532 | a late journal without attachment loads, is not from `begin`, and may never be removed |
| `FinalizationAcceptance.LoadsExactly` | src/finalization_journal.rs:366-534 | which journals load, if and only if: the chain from finalization to signature, request, sidecar, acknowledgement and terminal, as far as the stage has come |
| `FinalizationAcceptance.AcceptsExactly` | src/finalization_journal.rs:174-327 | when each of the six records is accepted on a loaded journal, if and only if, with every link written out |
| `FinalizationAcceptance.RefusesUntouched` | src/finalization_journal.rs:174-327 | which inputs are refused before the journal in memory is touched |
| `FinalizationAcceptance.RecordStores` | src/finalization_journal.rs:174-327 | a record stores its input at its stage and leaves every other field alone |
| `FinalizationAcceptance.ReleasesExactly` | src/finalization_journal.rs:329-354 | when a journal may be removed, if and only if: attached, ended, and its very terminal acknowledged |
| `FinalizationStore.FinalizationHandle.Begin` | src/finalization_journal.rs:106-146 | the handle exists only once its journal is all that a crash can leave; the call is refused as invalid exactly for malformed texts or records, and each other error is tied to its cause |
| `FinalizationStore.FinalizationHandle.LoadForPrincipal` | src/finalization_journal.rs:148-172 | loading returns the visible journal exactly when it is valid and of this principal |
| `FinalizationStore.ReplaceAtomically` | src/finalization_journal.rs:592-607 | written, synced, renamed and the directory synced; wherever it stops, by a failed call, a reader and a crash find an old or the new journal whole |
| `FinalizationStore.FinalizationHandle.Record` | src/finalization_journal.rs:174-327 | refused as invalid exactly when the journal does not admit the input; `Ok` makes the new journal all that a crash can leave; a failure or crash on the way leaves an old or the new journal, whole and synced; a leftover temporary of the same process id stops it |
| `FinalizationStore.FinalizationHandle.AcknowledgeTerminalAndFinalize` | src/finalization_journal.rs:329-354 | the call: the file is touched only with the attachment present and the exact stored terminal acknowledged |
| `FinalizationStore.BeginReturned` | src/finalization_journal.rs:106-146 | the state in which `begin` returns is a start of the runs below |
| `FinalizationStore.RunKeeps` | src/finalization_journal.rs:174-364 | over every run with crashes anywhere, whatever they tear, all that a reader can find is valid, synced before it was renamed, and keeps what earlier `Ok`s recorded |
| `FinalizationStore.RecordedStays` | src/finalization_journal.rs:174-364 | a returned record is never undone; from SidecarAcknowledged on the attachment is there, and the history identity stays |
| `FinalizationStore.RemovedWasReleased` | src/finalization_journal.rs:329-354 | removal is issued only with the attachment present and the exact terminal of the visible journal acknowledged |
| `FinalizationStore.MissingWasReleased` | src/finalization_journal.rs:329-354 | over every run the file is missing, now or after any crash, only after such a removal |
| `FinalizationStore.StaleTemporaryBlocks` | src/finalization_journal.rs:592-607 | a leftover temporary blocks every later record of a process with the same id |
| `FinalizationStore.VisibleOnlyGrows` | src/finalization_journal.rs:592-607 | without a machine crash even what is not yet durable only moves forward |
| `ContentStore.StepKeeps` | src/protected_history.rs:574-661 | every step of any number of concurrent writers, and every crash, whatever it tears, keeps published files whole, synced and untouched |
| `ContentStore.DurableStays` | src/protected_history.rs:574-661 | a durable file keeps its inode and bytes through every action and crash |
| `ContentStore.OkIsDurable` | src/protected_history.rs:574-661 | `Ok` means that the exact bytes are durable, for the rest of every run |
| `ContentStore.NeverReplaced` | src/protected_history.rs:618-643 | a published name keeps its inode and bytes until a machine crash at least |
| `ContentStore.ContentAddressedNeverChanges` | src/protected_history.rs:423-453 | a name derived from the bytes never changes them, over whole runs with machine crashes |
| `ExactFile.PersistExactFile` | src/protected_history.rs:574-648 | with others at work between any two calls, `Ok` only when the exact bytes are durable and the calls that make them so were issued in their order; never at the cost of anything published; refused without effect exactly when the name holds other bytes |
| `ExactFile.StageAndPublish` | src/protected_history.rs:589-648 | staging file created, written, synced, renamed, directory synced and staging name removed, in this order |
| `ExactFile.WriteStaged` | src/protected_history.rs:614-618 | a staging file is written and synced before it can be renamed, with others at work in between |
| `ExactFile.OthersAreTheStore` | src/protected_history.rs:574-648 | what a writer relies on between its calls is what every step of every other writer keeps |
| `ExactFile.SyncExisting` | src/protected_history.rs:650-661 | before `Ok` the file that has the name is synced, and then its directory |
| `ExactFile.PersistSidecar` | src/archive_attachment.rs:152-235 | the sidecar is published without replacing any, refused without effect when the archive in the directory is not the attached one or another sidecar is there |
| `ExactFile.PublishingIsIdempotent` | src/archive_attachment.rs:412-454 | a second publication finds the bytes where the first put them |
| `ProtectedHistory.SelectedIsTheOnlyOne` | src/protected_history.rs:322-338 | a mapping is selected if and only if exactly one position of the binding applies, and it is that one |
| `ProtectedHistory.RetryPreparesTheSame` | src/protected_history.rs:340-393 | retrying from any journal that extends one with a sidecar attaches the very same thing; over runs see `ExecutionHistory.DurableSidecarIsBinding` |
| `ProtectedHistory.AttachmentMayBeRecorded` | src/finalization_journal.rs:285-311 | what is attached from a SidecarIssued journal is what that journal may record |
| `ProtectedHistory.MeasuredIsSettled` | src/protected_history.rs:423-441 | the inode put in a blob record is the durable one |
| `ProtectedHistory.BeginningIsInv` | src/protected_history.rs:340-409 | stores that others have filled are a start of the attaches |
| `ProtectedHistory.StepKeeps` | src/protected_history.rs:340-409 | every step of any number of attaches keeps the invariant that an entry exists only over durable blobs |
| `ProtectedHistory.OneEntryPerSource` | src/protected_history.rs:340-409 | one source has one entry, inodes included |
| `ProtectedHistory.ExactlyOnce` | src/protected_history.rs:340-409 | over any retries and crashes all attaches of a source return the same attachment, and the catalog holds exactly one durable entry for its journal when no other source was attached for it |
| `ProtectedHistory.TwoSourcesTwoEntries` | src/protected_history.rs:340-409 | two sources with different journals, both attached, leave two entries |
| `ExecutionHistory.SameIdentityExactly` | src/protected_history.rs:386-389 | two journals over one durable one attach under the same identity exactly when request and sidecar agree |
| `ExecutionHistory.DurableSidecarIsBinding` | src/systemd_service.rs:2744-2760 | over every run of the journal, once the sidecar is durable every later handle attaches the same |
| `ExecutionHistory.RetriesAgreeExactly` | src/systemd_service.rs:2744-2760 | any two handles of a run attach the same exactly when request and sidecar agree |
| `ExecutionHistory.UndurableSidecarIsNotBinding` | src/systemd_service.rs:2860-2905 | from a handle at a sidecar that is not durable, a run to a handle with another sidecar and identity |
| `ExecutionHistory.ReloadedUndurable` | src/systemd_service.rs:2860-2905 | such a handle is reached by a record that stops before its sync and a reload |
| `ExecutionHistory.PinnedExactly` | src/systemd_service.rs:2860-2905 | all later handles keep the identity exactly when the sidecar is durable |
| `ExecutionHistory.DurableIsAgreeing` | src/systemd_service.rs:2744-2760 | attaches that start from durable sidecars start from the same one |
| `ExecutionHistory.AttachmentsAgreeExactly` | src/protected_history.rs:340-409 | two attaches of an execution return the same attachment exactly when they start from the same request and sidecar |
| `ExecutionHistory.AttachedOnce` | src/protected_history.rs:340-409 | over every run of the journal and its attaches, with records, reloads and crashes between them: one attachment, and exactly one entry of the execution |
| `AttachRuns.CanFinish` | src/protected_history.rs:574-661 | a publication under a name that is free or holds the same bytes can always go through to its sync |
| `AttachRuns.AttachCompletes` | src/protected_history.rs:340-409 | an attach that was started can always complete |
| `HistoryWitnesses.AttachedTwice` | src/systemd_service.rs:2860-2905 | from any handle at a sidecar that is not durable, one run returns two attachments and leaves two durable entries of one execution |
| `HistoryWitnesses.SomeExecutionTwice` | src/systemd_service.rs:2860-2905 | such a run from `begin` and two empty stores |
| `HistoryCatalog.PersistBlob` | src/protected_history.rs:423-441 | the metadata returned is that of the durable file |
| `HistoryCatalog.Attach` | src/protected_history.rs:359-409 | `Ok` means the three blobs are durable and so is the entry that names them |
| `EntryContents.PreparesExactly` | src/protected_history.rs:346-358 | when an attach gets past its checks, if and only if |
| `EntryContents.AttachProtectedHistory` | src/protected_history.rs:340-409 | the whole operation: refused without effect unless its checks pass, and `Ok` only with the attachment of a durable entry that says, field by field, what journal, target, sidecar and the one chosen mapping say |
| `EntryContents.EveryEntryTells` | src/protected_history.rs:362-400 | over every run of an execution, every entry that is not another's carries launcher request, work unit and crossing of the execution's journal, the target's objects, the sidecar of a handle of the run, and the identity of its journal at the sidecar stage |
| `EntryContents.EveryAttachmentNames` | src/protected_history.rs:401-409 | every attachment returned names, field by field, an entry that is there for good |
| `EntryContents.ReadsExactly` | src/protected_history.rs:532-556 | a blob reads as these bytes if and only if it describes them and the file under their digest is the inode it measured |
| `EntryContents.AcceptsEntryExactly` | src/protected_history.rs:484-524 | which entries the loader accepts, if and only if, check by check |
| `HistoryCatalog.ReadIsGenuine` | src/protected_history.rs:532-556 | bytes read are the bytes that the blob identity stands for |
| `HistoryCatalog.AttachedReadsBack` | src/protected_history.rs:532-556 | in every run the blobs of a cataloged entry read back as the bytes attached |
| `HistoryCatalog.LoadCatalogEntries` | src/protected_history.rs:455-530 | loading succeeds exactly when every name is a readable staging file or an acceptable entry, and returns those entries sorted; the first other file decides the error |
| `HistoryCatalog.LoadsExactlyThePublished` | src/protected_history.rs:455-530 | a sorted load of the listing is strictly sorted and holds exactly the published entries, whatever staging files are left |
| `HistoryCatalog.AcceptableExactly` | src/protected_history.rs:484-524 | an attached entry is acceptable exactly when its source is readable and filed under the mapping |
| `HistoryCatalog.PreparedIsFiled` | src/protected_history.rs:350-370 | what is prepared is filed under the selected mapping |
| `HistoryCatalog.LoadPublished` | src/protected_history.rs:455-530 | with writers at work between the reads: exactly the entries published when the directory was listed, strictly sorted; an entry is refused only if one of them is not acceptable; a listed file that is gone when it is read makes the load fail |
| `HistoryCatalog.StagingFileVanishes` | src/protected_history.rs:461-467 | a writer's rename takes a listed staging file away, and nothing else that is published |
| `HistoryCatalog.CatalogLoadsExactly` | src/protected_history.rs:455-530 | over every run of attaches the catalog loads exactly when its sources are readable and filed there |
| `HistoryWitnesses.PreparedMayBeUnreadable` | src/finalization_journal.rs:369-373 | a run from `begin` to a journal that attaches and whose entry the loader refuses |
| `Attestation.WindowIsExact` | src/attestor.rs:294-329 | a freshness window exists exactly under the stated limits, and lasts as long as every limit allows and no longer |
| `Attestation.ProducerAndVerifierAgree` | src/attestor.rs:288-382 | what is issued is accepted exactly within its signed window: from the issuing clock until it expires, and never after |
| `Attestation.LifetimeIsBounded` | src/attestation_client.rs:455-475 | whatever the verifier accepts lies in the key window and exceeds none of the three age limits, in spite of the cast to `i64` |
| `Attestation.VerifiesOneRequest` | src/attestation_client.rs:429-454 | a response verifies for one request only |
| `Attestation.VerifiesExactly` | src/attestation_client.rs:429-489 | when the verifier accepts, if and only if: the response is the one that the binding's key signs over this request's claims, for the binding's issuer and audience, with a window in bounds |
| `Attestation.Unforgeable` | src/attestation_client.rs:476-489 | whatever is accepted carries the signature of the binding's key over the request's own claims |
| `Attestation.IssuesExactly` | src/attestor.rs:262-382 | when the issuer signs, if and only if, and the one response it then gives |
| `Attestation.RefusesExactly` | src/attestor.rs:262-329 | which error a refused request gets |
| `Issuance.IssueDurable` | src/attestor.rs:384-484 | a returned response is stored under its request; a stored one is returned exactly for the same request before it expires, unless the peer changed; nothing stored is overwritten; nothing is refused without its reason |
| `Issuance.SignOnce` | src/attestor.rs:384-484 | over all serialized calls and process crashes, all responses returned for one request identity are the same |
| `Issuance.SignsExactly` | src/attestor.rs:486-544 | a finalization or archive is signed exactly when it fits and the key is valid in the second of the clock, and carries that second and this key |
| `Issuance.AttestsExactly` | src/attestor.rs:384-415 | an attestation is what `issue` gives |
| `Issuance.ReturnedWasSigned` | src/attestor.rs:384-484 | over every run from an empty store, crashes included, whatever is returned was signed by this issuer for a request of its key |
| `Issuance.ReturnedInTheKeyWindow` | src/attestor.rs:486-627 | a returned finalization or archive carries its own request and a second in which the key was valid |
| `Issuance.ReturnedVerifies` | src/attestor.rs:384-484 | a returned attestation verifies at every instant of its window and at no other |
| `Issuance.TearingIsHarmless` | src/attestor.rs:457-484 | a state file is synced before it gets its name, so which unsynced files a crash tears does not matter |
| `Issuance.ExpiredIsRefusedForever` | src/attestor.rs:417-445 | an expired stored attestation is refused from then on and never signed again, through machine crashes too once it is durable |
| `Issuance.DurableReuseIsEnough` | src/attestor.rs:417-483 | when every reused file is durable, machine crashes are harmless too |
| `Issuance.UndurableReuseSignsTwice` | src/attestor.rs:417-483 | from any state, reusing a file that is not durable can be followed by a second signature |
| `Issuance.UnsyncedReuseSignsTwice` | src/attestor.rs:417-483 | from an empty store, a process that dies before the sync, a reuse and a machine crash end in two signatures |
| `Issuance.TheClockMatters` | src/attestor.rs:546-627 | a finalization signed in another second is a different response |
| `Issuance.SignedTwice` | src/attestor.rs:546-627 | one finalization signed in two different seconds, from an empty store |
| `Issuance.StaleTemporaryBlocks` | src/attestor.rs:457-472 | a leftover temporary blocks every later call for the request by a process with the same id |
| `EvidenceCapture.CaptureStore.RemoveInterruptedStaging` | src/pressure_evidence_capture.rs:429-495 | an interrupted staging directory is gone afterwards, from wherever it was left |
| `EvidenceCapture.ClassifiesExactly` | src/pressure_evidence_capture.rs:229-251 | which set of names is which class, if and only if, with the names written out |
| `EvidenceCapture.RecordIsThis` | src/pressure_evidence_capture.rs:119-141 | what is published for a bundle is its class and the digest of its files in the listed order |
| `EvidenceCapture.CaptureStore.Retain` | src/pressure_evidence_capture.rs:110-133 | the bundle is renamed into the store whole and synced, exactly when no call fails, the leftovers are known and the files admissible |
| `EvidenceCapture.CaptureStore.Republish` | src/pressure_evidence_capture.rs:95-109 | a retained bundle's record is published again, exactly when no other record is there |
| `EvidenceCapture.CaptureStore.CopyToStaging` | src/pressure_evidence_capture.rs:121-128 | the copy holds exactly the expected files, each as its one read returned it while the job may change them, and the digest was fed exactly the copy |
| `EvidenceCapture.CaptureStore.CapturedBundleDigest` | src/pressure_evidence_capture.rs:511-551 | re-reading feeds the digest the same bytes as copying did |
| `EvidenceCapture.CaptureStore.PublishRecord` | src/pressure_evidence_capture.rs:594-631 | a public record is never replaced, and `Ok` means that this very record is public, also when the rename fails |
| `EvidenceCapture.CaptureStore.Capture` | src/pressure_evidence_capture.rs:73-142 | from whatever an earlier run left: bundle and record never change, class and digest of the record are those of the retained bundle, and a run without a fault succeeds if and only if the stated condition holds |
| `EvidenceCapture.CaptureStore.CaptureRepeatedly` | src/pressure_evidence_capture.rs:73-142 | over any number of runs the record is that of the first success, its class and digest those of the bundle, which one of the runs made |

## Left out

- The kernel side: sockets, procfs, D-Bus, pidfds, fork, exec, reaping, descriptor handling and timeouts. Reading from a peer yields any frame or fails.
- File ownership, mode, link count and symbolic link checks, and the size limits that only loading applies. The directories are taken to be protected.
- JSON and JCS encoding and the `ota-authority-protocol` library, which is not part of this model. Identities are injective constructors and library validation is the `wellFormed` flag.
- A write that fails part-way and one that was never made leave the same partial file.
- Live invocation ids are taken to be distinct, and not to be reused while a temporary of theirs is left, since the name of a slot's temporary depends on them alone.
- Staging names of the content store are taken not to be reused by another writer while in use; they carry 128 random bits.
- `load_all` sorts the directory entries; the model proves its result for any order.
- SlotRuns.LastOrNext: about handles that have not failed. Failed handles may still be finalized, and all other results cover that.
- FinalizationStore.RunKeeps: runs begin when `begin` has returned. A crash inside `begin` leaves a partial journal, which loading refuses, or a whole one that nothing acknowledged; what a load makes of the second is not followed further.
- FinalizationStore.FinalizationHandle.LoadForPrincipal: the file being unreadable is one error, whatever the reason.
- ExactFile.Others: stands for the other writers between two calls; its body does nothing, its contract is what `ExactFile.OthersAreTheStore` proves of them.
- Relay.Relay.Others: stands for the calls of other slots between two of this one; its body does nothing, its contract is what `SlotIsolation.HeldIsolated` proves of them. Their calls inside one record are the machine's.
- HistoryCatalog.Meanwhile: stands for the writers between two reads in the same way.
- Relay.Relay.constructor: the relay starts on a slot without a temporary beside it, as every record that returns leaves it.
- ExactFile.PersistSidecar: the staging name is removed in all cases, which differs from the source only when it is already gone; the archive is compared by content.
- ProtectedHistory.ExactlyOnce: for attaches of one source; `ExecutionHistory.AttachedOnce` is the result for an execution.
- Issuance.IssueDurable: the checks that a stored file decodes to canonical bytes are one check that it is whole.
- EvidenceCapture.CaptureStore.Capture: process crashes only, one capture name, and runs one after the other.
- Diagnostic stage markers, pressure fault hooks, configuration, the installation manifest, the observation collector and the command line, which would add only field checks.
