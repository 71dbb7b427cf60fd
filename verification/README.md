# Durable state and bounded input in the DFIR workbench: a verified model

This project models the parts of the workbench that keep durable state under retries, crashes, several
tenants and byte limits, and proves what they keep. Check it with `dafny verify dfyconfig.toml`.

| file | what it models |
|---|---|
| `CollectionSubmission`, `ResumeProtocol` | the resumable submission of a collection over a job table and an evidence store, dying at any boundary and repeated |
| `OpenRelikJobs` | the job table and its adapter: submit, poll, retry, approve |
| `EvidenceStorage`, `EvidenceRuns` | quarantine, promotion, hold, retention and deletion as sequences of atomic writes, and whole runs of them |
| `IngestRepository`, `IngestBatch` | the ingest envelope table with a ghost history, and the batch preview |
| `ContextBuilder`, `ContextRedaction`, `ContextAudit`, `ContextPackage` | the recursive redaction of a selected resource, its audit trail and errors, and the package sent to a model |
| `AiRateLimit`, `ModelGateway` | the sliding-window limiter; the token and cost budget and the retry loop |
| `MemberNames`, `IdempotencyKeys`, `CanonicalRecord`, `Text` | archive member names, key material, and the records behind the tree digest |
| `Staging`, `PartitionTable` | source snapshots and archive checks; the master boot record |
| `ExtractionLoop`, `VelociraptorExtraction`, `UacExtraction`, `TskExtraction`, `MailAttachments` | the bounded copy, the extraction directory, the extraction loops and the attachment loop |

## How the model is built

- SHA-256, regular expressions, schema validation, lower-casing, UTF-8 length and JSON serialization of
  prompts are function parameters. A lemma that needs a digest not to collide says so for the two
  texts at hand and for nothing else.
- A table is a map with its unique constraints; the storage tree is a map from identifiers to quarantine
  slots, evidence directories and manifests. `EvidenceRuns.LayoutSeparatesObjects` justifies that map: the
  paths of distinct objects differ and stay strictly below their own tenant.
- An operation of the evidence store plans a list of atomic writes. Carried out in full it is the method of
  the store; cut short after any number of writes it is a crash. Operations are atomic with respect to each
  other, except in `ModelGateway`, where the steps of concurrent calls interleave.
- Each stateful class has methods whose postconditions equate its new state with a function of the old one;
  invariants and run properties are lemmas about those functions, and a lemma named `...Exactly` says, without that
  function, when the operation succeeds, what it leaves and which code answers otherwise.
- What the surroundings contribute to a step (replies of the transport, clock readings, new identifiers, how
  far a call gets) are parameters, so every lemma holds for all of them.

## What does not hold, and exactly when it does

- A verified staging run of a single file does not mean that the file is unchanged: its mode is not compared, and
  an empty file replaced by an empty directory has the same digest. `Staging.VerifiesExactly` gives the exact
  condition; for a directory source the claim holds in full.
- UAC's sanitizer is not idempotent: `x/../c:y` becomes `c:y`, which is refused.
  `MemberNames.UacIdempotentExactly` says when it is.
- Interop keys are not injective. An accepted tuple shares its material with another one if and only if some bar in
  it can become a separator: it is not the first character of a component other than the last, or not the last
  character of a component other than the first (`IdempotencyKeys.InteropCollidesExactly`).
- `retry` does not check, as `submit` does, that the workflow id it stores is non-empty. The job table stays in order
  if and only if no retry of an unbound row stores an empty or null id together with a terminal status
  (`OpenRelikJobs.StepKeepsExactly`, `OpenRelikJobs.RunsStayInOrderExactly`); after such a retry, in any table, the
  next submit of the same request gives the terminal row any workflow and status
  (`OpenRelikJobs.EmptyWorkflowIdUndoesTerminalStatus`).
- Twenty requests an hour are guaranteed for all runs whose clock steps back by at most d if and only if d is zero
  (`AiRateLimit.WindowHoldsExactly`); any step back, however small, lets in a twenty-first
  (`AiRateLimit.ClockStepBackBreaksTheWindow`). That sections of one key do not overlap holds with any clock.
- A crash inside a promotion can be resumed before the directory is made or once the manifest is written, and not
  in between (`EvidenceRuns.CrashedPromoteResumesExactly`); so can a submission that dies there
  (`ResumeProtocol.CutAttemptResumesExactly`).
- Case and evidence ids with a dot or a colon pass the job contract but are not slugs of the evidence store; such a
  submission never completes when a store is configured (`ResumeProtocol.UndisturbedAttemptCompletes`).
- The extraction loops of Velociraptor and of the Sleuth Kit do not report every request: a file where a directory is
  needed, a directory where the file should go, or, for Velociraptor, a member stored under another spelling of its
  sanitized name raise errors that no handler catches. `VelociraptorExtraction.ReportsExactly` and
  `TskExtraction.ReportsExactly` give the exact condition.

## Model

| member | source | states |
|---|---|---|
| `ResumeProtocol.AttemptKeeps` | src/dfir_workbench/velociraptor_openrelik.py:36-97 | one call, dying at any boundary or between any two writes of staging or promotion, keeps: at most one job row added, at most one evidence object, complete once its manifest is visible, no staged copy added while there is one, at most one slot consumed and that by promotion, everything else untouched; a stored workflow and a visible manifest stay; a returning call leaves the job succeeded with the returned outputs; the directory is torn only by dying inside promotion, and then no call returns |
| `ResumeProtocol.AttemptAnswers` | src/dfir_workbench/velociraptor_openrelik.py:62-89 | a call is answered with the outputs already stored, or with those it collected in time, the row then counting one attempt more |
| `ResumeProtocol.PublicationCut` | src/dfir_workbench/evidence_store.py:295-321 | a promotion cut anywhere leaves one object; its manifest, once visible, has the declared digest, no hold and the configured retention from now on |
| `ResumeProtocol.RepeatedSubmissionKeepsOneOfEach` | src/dfir_workbench/velociraptor_openrelik.py:55-97 | the same after any number of repetitions, each dying anywhere |
| `ResumeProtocol.WorkflowIsStoredOnce` | src/dfir_workbench/openrelik_adapter.py:93-97 | once a workflow id is stored, the rest of the run keeps it and the transport is not called again |
| `ResumeProtocol.ReturnedOutputsAreFinal` | src/dfir_workbench/velociraptor_openrelik.py:62-89 | once the row holds outputs, an attempt changes neither store nor transport and, if its checks pass, returns those outputs |
| `ResumeProtocol.RunIsFinalAfterReturn` | src/dfir_workbench/velociraptor_openrelik.py:62-89 | after a call has returned non-empty outputs, the rest of the run changes nothing and every further admitted call gives the same answer |
| `ResumeProtocol.UndisturbedAttemptCompletes` | src/dfir_workbench/velociraptor_openrelik.py:55-81 | whatever earlier attempts left behind, an undisturbed one completes, if and only if there is no store, or the job is reusable, or both ids are slugs of the store and the directory is not torn |
| `ResumeProtocol.CutAttemptResumesExactly` | src/dfir_workbench/velociraptor_openrelik.py:64-70 | a call that dies after n writes of promotion is completed by an undisturbed repetition if and only if n is 0 or at least 4 |
| `ResumeProtocol.RunStaysTorn` | src/dfir_workbench/evidence_store.py:295-300 | a torn directory stays torn for the rest of the run |
| `ResumeProtocol.OnlyACutTears` | src/dfir_workbench/evidence_store.py:295-321 | a run in which no call dies between the first and the fourth write of promotion never tears the directory |
| `CollectionSubmission.FastPath.SubmitCollection` | src/dfir_workbench/velociraptor_openrelik.py:36-89 | job table, tree, transport log and answer after a call are those of the specified attempt |
| `CollectionSubmission.AnsweredMeansChecked` | src/dfir_workbench/velociraptor_openrelik.py:36-56 | a call that is answered had a source within the upload limit with the declared digest, in time, a valid archive, and with a store a principal of its tenant |
| `CollectionSubmission.RefusedCallChangesNothing` | src/dfir_workbench/velociraptor_openrelik.py:40-56 | a call that fails a check changes no store and sends nothing, and the code names the first check to fail |
| `CollectionSubmission.AcceptableCallIsSubmitted` | src/dfir_workbench/velociraptor_openrelik.py:40-61 | a call that meets all of them is submitted |
| `CollectionSubmission.RequestOfTheCall` | src/dfir_workbench/velociraptor_openrelik.py:99-113 | the request carries the arguments of the call, under the key of tenant, case, evidence, digest and workflow, with the ids cut from that key |
| `CollectionSubmission.CallerExactly` | src/dfir_workbench/velociraptor_openrelik.py:59 | a call without a principal is made for its own tenant by the local analyst |
| `CollectionSubmission.FastPath.CheckCall` | src/dfir_workbench/velociraptor_openrelik.py:40-56 | the checks in the order of the source |
| `CollectionSubmission.FastPath.ResumeJob` | src/dfir_workbench/velociraptor_openrelik.py:64-81 | evidence first, outputs second; nothing else is written |
| `CollectionSubmission.FastPath.SecureEvidence` | src/dfir_workbench/velociraptor_openrelik.py:67-70 | a staged copy is reused or made, then promoted |
| `CollectionSubmission.FastPath.QuarantineForRetry` | src/dfir_workbench/velociraptor_openrelik.py:91-97 | a staged copy of the bytes is reused, whichever the search finds; otherwise one is staged, perhaps only in part |
| `CollectionSubmission.FastPath.PromoteStaged` | src/dfir_workbench/velociraptor_openrelik.py:69-70 | reply and tree of the promotion, perhaps cut after some of its writes |
| `CollectionSubmission.FastPath.RecordOutputs` | src/dfir_workbench/velociraptor_openrelik.py:71-81 | outputs and attempt count are stored in that order, and only after collection in time |
| `OpenRelikJobs.JobStore.Create` | src/dfir_workbench/openrelik_adapter.py:39-50 | inserts, or answers with the row holding the key if its stored request is the same, or a conflict |
| `OpenRelikJobs.InsertedExactly` | src/dfir_workbench/openrelik_adapter.py:39-50 | a new id under a free key is inserted with every column as given; a taken key answers its row or a conflict; an id taken under another key is an integrity error |
| `OpenRelikJobs.JobStore.AddOutputs` | src/dfir_workbench/openrelik_adapter.py:69-71 | outputs of a row of the right tenant and case; the row becomes succeeded |
| `OpenRelikJobs.OutputsExactly` | src/dfir_workbench/openrelik_adapter.py:69-71 | outputs and the succeeded status are stored in a row of the right tenant and case, and nothing else changes |
| `OpenRelikJobs.OpenRelikAdapter.SubmitJob` | src/dfir_workbench/openrelik_adapter.py:85-98 | table, answer and calls of the transport of a submission |
| `OpenRelikJobs.AdmittedExactly` | src/dfir_workbench/openrelik_adapter.py:85-92 | a submission is admitted if and only if the principal has names, schema and id pattern accept the request, the tenant is the principal's own, and the key is that of its components |
| `OpenRelikJobs.NotAdmittedChangesNothing` | src/dfir_workbench/openrelik_adapter.py:85-92 | otherwise nothing is stored or sent |
| `OpenRelikJobs.KeyNamesTheWork` | src/dfir_workbench/openrelik_adapter.py:91-92 | two accepted requests have one key if and only if tenant, case, evidence, digest and workflow agree, unless the digest collides |
| `OpenRelikJobs.OpenRelikAdapter.PollJob` | src/dfir_workbench/openrelik_adapter.py:99-107 | an unbound or terminal row is answered as it is; otherwise the report replaces status, outputs and error |
| `OpenRelikJobs.PollExactly` | src/dfir_workbench/openrelik_adapter.py:103-107 | a poll that reaches a bound, non-terminal row of the caller leaves exactly status, outputs and error of the report, every other column as it was, and answers the row; any other poll changes nothing |
| `OpenRelikJobs.RowsHoldWhatTheyWereTold` | src/dfir_workbench/openrelik_adapter.py:85-111 | in every run in order, status, outputs and error of a bound row are those of the last report that reached it, or of its binding if none did since |
| `OpenRelikJobs.OpenRelikAdapter.RetryJob` | src/dfir_workbench/openrelik_adapter.py:108-111 | the stored request is sent again exactly when the row is unbound, not terminal and below its attempts |
| `OpenRelikJobs.RetryExactly` | src/dfir_workbench/openrelik_adapter.py:108-111 | a retry that sends stores what the transport answered and one attempt more; any other changes nothing |
| `OpenRelikJobs.ResendableExactly` | src/dfir_workbench/openrelik_adapter.py:110 | which rows a retry sends again |
| `OpenRelikJobs.OpenRelikAdapter.ApproveJob` | src/dfir_workbench/openrelik_adapter.py:113-117 | only the review state changes, whatever the status |
| `OpenRelikJobs.ApproveExactly` | src/dfir_workbench/openrelik_adapter.py:113-117 | an approval marks a row of the caller as approved and changes nothing else |
| `OpenRelikJobs.OnlyVisibleRowsChange` | src/dfir_workbench/openrelik_adapter.py:99-117 | poll, retry and approve change only the named row, and only for a principal with names of its tenant and case |
| `OpenRelikJobs.StepKeeps` | src/dfir_workbench/openrelik_adapter.py:39-117 | one operation, unless it is a retry that undoes, keeps identifying columns consistent with the stored request, keys unique, workflows written once, terminal rows final, and touches only its principal's tenant |
| `OpenRelikJobs.StepKeepsExactly` | src/dfir_workbench/openrelik_adapter.py:39-117 | the table stays in order if and only if the operation is no retry that stores an empty or null workflow id with a terminal status |
| `OpenRelikJobs.RunsKeepRows` | src/dfir_workbench/openrelik_adapter.py:39-117 | the same for every run in which nothing is undone; review state moves only by approve, and a tenant that does nothing sees its rows unchanged |
| `OpenRelikJobs.RunsStayInOrderExactly` | src/dfir_workbench/openrelik_adapter.py:39-117 | the table is in order all along a run if and only if nothing is undone in it |
| `OpenRelikJobs.FirstSubmit` | src/dfir_workbench/openrelik_adapter.py:85-97 | a new request adds at most its own row, and is answered exactly when admitted and the transport names a workflow |
| `OpenRelikJobs.RepeatedSubmit` | src/dfir_workbench/openrelik_adapter.py:43-49 | the same request again: a bound row is answered as it is and nothing is sent; an unbound one is sent again |
| `OpenRelikJobs.ChangedRequestIsRejected` | src/dfir_workbench/openrelik_adapter.py:43-49 | a changed request under an existing key is rejected with table and transport untouched |
| `OpenRelikJobs.EmptyWorkflowIdUndoesTerminalStatus` | src/dfir_workbench/openrelik_adapter.py:85-111 | after such a retry, in any table and for any unbound row below its attempts, the terminal row takes any workflow and status from the next submit of its request |
| `EvidenceStorage.ValidIdIsOneName` | src/dfir_workbench/evidence_store.py:54-82 | a valid id, even with the newline that `$` lets pass, is one file name without separator or dot |
| `EvidenceStorage.ValidIdExactly` | src/dfir_workbench/evidence_store.py:54-82 | the ids accepted are those of the pattern, part by part |
| `EvidenceStorage.EvidenceStore.IngestToQuarantine` | src/dfir_workbench/evidence_store.py:189-223 | reply and tree after an ingest |
| `EvidenceStorage.EvidenceStore.IngestTorn` | src/dfir_workbench/evidence_store.py:203-223 | the tree when an ingest dies after any of its writes |
| `EvidenceRuns.IngestExactly` | src/dfir_workbench/evidence_store.py:189-223 | an ingest succeeds if and only if the source is a regular file within the limit and the id is valid and free; then the slot holds and describes the bytes and nothing else has changed |
| `EvidenceStorage.EvidenceStore.FindQuarantineBySha` | src/dfir_workbench/evidence_store.py:225-242 | a slot described with this tenant and digest, or none if there is none, in any directory order |
| `EvidenceStorage.EvidenceStore.PromoteToEvidence` | src/dfir_workbench/evidence_store.py:244-321 | reply and tree after a promotion: idempotent re-entry, conflict, torn directory, hash mismatch, publication |
| `EvidenceStorage.EvidenceStore.PromoteTorn` | src/dfir_workbench/evidence_store.py:295-321 | the tree when a promotion dies after any of its writes |
| `EvidenceRuns.PromotePublishesExactly` | src/dfir_workbench/evidence_store.py:259-300 | a promotion publishes if and only if the ids are valid, nothing is at the evidence id and the slot is described for its tenant with the declared digest |
| `EvidenceRuns.PromoteRefusals` | src/dfir_workbench/evidence_store.py:276-297 | why a promotion at an id without evidence is refused, the first reason first |
| `EvidenceRuns.PromotePlan` | src/dfir_workbench/evidence_store.py:301-315 | what a publishing promotion writes, in order, and every field of its manifest: promotion now, the given or configured retention, no hold, the slot it came from |
| `EvidenceRuns.VisibleEvidenceVerifies` | src/dfir_workbench/evidence_store.py:347-372 | after any run, crashes included, `verify_integrity` answers true for every visible manifest and an error for anything else |
| `EvidenceRuns.AlteredOriginalIsDetected` | src/dfir_workbench/evidence_store.py:366-372 | an original replaced from outside verifies if and only if its digest is that of the promoted bytes |
| `EvidenceStorage.EvidenceStore.SetLegalHold` | src/dfir_workbench/evidence_store.py:374-381 | only the hold of one manifest changes |
| `EvidenceRuns.HoldIsStored` | src/dfir_workbench/evidence_store.py:374-381 | the manifest stored is the one answered, with the hold as given and every other field as it was |
| `EvidenceRuns.HoldIsTheLastSet` | src/dfir_workbench/evidence_store.py:374-381 | as long as an object is there, its hold is the one its tenant last set, whoever else did whatever |
| `EvidenceRuns.HeldEvidenceSurvives` | src/dfir_workbench/evidence_store.py:383-400 | a held object survives every run in which its own tenant does not take the hold off |
| `EvidenceRuns.SetHoldProtects` | src/dfir_workbench/evidence_store.py:374-400 | once a hold is set, the object stays until the hold is taken off |
| `EvidenceStorage.EvidenceStore.DeleteEvidence` | src/dfir_workbench/evidence_store.py:383-400 | refused under hold, before retention ends or without confirmation; otherwise object and manifest go |
| `EvidenceRuns.DeleteAnswers` | src/dfir_workbench/evidence_store.py:383-400 | a delete is answered if and only if it is confirmed, without hold and after retention; hold and retention name themselves otherwise |
| `EvidenceRuns.DeleteExactly` | src/dfir_workbench/evidence_store.py:383-400 | a delete that is carried out removes exactly the object it names, if that may be deleted |
| `EvidenceRuns.StepKeeps` | src/dfir_workbench/evidence_store.py:189-400 | one operation, complete or cut short anywhere, keeps every visible manifest with its complete matching read-only original, keeps or lawfully deletes each object, and touches one tenant only |
| `EvidenceRuns.RunsStaySound` | src/dfir_workbench/evidence_store.py:189-400 | the manifest invariant in every run of any tenants, crashes included |
| `EvidenceRuns.EvidenceIsWrittenOnce` | src/dfir_workbench/evidence_store.py:259-400 | an object stays, with every manifest field but the hold, unless a step of its own tenant deletes it, confirmed, without hold and at or after the promoted retention date |
| `EvidenceRuns.PromoteAtEvidenceReturnsIt` | src/dfir_workbench/evidence_store.py:259-274 | a promotion at an id that holds evidence returns exactly that manifest, or a conflict when the digest differs, and writes nothing |
| `EvidenceRuns.PromoteAtTornDirectoryRaises` | src/dfir_workbench/evidence_store.py:259-300 | a directory without manifest makes every promotion raise without a write |
| `EvidenceRuns.CrashedPromoteResumesExactly` | src/dfir_workbench/evidence_store.py:259-321 | a promotion cut after n of its five writes can be resumed if and only if n is 0 or at least 4, and then answers as it would have |
| `EvidenceRuns.QuarantineIsSingleUse` | src/dfir_workbench/evidence_store.py:295-321 | in runs without crashes the objects of a tenant name pairwise distinct slots, none of which is still there |
| `EvidenceRuns.LayoutSeparatesObjects` | src/dfir_workbench/evidence_store.py:172-187 | paths of distinct objects differ, and each leads strictly below its own tenant's root |
| `IngestRepository.IngestRepository.StoreEnvelope` | src/dfir_workbench/db.py:442-550 | insert, duplicate or conflict; the row answered is the row stored; the history is extended accordingly |
| `IngestRepository.ReplayExactly` | src/dfir_workbench/db.py:503-550 | a taken key with another hash makes the row a conflict with the mismatch code; with the same hash, applied, duplicate and conflict rows stay and any other becomes a duplicate; nothing else changes |
| `IngestRepository.InsertExactly` | src/dfir_workbench/db.py:475-502 | an envelope under a free key is inserted as it is, if and only if its id is free and the constraints allow it |
| `IngestRepository.IngestRepository.ApproveEnvelope` | src/dfir_workbench/db.py:574-605 | only preview rows of the tenant become approved |
| `IngestRepository.ApproveExactly` | src/dfir_workbench/db.py:574-605 | only a preview row becomes approved, and nothing else of it or of any other row changes |
| `IngestRepository.IngestRepository.CommitEnvelope` | src/dfir_workbench/db.py:607-638 | only approved or preview rows of the tenant become applied; a target given replaces the stored one |
| `IngestRepository.ApplyExactly` | src/dfir_workbench/db.py:607-638 | only a preview or approved row becomes applied, with the target given or the one it had |
| `IngestRepository.IngestRepository.QuarantineEnvelope` | src/dfir_workbench/db.py:640-668 | any row of the tenant becomes quarantined, whatever its status |
| `IngestRepository.QuarantineExactly` | src/dfir_workbench/db.py:640-668 | any row becomes quarantined with the new reference, and the reason given or the error it had |
| `IngestRepository.CommitAtMostOnce` | src/dfir_workbench/db.py:475-668 | in every run each (tenant, key) row is approved at most once and applied at most once, never once it was quarantined, duplicate or conflict, by insertion or later; target, payload, hash and source never change once applied or inserted |
| `IngestRepository.EveryCommitIsRecorded` | src/dfir_workbench/db.py:574-638 | every successful approval and commit is one event of that history |
| `IngestRepository.OtherTenantsUntouched` | src/dfir_workbench/db.py:442-668 | an operation changes only rows of its principal's tenant |
| `IngestBatch.PreviewBatch` | src/dfir_workbench/ingest.py:217-292 | statuses and table are those of the items in turn; counts sum to the items, and each is the number of items that are one, by the table they meet; an item without an entity stops the batch and what came before stays |
| `IngestBatch.AcceptedExactly` | src/dfir_workbench/ingest.py:254-291 | an item counts as accepted if and only if it is inserted now as a preview or repeats, with the same hash, a row already applied |
| `IngestBatch.WithheldExactly` | src/dfir_workbench/ingest.py:254-291 | by the table it meets and the item alone: duplicate, conflict and quarantined are reported if and only if the item repeats a row, contradicts one, or is new and flagged |
| `IngestBatch.WithheldInBatch` | src/dfir_workbench/ingest.py:283-291 | the duplicate, conflict and quarantined statuses of a batch count exactly those items |
| `IngestBatch.AcceptedInBatch` | src/dfir_workbench/ingest.py:283-291 | the accepted statuses of a batch are exactly those items |
| `IngestBatch.TallyIsComplete` | src/dfir_workbench/ingest.py:283-291 | every status is counted once |
| `IngestBatch.WithheldAreCounted` | src/dfir_workbench/ingest.py:283-291 | duplicate, conflict and quarantined count the occurrences of those statuses |
| `ContextBuilder.AuditLog.Redact` | src/dfir_workbench/context_builder.py:57-70 | the redacted string and the audit entries it adds |
| `ContextBuilder.AuditLog.CleanValue` | src/dfir_workbench/context_builder.py:73-102 | result and audit of the walk over any value |
| `ContextBuilder.AuditLog.CleanMapping` | src/dfir_workbench/context_builder.py:76-91 | the loop over a mapping's keys |
| `ContextBuilder.AuditLog.CleanSequence` | src/dfir_workbench/context_builder.py:92-96 | the loop over a list |
| `ContextRedaction.CleanIgnoresHidden` | src/dfir_workbench/context_builder.py:73-102 | two values that differ only under secret or excluded keys, at any depth and inside lists, give the same output, audit or error |
| `ContextRedaction.CleanExactly` | src/dfir_workbench/context_builder.py:57-102 | the walk succeeds exactly on values whose visible part fits kinds and limits, yields the value without hidden keys and with every string redacted, and the audit grows by exactly what was met |
| `ContextRedaction.KeysAreCountedOnce` | src/dfir_workbench/context_builder.py:76-91 | every key of every visited mapping is kept, dropped as secret or excluded, once |
| `ContextRedaction.OutputExposesOnlyVisible` | src/dfir_workbench/context_builder.py:73-102 | no hidden key survives at any depth, the depth limit holds, and exactly the kept keys remain |
| `ContextAudit.CleanWrites` | src/dfir_workbench/context_builder.py:57-96 | the walk appends to the audit the credentials and injections at their paths, and the paths left out, in order |
| `ContextAudit.ErrorsNameAFlaw` | src/dfir_workbench/context_builder.py:57-102 | whatever code the walk fails with, some visible value or key has the flaw that code names |
| `ContextPackage.ProjectedExactly` | src/dfir_workbench/context_builder.py:76-91 | a key of the output is a visible key of the input, with the output of what was under it |
| `ContextPackage.RedactedExactly` | src/dfir_workbench/context_builder.py:57-70 | a string has its credentials replaced, and the mark in front if what remains reads like an instruction |
| `ContextPackage.ExcludedExactly` | src/dfir_workbench/context_builder.py:86 | which names are left out whatever they hold |
| `ContextPackage.Build` | src/dfir_workbench/context_builder.py:122-160 | the package, or the error, of a selection and a question |
| `ContextPackage.SelectionExactly` | src/dfir_workbench/context_builder.py:105-119 | a selection may be asked about if and only if class and id are admissible, it carries exactly this tenant and case, and its data is a mapping that carries no other; and which code answers any other selection |
| `ContextPackage.PackageIsAuthorized` | src/dfir_workbench/context_builder.py:105-160 | a package is only built for such a selection, and its provenance carries tenant, case, analyst, policy, class and id |
| `ContextPackage.BuildSucceedsExactly` | src/dfir_workbench/context_builder.py:122-160 | when a package is built, in terms of question, selection, data and the limits of the text |
| `ContextPackage.BuildFails` | src/dfir_workbench/context_builder.py:127-153 | which code answers when no package is built |
| `ContextPackage.PackageRecords` | src/dfir_workbench/context_builder.py:139-159 | manifest and provenance record the trail of walk and question, the field names, the keys left out, references, size, tokens and digests of the text that is sent |
| `ContextPackage.PromptExactly` | src/dfir_workbench/context_builder.py:141-149 | the prompt holds the system text, the question and the context, and the context class, id and data; nothing more |
| `ContextPackage.FieldNamesExactly` | src/dfir_workbench/context_builder.py:171-180 | the included names are the dotted paths of the keys handed over |
| `ContextPackage.ReferencesExactly` | src/dfir_workbench/context_builder.py:183-191 | a reference is made if and only if the selection, or else its data, holds a scalar under the key |
| `ContextPackage.PackageContents` | src/dfir_workbench/context_builder.py:122-160 | prompt, redaction count, injection count, record and field counts, and a serialized size within both limits, from the selected data |
| `ContextPackage.HiddenValuesDoNotInterfere` | src/dfir_workbench/context_builder.py:73-193 | selections that differ only in values under hidden keys give the same prompt, manifest and provenance, or the same error |
| `AiRateLimit.Limiter.BeginRequest` | src/dfir_workbench/api.py:423-437 | deques, in-flight set and decision after a begin |
| `AiRateLimit.Limiter.EndRequest` | src/dfir_workbench/api.py:440-442 | the key is no longer in flight |
| `AiRateLimit.PrunedCountsYoung` | src/dfir_workbench/api.py:431-433 | the pruned deque has as many entries as the full history has acceptances younger than the window |
| `AiRateLimit.LimiterDecidesAsPromised` | src/dfir_workbench/api.py:423-437 | after any run, a request is accepted if and only if its key is not in flight and fewer than 20 acceptances of the full history are younger than an hour |
| `AiRateLimit.AtMostTwentyInAnyWindow` | src/dfir_workbench/api.py:400-436 | no window of one hour, wherever it starts, holds more than 20 acceptances of a key |
| `AiRateLimit.SectionsDoNotOverlap` | src/dfir_workbench/api.py:428-442 | between two acceptances of a key lies an end of it, with any clock |
| `AiRateLimit.ClockStepBackBreaksTheWindow` | src/dfir_workbench/api.py:431-436 | for every pair of readings that steps back, a run accepts 21 requests within one hour |
| `AiRateLimit.WindowHoldsExactly` | src/dfir_workbench/api.py:423-442 | the bound holds for all runs whose readings step back by at most d if and only if d is zero |
| `ModelGateway.TokenCostBudget.ReserveTokens` | src/dfir_workbench/model_gateway.py:98-106 | a grant adds tokens and cost; a refusal, over either limit, changes nothing |
| `ModelGateway.ReserveExactly` | src/dfir_workbench/model_gateway.py:98-106 | a reservation is granted if and only if tokens and known costs fit, and adds just that |
| `ModelGateway.RequestedExactly` | src/dfir_workbench/model_gateway.py:148-150 | a quarter of the bytes, at least one, and one for the answer |
| `ModelGateway.CostExactly` | src/dfir_workbench/model_gateway.py:244-245 | the cost is in proportion to the tokens at the price of a thousand |
| `ModelGateway.Request` | src/dfir_workbench/model_gateway.py:189-202 | the loop goes on only after an unreachable provider or one of six status codes, ends at the first other response or after the last retry, and returns that response's text |
| `ModelGateway.Gateway.Complete` | src/dfir_workbench/model_gateway.py:142-175 | with or without a budget: which failures come before the reservation, that a refused call opens nothing, how often a granted one opens, and what is answered |
| `ModelGateway.BudgetIsConserved` | src/dfir_workbench/model_gateway.py:86-106 | in any interleaving of calls the budget equals the sum of granted reservations and never exceeds its limits |
| `ModelGateway.EgressIsBounded` | src/dfir_workbench/model_gateway.py:142-202 | in any interleaving, twice the number of opener calls is at most (retries + 1) times the tokens of the budget |
| `ModelGateway.OpeningNeedsAReservation` | src/dfir_workbench/model_gateway.py:152-160 | no opener call precedes its reservation, and a refused call changes nothing and stays refused |
| `ModelGateway.CompletionIsARun` | src/dfir_workbench/model_gateway.py:142-175 | a whole call is a sequence of those steps: it leaves the budget of its reservation and adds its own opener calls |
| `MemberNames.NormalizePath` | src/dfir_workbench/adapters/uac_adapter.py:83 | the stack loop of `posixpath.normpath` on a relative path computes the normal form |
| `MemberNames.StackShape` | src/dfir_workbench/adapters/uac_adapter.py:83-87 | normalisation leaves `..` only as a prefix and no empty or `.` component |
| `MemberNames.NormalisationKeepsMeaning` | src/dfir_workbench/adapters/uac_adapter.py:83 | walking the normal form leads where walking the raw name leads, from any place |
| `MemberNames.UacAcceptsExactly` | src/dfir_workbench/adapters/uac_adapter.py:78-88 | which names are accepted, by their components, and what is returned |
| `MemberNames.UacAcceptedNameStaysBelowRoot` | src/dfir_workbench/adapters/uac_adapter.py:269-272 | an accepted name has plain components only, lies strictly below any root and denotes the place of the raw name |
| `MemberNames.UacIdempotentExactly` | src/dfir_workbench/adapters/uac_adapter.py:78-88 | sanitizing again is the identity if and only if the result has no colon in second place |
| `MemberNames.UacIdempotenceFails` | src/dfir_workbench/adapters/uac_adapter.py:78-88 | a name whose accepted form is refused |
| `MemberNames.StagingAndVelociraptorAgree` | src/dfir_workbench/adapters/velociraptor_adapter.py:207-212 | the two member checks, which test in different orders, agree on every name |
| `MemberNames.StagingAcceptsExactly` | src/dfir_workbench/staging.py:52-57 | a name is accepted if and only if it is relative, never climbs, and has a first proper component without a colon; it is an index error when it has no proper component at all |
| `MemberNames.UacAcceptsWhatStagingAccepts` | src/dfir_workbench/staging.py:52-57 | what staging accepts, UAC accepts with the same normalised name |
| `IdempotencyKeys.OpenRelikKeyIsInjective` | src/dfir_workbench/openrelik_contract.py:29-48 | on validated requests keys agree if and only if all five components agree |
| `IdempotencyKeys.MxrayKeyIsInjective` | src/dfir_workbench/mxray_contract.py:49-72 | the same for the six components of a mail job |
| `IdempotencyKeys.InteropKeyIsInjectiveWithoutBars` | src/dfir_workbench/interop.py:53-59 | the same for interop tuples whose components, the last excepted, are free of the bar |
| `IdempotencyKeys.AmbiguousHasDouble` | src/dfir_workbench/interop.py:53-59 | a bar that can become a separator gives a different accepted tuple with the same material |
| `IdempotencyKeys.UnambiguousIsAlone` | src/dfir_workbench/interop.py:53-59 | a tuple without such a bar is the only one with its material |
| `IdempotencyKeys.InteropCollidesExactly` | src/dfir_workbench/interop.py:53-59 | an accepted tuple shares its material, and so its key, with another one if and only if it has such a bar |
| `IdempotencyKeys.InteropKeyIsInjective` | src/dfir_workbench/interop.py:53-59 | an accepted tuple without such a bar has a key no other accepted tuple has, unless the digest collides |
| `Text.JoinInjective` | src/dfir_workbench/openrelik_contract.py:46-48 | the join underlying all three keys determines its components |
| `CanonicalRecord.UnitsRoundTrip` | src/dfir_workbench/staging.py:105-109 | an escaped string, closed by its quote, is read back whatever follows |
| `CanonicalRecord.DecimalRoundTrip` | src/dfir_workbench/staging.py:105-109 | a printed size is read back before any byte that is not a digit |
| `CanonicalRecord.EntryRoundTrip` | src/dfir_workbench/staging.py:105-109 | a record followed by anything is read back as its entry and the same rest |
| `CanonicalRecord.LiteralsExactly` | src/dfir_workbench/staging.py:105-109 | the texts around the parts are those of the canonical form, keys in order |
| `CanonicalRecord.RecordThen` | src/dfir_workbench/staging.py:105-109 | which texts and parts a record is made of, in order |
| `CanonicalRecord.PreimageIsInjective` | src/dfir_workbench/staging.py:104-109 | the undelimited concatenation of records determines the list of entries |
| `Staging.EvidenceStager.TakeSnapshot` | src/dfir_workbench/staging.py:75-111 | the snapshot, or the first failure in path order |
| `Staging.SnapshotExactly` | src/dfir_workbench/staging.py:75-111 | a snapshot can be taken if and only if the source is a file within the limit or a tree of directories and such files within the total; it is of the very content |
| `Staging.ScanFailure` | src/dfir_workbench/staging.py:86-101 | otherwise some node is the first that stands against it, and the code says how |
| `Staging.ScanRecords` | src/dfir_workbench/staging.py:84-103 | a scan that succeeds records each node once, with its mode, within both byte limits |
| `Staging.ValidateMembers` | src/dfir_workbench/staging.py:124-133 | no failure if and only if every member passes; otherwise the failure of the first that does not |
| `Staging.MemberFaultExactly` | src/dfir_workbench/staging.py:124-133 | what each failure of a member check says |
| `Staging.PassingArchiveIsBounded` | src/dfir_workbench/staging.py:124-152 | passing means safe names, regular members, and expanded bytes within both limits |
| `Staging.ValidateArchive` | src/dfir_workbench/staging.py:113-159 | exactly which listings are let through |
| `Staging.EvidenceStager.Stage` | src/dfir_workbench/staging.py:161-185 | when staging succeeds, the manifest and event it records, and that a failure records neither |
| `Staging.EvidenceStager.Run` | src/dfir_workbench/staging.py:195-213 | when a run verifies, and what it has recorded if it does or does not |
| `Staging.VerifiesExactly` | src/dfir_workbench/staging.py:195-213 | a run verifies a directory source if and only if the tree, contents and modes, is unchanged; for a file source, the exact weaker condition |
| `Staging.FileSourceMayChangeUnnoticed` | src/dfir_workbench/staging.py:205-211 | an empty file replaced by an empty directory verifies, and so does a change of mode |
| `ExtractionLoop.CopyChunks` | src/dfir_workbench/adapters/velociraptor_adapter.py:123-131 | bytes on disk never exceed either budget, even mid-stream, and the copy completes if and only if the content fits |
| `ExtractionLoop.LoopEndsExactly` | src/dfir_workbench/adapters/velociraptor_adapter.py:109-141 | a loop over requests ends if and only if no request it reaches leaves it |
| `ExtractionLoop.NoFileOnTheWay` | src/dfir_workbench/adapters/velociraptor_adapter.py:115-136 | when such a loop ends, no extracted file stands where another needs a directory |
| `VelociraptorExtraction.CopyMember` | src/dfir_workbench/adapters/velociraptor_adapter.py:112-138 | the outcome of one member, or the error that leaves the loop: inventory, budgets, directories, opening, copy, comparison, replacement |
| `VelociraptorExtraction.Extract` | src/dfir_workbench/adapters/velociraptor_adapter.py:98-142 | extracted files, errors and status are those of the requests in order, or the error of the first that escapes |
| `VelociraptorExtraction.ReportsExactly` | src/dfir_workbench/adapters/velociraptor_adapter.py:98-142 | `extract` reports if and only if no request it reaches has a name without components or, once past inventory and size, meets a file where a directory is needed, is not stored under its sanitized name, or meets a directory at its place |
| `VelociraptorExtraction.ExtractionAccounts` | src/dfir_workbench/adapters/velociraptor_adapter.py:98-142 | each request is extracted or failed, never both, within the total |
| `VelociraptorExtraction.ExtractsTheInventory` | src/dfir_workbench/adapters/velociraptor_adapter.py:109-137 | when it reports, a request was extracted if and only if it names a regular file of the inventory that fits the bytes left and whose bytes, stored under that name, match size and digest |
| `VelociraptorExtraction.FailsExactly` | src/dfir_workbench/adapters/velociraptor_adapter.py:109-141 | which failure is reported: the name, the inventory, the declared size, the size read, or the bytes read |
| `VelociraptorExtraction.StatusExactly` | src/dfir_workbench/adapters/velociraptor_adapter.py:142 | completed, partial and failed mean that all, some or none of the requests were extracted |
| `VelociraptorExtraction.ExtractedFilesDoNotCollide` | src/dfir_workbench/adapters/velociraptor_adapter.py:115-136 | no extracted file stands where another one needs a directory |
| `VelociraptorExtraction.OpensExactly` | src/dfir_workbench/adapters/velociraptor_adapter.py:220-227 | a zip yields something for a name if and only if a member is stored under that very name |
| `VelociraptorExtraction.WellNamedOpens` | src/dfir_workbench/adapters/velociraptor_adapter.py:160-178 | when every regular member is stored under its sanitized name, each file of the inventory is found again with the inventoried bytes |
| `VelociraptorExtraction.WellNamedExtracts` | src/dfir_workbench/adapters/velociraptor_adapter.py:98-142 | from such a zip a reported request fails only for its name, for naming no regular file, or for the bytes left |
| `VelociraptorExtraction.RenamedMemberEscapes` | src/dfir_workbench/adapters/velociraptor_adapter.py:220-227 | a wanted file stored only under another spelling of its name always leaves the loop |
| `UacExtraction.PlaceMember` | src/dfir_workbench/adapters/uac_adapter.py:277-299 | destination checks and bounded copy of one member |
| `UacExtraction.WantedNames` | src/dfir_workbench/adapters/uac_adapter.py:230-233 | the normalised selection and the refusals in order |
| `UacExtraction.Extract` | src/dfir_workbench/adapters/uac_adapter.py:222-267 | result or error of the archive loop over all members |
| `UacExtraction.UacAccounts` | src/dfir_workbench/adapters/uac_adapter.py:240-299 | every copied file is the content of a member whose name normalises to a selected one, at a place that was free, at most one per place, within both budgets; every wanted or ill-named member was copied or reported |
| `UacExtraction.StepExactly` | src/dfir_workbench/adapters/uac_adapter.py:240-299 | what one member adds to copies and errors, or which error leaves the loop |
| `UacExtraction.ResultExactly` | src/dfir_workbench/adapters/uac_adapter.py:222-267 | status and counts of the result |
| `TskExtraction.Extract` | src/dfir_workbench/tsk_workflow.py:103-118 | extracted files, errors and status are those of the selections in order, or the error of the first that escapes |
| `TskExtraction.ReportsExactly` | src/dfir_workbench/tsk_workflow.py:103-118 | `extract` reports if and only if no selection it reaches, well formed and not above the root, meets a file where a directory is needed, tools that cannot run, or a directory at its place |
| `TskExtraction.ExtractionAccounts` | src/dfir_workbench/tsk_workflow.py:103-118 | each selection is extracted or failed, never both, within the total |
| `TskExtraction.ExtractsWhatTheToolPrints` | src/dfir_workbench/tsk_workflow.py:105-116 | when it reports, a selection was extracted if and only if it is well formed, leads to the root or below and its content fits the bytes left; then strictly below the root |
| `TskExtraction.FailsExactly` | src/dfir_workbench/tsk_workflow.py:105-116 | which failure is reported: the form of the selection, a destination above the root, the tools, or the size |
| `TskExtraction.StatusExactly` | src/dfir_workbench/tsk_workflow.py:118 | completed, partial and rejected mean that all, some or none of the selections were extracted |
| `TskExtraction.ExtractedFilesDoNotCollide` | src/dfir_workbench/tsk_workflow.py:109-116 | no extracted file stands where another one needs a directory |
| `MailAttachments.AttachmentLoop` | src/dfir_workbench/mxray_worker.py:147-180 | one attachment for each named part, its status, and one limitation or archive finding where due |
| `MailAttachments.AttachmentsExactly` | src/dfir_workbench/mxray_worker.py:147-180 | the attachments are those of the named parts in order; one is analyzed if and only if it fits what is left of both budgets and is no archive that cannot be read, has an unsafe member or too many |
| `MailAttachments.AnalyzedWithinBudget` | src/dfir_workbench/mxray_worker.py:147-180 | analyzed bytes never exceed the total, nor any attachment its own limit |
| `PartitionTable.ParseMbr` | src/dfir_workbench/adapters/disk_memory_adapter.py:74-81 | the loop yields the used entries of the table, or none without signature |
| `PartitionTable.ParsesWhatWasWritten` | src/dfir_workbench/adapters/disk_memory_adapter.py:74-81 | writing any four records little-endian, with any other bytes, and parsing gives back their type, first sector and count |
| `PartitionTable.EverySignedImageIsWritten` | src/dfir_workbench/adapters/disk_memory_adapter.py:74-81 | every signed image is such a writing, so the round trip leaves out no input |
| `PartitionTable.PartitionsExactly` | src/dfir_workbench/adapters/disk_memory_adapter.py:78-80 | a partition is listed if and only if its slot has non-zero type and count, in slot order |
| `PartitionTable.PartitionFields` | src/dfir_workbench/adapters/disk_memory_adapter.py:80 | a listed partition is that of a used slot, at 512 times its first sector and as long as 512 times its count |
| `PartitionTable.TypeNameReadsBack` | src/dfir_workbench/adapters/disk_memory_adapter.py:80 | the type is printed as two hexadecimal digits that read back |
| `PartitionTable.EndsBelowLimit` | src/dfir_workbench/adapters/disk_memory_adapter.py:80 | offset and length are whole sectors and the end lies below byte 2^42 |
| `PartitionTable.ParseDeterminesUsedRecords` | src/dfir_workbench/adapters/disk_memory_adapter.py:78-80 | disks that parse alike use the same slots with the same type, first sector and count |
| `PartitionTable.TypeNameInjective` | src/dfir_workbench/adapters/disk_memory_adapter.py:80 | the hexadecimal type name determines the type |

## Left out

- `ResumeProtocol.RepeatedSubmissionKeepsOneOfEach`: bytes and arguments of the repeated call are fixed; polls, retries and other callers do not come between the attempts. A retry after a promotion stages a fresh slot, which stays; so staged copies are one at most, or fewer than there were, not none.
- `EvidenceRuns.QuarantineIsSingleUse`: does not hold across a crash between manifest and slot removal, and takes the random quarantine ids to be distinct.
- `OpenRelikJobs.RunsKeepRows`: covers the adapter's operations; `add_outputs`, which may turn failed into succeeded, belongs to the resume runs. An answer whose workflow id is neither a string nor null is out.
- `AiRateLimit.Limiter.BeginRequest`: times are reals.
- `IngestRepository.IngestRepository.StoreEnvelope`: generated envelope ids, keys and hashes are filled in before the call; the stored row has no timestamps.
- `Staging.VerifiesExactly`: modification times and the mode of the source directory itself are not compared, as in the code; paths that are not valid UTF-16 text are out.
- `ContextPackage.Build`: the lists of included and excluded names are sets, so their sorting is not modelled; serialization is a parameter.
- `ModelGateway.Gateway.Complete`: usage and metadata of the answer are not modelled, and costs are reals instead of floats.
- `UacExtraction.Extract`: zip and tar sources; directory sources and 7z are out. Directories made before an error are not undone, and not reported either.
- `TskExtraction.Extract`: `isdigit` means ASCII digits; the reports of `istat` are not kept. What the tools print depends on the selection alone.
- `VelociraptorExtraction.Extract`: destinations are checked lexically. For a directory source the inventory and what opens under a name are parameters.
- Names with a NUL character, at which path resolution itself raises an error.
- `EvidenceStorage.EvidenceStore.constructor`: requires a valid tenant id, where the source raises INVALID_ID.
- `EvidenceStorage.EvidenceStore.DeleteEvidence`: is one atomic step; a crash between its two removals is out. So are partial writes of a single file.
- Symbolic links, path resolution against a live file system, and races with other processes.
- Real SQL, file permissions beyond the read-only flag of an original, audit sinks, and JSON internals other than the records of the tree digest.
- HTTP routes, tokens, the client, subprocess calls, schema and e-mail parsing, the local runner, metrics, alerts and vendor projections.
- GPT parsing, whose field offsets are not those of section 5.3.2 of the UEFI Specification, so that no round trip holds.
- The digest of the manifest worker, which concatenates its parts without delimiters and so has no unique decoding.
