# Verified model of cocore's provider

cocore lets owners of Macs serve inference jobs: a provider agent holds a WebSocket to an advisor,
streams job output over it, publishes a record about its machine on the owner's PDS, signs an
attestation, and bills jobs. This project models the parts of that system where a wrong step costs
the most, and proves what they promise. `dafny verify dfyconfig.toml` checks everything.

- **Resumable streams** (`ReplayJob`, `InvocationManager`, `ManagerRuns`, `BufferBounds`,
  `TimerFencing`, `DrainOrder`): the provider keeps a numbered replay buffer per job. The class follows
  the source method by method; its methods are proved against functions on the job table, and the
  lemmas speak about every run of events.
- **End to end** (`AdvisorSession`, `StreamDelivery`, `StreamSafety`, `StreamProgress`,
  `StreamSummary`, `StreamFencing`, `StreamRecovery`, `StreamLiveness`, `ManagerStreams`): the buffer
  composed with sockets that break and lose any tail of what was in flight, and with the advisor's
  sequence gate. Frames of a dead socket may still arrive until a newer registration fences it. Safety
  holds in every interleaving, nothing is forgotten, and every connection that holds delivers
  everything. All sessions of one manager together project to its runs and to runs of each stream.
- **Canonical JSON** (`Utf8`, `CanonicalJson`, `CanonicalReader`, `CanonicalSpelling`): the byte string
  that is signed. A reader recovers the value, so one byte string stands for one value, and every text
  has its shortest spelling.
- **Attestation** (`Attestation`, `AttestationBuilder`, `AttestationClaims`): the stored record gives
  back exactly the bytes that were signed, and the confidential tier only beside its evidence.
- **Provider records** (`FieldMerge`, `Reconcile`, `ReconcileLaws`, `ReconcileSettles`, `RecordStore`,
  `ContentIds`, `AccountRecords`, `Retries`, `DedupPublish`, `DedupEndings`, `DedupStates`, `DedupLaws`,
  `DedupExample`, `FleetSafety`, `FleetProgress`): who owns which field, which of several records is
  adopted, and compare-and-swap writers that interleave while any request may fail.
- **Budget and price** (`RamBudget`, `RamBudgetLaws`, `RamGuard`, `Pricing`).
- **Tool calls** (`LfmBlocks`, `LfmCalls`, `LfmLiterals`, `LfmIncremental`, `LfmStreaming`, `LfmContent`,
  `LfmToolParser`).
- **Bytes and hours** (`Der`, `AppAttest`, `DerSignature`, `ServeWindow`).

## What the proofs found

- `handle_resume_result` does not check that the reported mark is at least the acknowledged one, as
  `acknowledge` does. Alone it can break the buffer invariant (`ReplayJob.ResumeCanBreakTheBuffer`;
  `ReplayJob.HandleResumeKeepsOk` gives the exact condition); together with the advisor it never does
  (`StreamSafety.RepliesAreConsistent`, and for all sessions `ManagerStreams.EverySessionIsAStream`).
- `buffer_message` accepts a chunk after a completion. Only the pump's ordering prevents it
  (`ReplayJob.BufferAfterCompletion`, with an example in `ReplayJob.ChunkAfterCompletionBreaksTheBuffer`).
- `dedup_and_publish_provider` deletes the duplicates before the first put. If that put meets a
  conflict, the retry reads a listing without them; if it fails otherwise, the publish returns. Either
  way an owner setting that only a duplicate held is gone, although the comments promise it is carried
  forward (`provider/src/main.rs:1100-1101`). `DedupLaws.HarvestSurvives` and
  `DedupLaws.HarvestSurvivesIff` state exactly when it survives; `DedupExample.HarvestCanBeLost` shows
  both ways to lose it.
- `machineFingerprint` is the one optional agent field missing from the list of keys to clear, so a
  fingerprint that a later publish lacks stays behind (`FieldMerge.LaterPublishWins`, with an example in
  `FieldMerge.FingerprintCanBeStranded`).
- `read_tlv` is described as a strict DER reader, but it accepts any definite length form up to four
  bytes, minimal or not (`Der.ReadUndoesEncode`, `Der.NonMinimalIsAccepted`); and trailing bytes are
  accepted at every level of the nonce extension (`AppAttest.OnlyNestingsYieldANonce`).
- The `None => break` arm of `fit_within_budget` is unreachable (`RamGuard.FitWithinBudget`), and so is
  the last error of `patch_provider_advisor_fault`: the fourth conflict returns earlier.

## Assumptions

- Content identifiers (cids) are injective in the record body, which can be had
  (`ContentIds.ContentIdIsInjective`); hashes of chunks, fingerprints, base64,
  signatures and the serializer of synthetic frames are parameters. Session ids and resume tokens are
  not reused. The clock is a counter that an event advances.
- A chunk's number counts as a natural number below the 32-bit limit, a detach generation below the
  64-bit one.
- `DedupLaws.PublishHolds` and `DedupLaws.HarvestSurvivesIff` assume that the deletes of duplicates reach
  the store, and that other writers write the adopted key, leaving the record recognizable as this
  machine's, or keys of records that are not and do not look like this machine's. The publish itself
  (`DedupPublish`) and `DedupLaws.HarvestSurvives` assume nothing about other writers or failures.
- A listing shows the records as they are at one instant, although the code reads it page by page.
- Characters are Unicode scalar values; a number in JSON is an integer in -2^63..2^64-1 or a float, held
  as its 64 bits.

## Model

| member | source | states |
|---|---|---|
| `ReplayJob.FailTerminalOk` | provider/src/advisor.rs:285-301 | A synthetic failure keeps the invariant of a job that will offer nothing more, whatever was buffered: its completion counts all that was produced |
| `ReplayJob.FailureIsSent` | provider/src/advisor.rs:285-301 | The next drain of a failed job ends with its synthetic completion, also when another completion had been sent before |
| `ReplayJob.AppendedOk` | provider/src/advisor.rs:345-366 | Appending one chunk extends the contiguous buffer by one and the byte count by its length |
| `ReplayJob.BufferKeepsOk` | provider/src/advisor.rs:302-366 | Offering any message to a running job keeps the invariant, the pump going on only after an accepted message that is not the completion |
| `ReplayJob.AcceptedIff` | provider/src/advisor.rs:302-366 | A running job refuses exactly a message that cannot be encoded, one that exceeds 512 unacknowledged chunks, 8 MiB or 32 MiB in total, and a chunk out of sequence; a recorded chunk is appended as offered, a recorded completion is the handler's own summary with the count of all chunks; a refusal changes nothing but the completion, which then counts all chunks and has no tokens and no receipt |
| `ReplayJob.BufferAfterCompletion` | provider/src/advisor.rs:302-366 | After a completion the invariant survives another message if and only if that message fits, the completion counting as one of 512 frames, and is not recorded: the ordering comes from the pump, not from this function |
| `ReplayJob.ChunkAfterCompletionBreaksTheBuffer` | provider/src/advisor.rs:302-366 | An example: a chunk offered after the completion is accepted, and the completion no longer counts all chunks |
| `ReplayJob.AckChunksShape` | provider/src/advisor.rs:448-457 | Acknowledging drops exactly the chunks below next_seq, and subtracts exactly their lengths: the saturating subtraction never saturates |
| `ReplayJob.AcknowledgeKeepsOk` | provider/src/advisor.rs:424-447 | An acknowledgment keeps the invariant, ends the job iff it is a completed mark for everything of a finished job, drops exactly the chunks below a mark in range and resends nothing above it, and ignores another token's or a mark that goes backwards or past what was produced |
| `ReplayJob.HandleResumeKeepsOk` | provider/src/advisor.rs:382-422 | A resume verdict keeps the invariant if and only if its next_seq has not fallen behind an acknowledgment, the check this branch lacks |
| `ReplayJob.ResumeCanBreakTheBuffer` | provider/src/advisor.rs:382-422 | An example: a verdict that restarts below the acknowledged mark leaves nothing to resend, and the invariant is broken |
| `ReplayJob.VerdictResends` | provider/src/advisor.rs:382-422 | A verdict for another token changes nothing; for this job it reattaches at the advisor's mark, and the next drain sends exactly the chunks from there on and the completion |
| `ReplayJob.DrainedOk` | provider/src/advisor.rs:459-477 | Draining a job keeps the invariant |
| `ReplayJob.DetachedOk` | provider/src/advisor.rs:485-496 | A disconnect, which rewinds the send cursor, keeps the invariant |
| `InvocationManagers.InvocationManager.constructor` | provider/src/advisor.rs:127-136 | A new manager has no job and is valid |
| `InvocationManagers.InvocationManager.Start` | provider/src/advisor.rs:170-200 | A request without a resume token or for a known session is ignored, one that meets 64 jobs is refused; otherwise exactly one attached, empty job with the request's token is added |
| `InvocationManagers.InvocationManager.TotalBuffered` | provider/src/advisor.rs:316-322 | The loop sums the buffered bytes of all jobs |
| `InvocationManagers.InvocationManager.BufferMessage` | provider/src/advisor.rs:302-366 | The new table and the pump's verdict are those of the specification, with the 512-frame, 8 MiB and 32 MiB limits |
| `InvocationManagers.InvocationManager.BufferPayload` | provider/src/advisor.rs:262-283 | An undecodable payload fails its job; any other is buffered |
| `InvocationManagers.InvocationManager.DiscardIfIncomplete` | provider/src/advisor.rs:252-260 | A handler that returns without a completion removes its job, and only then |
| `InvocationManagers.InvocationManager.DiscardPanicked` | provider/src/advisor.rs:235-241 | A handler that panics removes its job |
| `InvocationManagers.InvocationManager.DropAcked` | provider/src/advisor.rs:448-457 | The loop that releases acknowledged chunks computes the acknowledged job |
| `InvocationManagers.InvocationManager.HandleResumeResult` | provider/src/advisor.rs:382-422 | Applies a resume verdict to the matching session and token only; unknown or expired ends the job |
| `InvocationManagers.InvocationManager.AcknowledgeFrame` | provider/src/advisor.rs:424-447 | Applies an acknowledgment to the matching session and token only |
| `InvocationManagers.InvocationManager.DrainJob` | provider/src/advisor.rs:462-476 | Emits one job's frames in order and moves its cursors |
| `InvocationManagers.InvocationManager.Drain` | provider/src/advisor.rs:459-477 | Emits, for the attached jobs in some order, exactly their pending frames, and leaves every cursor advanced |
| `InvocationManagers.InvocationManager.DetachAll` | provider/src/advisor.rs:485-517 | Detaches every job - send cursor back at the acknowledged mark, next generation - and arms one retention timer per job, stamped with that generation |
| `InvocationManagers.InvocationManager.FireTimer` | provider/src/advisor.rs:497-516 | Removes a job only when it is detached under the timer's own token and generation |
| `ManagerRuns.ReplayInvariant` | provider/src/advisor.rs:170-517 | In every reachable state of every run the replay invariant holds, and a live job still buffers every chunk from its acknowledged cursor on, equal to what was offered |
| `ManagerRuns.FreshSessionIsAdmitted` | provider/src/advisor.rs:170-200 | After every run a session not seen before may be admitted, and below 64 jobs it then has an empty, attached job whose pump is running |
| `BufferBounds.BufferWithinLimits` | provider/src/advisor.rs:323-338 | A recorded message keeps 512 chunks and 8 MiB for the job and 32 MiB in total; a refused one adds only the synthetic completion |
| `BufferBounds.BoundedGrowth` | provider/src/advisor.rs:54-57 | In every run at most 64 jobs, 512 buffered chunks and 8 MiB per job and 32 MiB in total, each exceeded only by one synthetic completion per failed job |
| `TimerFencing.FindArming` | provider/src/advisor.rs:497-516 | Every pending timer was armed by a disconnect of the run, with the generation that disconnect set |
| `TimerFencing.TimerRemovesIffDetachedSince` | provider/src/advisor.rs:497-516 | A firing timer removes its job if and only if the job has stayed detached without a break since the disconnect that armed it |
| `TimerFencing.NoEarlyExpiry` | provider/src/advisor.rs:485-517 | No job is removed by a timer earlier than 45 ticks of the clock after its latest detach, whatever the order of detaches, reattaches and stale firings |
| `TimerFencing.DetachedIsTimed` | provider/src/advisor.rs:485-517 | In every reachable state each detached job has a pending timer that would remove it, so no job outlives its connection for ever |
| `TimerFencing.ExpiresAfterRetention` | provider/src/advisor.rs:485-517 | And not later than needed: 45 ticks after any reachable state the timer of a job that is detached may fire, and it removes exactly this job |
| `DrainOrder.DrainIsExact` | provider/src/advisor.rs:459-477 | A drain of an attached job emits exactly the chunks send..produced in order and then the completion; an immediate second drain and a drain after a detach emit nothing |
| `DrainOrder.EmittedInOrder` | provider/src/advisor.rs:459-477 | Between an attach and the next detach or resume, everything emitted is strictly ordered, so no frame is emitted twice and nothing follows the completion |
| `AdvisorSessions.AcceptChunkOk` | infra/advisor/src/sessions.ts:337-375 | The gate relays a chunk iff the session is live and attached and the chunk's number is the accepted count; every other chunk leaves the requester as it was, and the answer is the accepted count |
| `AdvisorSessions.AcceptCompletionOk` | infra/advisor/src/sessions.ts:432-500 | A completion is accepted iff the session is live and everything produced has been relayed, unless the client is gone |
| `AdvisorSessions.ResumeClaimOk` | infra/advisor/src/sessions.ts:296-335 | A resume claim is granted iff the session is live and the claim is not behind what was accepted, and then reattaches it at the accepted count; completed is told exactly to a finished session; a refused claim changes nothing |
| `AdvisorSessions.ReplayIsTold` | infra/advisor/src/sessions.ts:355-361 | A retransmission of one of the 512 newest chunks is acknowledged when its body has the recorded fingerprint, and closes the session with an error when it has not |
| `AdvisorSessions.AcceptKeepsRemembering` | infra/advisor/src/sessions.ts:355-374 | The fingerprints of the 512 newest accepted chunks stay recorded, whatever chunk arrives |
| `StreamSafety.StepKeepsSafe` | infra/advisor/src/connection.ts:672-770 | Every single step of provider, sockets and advisor keeps the joint safety invariant, including frames of fenced sockets and lost tails |
| `StreamSafety.AlwaysSafe` | provider/src/advisor.rs:302-517 | The joint invariant holds after every sequence of events |
| `StreamSafety.DeliveredIsPrefix` | infra/advisor/src/sessions.ts:337-374 | End to end: the requester always has a gap-free, duplicate-free, in-order prefix of what was produced, and a stream reported finished is complete |
| `StreamSafety.RepliesAreConsistent` | provider/src/advisor.rs:391-435 | Every reply the provider handles carries a mark between acked and produced, so the protocol-violation branch is unreachable and the resume precondition always holds |
| `StreamSafety.RelayedGrows` | infra/advisor/src/sessions.ts:337-374 | What the requester has received is append-only, and frozen once the stream has ended |
| `StreamSummary.WhatIsTaken` | provider/src/advisor.rs:302-366 | A running job takes a handler's output exactly when it becomes a message that can be encoded and that fits into 512 chunks, 8 MiB and 32 MiB in total; a chunk taken is produced, and the pump goes on after everything taken but the completion |
| `StreamSummary.FinishedWithTheHandlersSummary` | infra/advisor/src/sessions.ts:432-472 | End to end: a stream reported finished carries the token counts and the receipt of the handler's own completion, or none at all when a message of the job had been refused |
| `StreamFencing.StepFences` | infra/advisor/src/connection.ts:672-770 | Without a registration, and whenever it changes, the session takes no chunks; only frames of the registered socket and the expiry of the session reach the requester, and the session takes chunks again only after a resume claim from that socket |
| `StreamFencing.BreakingLoses` | infra/advisor/src/connection.ts:672-770 | A broken socket loses its replies, an older one any tail of what was under way, one that the advisor closes everything and its registration; an expired live session ends its stream with an error |
| `StreamFencing.RelayedOnlyAfterAClaim` | infra/advisor/src/sessions.ts:296-375 | In every run, between a change of registration and the next chunk relayed the advisor has granted a resume claim that came over the registered socket |
| `ManagerStreams.EverySessionIsAStream` | provider/src/advisor.rs:127-517 | With any number of sessions under one manager, shared limits and timers included, every joint run is a legal run of the manager, without any assumption on the marks in replies, and each session's job is that of a run of its own stream |
| `ManagerStreams.EveryRequesterHasAPrefix` | infra/advisor/src/sessions.ts:337-374 | So the requester of each of these sessions always has a gap-free, duplicate-free, in-order prefix, complete when reported finished |
| `StreamProgress.AlwaysTracked` | provider/src/advisor.rs:459-517 | In every run, what is neither acknowledged nor in flight is still in the replay buffer |
| `StreamProgress.QuiescentMeansDelivered` | provider/src/advisor.rs:459-477 | When nothing is in flight and a drain would send nothing, everything produced has been delivered and acknowledged, unless the advisor has dropped the session |
| `StreamRecovery.ReconnectDelivers` | provider/src/advisor.rs:368-422 | From every reachable disconnected state with a live session there is a reconnect that holds and delivers everything produced, and the completion if there is one; the proof builds it |
| `StreamLiveness.EveryHeldConnectionDelivers` | provider/src/advisor.rs:368-477 | From every reachable state whose connection is registered or about to be, every run of the connection's own steps is finite, with an explicit bound, and when no step is left everything produced is delivered, and the completion if there was one |
| `StreamLiveness.EveryReconnectDelivers` | provider/src/advisor.rs:368-477 | The same from every reachable disconnected state with a live session, for every way a fresh connection can go on |
| `Utf8.BytesOrderIsCodePointOrder` | provider/src/canonical.rs:77-91 | Comparing UTF-8 bytes orders strings exactly as comparing Unicode code points |
| `Utf8.DecodeUndoesEncode` | provider/src/canonical.rs:93-117 | A decoder that accepts only minimal UTF-8 (RFC 3629, section 3) recovers every character, whatever follows it |
| `Utf8.EncodeUndoesDecode` | provider/src/canonical.rs:93-117 | And it accepts nothing but these encodings: whatever it reads is the encoding of the character it gives |
| `Utf8.KnownEncodings` | provider/src/canonical.rs:93-117 | One character of each length, byte by byte (RFC 3629, section 3) |
| `Utf8.LexLessIff` | provider/src/canonical.rs:77-91 | The order of the keys, by their first difference: a smaller unit there, or the shorter text ends there |
| `CanonicalJson.SortedUnique` | provider/src/canonical.rs:77-91 | A finite set of keys has only one sorted listing, so the output cannot depend on insertion order |
| `CanonicalJson.SortedByCodePoint` | provider/src/canonical.rs:77-91 | Keys come out in Unicode code-point order |
| `CanonicalJson.Writer.WriteString` | provider/src/canonical.rs:93-117 | Appends the quoted text, which is the shortest spelling of it (`CanonicalSpelling.QuotedIsShortest`) |
| `CanonicalSpelling.PrintedIsShortest` | provider/src/canonical.rs:93-117 | No bytes that a JSON reader takes for a character are shorter than the printed ones |
| `CanonicalSpelling.PrintedIsTheOnlyShortest` | provider/src/canonical.rs:93-117 | And no others are as short, up to capital hexadecimal digits |
| `CanonicalSpelling.PrintedForms` | provider/src/canonical.rs:12-14 | Quote, backslash and five control characters are a backslash and a letter, the other control characters a six-byte escape with lower-case digits of their code, and every other character, the solidus included, is its UTF-8 bytes |
| `CanonicalSpelling.QuotedIsShortest` | provider/src/canonical.rs:93-117 | Among all the bytes that a JSON reader takes for a text, the canonical ones are shortest |
| `CanonicalSpelling.PlainTextIsQuotedAsItIs` | provider/src/canonical.rs:12-14 | A text without quotes, backslashes and control characters stands between its quotes as its UTF-8 bytes |
| `CanonicalSpelling.TokensAreJson` | provider/src/canonical.rs:41-91 | The literal names and the punctuation are the ASCII codes of JSON's (RFC 8259, sections 2 and 3) |
| `CanonicalJson.Writer.SortKeys` | provider/src/canonical.rs:78-80 | The in-place key sort gives the sorted listing of the same keys |
| `CanonicalJson.Writer.WriteObject` | provider/src/canonical.rs:77-91 | Appends the object's canonical bytes, a function of the finite map alone, or fails iff a float occurs below |
| `CanonicalJson.Writer.WriteCanonical` | provider/src/canonical.rs:41-75 | Appends the canonical bytes of any value, or fails iff a float occurs anywhere in it |
| `CanonicalJson.ToCanonicalBytes` | provider/src/canonical.rs:119-123 | Succeeds iff no float occurs anywhere in the value, and then returns its canonical bytes |
| `CanonicalReader.ReadValueUndoes` | provider/src/canonical.rs:41-117 | A reader recovers every float-free value from its canonical bytes, whatever follows them as long as it does not start with a digit |
| `CanonicalReader.RoundTrip` | provider/src/canonical.rs:119-123 | Reading the canonical bytes of a value gives the value and nothing left over |
| `CanonicalReader.CanonicalIsUnambiguous` | provider/src/canonical.rs:119-123 | Equal canonical bytes mean equal values: a signature covers one value only |
| `FieldMerge.MergeAgentProviderFields` | provider/src/pds.rs:312-336 | The clear-then-overlay loops compute the merge: agent fields overlaid except under owner keys, optional agent fields not emitted now removed, everything else kept |
| `FieldMerge.MergeKeepsOthers` | provider/src/pds.rs:293-336 | Owner settings and unknown fields come through a merge unchanged, whatever the agent record holds |
| `FieldMerge.WhoWritesWhat` | provider/src/pds.rs:223-336 | Key by key: the eight named owner settings stay the stored record's, the eighteen named optional fields become the agent's or disappear, any other key is the agent's if it has it and else the stored one |
| `FieldMerge.MergeCommutesWithEdits` | provider/src/pds.rs:312-336 | Any edit of owner or unknown keys can be made before the merge or after it |
| `FieldMerge.LaterPublishWins` | provider/src/pds.rs:272-336 | Two publishes leave the result of the later one if and only if no fingerprint is stranded; on every other key they always agree |
| `FieldMerge.FingerprintCanBeStranded` | provider/src/pds.rs:272-336 | An example: two agent records for which the later publish does not win, because the fingerprint of the earlier one stays |
| `FieldMerge.MergeIsIdempotent` | provider/src/pds.rs:312-336 | Publishing the same record again changes nothing |
| `Reconcile.Split` | provider/src/pds.rs:476-484 | The classification loop separates this machine's records from the look-alikes, in order |
| `Reconcile.Harvest` | provider/src/pds.rs:508-524 | The harvest loops fill exactly the owner keys that are absent or null |
| `Reconcile.ReconcileProviderRecords` | provider/src/pds.rs:472-537 | The whole decision: adopted key and version, harvested base, deletions, ambiguous count |
| `ReconcileLaws.Partition` | provider/src/pds.rs:485-530 | Adopted and deleted records are exactly this machine's, and no record is both |
| `ReconcileLaws.CachedOrLatestIsAdopted` | provider/src/pds.rs:496-502 | The adopted record is the one at the cached key if one of ours is there; otherwise no record of ours was created later, and it is listed first among those created at the same time |
| `ReconcileLaws.WhoseRecord` | provider/src/pds.rs:410-446 | Whose a stored body is, on its JSON keys: mine with my fingerprint, or without any fingerprint and with my signing key or at my cached key; else a look-alike if it has no fingerprint and its label, chip and model are mine; else another's |
| `ReconcileLaws.SeveralAreAmbiguous` | provider/src/pds.rs:476-491 | The look-alikes are reported as ambiguous, with their number, exactly when there are two of them |
| `ReconcileLaws.DeleteListIsExact` | provider/src/pds.rs:526-530 | The adopted record and the deleted ones are together as many as this machine's records, and none is listed for deletion twice |
| `ReconcileLaws.NothingOursNothingDone` | provider/src/pds.rs:493-495 | There is no decision exactly when no listed record is ours |
| `ReconcileLaws.ListingOrderIsIrrelevant` | provider/src/pds.rs:472-537 | When this machine's records have distinct creation times, permuting the listing changes nothing |
| `ReconcileLaws.OwnerChoicesAreCarried` | provider/src/pds.rs:505-524 | Each owner key of the base is the adopted record's own non-null value, else one than which no record of ours has a newer, else untouched; other keys are the adopted record's |
| `ReconcileSettles.Settles` | provider/src/pds.rs:472-537 | Once any body still recognized as ours is stored at the adopted key and the duplicates are gone, reconciling again adopts it and has nothing to delete or harvest |
| `ReconcileSettles.SecondRunAfterBase` | provider/src/pds.rs:472-537 | Writing the base itself settles the reconciliation |
| `ReconcileSettles.SecondRunAfterPublish` | provider/src/main.rs:1098-1113 | Writing the base merged with the agent's record settles it too, also once the adopted key is cached |
| `ContentIds.ContentIdIsInjective` | provider/src/pds.rs:809-820 | A content identifier that tells any two bodies apart exists, so what is proved under that assumption speaks of real stores |
| `RecordStore.PatchedIsUnchanged` | provider/src/pds.rs:1069-1084 | A patch right after a patch is skipped exactly when both carry the same code, or both clear the fault |
| `RecordStore.UnchangedMeans` | provider/src/pds.rs:1069-1082 | A patch is skipped exactly when the stored fault is an object with the same code, whatever else it says; a clearing exactly when no fault of any shape is stored |
| `RecordStore.WithFaultChangesOneKey` | provider/src/pds.rs:1085-1095 | A patch changes the advisor fault and no other key |
| `RecordStore.FaultIsStored` | provider/src/pds.rs:1085-1098 | A stored fault is an object of code, message and time under its own key; clearing it removes that key |
| `RecordStore.ConflictsAreRetried` | provider/src/pds.rs:1099-1120 | In every run a put answered with a conflict is repeated from a fresh read exactly while the writer has sent fewer than four puts for a patch, six for a publish; then the writer gives up |
| `RecordStore.UndisturbedWriterCommits` | provider/src/pds.rs:1057-1107 | Whatever the other writers do between a writer's read and its put, if none of them commits a write the put commits this writer's change of the record it read; a patch that finds its fault stored sends none |
| `RecordStore.OwnerEditsAtOnce` | provider/src/pds.rs:809-848 | The owner may edit at any time, and what the edit sets or removes is stored at once |
| `RecordStore.PatchProviderAdvisorFault` | provider/src/pds.rs:1052-1120 | The retry loop writes at most once, on the version it read and that is still stored; it goes on only after a swap conflict and gives up after four; a failing listing, a missing record, an unchanged code or a failing put, carried out or not, ends it at once |
| `RecordStore.StepIsAtomic` | provider/src/pds.rs:809-848 | A put that is carried out, answered or not, takes effect on the record as it is at that instant, every other event of a writer leaves the record alone, and a request that fails ends its writer |
| `RecordStore.Serializable` | provider/src/pds.rs:1052-1120 | Every interleaving of owner edits, publishes and patches, with requests failing at any point, equals doing the committed writes one after the other |
| `RecordStore.NoLostUpdate` | provider/src/pds.rs:293-336 | In every interleaving, with requests failing at any point, each owner setting is what the owner last committed, unknown fields are untouched, and the fault is the last committed patch's |
| `RecordStore.AttemptsAreBounded` | provider/src/pds.rs:1057-1058 | No run makes a patch send more than four puts, or a publish more than six |
| `DedupPublish.Account.DeleteRecord` | provider/src/pds.rs:859-898 | A delete removes the record only in the expected version |
| `DedupPublish.Account.PutRecord` | provider/src/pds.rs:809-848 | A put succeeds iff the expected version is the stored one |
| `DedupPublish.Account.DeleteAll` | provider/src/main.rs:1081-1096 | The duplicates are deleted one after the other, each only in its listed version; a delete that fails is skipped |
| `DedupPublish.Account.DedupAndPublish` | provider/src/main.rs:1021-1130 | The whole publish, whatever others put, create or delete before each request and whichever requests fail, carried out or not: first publish when nothing is ours; otherwise deletions once, best effort, then at most six attempts to merge and put, each on a fresh listing |
| `DedupEndings.WithAPlan` | provider/src/main.rs:1081-1130 | An attempt ends by its put, the request after the listing and, on the first attempt, the deletes: published iff the put is answered and the listed version is stored, another attempt iff it is answered that another one is |
| `DedupEndings.WithoutAPlan` | provider/src/main.rs:1021-1080 | An attempt whose listing fails ends the publish; when nothing is ours it ends with the create |
| `DedupEndings.TheReportIsTrue` | provider/src/main.rs:1021-1130 | Whatever others do: a publish that reports published has left a record with the agent's fields merged in, one that reports created the agent's own record, and it reports a conflict exactly when every attempt met one |
| `DedupLaws.HarvestSurvives` | provider/src/main.rs:1098-1113 | Whatever others do and whichever deletes fail: if the first put lands, the record left at the adopted key holds every owner choice of the harvested base |
| `DedupLaws.UndisturbedPutLands` | provider/src/main.rs:1081-1113 | If nobody else writes the adopted key between the first listing and the first put, that put lands exactly when it reaches the store, whichever deletes fail |
| `DedupLaws.PublishHolds` | provider/src/main.rs:1021-1130 | When the deletes reach the store and others leave this machine's records recognizable, write at the adopted key or at keys of foreign records and make no look-alikes, then however the publish ends, the adopted key holds the body that a one-record compare-and-swap loop leaves, the duplicates are gone, every other record is as listed except at those foreign keys, and reconciling again finds nothing to do |
| `DedupLaws.HarvestSurvivesIff` | provider/src/main.rs:1081-1123 | Under the same assumptions (all deletes reach the store; others write only at the adopted key, leaving this setting alone, and at foreign keys), the record that remains holds a harvested owner choice if and only if the first put lands or the adopted record held it already |
| `DedupExample.HarvestCanBeLost` | provider/src/main.rs:1081-1123 | Two records and one unrelated conflicting edit, or one lost put: the record that held the owner's tier is deleted and no record holds it any more; the input meets every assumption |
| `DedupExample.AgentIsPublishable` | provider/src/pds.rs:312-336 | A record with the fields an agent always writes can be published by the machine of that example |
| `FleetSafety.OursCarryOurFingerprint` | provider/src/pds.rs:410-424 | With fingerprints on every record, ours are exactly the listed ones with our fingerprint |
| `FleetSafety.OthersNeverTouchMine` | provider/src/pds.rs:410-537 | Over every run of several machines acting on possibly stale listings, a machine's records stay exactly as they were unless it or its owner acts |
| `FleetSafety.HarvestStaysHome` | provider/src/pds.rs:505-524 | A harvested setting always comes from a record with the machine's own fingerprint |
| `FleetProgress.OneRoundSettles` | provider/src/main.rs:1021-1130 | With fingerprints on every record, a machine that lists all records, deletes, and puts without anybody else acting leaves exactly one record with its fingerprint, the merged one at the adopted key, and all other records as they were |
| `AttestationBuilder.BuildUnsigned` | provider/src/attestation.rs:357-415 | The insertions, with their own keys and values, build exactly the signed object |
| `Attestation.StoredIsSigned` | provider/src/attestation.rs:357-459 | The stored record without its signature is field for field the object that was signed, including every skip rule |
| `Attestation.SignedPartIsFloatFree` | provider/src/attestation.rs:416-416 | What a verifier rebuilds can always be canonicalized |
| `AttestationClaims.FieldsAreSignedUnderTheirKeys` | provider/src/attestation.rs:357-415 | A verifier finds every text field of the record in the signed object under its own JSON key, the optional ones exactly when present, and no signature |
| `AttestationClaims.FlagsAreSignedUnderTheirKeys` | provider/src/attestation.rs:357-381 | And each of the twelve posture flags under its own key |
| `AttestationClaims.ChainField` | provider/src/attestation.rs:382-392 | The certificate chain is there exactly when it is not empty, in order |
| `AttestationClaims.AppAttestIsFound` | provider/src/attestation.rs:405-415 | App Attest evidence is there exactly when present, as its object and key id |
| `AttestationClaims.TierIsEarned` | provider/src/attestation.rs:336-355 | On the signed object: the tier is attested-confidential exactly when the nine flags have their required values there and a cdHash is there; each single missing condition gives best-effort |
| `AttestationBuilder.Build` | provider/src/attestation.rs:244-459 | The signature is over the bytes a verifier rebuilds; the confidential tier is claimed iff each of the ten named conditions holds; hardware evidence is carried iff it verified and is bound to the key; building fails iff hashing the binary or signing fails |
| `Attestation.SignedBytesDetermineTheRecord` | provider/src/attestation.rs:120-133 | Two records with the same signed bytes agree on every field, so nothing can be changed, dropped or added under a signature |
| `RamGuard.FitWithinBudget` | provider/src/pricing.rs:395-433 | The loop keeps exactly the models left after dropping the largest until the rest fit, in the configured order; its give-up arm is unreachable |
| `RamBudgetLaws.SumFitsU32` | provider/src/pricing.rs:407-411 | With the catalog's largest floor of 256 GB the 32-bit sums are exact for every configuration of fewer than 2^24 models |
| `RamBudgetLaws.KeptFits` | provider/src/pricing.rs:395-433 | What is kept fits, whatever the machine |
| `RamBudgetLaws.FewestDropped` | provider/src/pricing.rs:395-433 | No other choice that fits drops fewer models |
| `RamBudgetLaws.LargestAreDropped` | provider/src/pricing.rs:398-417 | A dropped model is at least as large as every kept one, and never one of unknown size |
| `RamBudgetLaws.TiesBreakById` | provider/src/pricing.rs:398-404 | Of two models of the same size the one whose id is the greater stays |
| `RamBudgetLaws.MoreRamKeepsMore` | provider/src/pricing.rs:395-433 | With more RAM every model that was kept is still kept |
| `RamBudgetLaws.ConfigurationOrderIsIrrelevant` | provider/src/pricing.rs:398-404 | Permuting the configuration changes neither the kept nor the dropped models |
| `RamGuard.BudgetReport` | provider/src/pricing.rs:496-517 | The report carries the sum, the reserve, the verdict and the models the guard would drop |
| `RamGuard.DroppedIffOversubscribed` | provider/src/pricing.rs:499-510 | Models are dropped exactly under the worst verdict |
| `RamGuard.VerdictIsMonotone` | provider/src/pricing.rs:455-506 | More RAM or a smaller set never worsens the verdict, although the reserve grows with the RAM |
| `RamGuard.ReserveIsAFifth` | provider/src/pricing.rs:455-458 | The reserve is a fifth of the RAM rounded up, but at least 2 and at most 12 GB |
| `RamGuard.VerdictMeans` | provider/src/pricing.rs:496-506 | Oversubscribed means more than the RAM, tight less free than the reserve, comfortable at least the reserve free |
| `Pricing.ChargeIsCapped` | provider/src/pricing.rs:601-605 | A side's charge is the exact quotient capped at 18446744073709 |
| `Pricing.SidesAdd` | provider/src/pricing.rs:601-605 | Adding the two sides never saturates |
| `Pricing.PriceIsMonotone` | provider/src/pricing.rs:601-605 | The price is monotone in both token counts and both rates for all 64-bit inputs, saturated or not |
| `Pricing.UnitRateIsExactIff` | provider/src/pricing.rs:601-605 | At one unit per token the price is the token count if and only if neither side exceeds 18446744073709 |
| `Pricing.SplittingIsBounded` | provider/src/pricing.rs:601-605 | Splitting a job into k parts never raises the total and lowers it by at most 2(k-1) units |
| `Pricing.BoundIsReached` | provider/src/pricing.rs:601-605 | That bound is reached for every k up to a million |
| `LfmCalls.EveryValueHasALiteral` | provider/python/cocore_lfm_tool_parser.py:54-100 | The literal subset is complete: every value, negative numbers included, has a literal of unsigned number tokens that decodes to it |
| `LfmCalls.ParseBlock` | provider/python/cocore_lfm_tool_parser.py:103-158 | The loop with its early return gives the calls of the block as `LfmLiterals.BlocksYieldTheirCalls` characterizes them, all or none |
| `LfmCalls.CallsAreFaithful` | provider/python/cocore_lfm_tool_parser.py:120-158 | Each call of an accepted block has the name and exactly the named arguments of its item; nothing is invented. What an argument's value is, `LfmLiterals.LiteralsAreSpellings` says |
| `LfmLiterals.LiteralsAreSpellings` | provider/python/cocore_lfm_tool_parser.py:54-100 | An expression decodes to a value if and only if it spells that value: None or null, True or true, False or false, a constant, signs before a number, a list or tuple element by element, a dictionary whose later entries win |
| `LfmLiterals.ItemIsCall` | provider/python/cocore_lfm_tool_parser.py:121-157 | An item is a call if and only if it applies an allowed plain name to keyword arguments alone that spell values, the last of a name deciding, and no float in them is infinite or not a number |
| `LfmLiterals.BlocksYieldTheirCalls` | provider/python/cocore_lfm_tool_parser.py:103-158 | A list display whose items are all calls yields exactly these, one per item and in order; a block yields nothing else |
| `LfmBlocks.BlocksAreStable` | provider/python/cocore_lfm_tool_parser.py:29-32 | Completed blocks never change as the output grows, and new ones end beyond the old text |
| `LfmBlocks.BlockIsFound` | provider/python/cocore_lfm_tool_parser.py:24-32 | A text between the first start marker and the first end marker behind it is found as a block, with the markers spelled out |
| `LfmBlocks.CountGrows` | provider/python/cocore_lfm_tool_parser.py:262-264 | A longer text has at least as many end markers, and more when one ends beyond the shorter text |
| `LfmBlocks.NoNewEndNoNewBlock` | provider/python/cocore_lfm_tool_parser.py:262-267 | When the end-marker count has not risen there is no new block, so the early return loses nothing |
| `LfmStreaming.SegmentsCover` | provider/python/cocore_lfm_tool_parser.py:198-222 | An output is exactly its plain pieces and control blocks in order, and its calls are those of the blocks |
| `LfmStreaming.OnlyCallsAreLeftOut` | provider/python/cocore_lfm_tool_parser.py:198-222 | The content lacks exactly as many characters as the blocks that yield calls have |
| `LfmStreaming.WithoutCallsAllIsContent` | provider/python/cocore_lfm_tool_parser.py:198-222 | An output that yields no calls is all content |
| `LfmContent.WithoutABlock` | provider/python/cocore_lfm_tool_parser.py:198-222 | An output in which no start marker is followed by an end marker has no calls and is all content |
| `LfmContent.WithABlock` | provider/python/cocore_lfm_tool_parser.py:198-222 | The first completed block, markers spelled out, adds its calls, or itself when it yields none, between the text before it and what the rest of the output means |
| `LfmStreaming.CallsAreStable` | provider/python/cocore_lfm_tool_parser.py:270-278 | The calls of a text stay the first calls of every longer one |
| `LfmStreaming.StreamingEqualsBatch` | provider/python/cocore_lfm_tool_parser.py:241-281 | For every way of cutting an output into deltas the stream emits the calls of the whole output, each once, numbered 0, 1, 2, ... |
| `LfmToolParser.CleanTextIsInner` | provider/python/cocore_lfm_tool_parser.py:159-161 | Cleaning removes white space at both ends and nothing else, and drops only blank text |
| `LfmToolParser.Parser.ScanBlocks` | provider/python/cocore_lfm_tool_parser.py:201-217 | The scan collects the calls of all blocks and the output without the blocks that yielded calls |
| `LfmToolParser.Parser.ExtractToolCalls` | provider/python/cocore_lfm_tool_parser.py:198-222 | The calls of all blocks and, as content, the cleaned output without the blocks that yielded calls |
| `LfmToolParser.Parser.ExtractToolCallsStreaming` | provider/python/cocore_lfm_tool_parser.py:241-281 | One streaming step emits the calls beyond those already emitted, with their indices, and remembers them |
| `Der.ReadTlv` | provider/src/appattest.rs:544-568 | The length loop computes the specified reading |
| `Der.ReadUndoesEncode` | provider/src/appattest.rs:544-568 | The reader undoes every short- or long-form encoding (section 8.1.3 of X.690) of a value under 2^32 bytes, with any trailing data |
| `Der.EncodeUndoesRead` | provider/src/appattest.rs:544-568 | Whatever the reader accepts is such an encoding, so it accepts nothing else |
| `Der.NonMinimalIsAccepted` | provider/src/appattest.rs:544-568 | A short value is also accepted with a long-form length, so an element has several encodings |
| `AppAttest.NonceIsRecoveredIff` | provider/src/appattest.rs:523-541 | A well-encoded nonce is recovered if and only if it has 32 bytes |
| `AppAttest.IssuedNonceIsRecovered` | provider/src/appattest.rs:523-541 | The extension as Apple issues it, byte by byte, yields its nonce |
| `AppAttest.OnlyNestingsYieldANonce` | provider/src/appattest.rs:523-541 | Only a SEQUENCE around [1] around an OCTET STRING of 32 bytes yields a nonce |
| `AppAttest.ParseUndoesSerialize` | provider/src/appattest.rs:494-519 | Every laid-out authenticator data with the flag set is read back, whatever follows |
| `AppAttest.SerializeUndoesParse` | provider/src/appattest.rs:494-519 | Whatever is read back is laid out so |
| `AppAttest.ErrorsTellWhy` | provider/src/appattest.rs:494-519 | Exactly the laid-out data with the flag is read; from 37 bytes on, data without the flag is reported as such; everything else is too short and reported with its length |
| `AppAttest.AttestedIsBitSix` | provider/src/appattest.rs:494-519 | The flag is bit 0x40 of the flags byte |
| `DerSignature.EncodeInt` | infra/seed-dev-stack.ts:50-56 | The loop drops leading zeros and pads for the sign |
| `DerSignature.RawToDer` | infra/seed-dev-stack.ts:44-48 | Two encoded integers in a sequence with a one-byte length |
| `DerSignature.IntegerKeepsTheValue` | infra/seed-dev-stack.ts:50-56 | The integer has the value of its bytes in the fewest bytes that keep it non-negative (section 8.3 of X.690) |
| `DerSignature.SignatureRoundTrip` | infra/seed-dev-stack.ts:44-56 | For every 64-byte signature, reading the result gives a sequence of two minimal non-negative integers equal to r and s and nothing else; one length byte always suffices |
| `ServeWindows.DelayLeadsToTheHour` | provider/src/schedule.rs:145-154 | A delay is between 1 and 86400 seconds and ends on the full hour |
| `ServeWindows.StaysOpenUntilClose` | provider/src/schedule.rs:59-61 | An open window is open at every second before the announced one and closed at it, also past midnight |
| `ServeWindows.StaysClosedUntilOpen` | provider/src/schedule.rs:65-67 | A closed window is closed at every second before the announced one and open at it |
| `ServeWindows.OneCycleIsADay` | provider/src/schedule.rs:44-67 | From opening to closing and back is one day, for every window |

## Left out

- The WebSocket serve loop, task spawning, abort handles, notifications, heartbeats, HTTP, process exits and marker files: only the protocol steps they trigger are modelled.
- Saturation of 32-bit chunk numbers and wrap-around of the 64-bit detach generation: not reachable in the lifetime of a job.
- The advisor's token and ownership checks, fast-path routing, admission, settlement and the requester's HTTP response beyond the chunks and the ending relayed.
- A session that the advisor drops while the socket stays up: the provider's job then lingers without acknowledgment until the next disconnect, which is why `StreamProgress.QuiescentMeansDelivered` has that case.
- Encryption, signatures, SHA-256, base64, X.509 chain walking, CBOR decoding and the verification of Apple evidence: uninterpreted, or given as a verdict.
- LfmToolParser.Parser.ExtractToolCallsStreaming: the content deltas are not modelled: visible text depends on how the output is cut, because a lone `<` is not withheld; `strip_think_tags` is taken as the identity, and call ids are random, so both are outside the model.
- LfmCalls.ParseBlock: Python's own parser of expressions is a parameter, and recursion and digit limits of the interpreter are not modelled.
- Whether a record that only matches the hardware profile truly is this machine's: a heuristic of the source. What is proved is that it counts only when it is the only one.
- RecordStore.NoLostUpdate: speaks of one stored record; records that are deleted while a patch is under way end that patch, which `RecordStore.PatchProviderAdvisorFault` covers with its not-found case.
- RamGuard.FitWithinBudget: sums are unbounded and the catalog is a parameter; `RamBudgetLaws.SumFitsU32` says for which configurations the code's 32-bit sums are the same.
- DedupLaws.HarvestSurvivesIff: when the first put does not land, what a retry harvests again from a duplicate whose delete failed is not stated, because the adopted record may then change between attempts.
- Daylight-saving changes within a serve window, per-model schedules and their parsing, sub-second time.
- The price floor, token estimates, currencies and the rate catalog.
- CLI, doctor, diagnostics, build scripts, plist editing, MDM loading, the inference server wrapper, the console and configuration files.
