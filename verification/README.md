# Configuration Fabric, modelled and verified

Configuration Fabric distributes configuration artifacts from a controller (the distributor) to target agents. Its
promise is about crashes: an artifact is delivered over a network that loses, repeats and cuts, between processes that
die at any moment, and what the controller records as applied was really activated. This project models the protocol and
the durable layers under it and proves what they promise.

`dafny verify dfyconfig.toml` checks everything.

## How the model is built

- **The agent.** A handler is a short list of effects on files and journal (`AgentModel`), and a crash may fall between
  any two of them. `AgentInvariants` and `AgentHandlers` show what every effect and every handler keeps, `AgentRecovery`
  what start-up restores, `AgentRuns`, `AgentLineage`, `AgentManyKeys` and `AgentTransfers` what holds over whole runs,
  `AgentFence` the authority fence, `AgentAnswers` exactly when each message is granted, `AgentProgress` that a delivery in
  order goes through, also one interrupted by a crash, and `AgentFailingRuns` the runs that fail, each from an empty disk.
  `KeyPaths` says which key directories recovery visits.
  The class `TargetAgent` does the work step by step and is proved to have exactly the specified effects, in order.
- **The durable store.** `JournalFormat`, `SnapshotFile` and `Crc32c` are byte for byte; the classes `Journal` and
  `DurableStore` mutate them; `StoreModel` and `StoreRuns` hold the crash refinement. The store is generic in its codec;
  `AgentCodec` and `ControllerCodec` show that the two codecs meet what it asks.
- **Distributor and agent together.** `Lifecycle`, `Policy` and `Reconciliation` are pure; `Distributor` is the class
  with its sessions; `Ledger` states the steps it may take and what every history of such steps
  keeps; the class is proved to take no others. `EvidenceRuns` and `EvidenceKeys` compose these steps with any number of
  agents over an arbitrary network, `EvidenceFailingRuns` gives the run in which evidence is about another key.
  `SessionScript` says what is said and heard in a session without incident, and `EndToEnd` that a whole session of
  distributor and target then brings a delivery to Acknowledged with the target's live pointer at its pair.
- **Bytes.** `Frame`, `Sha256`, `Fields`, `ByteStreams`, `Formats`, `MessageCodec`, `ControllerFormats`, `PlanText`,
  `Plan`.
- **Artifacts.** `ArtifactIndex`, `ArtifactModel`, `ArtifactRuns` and the class `ArtifactStore`.

## Assumptions

- An input or output step takes effect or the process dies. `writeFileAtomic` and rename are atomic; an append may leave
  any byte prefix of its record; a snapshot slot may become unreadable at any time.
- SHA-256 is an arbitrary function, constant over a run, except in its own module. Only the theorems about the artifact
  store assume it injective, and they say so (`ArtifactRuns.Injective`).
- The payload path is injective in key, generation and digest, although the code uses a prefix of 12 hexadecimal
  characters. Deployment and stream identifiers are derived injectively (`Ledger` takes the derivation as a parameter).
- The agent keeps one committed generation for all its keys, so theorems about the live pointer across restarts take one
  key. `AgentManyKeys` states exactly what is lost with more keys.
- Theorems about recovery take a key whose directory the walk visits (`KeyPaths.Visited`), which can be read off the key
  and the live root. Directories contain no links, different keys in use have different directories, and no component of
  a key after the first is called "current" or "pending": for such a key the code visits the parent directory as well,
  always before the key's own. No key's directory is the staging area: with the live root set to the state directory the
  key "staging" would have that directory, and recovery would remove its pointer as a stray staging file
  (src/agent.cpp:415-439).
- A string of the source is a sequence of bytes; integers have their widths written out.

## What turned out not to hold

Each of these is proved, with the exact condition where there is one.

- Recovery passes over key directories called "payload" and those that are not strictly below the live root, such as those
  of the keys "payload", "svc/payload", "." and "..". For such a key the fence, the agreement of committed pair and live
  pointer, and adoption by reconciliation all fail (`AgentFailingRuns.UnvisitedRun`); they hold for exactly the other keys
  (`AgentFailingRuns.FencedIff`, `AgentFailingRuns.AgreesIff`, `ReconcileSoundness.AdoptionIff`).
- A restart of an agent with several keys can lower its stale fence (`AgentManyKeys.FenceSurvivesRestart`,
  `AgentFailingRuns.RestartCanLowerTheFence`).
- A commit of a pair already committed through another key is acknowledged without switching this key's pointer
  (`AgentManyKeys.AcknowledgedCommit`, `AgentFailingRuns.SuppressedRun`).
- Evidence of an activation can be about another key: where two deliveries of a target ask for the same pair under two
  keys, one can be recorded as applied although its key was never switched (`EvidenceFailingRuns.EvidenceCanNameAnotherKey`);
  otherwise it names the key (`EvidenceKeys.EvidenceNamesTheKey`).
- Such a suppressed commit leaves a prepare/commit target's window open, and the target then refuses every offer
  (`AgentFailingRuns.SuppressedRun`).
- The retry bound of maxAttempts-1 grows by one after a re-arm, for every limit (`Ledger.RearmAllowsOneMore`).
- A damaged length field of any journal record can silently drop that record and every record committed after it, and one
  changed byte is enough (`JournalFormat.LengthDamageDropsTheRest`, `JournalFormat.OneByteDropsTheRest`).
- A store killed between truncating its journal and completing the new segment start, or between creating the journal and
  completing the first one, never opens again (`StoreRuns.CompactionWindowIsFatal`, `StoreRuns.CreationWindowIsFatal`);
  these two windows are the only ones (`StoreRuns.Availability`).
- The streaming CRC32C class lacks the final inversion of the one-shot function (`Crc32c.StreamingIsComplement`); the
  journal uses it consistently.
- Acknowledgements sent without a key do not decode (`MessageCodec.KeylessAckIsLost`).
- A controller snapshot of more than 100000 artifacts is written and cannot be read (`ControllerCodec.SnapshotIff`).
- An intact empty artifact is called corrupt and expelled when it is verified or offered again
  (`ArtifactRuns.VerifyIff`, `ArtifactRuns.OfferedAgain`).
- An accepted plan whose rendering exceeds the limits does not parse back (`Plan.PrintingIsFaithful`).

## Model

| member | source | states |
|---|---|---|
| `Lifecycle.AcknowledgedThroughApplied` | src/lifecycle.cpp:26-39 | a legal walk that ends Acknowledged passed through Applied on the way |
| `Lifecycle.LegalIff` | src/lifecycle.cpp:26-39 | the whole table, state by state: which states may be followed by which |
| `Lifecycle.ForwardWithinAttempt` | src/lifecycle.cpp:26-45 | between two failures the happy-path position of a walk never goes back |
| `AgentInvariants.EffectKeepsInv` | src/agent.cpp:409-612 | the crash invariant (payload, pointer, window, finding and commit agreement) is kept by each single file or journal effect a handler or recovery may perform |
| `AgentInvariants.PrefixKeepsInv` | src/agent.cpp:1622-1711 | a crash after any number of safe effects leaves the crash invariant |
| `AgentHandlers.PrepareSound` | src/agent.cpp:1028-1151 | onPrepare, in every branch (refused, busy, resumed, restarted, duplicate): its effects are safe to cut anywhere and leave a live, consistent agent |
| `AgentHandlers.ChunkSound` | src/agent.cpp:1153-1247 | onChunk: the same, including the truncate before the first byte, the write at the stated offset and the every-sixteenth-chunk checkpoint |
| `AgentHandlers.CompleteSound` | src/agent.cpp:1249-1313 | onTransferComplete: the same; verified is recorded only for a file of the recorded length with the recorded hash |
| `AgentHandlers.StageSound` | src/agent.cpp:1315-1383 | onStage: the same; staged is recorded only after the payload is in place |
| `AgentHandlers.ApplyPrepareSound` | src/agent.cpp:1385-1464 | onApplyPrepare: the same; a window is recorded with the marker written first |
| `AgentHandlers.ApplyCommitSound` | src/agent.cpp:1466-1711 | onApplyCommit with activate and commitGeneration: the same, across pointer, marker, window, commit and finding |
| `AgentHandlers.ApplyAbortSound` | src/agent.cpp:1713-1755 | onApplyAbort: the same |
| `AgentHandlers.RetireSound` | src/agent.cpp:1830-1846 | onRetire: the same |
| `AgentHandlers.HandleSound` | src/agent.cpp:926-959 | every message, whatever it is: cutting its effects anywhere keeps the crash invariant, and running them all leaves the agent live and consistent |
| `AgentRecovery.RecoverTransfersRun` | src/agent.cpp:409-482 | recovery of transfers: a recorded transfer stays recorded if and only if its staging file holds at least the recorded bytes; the record is unchanged and the file keeps exactly those bytes; every other staging file is gone |
| `AgentRecovery.StartKeepsExactly` | src/agent.cpp:309-482 | the same of a whole start, for each transfer, with the bytes written out |
| `AgentRecovery.ResolvePendingRun` | src/agent.cpp:484-545 | resolving a marker removes it, leaves pointer, payload and transfers as they are, and keeps the window or closes it |
| `KeyPaths.SimpleKeys` | src/agent.cpp:484-502 | a key without separators is visited by recovery if and only if it is neither a dot, nor two dots, nor "payload" |
| `KeyPaths.NestedKeys` | src/agent.cpp:484-502 | a key of two components is visited if and only if the second is not "payload" |
| `AgentRecovery.RecoverKeysRun` | src/agent.cpp:484-601 | after the walk the committed record follows the last live pointer visited, and only markers in visited directories are gone |
| `AgentLineage.StaleFencing` | src/agent.cpp:1486-1530 | one key that recovery visits: over any run the generations written to `current` strictly increase, no generation is ever live with two digests, and the live pointer is the newest of them |
| `AgentLineage.RecoveryAgreement` | src/agent.cpp:409-612 | one visited key: from every crash state recovery ends with the committed pair equal to the live pointer, no window, no marker, and each staging file exactly bytesReceived long |
| `AgentLineage.RecoveryIdempotent` | src/agent.cpp:409-612 | one visited key: cutting recovery anywhere and running it again, under any directory listings, commits the same pair |
| `AgentFailingRuns.UnvisitedRun` | src/agent.cpp:500-502 | for every unvisited key a run from an empty disk: 3 is delivered, the process dies committing 5 after the switch, restarts with 3 committed and 5 live, and 4 is delivered over 5 |
| `AgentFailingRuns.FencedIff` | src/agent.cpp:484-502 | over all runs with one key the live pointer never goes back if and only if recovery visits the key |
| `AgentFailingRuns.AgreesIff` | src/agent.cpp:484-502 | over all runs with one key a serving agent's committed pair agrees with the live pointer if and only if recovery visits the key |
| `AgentManyKeys.FenceSurvivesRestart` | src/agent.cpp:547-601 | any number of keys: a restart keeps the stale fence if and only if nothing is live or the walk ends, among the directories it visits, at the newest pointer; a walk that visits none leaves the fence as it was |
| `AgentFailingRuns.RestartCanLowerTheFence` | src/agent.cpp:547-601 | the concrete run from an empty disk: 5 live for one key and 7 for another, 6 refused as stale, a restart commits 5, 6 is delivered, and the pointer goes from 7 to 6 |
| `AgentFailingRuns.SuppressedRun` | src/agent.cpp:1496-1510 | a run from an empty disk for any two keys and any pair: delivered under one key, offered, sent and staged under the other, the commit is acknowledged as a duplicate, nothing was ever live under the second key, and on a prepare/commit target the window stays open and refuses every later offer |
| `AgentProgress.DeliveryGoesThrough` | src/agent.cpp:1028-1711 | from every serving state: an offer the agent has no reason to refuse, new or of content partly received, for a deployment id without separators, then only the bytes it lacks in any division into chunks, completion, staging, the window if needed and the commit end with an acknowledgement, and the key is live at exactly that pair if and only if the pair was not committed before or the key was live at it already |
| `AgentProgress.OfferResumes` | src/agent.cpp:1102-1151 | an accepted offer of the same content, not verified yet, resumes at the smaller of the recorded count and the length of the file, and no file changes |
| `AgentProgress.OfferOfTheWhole` | src/agent.cpp:1102-1151 | content received and verified is not asked for again |
| `AgentProgress.OfferReplaces` | src/agent.cpp:1102-1151 | other content under the same deployment is destroyed, the transfer begins at zero, and nothing else changes |
| `AgentProgress.InterruptedDeliveryGoesOn` | src/agent.cpp:309-1711 | after any crash and restart, a transfer whose staging file is still there is offered again, resumes at its last checkpoint, and with only the rest of the content sent it ends with an acknowledged commit |
| `AgentProgress.AtMostFifteenChunksAreLost` | src/agent.cpp:1229-1238 | a transfer that is sent alone: killed after any number of chunks and started again, the agent holds all but at most the last fifteen, since every sixteenth is checkpointed |
| `AgentFence.FenceNeverFalls` | src/agent.cpp:846-924 | over any run with crashes and restarts the accepted controller epoch never decreases, and within an epoch the incarnation that established it stays |
| `AgentFence.SupersededIsRefused` | src/agent.cpp:846-869 | a controller of an older epoch, or of another incarnation of the known one, is refused for good |
| `AgentRecovery.BootSound` | src/agent.cpp:309-396 | from every crash state a start is safe to cut anywhere and ends recovered, with the boot term raised by exactly one |
| `AgentRuns.TraceConsistent` | src/agent.cpp:409-612 | in every run of messages, crashes and restarts, every state satisfies the crash invariant and every serving state is live and consistent |
| `AgentRuns.CheckpointSurvives` | src/agent.cpp:409-482 | in every run: of the transfers recorded when a process starts, exactly those whose staging file is there survive, with the checkpointed record and exactly the checkpointed bytes |
| `AgentRuns.KilledGoesOn` | src/agent.cpp:409-482 | in every run: a process killed between two messages and started again goes on with every transfer that had received anything |
| `AgentRuns.DigestBeforeActivation` | src/agent.cpp:1336-1374 | whenever a live pointer names (g, d) for a key, the payload stored for it hashes to d |
| `AgentRuns.VerifiedMeansHashed` | src/agent.cpp:1268-1301 | verified means complete and hashing to the digest; staged means verified with the payload in place |
| `AgentRuns.AtomicHasNoWindow` | src/agent.cpp:1400-1449 | an AtomicActivate agent never has a window open, in memory or on disk |
| `AgentRuns.SwitchShape` | src/agent.cpp:1486-1614 | the live pointer is switched only by a commit of a staged transfer with exactly the generation and digest the message names, above the committed generation |
| `AgentRuns.WindowIntegrity` | src/agent.cpp:1576-1593 | every activation of a PrepareCommitAbort agent is of the deployment, generation and digest recorded when the window opened, though the commit compares only the deployment |
| `AgentManyKeys.AcknowledgedCommit` | src/agent.cpp:1496-1510 | any number of keys: an acknowledged commit leaves its key live at that content if and only if it was not suppressed as a duplicate through another key, or already was |
| `AgentTransfers.ChunkWritesBytes` | src/agent.cpp:1182-1238 | an honest chunk extends the staged prefix of the artifact, at every crash point between truncation, write and count |
| `AgentTransfers.TransferAssembly` | src/agent.cpp:1153-1247 | if every chunk is a true slice of one artifact, then under loss, duplication, reordering, re-offers, crashes and resumption from an older checkpoint the staging file is the artifact's received prefix |
| `AgentTransfers.CompletedTransferVerifies` | src/agent.cpp:1268-1301 | a transfer that has all its bytes always verifies on completion |
| `AgentProgress.ChunkAdvances` | src/agent.cpp:1182-1247 | an in-order chunk is accepted and the agent then holds exactly that much more of the content |
| `AgentProgress.CommitSwitches` | src/agent.cpp:1466-1615 | with the content staged and the window as the guarantee needs it, the commit is acknowledged, and it switches the pointer exactly when the pair is new |
| `AgentProgress.FreshAgentServes` | src/agent.cpp:309-396 | an agent started on an empty disk serves, and every admissible offer is welcome there |
| `AgentAnswers.GreetingIff` | src/agent.cpp:846-924 | a greeting is accepted if and only if its epoch is newer, or the known one from the known incarnation, or none is known; then the authority is recorded before the answer; an older epoch is refused as stale, another incarnation as fenced, and nothing changes |
| `AgentAnswers.OfferIff` | src/agent.cpp:1028-1151 | an offer is refused if and only if it is oversize, stale, in conflict, beyond the guarantee or under an open window, with the code of the first that applies; otherwise it is answered as a duplicate exactly when the pair is remembered for the key, and else accepted and recorded |
| `AgentAnswers.ChunkIff` | src/agent.cpp:1153-1247 | a chunk is taken if and only if it starts where the transfer of its stream ends, fits, and the file it continues is there; a refusal changes nothing and tells how much the transfer has |
| `AgentAnswers.CompletionIff` | src/agent.cpp:1249-1313 | a transfer is verified if and only if it is complete, as declared, and its file has the length and hash; complete and as declared but not intact it is destroyed; else nothing changes |
| `AgentAnswers.StagingIff` | src/agent.cpp:1315-1383 | staged if and only if verified, of this pair, not older than what is committed, and its file is there; then its file is the payload of the pair |
| `AgentAnswers.WindowIff` | src/agent.cpp:1385-1464 | a window is opened if and only if the guarantee has windows, none is open, and a transfer of exactly this pair is staged and not older than what is committed |
| `AgentAnswers.CommitIff` | src/agent.cpp:1466-1615 | a commit is acknowledged if and only if it is of a staged transfer of exactly this pair, newer than anything committed and in the window it needs, or was done already; in the first case its key is live at the pair, the pair is committed and remembered as applied in memory and on disk, and no window is left; otherwise nothing changes but counters |
| `AgentAnswers.AbortIff` | src/agent.cpp:1713-1755 | an abort succeeds if and only if it names the open window; then the window is closed, the marker is gone and nothing is switched |
| `AgentAnswers.AbortMakesRoom` | src/agent.cpp:1713-1755 | an offer that only the window stood in the way of is acceptable once the window is aborted |
| `AgentAnswers.RetireIff` | src/agent.cpp:1830-1846 | a transfer is retired if and only if its generation is older than the committed one or nothing is committed; then record and staging file are gone, and nothing else changes |
| `AgentAnswers.FindingsAreKept` | src/state.cpp:900-921 | remembering an activation forgets, beside an older finding of the same key and digest, at most the oldest finding, and only at the bound of 128 |
| `AgentAnswers.ReportSays` | src/agent.cpp:1757-1828 | a report is the committed pair, window and authority as they are, the newest findings, as many as asked for, and for each transfer listed no more bytes than its file holds; answering changes nothing |
| `TargetAgent.TargetAgent.OnHello` | src/agent.cpp:846-924 | the authority fence: the method has exactly the effects and answers of its specification |
| `TargetAgent.TargetAgent.OnPrepare` | src/agent.cpp:1028-1151 | exactly the effects, in order, and the answers of the offer specification |
| `TargetAgent.TargetAgent.BeginOrResume` | src/agent.cpp:1102-1151 | resumption keeps the transfer record and its bytes only for the same content; anything else is destroyed and begun again |
| `TargetAgent.TargetAgent.SelectStream` | src/agent.cpp:1157-1163 | the transfer of a stream is the first in identifier order, the order of the transfer table |
| `TargetAgent.TargetAgent.OnChunk` | src/agent.cpp:1153-1247 | exactly the effects and answers of the chunk specification |
| `TargetAgent.TargetAgent.OnTransferComplete` | src/agent.cpp:1249-1313 | exactly the effects and answers of the completion specification |
| `TargetAgent.TargetAgent.OnStage` | src/agent.cpp:1315-1383 | exactly the effects and answers of the staging specification |
| `TargetAgent.TargetAgent.OnApplyPrepare` | src/agent.cpp:1385-1464 | exactly the effects and answers of the prepare specification |
| `TargetAgent.TargetAgent.ActivateTransfer` | src/agent.cpp:1622-1676 | pointer, marker, then the commit record, in that order |
| `TargetAgent.TargetAgent.RecordGeneration` | src/agent.cpp:1678-1711 | window resolution, commit record, finding and counters, in that order |
| `TargetAgent.TargetAgent.OnApplyCommit` | src/agent.cpp:1466-1615 | exactly the effects and answers of the commit specification |
| `TargetAgent.TargetAgent.OnApplyAbort` | src/agent.cpp:1713-1755 | exactly the effects and answers of the abort specification |
| `TargetAgent.TargetAgent.OnRetire` | src/agent.cpp:1830-1846 | exactly the effects and answers of the retire specification |
| `TargetAgent.TargetAgent.TrimTransfers` | src/agent.cpp:441-474 | one walk over the transfers trims long files and collects what must be discarded and what must be checkpointed |
| `TargetAgent.TargetAgent.RecoverKeyDirectories` | src/agent.cpp:484-601 | the walk over listed directories, with its guard: exactly the effects of resolving each marker and following each pointer |
| `TargetAgent.TargetAgent.RecoverLiveArea` | src/agent.cpp:409-612 | the whole of recovery has exactly the effects of its specification, in order |
| `TargetAgent.TargetAgent.Start` | src/agent.cpp:309-396 | a start records a new identity and then recovers |
| `Crc32c.UpdateIsDivision` | src/hash.cpp:39-61 | the table-driven loop is the bit-at-a-time reflected division by the Castagnoli polynomial, for every register and input |
| `Crc32c.ByteStepIsEightBits` | src/hash.cpp:252-263 | one table step equals eight division steps |
| `Crc32c.UpdateConcat` | src/hash.cpp:252-263 | the checksum does not depend on how the input is split |
| `Crc32c.BurstDetected` | src/hash.cpp:39-61 | two inputs that differ only within four bytes never have the same checksum |
| `Crc32c.StreamingIsComplement` | include/cf/hash.hpp:81-89 | the streaming class returns the bitwise complement of the one-shot checksum: it lacks the final inversion |
| `Crc32c.MakeTable` | src/hash.cpp:39-61 | the 256-entry table holds exactly the eight-step remainders |
| `Crc32c.UpdateRegister` | src/hash.cpp:252-263 | the byte loop computes the specified register |
| `JournalFormat.PrefixRecovery` | src/journal.cpp:324-474 | after any cut the scan returns exactly the records wholly before it and reports the rest, less than one record, as discarded |
| `JournalFormat.WholeRecovery` | src/journal.cpp:324-474 | a complete segment scans Clean to exactly its records |
| `JournalFormat.TruncatedRescans` | src/journal.cpp:458-474 | any file whose torn tail is cut off scans Clean with the same records |
| `JournalFormat.DamageDetected` | src/journal.cpp:385-420 | one changed byte in the type, checksum, sequence or payload of any record is always reported as corruption, and nothing from it on is returned |
| `JournalFormat.LengthDamageDropsTheRest` | src/journal.cpp:396-474 | a changed length on any record, whatever follows it, is taken for a torn append if and only if it claims more bytes than there are and no more than the record bound; then the record and everything after it are discarded without an error |
| `JournalFormat.OneByteDropsTheRest` | src/journal.cpp:396-474 | one byte is enough: with less than 0xF0000 bytes from the payload on, setting the third length byte to 0x0F is such a change, and every record written after it is lost with it |
| `JournalFormat.OnlyTheWrittenHeader` | src/journal.cpp:342-357 | the accepted file headers are exactly those that start as the code writes them |
| `Journal.Journal.ScanInto` | src/journal.cpp:324-474 | the loop over the records returns the specified scan, and truncates exactly the torn tail |
| `Journal.Journal.Append` | src/journal.cpp:523-544 | accepted if and only if type, size and sequence allow it; then the file is the old records followed by the new one |
| `Journal.Journal.RestartSegment` | src/journal.cpp:546-593 | the new segment holds exactly its start record |
| `Journal.Journal.Open` | src/journal.cpp:256-322 | creates, recovers or refuses, exactly as the scan says |
| `Journal.Journal.Recover` | src/journal.cpp:256-322 | opening any prefix of a written segment succeeds with the records wholly before the cut |
| `SnapshotFile.ReadEncoded` | src/journal.cpp:614-653 | a written snapshot is read back |
| `SnapshotFile.DamagedSlotIsRefused` | src/journal.cpp:655-727 | one changed byte anywhere makes a slot unreadable |
| `SnapshotFile.WriteKeepsTheNewest` | src/journal.cpp:614-653 | writing never touches the newest readable slot, and afterwards a newer snapshot is what loads |
| `SnapshotFile.LoadBest` | src/journal.cpp:655-727 | of the readable slots, the one that covers more |
| `StoreModel.ReplayIsFold` | include/cf/store.hpp:164-173 | replaying the records a snapshot does not cover, on top of it, is the fold of all of them |
| `StoreModel.CommitIff` | include/cf/store.hpp:186-197 | a commit is accepted if and only if its payload is at most one mebibyte, the state takes the record and a sequence number is left; then exactly its record is appended, otherwise the disk is not touched |
| `StoreModel.CompactIff` | include/cf/store.hpp:200-212 | a compaction succeeds if and only if the state encodes within 64 mebibytes and a sequence number is left |
| `StoreRuns.CommitIsKept` | include/cf/store.hpp:186-197 | in every run: a commit under exactly that condition adds its change to the list that every later opening folds, and nothing otherwise; what it added is never lost |
| `StoreRuns.StoreRefinesFold` | include/cf/store.hpp:85-212 | over any run of commit, compact, crashes inside an append or between any two effects, and slots becoming unreadable: the store opens with the fold of everything committed, or not at all |
| `StoreRuns.OpensExactlyWhen` | include/cf/store.hpp:85-175 | exactly when it opens: on an empty directory, or with a started segment that the newest readable snapshot reaches |
| `StoreRuns.Availability` | include/cf/store.hpp:200-212 | while no snapshot is lost and sequence numbers are left: the store can be opened if and only if it was never killed between truncating the journal and completing the new segment start, nor between creating the journal and completing the first one |
| `StoreRuns.CompactionWindowIsFatal` | src/journal.cpp:546-593 | killed between truncating the journal and starting it again, a store that holds a snapshot of everything is refused at every later point of every run |
| `StoreRuns.CreationWindowIsFatal` | src/journal.cpp:271-300 | killed while its journal is created the first time, a store to which nothing was ever committed is refused at every later point of every run |
| `DurableStore.DurableStore.Open` | include/cf/store.hpp:85-175 | result and disk effects of open, with the replay loop, are those of the specification |
| `DurableStore.DurableStore.ReplayRecords` | include/cf/store.hpp:164-173 | the replay loop skips segment starts and covered records and applies the rest in order |
| `DurableStore.DurableStore.Commit` | include/cf/store.hpp:186-197 | applied in memory, then appended; the new state, last sequence and disk are those of the specification |
| `DurableStore.DurableStore.Compact` | include/cf/store.hpp:200-212 | snapshot into the older slot, then segment restart: the new disk and state are those of the specification |
| `Policy.BackoffFor` | src/policy.cpp:18-30 | the doubling loop returns min(maxBackoff, base * 2^min(failures, 16)); the checked multiplication never fails |
| `Policy.BackoffMonotone` | src/policy.cpp:18-30 | more failures never wait less |
| `Policy.ActsExactlyWhen` | src/policy.cpp:144-324 | for every input: what is verified or staged at a live target is activated, what is not verified yet is offered or resumed, a failed delivery is retried within its budget and after its wait and given up exactly when the budget is spent, and a delivery is retired exactly when it is superseded or the target is ahead |
| `Policy.HoldsBackExactlyWhen` | src/policy.cpp:144-324 | for every input, exactly when it rejects, gives up, records a failure, waits, asks the target to report, and resumes rather than offers |
| `ReconcileSoundness.AdoptionIsCurrent` | src/reconciliation.cpp:80-128 | when reconciliation adopts an activation from a report of an agent with one visited key in any reachable state, the committed pair and the live pointer are exactly the desired ones |
| `ReconcileSoundness.AdoptionIff` | src/reconciliation.cpp:80-128 | over all runs with one key, what is adopted is what the live pointer names if and only if recovery visits the key |
| `ReconcileSoundness.DecidedByThePointer` | src/reconciliation.cpp:80-160 | on a report of an agent with one visited key under its own authority: an open window is resolved first, then a newer live generation retires, and an activation is adopted if and only if the live pointer names the desired pair |
| `ReconcileSoundness.FindingsNeverDecide` | src/reconciliation.cpp:41-60 | one visited key: below the newer-generation branch, a report proves an activation if and only if its committed pair is the desired one, so the findings branch adds nothing |
| `ReconcileSoundness.FindingsBelowCommitted` | src/agent.cpp:1678-1701 | findings never exceed the committed generation and agree with it on the digest |
| `Ledger.StepKeeps` | src/distributor.cpp:890-1007 | each step the distributor may take keeps every delivery's history a legal walk, within its budget, with evidence for an activation |
| `Ledger.EverythingSentIsHonest` | src/distributor.cpp:1215-1245 | in every history of the distributor's steps an offer names the delivery it is for |
| `Ledger.BoundedRetries` | src/distributor.cpp:967-1007 | over every history of the distributor's steps (failures counted, the retry edge only with budget left, re-arms resetting): a delivery returns from Failed to Prepared at most its allowance times since planned or re-armed, and within one attempt only moves forward |
| `Ledger.FirstBudget` | src/distributor.cpp:1166-1200 | until a delivery is re-armed the allowance is maxAttempts-1 |
| `Ledger.RearmAllowsOneMore` | src/distributor.cpp:661-685 | for every limit both bounds are reached: a lawful history without a re-arm takes exactly maxAttempts-1 retries and is refused the next, and one whose last reset is a re-arm takes exactly maxAttempts |
| `Distributor.Distributor.RecordTransition` | src/distributor.cpp:890-934 | an illegal transition changes nothing; a legal one changes exactly this record, as stated |
| `Distributor.Distributor.RecordFailure` | src/distributor.cpp:967-1007 | failure and attempt counts rise together, with their overflow checks, and the record becomes Failed |
| `Distributor.Distributor.RecordRejected` | src/distributor.cpp:1009-1024 | possible exactly where the table allows it, and idempotent |
| `Distributor.Distributor.RecordRetired` | src/distributor.cpp:1026-1040 | possible exactly where the table allows it, and marks the delivery superseded |
| `Distributor.Distributor.AdoptActivation` | src/distributor.cpp:1042-1068 | only with a reply that proves it; the target record never moves to an older generation |
| `Distributor.Distributor.Acknowledge` | src/distributor.cpp:1070-1087 | only from Applied, remembering whether the evidence came from reconciliation |
| `Distributor.Distributor.RearmAfterRestart` | src/distributor.cpp:661-685 | exactly the failed deliveries of that target get a fresh budget |
| `Distributor.Distributor.RecordSessionFailure` | src/distributor.cpp:616-650 | exactly the pending deliveries of that target are charged one failure |
| `Distributor.Distributor.Handshake` | src/distributor.cpp:491-614 | a session is accepted if and only if the greeting is sent and answered by this target with no older boot term and, at the same term, from the recorded incarnation; then the target record is as the answer says and a newer term re-arms its failed deliveries |
| `Distributor.Distributor.ApplyReconcileReport` | src/distributor.cpp:787-888 | each pending delivery of the target ends as its reconciliation decision says, all others unchanged; for each open window found the abort of that very window was said; without a window it always succeeds and says nothing |
| `Distributor.Distributor.AbortWindow` | src/distributor.cpp:850-880 | says exactly the abort of the window's deployment at the window's generation (the delivery's own if the window has none), and succeeds if and only if an acknowledgement of an abort comes back |
| `Distributor.Distributor.Reconcile` | src/distributor.cpp:720-785 | success means that the report is of the session's own target, term and incarnation, that every pending delivery was treated as that report decides, and that the target record holds what it says; with such a report and no open window it always succeeds |
| `Distributor.Distributor.AwaitAcknowledgement` | src/distributor.cpp:1615-1659 | a delivery becomes Acknowledged here only on an acknowledgement of exactly this delivery from this incarnation |
| `Distributor.Distributor.StageArtifact` | src/distributor.cpp:1491-1524 | the delivery is Staged if and only if the target said so |
| `Distributor.Distributor.OpenPrepareWindow` | src/distributor.cpp:1534-1568 | the commit may follow if and only if the target said it is prepared |
| `Distributor.Distributor.CommitActivation` | src/distributor.cpp:1570-1613 | applied only when the target names exactly this generation and digest; a stale nack retires, every other refusal costs one failure; confirmed and acknowledged, it ends Acknowledged |
| `Distributor.Distributor.ActivateDelivery` | src/distributor.cpp:1487-1613 | a delivery becomes applied only through staged, prepared and committed answers in that order |
| `Distributor.Distributor.StreamArtifact` | src/distributor.cpp:1320-1442 | every chunk sent is a true slice of the artifact on the delivery's own stream; the target's byte count decides where to go on, also after a refused chunk; with the count going forward the rest of the content is sent |
| `Distributor.Distributor.AwaitVerdict` | src/distributor.cpp:1460-1485 | the delivery goes on only when the target verified the content, and with the right answers it ends Acknowledged |
| `Distributor.Distributor.OfferFor` | src/distributor.cpp:1215-1245 | the offer names exactly this delivery, this authority and this attempt's stream, and resumes only what the report says |
| `Distributor.Distributor.AwaitOfferAnswer` | src/distributor.cpp:1270-1318 | an answer for another delivery or stream is a protocol violation; a suppressed duplicate acknowledges; a refusal rejects, retires or fails by its code |
| `Distributor.Distributor.DriveStep` | src/distributor.cpp:1134-1213 | the policy decision rules: nothing is sent unless it pushes, the loop goes on only after a push, and giving up, rejecting, retiring, failing and waiting leave the record as decided |
| `Distributor.Distributor.DriveDelivery` | src/distributor.cpp:1134-1213 | a delivery due to be offered or activated, in a session whose replies keep to the script, ends Acknowledged, and what was said is exactly the offer, the content from where the target resumes, completion, staging, the window if needed and the commit, or for a verified or staged one only what remains of these |
| `EndToEnd.TargetKeepsToTheScript` | src/agent.cpp:1028-1711 | the answers of a target to that conversation, from whatever it holds of the content, are that script message by message, and at the end its live pointer names the pair |
| `EndToEnd.DriveOnce` | src/distributor.cpp:1134-1213 | both sides together: a due delivery whose target has nothing to refuse, with every message carried once and in order, ends Acknowledged with exactly this conversation said, only the content the target lacks, and the live pointer at its pair |
| `EndToEnd.SessionOnce` | src/distributor.cpp:439-489 | one whole session of the two, greeting, report and conversation: a delivery wanted and not there ends Acknowledged, exactly these messages were said, and the target's live pointer names the pair |
| `EndToEnd.LostAcknowledgement` | src/distributor.cpp:720-838 | where the target committed the pair and its acknowledgement was lost, its next report makes the pending delivery Acknowledged, as found by reconciliation |
| `Distributor.Distributor.DriveDeliveries` | src/distributor.cpp:1089-1132 | only pending deliveries of the session's target are touched; the oldest, if its part of the session keeps to the script, ends Acknowledged with its whole conversation said, and if it is the only one the run succeeds with nothing else said |
| `Distributor.Distributor.RunSession` | src/distributor.cpp:439-489 | greeting, report and deliveries: a session without incident ends with its delivery Acknowledged and exactly the expected messages said; one whose greeting is refused charges exactly the pending deliveries of that target one failure |
| `Distributor.Distributor.Plan` | src/distributor.cpp:1820-1840 | always succeeds: a new delivery retires, as superseded, exactly the older pending deliveries of its lineage |
| `EvidenceRuns.RepliesAreTrue` | src/agent.cpp:983-1010 | whatever a live target answers about an activation is true of its live pointer's history |
| `EvidenceRuns.HistoryIsLawful` | src/distributor.cpp:890-934 | in every run of the whole system the distributor's history is one its steps produce |
| `EvidenceRuns.EvidenceIsNeverInvented` | src/distributor.cpp:1042-1087 | over every run of the distributor's steps and any number of targets, with sessions cut, both sides crashing, and replies lost, repeated or reordered: a delivery recorded Applied or Acknowledged names a pair that very target's live pointer had been switched to |
| `EvidenceKeys.EvidenceNamesTheKey` | src/agent.cpp:1028-1151 | and it was switched under the key of a planned delivery of that target for that pair, so under the delivery's own key unless another delivery asks for the same pair under another key |
| `EvidenceFailingRuns.AgentRunIsPlayed` | src/agent.cpp:926-959 | every run of an agent about deliveries on the distributor's books is part of a run of the whole system |
| `EvidenceFailingRuns.EvidenceCanNameAnotherKey` | src/agent.cpp:1496-1510 | where two deliveries of a target ask for one pair under two keys, for any keys, pair and target, a run of the system records the second as Applied although no live pointer of its key was ever switched |
| `Frame.FramesSurviveChunking` | src/frame.cpp:240-302 | encoded frames, however they are cut into feeds, come out exactly, in order, with nothing left |
| `Frame.FeedsAreConcatenation` | src/frame.cpp:240-302 | feeding in pieces is decoding the concatenation, errors included |
| `Frame.DamageIsNeverDelivered` | src/frame.cpp:144-199 | a frame with one byte changed is never delivered and always ends the stream with an error, however it is fed |
| `Frame.EncodeFrame` | src/frame.cpp:204-238 | succeeds exactly within the bounds, with the stated bytes |
| `Frame.FrameDecoder.Feed` | src/frame.cpp:240-302 | the in-place compacting loop decodes everything complete; less than 24 + max bytes stay pending and the buffer never exceeds twice that plus the feed |
| `Frame.FrameDecoder.Finish` | src/frame.cpp:304-310 | succeeds exactly when nothing is pending |
| `Sha256.Sha256.Update` | src/hash.cpp:129-148 | buffering with in-place block processing: the object stands for all bytes fed, for any split |
| `Sha256.Sha256.FinalBlocks` | src/hash.cpp:155-178 | the padded tail is one or two blocks |
| `Sha256.Sha256.Finish` | src/hash.cpp:155-190 | the digest is the fold of the compression function over the padded message of sections 5.1.1 and 6.2.2 of FIPS 180-4 |
| `Sha256.CompressBlock` | src/hash.cpp:81-127 | the schedule and the 64 rounds as in section 6.2.2 of FIPS 180-4 |
| `Sha256.BlocksConcat` | src/hash.cpp:129-148 | compressing whole blocks composes |
| `Fields.OneRoundTrip` | src/codec.cpp:31-172 | what a primitive writes it reads back, whatever follows |
| `Fields.OneAgain` | src/codec.cpp:64-172 | what a primitive reads had been written exactly like that |
| `Fields.RowIff` | src/codec.cpp:31-172 | a record body is read as these fields if and only if it is their encoding |
| `Fields.DocumentIff` | src/codec.cpp:31-172 | the same for a head followed by two bounded lists with nothing after them |
| `ByteStreams.ByteWriter.PutField` | src/codec.cpp:31-62 | the appending writer produces the specified bytes |
| `ByteStreams.ByteReader.GetNumber` | src/codec.cpp:71-116 | the byte-shift loop reads a little-endian number or refuses without moving |
| `ByteStreams.ByteReader.GetField` | src/codec.cpp:64-163 | the advancing reader reads or refuses exactly as specified |
| `ByteStreams.ByteReader.GetDocument` | src/codec.cpp:64-172 | the nested bounded list loops read or refuse exactly as specified |
| `MessageCodec.PrepareIff` | src/protocol.cpp:365-429 | an offer is decoded to m if and only if m is well formed and the bytes are its encoding |
| `MessageCodec.AckIff` | src/protocol.cpp:764-811 | the same for an acknowledgement |
| `MessageCodec.KeylessAckIsLost` | src/agent.cpp:1496-1520 | an acknowledgement without a key, as the commit handler sends in two branches, is decoded by no one |
| `MessageCodec.ReportIff` | src/protocol.cpp:876-991 | the same for a reconcile report with its two lists |
| `MessageCodec.ReadPrepare` | src/protocol.cpp:385-429 | the reading method accepts exactly the encodings |
| `MessageCodec.ReadAck` | src/protocol.cpp:782-811 | the reading method accepts exactly the encodings |
| `MessageCodec.ReadReport` | src/protocol.cpp:922-991 | the reading method accepts exactly the encodings |
| `AgentCodec.RecordRoundTrip` | src/state.cpp:841-957 | each journal record of the agent decodes to itself |
| `AgentCodec.DecodedRecordsAreOk` | src/state.cpp:841-957 | what the journal decodes satisfies the state's field invariants |
| `AgentCodec.SnapshotRoundTrip` | src/state.cpp:722-839 | the snapshot of every well-formed agent state within the bounds decodes to that state |
| `AgentCodec.CodecIsLawful` | src/state.cpp:722-957 | the agent codec meets what the store theorem asks of a codec |
| `AgentCodec.RecordIsAccepted` | src/state.cpp:841-957 | every record the agent writes is within the store's bounds, is accepted, and leaves the store in the state the record makes |
| `AgentCodec.AgentStateSurvives` | include/cf/store.hpp:85-212 | hence the agent state reopens as the fold of all committed records, or not at all |
| `Tables.CollectedAll` | src/state.cpp:818-826 | a table written in key order is read back as it was |
| `Formats.BothExact` | src/codec.cpp:31-172 | writing one format after another keeps reading and writing inverse |
| `Formats.ManyExact` | src/state.cpp:180-183 | so does a counted, bounded list of any format |
| `Formats.SealedInverse` | src/artifact.cpp:63-141 | so does a record with its CRC32C at the end |
| `Formats.FramedExact` | src/state.cpp:452-457 | so does a record nested as a length-prefixed string |
| `ControllerFormats.TargetExact` | src/state.cpp:91-157 | target records: read and written are inverse up to contact evidence, which is never read |
| `ControllerFormats.EventExact` | src/state.cpp:21-79 | lifecycle events, with the gaps of the error enumeration: read and written are inverse |
| `ControllerFormats.DeliveryExact` | src/state.cpp:159-283 | delivery records with their nested event list: read and written are inverse |
| `ControllerFormats.MetadataIff` | src/artifact.cpp:63-141 | a metadata file is read as m if and only if it is the encoding of m |
| `ControllerFormats.DamagedMetadataIsRefused` | src/artifact.cpp:89-103 | one changed byte makes a metadata file unreadable |
| `ControllerCodec.SnapshotIff` | src/state.cpp:431-510 | the controller snapshot decodes to the state with contact evidence cleared if and only if it holds at most 100000 artifacts: the writer does not check their number, the reader does |
| `ControllerCodec.RecordsTakeEffect` | src/state.cpp:534-579 | the bytes of a target, delivery or artifact record put exactly that entry into the state; a target record keeps the contact of the running process |
| `ControllerCodec.RemovalsTakeEffect` | src/state.cpp:548-583 | the bytes of a removal take exactly that entry out of the state |
| `ControllerCodec.AuthorityTakesEffect` | src/state.cpp:516-533 | the bytes of an identity or epoch record set exactly these fields of the state |
| `ControllerCodec.EncodeForgetsContact` | src/state.cpp:91-108 | what is written does not depend on contact evidence |
| `ControllerCodec.ApplyForgetsContact` | src/state.cpp:512-590 | applying a record commutes with forgetting contact evidence |
| `ControllerCodec.ContactIsNeverDurable` | src/state.cpp:534-547 | however contact comes and goes between records, a restart inherits what the records alone make of the state |
| `ControllerCodec.ApplyKeepsWellFormed` | src/state.cpp:512-590 | applying records keeps the controller state encodable |
| `ControllerCodec.ControllerStateSurvives` | include/cf/store.hpp:85-212 | the controller state reopens as the fold of all committed records, or not at all |
| `PlanText.ParseUnsigned` | src/plan.cpp:30-55 | the digit loop with its two overflow checks accepts exactly the decimal numbers below 2^64, with their value |
| `PlanText.NumberRoundTrip` | src/plan.cpp:30-55 | the decimal rendering of every 64-bit number parses back |
| `PlanText.HexRoundTrip` | src/hash.cpp:265-300 | hexadecimal rendering and parsing are inverse |
| `PlanText.SplitJoin` | src/plan.cpp:57-89 | splitting joined lines gives the lines |
| `PointerText.RoundTrip` | src/agent.cpp:48-92 | the live pointer file parses back to the pointer it was rendered from |
| `Plan.ParsePlan` | src/plan.cpp:98-336 | the line loop computes the specified parse |
| `Plan.RenderPlan` | src/plan.cpp:344-416 | the renderer computes the specified text |
| `Plan.ParsedIsOk` | src/plan.cpp:98-336 | every accepted plan is printable: distinct targets, clean values, mandatory fields set |
| `Plan.RenderParses` | src/plan.cpp:344-416 | every printable plan whose rendering fits the limits parses back to itself |
| `Plan.CommentsAreIgnored` | src/plan.cpp:145-148 | blank lines and comments, however indented, do not change what a text parses to, wherever they stand |
| `Plan.BlanksAreIgnored` | src/plan.cpp:20-28 | nor does the indentation of a line, or the blanks after it |
| `Plan.FieldOrderIsFree` | src/plan.cpp:226-313 | in an accepted text two neighbouring fields of a block can be swapped, and it parses to the same plan |
| `Plan.RepeatedFieldIsRefused` | src/plan.cpp:231-236 | a text that gives a field twice in one block is refused, whatever fields and comments stand between |
| `Plan.PrintingIsFaithful` | src/plan.cpp:98-416 | for every accepted text, parse(render(p)) = p if and only if the rendering fits the size and line limits |
| `ArtifactIndex.FindIff` | src/artifact.cpp:281-286 | lower_bound on the sorted index finds a digest exactly when it is there |
| `ArtifactIndex.ReplaceSound` | src/artifact.cpp:362-371 | inserting or erasing at that position keeps the strict order and changes that entry alone |
| `ArtifactIndex.ReplaceTotal` | src/artifact.cpp:362-371 | and changes count and byte total by exactly that entry |
| `ArtifactModel.IndexIsUnique` | src/artifact.cpp:195-264 | the index a disk describes is unique, so the order of directory listing does not matter |
| `ArtifactRuns.EffectKeeps` | src/artifact.cpp:350-371 | each single file effect keeps the disk within both budgets as reopening would count them |
| `ArtifactRuns.OperationFine` | src/artifact.cpp:274-372 | every operation may be cut between any two effects, and run to its end leaves memory and disk in step |
| `ArtifactRuns.Conservation` | src/artifact.cpp:195-372 | over every run of ingest, verify, collect, crashes anywhere and rotting payloads: strictly sorted, exactly the digests with both files, usedBytes the exact sum, both budgets kept, and reopening rebuilds the same |
| `ArtifactRuns.PublishedStays` | src/artifact.cpp:331-371 | the payload of an indexed artifact is never overwritten: at every cut of every operation it is the same bytes or gone |
| `ArtifactRuns.VerifyIff` | src/artifact.cpp:554-596 | verification accepts an indexed artifact if and only if its original bytes are still there and it is not empty; otherwise it leaves the index |
| `ArtifactRuns.AcceptedIsServed` | src/artifact.cpp:468-503 | after an accepted ingest the digest is indexed and its payload starts with exactly the content |
| `ArtifactRuns.NewContentIff` | src/artifact.cpp:274-372 | content not indexed yet is accepted if and only if it has the declared size and digest, its metadata encodes, and size limit and both budgets allow it; each refusal has the code of the first cause that applies and leaves the disk as it was |
| `ArtifactRuns.AcceptedIsStored` | src/artifact.cpp:350-371 | accepting new content puts exactly its bytes and metadata on disk, and the index gains exactly its entry and its size |
| `ArtifactRuns.OfferedAgain` | src/artifact.cpp:331-348 | ingesting intact content again is an idempotent success exactly when it is not empty; an intact empty artifact is expelled |
| `ArtifactRuns.CollectKeepsTheLive` | src/artifact.cpp:627-658 | collection keeps exactly the live artifacts, with their exact byte sum |
| `ArtifactStore.ArtifactStore.LoadIndex` | src/artifact.cpp:195-264 | read in any order, sorted and deduplicated, the loaded index is the one the disk describes |
| `ArtifactStore.ArtifactStore.Open` | src/artifact.cpp:143-193 | leftover staging files go, everything else stays |
| `ArtifactStore.ArtifactStore.ReadBack` | src/artifact.cpp:554-596 | the chunked reading loop gives the specified verdict for every chunk size |
| `ArtifactStore.ArtifactStore.Quarantine` | src/artifact.cpp:531-552 | the payload is set aside and the entry leaves the index; the metadata file stays |
| `ArtifactStore.ArtifactStore.Publish` | src/artifact.cpp:274-372 | exactly the effects, in order, of the publish specification |
| `ArtifactStore.ArtifactStore.IngestBytes` | src/artifact.cpp:468-503 | exactly the effects, in order, of the ingest specification |
| `ArtifactStore.ArtifactStore.CollectGarbage` | src/artifact.cpp:627-658 | payload, metadata, entry, for exactly the unkept artifacts |

## Left out

- Ledger.BoundedRetries: the bound is the allowance since the last re-arm, maxAttempts-1 only up to the first one (`Ledger.FirstBudget`); `Ledger.RearmAllowsOneMore` shows why.
- AgentLineage.StaleFencing: one configuration key per agent, because the committed generation is one value per agent (src/agent.cpp:1038), and one that recovery visits.
- AgentProgress.DeliveryGoesThrough: deployment ids without separators; for one with a separator the code needs a staging directory that nothing creates (src/agent.cpp:305-307), while the model opens the file.
- EvidenceKeys.EvidenceNamesTheKey: with the same pair planned under two keys of one target, a suppressed commit is evidence for both; `EvidenceFailingRuns.EvidenceCanNameAnotherKey` gives the run.
- AgentFailingRuns.AgreesIff: keys whose directory is the staging area are excluded by assumption.
- EndToEnd.SessionOnce: one pending delivery that is not verified yet; the replies are the target's to exactly the messages said, and waiting, timeouts and frames are not part of it.
- EndToEnd.DriveOnce: deliveries due to be offered; for verified and staged ones only the distributor's side is proved (`Distributor.Distributor.DriveDelivery`).
- ControllerCodec.ControllerStateSurvives: for stores never asked for a snapshot of more than 100000 artifacts, because such a snapshot does not decode.
- ControllerCodec.SnapshotIff: the controller snapshot is read and written on values, through `Formats`, not by the advancing reader class; a table of 2^32 artifacts is taken as refused.
- ArtifactRuns.Conservation: from an empty directory, for calls that come one after the other; files that vanish or metadata that becomes unreadable from outside are not among the events.
- Distributor.Distributor.Plan: one new instruction at a time; resubmitting a plan and pruning history (src/distributor.cpp:1797-1925) are not modelled.
- StoreRuns.StoreRefinesFold: a running store's own state is compared with the fold only while sequence numbers are left.
- DurableStore.DurableStore.Commit: the failed latch is never set by the code, so a failing append is a crash.
- Journal.Journal.ScanInto: the scan works on the bytes of the file; closing the stream twice on a torn payload (src/journal.cpp:404-419) is not modelled.
- Frame.FrameDecoder.Feed: lengths are unbounded integers, so overflow of a size in memory is not modelled; frame type 0 counts as known, as in the code.
- AgentCodec.CodecIsLawful: a record that fails to apply halfway is refused as a whole; in the code it leaves a running store's state partly changed, and a later compaction would make that durable.
- TargetAgent.TargetAgent.OnHello: authentication is an oracle; the HMAC transcript is not modelled, only the epoch and incarnation comparison.
- TargetAgent.TargetAgent.RecoverLiveArea: live pointer files that do not parse and staging names with a ".part" suffix are not modelled; a chunk write is atomic.
- Payload retention (src/agent.cpp:635-664): payloads are kept.
- Counters of the agent: no exact-count claims; `activations` rises twice on the prepare path and `applyRollbacks` can count a completed switch.
- Evidence of retirement: a retire message removes a transfer even while its window is open, as in the code.
- Sessions: a refused commit leaves a nack queued that answers the next question; the model allows it and no theorem depends on the pairing.
- Lifecycle event lists: kept by the codec, not by the distributor model, whose history is the ledger.
- The reset of transferred deliveries when a distributor opens (src/distributor.cpp:114-123).
- ArtifactReader beyond in-order reading, and `ingestFromFile`, whose checks are those of `ingestBytes`.
- Errors of verification that are not about integrity are reported by the code as success (src/artifact.cpp:590-592); no such error occurs in the model.
- Concurrency: locks, workers, claimed targets, and publishing races.
- Clocks are constant during a call; timeouts and stop requests end a session like a lost connection.
- Fault injection: its effects are the crash and network steps.
- Sockets, process spawning, logging, command lines, the control channel, pings, convergence reports and benchmarks.
- Human-readable reason strings.
