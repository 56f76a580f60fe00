# Machine manager: a model of the update path, with proofs

This project models how a vehicle computer takes an A/B firmware update and survives every
fault on the way: the streaming pipeline that receives a payload, the envelope header codec,
the NV store and its state machine, the boot vector beside it, raw-partition banks, and the
Link-B service and spec validation they rely on. `dafny verify dfyconfig.toml` checks all of
it with Dafny 4.11.

How the parts fit together:

- `Pipeline` is the two-thread decompressor as one state machine: a label names which thread
  moves and what the decoder or sink answered, so a list of labels is any interleaving.
- `Cbor`, `EnvelopeParser` and `EnvelopeFormat` are the header parser, proved against an
  independent grammar of envelopes (sections 3 and 4.1 of RFC 8949).
- `Readers` is the stack of readers under the pipeline, with arrays for its buffers.
- `Sectors` is the sector rotation under every NV record: a region of N sectors is an atomic
  register while at most N - 1 writes in a row are cut, and `Nv.RegionIsStore` is what lets the
  rest treat one NV write as landing whole or not at all.
- `Nv`, `Ota`, `Boot` and `Did` are the operations on NV. Each is a list of writes and a
  result; a failing device or a power cut leaves a prefix of the list. The methods, which write
  a mutable store one record at a time, are proved to do exactly that.
- `SlotMachine` is one slot on its own; `Lifecycle` proves that any run over the whole store,
  cut anywhere, is for every slot a run of the slot machine, and draws the promises from that.
- `BootVector`, `Provider` and `DualAuthority` are the second store and the protocol over
  both, reduced to a machine of seven phases that holds for any number of components in any
  interleaving. `PartitionRouting` puts image records in front of it.
- `PartitionSeal`, `Seed` and `Specs` are sealing, completing and declaring banks;
  `LinkWire`, `LinkService` and `LinkServer` are the HSM service, from octets to its serve loop.

## What the code does where its documentation says more

- NV records are said to survive power cycles. One written completely survives any N - 1 cut
  writes in a row in a region of N sectors, and not N of them: the next target is chosen from
  headers whose checksum nobody looked at (`Sectors.RegionLost`).
- The vector's whole-map operations are documented as correct while at most one component is
  in trial. A seal that fails leaves its staging in memory, and the next component to activate
  seals that too, with no component in trial. `BootVector.SealFrame` gives the exact condition.
- A vector commit without a PRIMARY copies nothing in the store but empties the cached floor;
  cache and store part unless that floor was empty (`BootVector.Manager.Commit`).
- The boot-vector commit has no guard of its own: the check in front of it is what keeps the
  two stores together (`DualAuthority.CommitNeedsItsGuard`).
- A hash failure moves NV alone. In a trial whose bank the vector boots it leaves the stores
  split, and no flash, commit, rollback or restart of the component mends that; the node's own
  rollback of the vector does (`DualAuthority.HashFailureSplits`, `DualAuthority.NoWayOut`).
- The vector's commit and rollback move every component at once. Another's commit during a
  trial takes away the floor its rollback would return to, and the node's rollback over a
  commit that reached NV only leaves the component stranded: none of these operations moves it
  (`DualAuthority.StepFollows`, `DualAuthority.NoWayOut`).
- A move of the whole vector on another's behalf leaves a partition component's image records
  where they are (`PartitionRouting.OthersRollbackLeavesRecords`);
  `PartitionRouting.OthersRouteNothing` says from the state before it when they are still right.
- A manifest that only raises the security floor raises it on the bank the process runs on.
  Where that is not the active bank, or the bank has no metadata, it is accepted and the floor
  stays (`SlotMachine.RaiseTakesHold`).
- A decrypting reader that failed authentication reports an ordinary end when it is read
  again. No caller reads again (`Readers.DecryptReader.Read`).
- A copy that fails half way leaves a part that counts as shipped the next time a bank is
  completed (`Seed.RetryAfterFailedCopy`).
- A copied-forward part of the wrong digest is removed so that nothing unverified stays; the
  removal's own failure is ignored, and then it stays (`Seed.CopyForwardFile`).
- The counter slot is documented to answer no crypto operation; every key operation addressed
  to it is answered, and only the certificate request is refused (`LinkService.KeyHandles`).

## Model

| member | source | states |
|---|---|---|
| `Pipeline.ProducerKeepsOrder` | crates/component-mgr/src/streaming.rs:790-816 | whatever the producer does, the bytes written, in flight, in hand and still to decompress stay the stream in order |
| `Pipeline.ConsumerKeepsOrder` | crates/component-mgr/src/streaming.rs:755-780 | the same for every move of the consumer but dropping its queue, a failed write included |
| `Pipeline.ConsumerKeepsSink` | crates/component-mgr/src/streaming.rs:755-780 | the sink only ever holds the front of the stream, a failed write having left part of its chunk |
| `Pipeline.StepKeepsInv` | crates/component-mgr/src/streaming.rs:744-821 | every move of either thread keeps the channel, buffer-count, order and digest invariants |
| `Pipeline.ExecKeepsInv` | crates/component-mgr/src/streaming.rs:726-855 | the invariants hold after every interleaving |
| `Pipeline.FaultsDecide` | crates/component-mgr/src/streaming.rs:755-823 | a returned call failed in the threads exactly when some init, read, write or flush on its run failed |
| `Pipeline.ReturnIsExact` | crates/component-mgr/src/streaming.rs:726-855 | in every interleaving the call returns success if and only if no fault occurred and any expected digest matches; the sink then holds the whole stream in order, and total and digest are its length and hash |
| `Pipeline.PoolIsConserved` | crates/component-mgr/src/streaming.rs:744-749 | free, full and in-hand buffers number at most the pool while the consumer lives, so neither send ever finds a full channel |
| `Pipeline.NoDeadlock` | crates/component-mgr/src/streaming.rs:755-823 | in every state that keeps the invariants, short of the return, some thread can move without a fault |
| `Pipeline.EveryAnswerIsTaken` | crates/component-mgr/src/streaming.rs:755-816 | in every reachable state each answer the decoder or sink may give, of any size that fits, can be taken: reads, end, whole and partial writes, errors |
| `Pipeline.StepLowersRank` | crates/component-mgr/src/streaming.rs:755-823 | every move lowers a rank bounded by the stream's length |
| `Pipeline.RunsAreFinite` | crates/component-mgr/src/streaming.rs:726-855 | no run is longer than the rank it starts with |
| `Pipeline.EveryRunReturns` | crates/component-mgr/src/streaming.rs:726-855 | every run, whatever failed so far, extends without a further fault to a return within a bound linear in the stream |
| `Pipeline.HealthyRunSucceeds` | crates/component-mgr/src/streaming.rs:726-855 | a run without a fault so far extends to success with the whole stream in the sink if the digest is the one asked for; any other run extends to a failure |
| `Pipeline.SinkIsPrefix` | crates/component-mgr/src/streaming.rs:755-780 | in every reachable state, failures included, the sink holds a front of the stream |
| `Cbor.DecodersAgree` | crates/component-mgr/src/streaming.rs:1047-1103 | the streaming decoder, by width and value, and the slice decoder, written out case by case, accept the same inputs, give the same value and consume the same octets |
| `Cbor.EncodeIsShortest` | crates/component-mgr/src/streaming.rs:1105-1122 | the encoder writes the preferred form of section 4.1 of RFC 8949 for every u64 |
| `Cbor.NoShorterForm` | crates/component-mgr/src/streaming.rs:1105-1122 | no valid form of a value is shorter than the encoder's, and only that one is as short |
| `Cbor.EncodeThenDecode` | crates/component-mgr/src/streaming.rs:1047-1122 | decoding an encoded argument gives back the major type and value and leaves what follows |
| `EnvelopeParser.ByteReader.ReadUint` | crates/component-mgr/src/streaming.rs:1047-1083 | reads and records exactly the argument's octets, or fails on an undefined width or underrun |
| `EnvelopeParser.ByteReader.ReadKeyRest` | crates/component-mgr/src/streaming.rs:409-446 | consumes exactly the rest of a key |
| `EnvelopeParser.ByteReader.ReadValueRest` | crates/component-mgr/src/streaming.rs:448-467 | consumes exactly the rest of a string value |
| `EnvelopeParser.ByteReader.ReadEntry` | crates/component-mgr/src/streaming.rs:353-391 | keeps a non-payload entry's octets, or reports a payload's key and length and stops at its first octet |
| `EnvelopeParser.ByteReader.ReadHead` | crates/component-mgr/src/streaming.rs:325-350 | reads an optional tag and a map head |
| `EnvelopeParser.ByteReader.ParseEnvelopeHeader` | crates/component-mgr/src/streaming.rs:309-405 | the reading loop computes the header function on every input, errors included |
| `EnvelopeParser.PayloadsWithinCount` | crates/component-mgr/src/streaming.rs:353-396 | no more payloads are found than the map announces, so the corrected count never underflows |
| `EnvelopeParser.AcceptedHeadInBounds` | crates/component-mgr/src/streaming.rs:469-507 | rewriting the map count never indexes past a buffer the parser accepted |
| `EnvelopeFormat.ParserReadsFormat` | crates/component-mgr/src/streaming.rs:309-507 | for every envelope of the grammar, tagged or not, with at most one trailing payload: the parser returns exactly its other entries under a corrected count, the payload's key and length, and stands on the first payload byte |
| `EnvelopeFormat.RebuildRoundTrip` | crates/component-mgr/src/streaming.rs:513-563 | rebuilding the stripped header with the payload gives the original octets if and only if the key is `#firmware` and counts and lengths are in shortest form |
| `Readers.ChannelReader.Read` | crates/component-mgr/src/streaming.rs:897-916 | hands out the concatenated chunks in order; with no empty chunk, an empty read is the end |
| `Readers.DecryptReader.Read` | crates/component-mgr/src/streaming.rs:944-999 | hands out the plaintext in order; reports an end only after all of an accepted plaintext and an error only for a ciphertext that is not accepted; its recursion shrinks the input left; read again after failing at the end it reports an end |
| `Readers.DecryptReader.Refill` | crates/component-mgr/src/streaming.rs:958-988 | feeds one read to the decryptor, or finishes it at the end, losing nothing |
| `Readers.DeliveredIsPrefix` | crates/component-mgr/src/streaming.rs:944-999 | whatever was handed out is the front of an accepted plaintext |
| `Readers.PrefixReader.Read` | crates/component-mgr/src/streaming.rs:1021-1033 | hands out the prefix and then the source, with nothing lost or repeated |
| `Readers.ReadExactOrEof` | crates/component-mgr/src/streaming.rs:1124-1134 | fills the buffer, or as far as the source goes, across any number of short reads |
| `Readers.OpenPayload` | crates/component-mgr/src/streaming.rs:587-633 | peeking at four bytes and putting them back leaves the whole source to read, and takes it for compressed exactly when it starts with the zstd magic |
| `Readers.ProcessPlain` | crates/component-mgr/src/streaming.rs:641-668 | succeeds only for an accepted payload whose digest matches, with every byte in the sink in order; fails only if it is not accepted, the sink failed or the digest differs |
| `Readers.FeedAnnounced` | crates/component-mgr/src/streaming.rs:206-224 | however the input is split, only non-empty chunks are sent and they are the announced payload, cut short only at the end of input, by a gone receiver, or exactly where a read fails |
| `Readers.FeedAll` | crates/component-mgr/src/streaming.rs:1438-1456 | the same for a payload that runs to the end of the input |
| `Sectors.ReadRecord` | crates/nv-store/src/store.rs:67-111 | reads the intact record of the greatest sequence number, the first of equals |
| `Sectors.WriteRecord` | crates/nv-store/src/store.rs:114-168 | writes the first blank or else the oldest sector under the next wrapping number, in place, or leaves a cut's debris there |
| `Sectors.WriteReadsBack` | crates/nv-store/src/store.rs:114-168 | a completed write is what is read back if and only if the number does not wrap or no intact sector outranks the wrapped one |
| `Sectors.TakesOldest` | crates/nv-store/src/store.rs:119-151 | a write takes the current record's sector exactly when no sector is blank or older |
| `Sectors.TornWriteKeeps` | crates/nv-store/src/store.rs:114-168 | a cut write keeps the stored record if and only if some sector was blank or older, or the cut left the sector as it was |
| `Sectors.CompletedWriteSurvives` | crates/nv-store/src/store.rs:67-168 | after a completed write any N - 1 cut writes in a row, each leaving debris or the old sector, still read it |
| `Sectors.AtomicRegister` | crates/nv-store/src/store.rs:67-168 | from a completed write on, through any writes completed or cut, with at most N - 1 cuts in a row, the region reads as the one last completed |
| `Sectors.RegionLost` | crates/nv-store/src/store.rs:67-168 | N cut writes in a row that each reach the new header leave nothing to read |
| `Nv.NvStore.Put` | crates/nv-store/src/store.rs:252-261 | a write lands whole or not at all, and a slot the store has no room for is refused |
| `Nv.RegionIsStore` | crates/nv-store/src/store.rs:67-168 | through such writes the boot record's region reads as the store in which exactly the completed ones were applied |
| `Ota.Install` | crates/component-mgr/src/ota.rs:249-340 | the refusals in order; else runtime data, metadata and boot state are written in that order, and exactly the writes before a failure stay |
| `Ota.Commit` | crates/component-mgr/src/ota.rs:346-369 | raises the floor before it commits, each write as above |
| `Ota.Rollback` | crates/component-mgr/src/ota.rs:374-389 | one write back to the sibling, refused without a trial |
| `Ota.RaiseFloor` | crates/component-mgr/src/backend.rs:5161-5171 | a floor-only manifest raises the running bank's floor if that is lower, in one write, refused in a trial |
| `Ota.Disable` | crates/component-mgr/src/backend.rs:2383-2457 | disabling moves the serving bank's generation up by one, in one write, refused in a trial or with nothing installed |
| `Boot.ProcessBoot` | crates/boot/src/lib.rs:180-230 | counts, rolls back and reports every slot independently, in one write made only if some slot is in trial |
| `Boot.HandleHashFailure` | crates/boot/src/lib.rs:286-307 | a trial falls back at once, a committed bank is fatal, nothing else is touched |
| `SlotMachine.StepKeepsTrialInv` | crates/component-mgr/src/ota.rs:249-389 | every step, cut anywhere, keeps a trial one generation above its fallback and at or above its floor, with the boot counter within the maximum; the floor moves only up, by a completed commit or a raise on the active bank, the generation only by a completed commit or a disable |
| `SlotMachine.FloorHistory` | crates/component-mgr/src/ota.rs:249-389 | over every run of an A/B slot the fallback's floor is the one last set, by a commit or a raise, none set is below one before it, and its generation counts completed commits and disables |
| `SlotMachine.RaiseTakesHold` | crates/component-mgr/src/backend.rs:5161-5171 | a raise above the floor takes hold if and only if the process runs on the active bank and that bank has metadata |
| `SlotMachine.SingleBankRun` | crates/component-mgr/src/ota.rs:266-292 | a single-bank slot stays committed on bank A and its floor never falls |
| `SlotMachine.StepInTrial` | crates/component-mgr/src/ota.rs:346-389 | a step in a trial keeps the fallback's data and either keeps the trial or ends it, on the trial bank only by a completed commit |
| `SlotMachine.TrialRun` | crates/boot/src/lib.rs:180-230 | while a trial lasts its fallback's metadata and runtime data are untouched and its counter counts the recorded boots, never past the maximum |
| `SlotMachine.RollbackRestores` | crates/component-mgr/src/ota.rs:294-389 | install, anything while the trial lasts, then any end of it but a commit: the slot is committed where it was with the same data |
| `SlotMachine.BootsCountDown` | crates/boot/src/lib.rs:194-224 | the boot entry after any number of boots, in closed form |
| `Lifecycle.StepRefines` | crates/component-mgr/src/ota.rs:249-389 | every operation on the store, cut at any write, is for every slot the slot machine's step, or nothing if it is another slot's |
| `Lifecycle.RunRefines` | crates/boot/src/lib.rs:180-307 | so is every run |
| `Lifecycle.SlotsAreIndependent` | crates/boot/src/lib.rs:180-230 | a slot's outcome depends on its own records and events only, whatever other slots or a different slot count do |
| `Lifecycle.InstallOutcome` | crates/component-mgr/src/ota.rs:249-340 | an install succeeds if and only if the slot is committed, the image is at or above its floor and all three writes land |
| `Lifecycle.FloorHolds` | crates/component-mgr/src/ota.rs:163-389 | over every run of installs, commits, rollbacks, boots, hash failures, floor raises and disables, cut at any NV write: floor and generation as above, and no image below any floor ever held installs |
| `Lifecycle.SameSlotSameReads` | crates/component-mgr/src/did.rs:84-156 | every data identifier resolves from the active bank's records alone |
| `Lifecycle.RollbackRestores` | crates/component-mgr/src/ota.rs:294-389 | whatever happens on the device during the trial, a manual, automatic or hash rollback restores active bank, metadata, runtime data and every data identifier's value |
| `Lifecycle.TrialCountdown` | crates/boot/src/lib.rs:180-230 | a trial at count c reports exactly the remaining trial boots of the same bank, then one automatic rollback, then committed boots of the sibling for ever, whatever other slots do |
| `Did.TableRefinesMap` | crates/component-mgr/src/did.rs:160-200 | the bounded table is a finite map of capacity 20: identifiers stay distinct, a write is a map update clipped to 32 octets, refused exactly when the map is full without it |
| `Did.LookupRefinesMap` | crates/component-mgr/src/did.rs:84-104 | the table search finds the map's value |
| `Did.ReadDid` | crates/component-mgr/src/did.rs:84-156 | the cascade of runtime table, factory record and dynamic values, against the running bank if known |
| `Did.WriteDid` | crates/component-mgr/src/did.rs:160-200 | updates in place or appends, and writes the record once; a refused write changes nothing |
| `Did.ResolveAfterPut` | crates/component-mgr/src/did.rs:84-200 | replacing one table changes only what is read from that slot's bank |
| `Did.WriteThenRead` | crates/component-mgr/src/did.rs:84-200 | after a successful write the identifier reads as its first 32 octets and every other read, of any slot, bank or kind, is unchanged |
| `BootVector.Load` | crates/machine-mgr/src/system_bank_state.rs:166-228 | a restart loads both copies and drops the staging, and fails exactly when a copy cannot be read |
| `BootVector.Manager.Stage` | crates/machine-mgr/src/system_bank_state.rs:237-241 | overlays one entry on the staging, or on what boots; writes nothing |
| `BootVector.Manager.Seal` | crates/machine-mgr/src/system_bank_state.rs:255-277 | makes the staging PRIMARY at a generation above both copies; on failure cache, staging and store stay as they were |
| `BootVector.Manager.Commit` | crates/machine-mgr/src/system_bank_state.rs:283-294 | SECONDARY becomes PRIMARY; cache and store part exactly in the case named above |
| `BootVector.Manager.Rollback` | crates/machine-mgr/src/system_bank_state.rs:307-340 | restores SECONDARY, or only drops the staging outside a trial, or fails with nothing moved |
| `BootVector.FloorGenerationMonotone` | crates/nv-store/src/selector.rs:388-470 | over every run the floor's generation never falls, and equal generations mean equal copies |
| `BootVector.StagingIsVolatile` | crates/machine-mgr/src/system_bank_state.rs:111-122 | any staging and any failed seals leave what boots unchanged |
| `BootVector.SealFrame` | crates/component-mgr/src/bank_provider.rs:1106-1116 | activating one component leaves all others' entries alone if and only if no stale staging disagrees with what boots |
| `BootVector.CommitAndRollbackFrame` | crates/component-mgr/src/bank_provider.rs:1106-1110 | on any vector, a commit or rollback leaves all others' entries alone if and only if no other entry differs between the copies, or the copy it would take is missing |
| `BootVector.StaleStagingIsSealed` | crates/machine-mgr/src/system_bank_state.rs:237-277 | an input on which activating one component moves another, with none in trial; a restart in between prevents it |
| `Provider.BankProvider.Activate` | crates/component-mgr/src/bank_provider.rs:1083-1168 | the activator, then stage and seal; NV is not touched, failed or not |
| `Provider.BankProvider.Commit` | crates/component-mgr/src/bank_provider.rs:1170-1190 | NV, with an already committed slot counting as done, then the vector |
| `Provider.BankProvider.Rollback` | crates/component-mgr/src/bank_provider.rs:1192-1216 | the NV precondition, then the vector, then NV only if the vector moved |
| `DualAuthority.InstallAfter` | crates/component-mgr/src/backend.rs:5176-5192 | what a cut or complete install does to a slot's boot entry |
| `DualAuthority.CommitAfter` | crates/component-mgr/src/ota.rs:346-369 | the entry moves exactly when the commit reports success |
| `DualAuthority.RollbackAfter` | crates/component-mgr/src/ota.rs:374-389 | the entry moves exactly when the rollback reports success |
| `DualAuthority.HashAfter` | crates/boot/src/lib.rs:286-307 | the entry falls back exactly when the failure hits a trial and is recorded |
| `DualAuthority.FlashVector` | crates/component-mgr/src/backend.rs:5242-5260 | a flash moves the vector exactly when it succeeds, and then to its target bank |
| `DualAuthority.StepFollows` | crates/component-mgr/src/bank_provider.rs:1083-1216 | whatever happens to a component, its own flash, commit, rollback, hash failure or restart failing at any write of either store, or the vector staged, sealed, committed or rolled back on another's behalf, the two stores go where the seven-phase machine says and the report is what it says |
| `DualAuthority.RunFollows` | crates/component-mgr/src/bank_provider.rs:1083-1216 | so does every run, in any interleaving |
| `DualAuthority.StepKeepsOthers` | crates/component-mgr/src/bank_provider.rs:1106-1110 | with no other component in trial and nothing of another staged, a component's operation leaves every other's entries alone |
| `DualAuthority.RunKeepsOthers` | crates/component-mgr/src/bank_provider.rs:1083-1216 | so does every run of its operations |
| `DualAuthority.ConfirmKeepsAgreed` | crates/component-mgr/src/bank_provider.rs:1170-1190 | a commit attempt, a restart or another's staging, commit or, with nothing stale staged, seal keeps the stores agreed on a bank and its booted entry |
| `DualAuthority.CommitRetriesConverge` | crates/component-mgr/src/bank_provider.rs:1170-1190 | from any state in which NV's active bank and the booted entry agree, other trials and a missing floor included: after any failing commit attempts, restarts and others' stagings, commits and seals, a commit whose writes land succeeds, and one that succeeds leaves NV committed and the floor equal to the entry that booted |
| `DualAuthority.RollbackOrder` | crates/component-mgr/src/bank_provider.rs:1192-1216 | a rollback refused, or failed at the vector, moves nothing; one that succeeds moved both |
| `DualAuthority.FlashTargetIsFree` | crates/component-mgr/src/bank_provider.rs:776-807 | an accepted flash never writes the bank the vector boots or falls back to |
| `DualAuthority.CommitNeedsItsGuard` | crates/component-mgr/src/backend.rs:2204-2247 | the provider's commit leaves both stores naming one bank if and only if no reboot was owed |
| `DualAuthority.OneRepair` | crates/component-mgr/src/bank_provider.rs:1170-1216 | one sound operation settles every phase but the stranded one: a commit, a rollback, or for a split the node's rollback of the vector |
| `DualAuthority.NoWayOut` | crates/component-mgr/src/bank_provider.rs:1170-1216 | a split component's flash, commit and rollback all fail and nothing it does moves either store; a stranded one stays so whatever it or another does |
| `DualAuthority.HashFailureSplits` | crates/boot/src/lib.rs:286-307 | a recorded hash failure leaves the stores apart if and only if it hits a trial whose bank the vector boots |
| `DualAuthority.OthersSeeVector` | crates/component-mgr/src/bank_provider.rs:1106-1116 | one component's operation is to every other exactly a staging, sealing, commit or rollback of the shared vector, or nothing |
| `DualAuthority.OtherStandingFollows` | crates/component-mgr/src/bank_provider.rs:1083-1216 | and so takes every other component where the machine says |
| `DualAuthority.TurnKeepsFleet` | crates/machine-mgr/src/machine.rs:289-350 | one operation of any component, or the node's rollback, takes every component to the phase the machine gives it |
| `DualAuthority.FleetRun` | crates/machine-mgr/src/machine.rs:289-350 | any number of components, in trial together or not, operating in any order with faults anywhere, all stay in the seven phases |
| `DualAuthority.BystanderStays` | crates/component-mgr/src/bank_provider.rs:1083-1216 | a component that takes no turn keeps its NV entry and both its vector entries, through every run of turns taken with no other component in trial or staged |
| `PartitionRouting.PartitionProvider.RouteRecords` | crates/component-mgr/src/partition_bank_provider.rs:195-202 | points the records at the bank in order, up to the first that refuses |
| `PartitionRouting.PartitionProvider.Activate` | crates/component-mgr/src/partition_bank_provider.rs:244-254 | routes first; a refused routing leaves the vector as it was |
| `PartitionRouting.PartitionProvider.Commit` | crates/component-mgr/src/partition_bank_provider.rs:255-259 | routes nothing |
| `PartitionRouting.PartitionProvider.Rollback` | crates/component-mgr/src/partition_bank_provider.rs:260-268 | a refused rollback routes nothing, a refused routing moves neither store |
| `PartitionRouting.AllAccepted` | crates/component-mgr/src/partition_bank_provider.rs:195-202 | a routing no record refuses leaves every record on the bank |
| `PartitionRouting.RollbackTargetIsFloor` | crates/component-mgr/src/bank_provider.rs:434-451 | a rollback has a target exactly in a trial, and it is the vector's floor bank if and only if the vector was not committed ahead of NV |
| `PartitionRouting.VectorMovesBehindRecords` | crates/component-mgr/src/partition_bank_provider.rs:244-268 | in any state: whenever a flash moves the vector or succeeds, every record points at the bank it then boots, and for a rollback at the bank NV lands on; a refused routing moves no selection |
| `PartitionRouting.OthersRouteNothing` | crates/component-mgr/src/partition_bank_provider.rs:244-268 | the vector moved on another's behalf routes nothing: records on the booted bank are on the one booted afterwards if and only if, before the move, the floor rolled back to or the staging sealed names that bank, or the move fails, or there are no records |
| `PartitionRouting.WhenBootedStays` | crates/component-mgr/src/bank_provider.rs:1106-1116 | in the phases: another's rollback takes the booted bank away exactly from a trial, a half commit and a split, another's seal exactly from a component a failed seal left staged |
| `PartitionRouting.OthersRollbackLeavesRecords` | crates/machine-mgr/src/machine.rs:330-350 | another's rollback takes a trial back to the sibling with its records left on the trial bank |
| `PartitionRouting.RunKeepsStanding` | crates/component-mgr/src/partition_bank_provider.rs:244-268 | with records in front, every run in any interleaving stays in the seven phases |
| `PartitionRouting.ConfirmingRun` | crates/component-mgr/src/partition_bank_provider.rs:255-259 | commits, restarts and what others stage or commit route nothing and move no selection |
| `PartitionRouting.RecordsFollowVector` | crates/component-mgr/src/partition_bank_provider.rs:195-268 | from any state, a successful flash and then any commits and restarts leave every record on the bank the vector boots; after a rollback they are if and only if the vector had NV's target to return to, or there are no records |
| `Names.Deduplicate` | crates/component-mgr/src/partition_bank_provider.rs:365-370 | the loop keeps the first occurrences |
| `Names.OccurrenceOrder` | crates/component-mgr/src/partition_bank_provider.rs:365-370 | the names stay in the order in which they first occur |
| `PartitionSeal.PartitionSealer.AttestPart` | crates/component-mgr/src/partition_bank_provider.rs:390-428 | one declared part: mapped, present, no residue, readable, its record told, each refusal in order |
| `PartitionSeal.PartitionSealer.AttestAll` | crates/component-mgr/src/partition_bank_provider.rs:389-428 | the parts in order up to the first refusal, each with digest and size of its device |
| `PartitionSeal.PartitionSealer.Seal` | crates/component-mgr/src/partition_bank_provider.rs:356-491 | signs if and only if every declared part can be attested, its record accepts and the HSM can sign; the signature covers exactly the first occurrences; else nothing is signed and the records were told a prefix |
| `PartitionSeal.FindPart` | crates/component-mgr/src/partition_bank_provider.rs:314-316 | the first part of a name |
| `Seed.Missing` | crates/component-mgr/src/bank_seed.rs:81-90 | exactly the declared names the target lacks |
| `Seed.MissingOrder` | crates/component-mgr/src/bank_seed.rs:81-90 | in the order in which they are first declared, each once |
| `Seed.SettleOne` | crates/component-mgr/src/bank_seed.rs:82-140 | one declared name: left alone if shipped, else copied; or refused as unreadable, in neither bank, not a file or failed, with the target as it was but for a failed copy's debris |
| `Seed.CompletedBank` | crates/component-mgr/src/bank_seed.rs:46-64 | a completed bank holds every declared part, shipped parts untouched, added parts the active bank's, nothing undeclared; completing it again copies nothing |
| `Seed.SeedMissingFiles` | crates/component-mgr/src/bank_seed.rs:65-147 | succeeds exactly when every missing part can be copied; the target is then completed and the report lists exactly the missing names in order; on failure exactly a prefix was copied and the error names the next part |
| `Seed.RetryAfterFailedCopy` | crates/component-mgr/src/bank_seed.rs:79-92 | after a failed copy a retry gives the active bank's part if and only if nothing was left, or it was intact |
| `Seed.CopyForwardFile` | crates/component-mgr/src/bank_seed.rs:231-294 | content is kept exactly under the declared digest; a part that is missing or cannot be opened, or a name that cannot be created, leaves the target alone; a mismatch leaves the name empty if the removal works; an interrupted copy leaves a front of the part |
| `Specs.ValidateParts` | crates/component-factory/src/lib.rs:339-387 | accepts exactly the part lists with sound, distinct names and sound devices distinct across parts and banks |
| `Specs.ValidateSpecs` | crates/component-factory/src/lib.rs:408-468 | accepts exactly the sets in which every spec is well formed, slots are in range and distinct, and no two components share a device |
| `Specs.ResolveBankSet` | crates/component-factory/src/lib.rs:311-327 | the slot number, refused with the retired key or without one |
| `Specs.ValidSetBuilds` | crates/component-factory/src/lib.rs:575-611 | every component of a valid set passes its own build checks on a store with at least that many slots |
| `Specs.SinksAreDistinct` | crates/component-mgr/src/partition_bank_provider.rs:309-345 | in a valid set every part of every bank of every component has a device of its own |
| `Specs.WriteIsConfined` | crates/component-mgr/src/partition_bank_provider.rs:309-345 | writing a payload changes no other part, bank or component |
| `LinkWire.LeValueOfBytes` | crates/hsm-link-b/reference/hse_service_skeleton.c:72-92 | little-endian scalars read back |
| `LinkWire.FieldsRoundTrip` | crates/hsm-link-b/reference/hse_service_skeleton.c:122-204 | for any list of fields and any tail, reading back what was written gives the same fields and leaves the tail |
| `LinkWire.Reader.Take` | crates/hsm-link-b/reference/hse_service_skeleton.c:135-144 | stays inside the payload and fails for good on underrun |
| `LinkWire.Reader.Read` | crates/hsm-link-b/reference/hse_service_skeleton.c:145-163 | one field, or zero after a failure |
| `LinkWire.Reader.ReadAll` | crates/hsm-link-b/reference/hse_service_skeleton.c:122-170 | a request's fields in order and its tail, or a failure, as the field decoder says |
| `LinkWire.Writer.Tail` | crates/hsm-link-b/reference/hse_service_skeleton.c:196-199 | writes only what fits and counts all of it modulo 2^32, wherever the bound check on the wrapped sum is sound |
| `LinkWire.Writer.Field` | crates/hsm-link-b/reference/hse_service_skeleton.c:183-204 | appends exactly a field's octets while they fit, under the same condition |
| `LinkWire.WrapIsTheOnlyWay` | crates/hsm-link-b/reference/hse_service_skeleton.c:183-199 | that check is unsound exactly when the sum reaches 2^32 and wraps to at most the capacity |
| `LinkWire.DecodeLeavesSuffix` | crates/hsm-link-b/reference/hse_service_skeleton.c:135-170 | reading fields leaves the end of the payload, at least one octet shorter per field |
| `LinkService.Resolve` | crates/hsm-link-b/reference/hse_service_skeleton.c:283-288 | a handle's binding, absent exactly for an unmapped handle |
| `LinkService.OneCounter` | crates/hsm-link-b/reference/hse_service_skeleton.c:265-290 | the slot map has one counter |
| `LinkService.ReplyFits` | crates/hsm-link-b/reference/hse_service_skeleton.c:358-733 | whatever the op code, fields and tail, the reply is within the response buffer |
| `LinkService.Service.CounterCell` | crates/hsm-link-b/reference/hse_service_skeleton.c:319-327 | finds a counter's cell or creates it at zero, unless the table is full |
| `LinkService.Service.Raise` | crates/hsm-link-b/reference/hse_service_skeleton.c:708-727 | a counter only moves up, and no other cell moves |
| `LinkService.Service.HandleOp` | crates/hsm-link-b/reference/hse_service_skeleton.c:358-733 | for every op code and payload: stays inside both buffers, and status, result and state are those of the dispatch table |
| `LinkService.ListDecodes` | crates/hsm-link-b/reference/hse_service_skeleton.c:630-641 | LIST_SLOTS decodes back to the slot map |
| `LinkService.CounterIsMaximum` | crates/hsm-link-b/reference/hse_service_skeleton.c:313-327 | over any sequence of requests a counter reads the maximum of where it stood and every value raised on it, and its table never fills |
| `LinkService.CounterAnswers` | crates/hsm-link-b/reference/hse_service_skeleton.c:693-707 | and READ_MONOTONIC after it answers exactly that maximum |
| `LinkService.KeyHandles` | crates/hsm-link-b/reference/hse_service_skeleton.c:358-620 | every key operation is served exactly for a mapped handle, and for the private key exactly for one that is not virtual; the counter slot answers all of them and only the certificate request is refused |
| `LinkServer.ServeConnection` | crates/hsm-link-b/reference/hse_service_skeleton.c:787-809 | from the raw octets of a connection: reads each frame, answers every one in order until one is short or too large, and leaves the state those requests lead to |
| `LinkServer.ReadFrame` | crates/hsm-link-b/reference/hse_service_skeleton.c:790-796 | one header and its payload, refused exactly when short or over the buffer |
| `LinkServer.FramesRoundTrip` | crates/hsm-link-b/reference/hse_service_skeleton.c:790-796 | requests sent back to back are read one by one as they were sent |
| `LinkServer.ResponseSplits` | crates/hsm-link-b/reference/hse_service_skeleton.c:797-809 | every response's header announces exactly the octets that follow it |

## Left out

- SHA-256, zstd and the streaming decryptor are functions given to the model; the decryptor is
  taken to release a growing plaintext that depends only on the ciphertext fed so far.
- Envelopes with several integrated payloads, or array or map values: the header parser does
  not skip what lies between, so nothing is claimed for them. Payload names stay octets; the
  lossy conversion to text is not modelled.
- Sequence numbers of sectors wrap at 32 bits; generations, security versions and sizes are
  unbounded here.
- Unreadable sectors: a device error on reading one sector is not modelled.
- The factory record, the app, vehicle and update-session records, and the legacy boot-time
  witness `confirm_running_bank`.
- The vector's transaction header (armed and counted boot ids, resolutions) and the copies'
  authentication.
- The boot report from the vector is a plain map over its entries. The counting of trial boots
  that leads to the node's rollback is left out; the rollback may come at any time.
- A floor-only manifest and a disable are admitted as without a boot vector, by the NV trial
  flag; the deactivator and the signed record that come before a disable's NV write are left
  out.
- The check that a commit runs on the bank the process booted from: a commit the model admits
  may be refused for that.
- DualAuthority.BystanderStays: is stated for turns taken with no other component in trial or
  staged, because the vector's operations move every entry; DualAuthority.FleetRun says where
  each component then stands.
- Components the vector has no entry for in one of its copies have no phase; for them only the
  results on any state hold.
- Part names are flat: parent directories a name with slashes would create are not modelled.
  Symbolic links are copied as such and opened only as far as their content is given.
- Specs.ValidateSpecs: does not name the first owner of a shared slot or device, because only
  the refusal matters to the rule.
- LinkWire.Writer.Tail: asks that the bound check on the wrapped sum be sound, because where it
  is not the copy leaves the buffer; LinkWire.WrapIsTheOnlyWay says exactly when.
- LinkServer.ServeConnection: takes the peer to read every response, because a failed send only
  ends the connection.
- Link-B key operations answer with the skeleton's stand-in octets; real cryptography is not
  part of this model. The dispatch is a table of rows rather than a switch.
- SUIT signature checks, files, fsync and permission bits, `app-mgr`, the diagnostic adapters,
  logging and timing.
