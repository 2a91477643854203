# Verification of the native components of device_sony_pdx215

This project models the four native components of the device tree that hold real logic, and proves
what they are for. Every result is for all inputs, all interleavings or all runs, as stated.

- **gpt-utils** (`Bytes`, `Crc32`, `GptHeader`, `BootChain`, `EntryTable`, `GptProtocol`, `GptSafety`,
  `GptRecovery`, `GptCalls`, `GptFormat`, `GptDevice`, `GptCommit`): the fail-safe update of the GUID Partition Table
  (sections 5.3.2 and 5.3.3 of the UEFI Specification). The disk is a byte string; every block write
  is one step and may be cut or torn. The checksum is a parameter, so the theorems hold for any
  deterministic 32-bit checksum; `Crc32` adds what is particular to the real one. `GptProtocol` gives each call as a plan of writes, `GptSafety` and
  `GptRecovery` prove the theorems about runs of plans, and `GptDevice` and `GptCommit` are the
  imperative code, buffer by buffer, proved to carry out exactly those plans.
- **InteractionHandler** (`CArithmetic`, `Interaction`): the `Acquire` callers against the one `Routine` thread, as
  interleaved atomic steps with an explicit program counter, and the locked sections as a class.
- **ADPF sessions** (`AdpfPid`, `AdpfSessions`, `AdpfRuns`, `AdpfValues`, `AdpfWake`, `AdpfObjects`): the windowed
  PID controller, the session index and its aggregation, the lifecycle over whole runs, and the two
  classes with the source's loops, each method being one step of the state machine.
- **Vibrator::composePwle** (`Pwle`): the compiler from primitives to segments, with a meaning for
  both sides.

Where the code and its evident intent disagree, the model follows the code. These results say exactly
when the two agree, and the members after each show how they come apart:

- `GptCommit.BackupSealIff`: `GptCommit.UnequalSizesBreakBackup`, `GptCommit.BackupCanBreak`
- `GptRecovery.ShortWriteLosesBoth`
- `GptDevice.BlockDevice.GptGetState`: `GptRecovery.TearLeavesBlock`
- `Interaction.FinalDurationClampsIff`: `Interaction.NegativeRequestGetsMaximum`
- `Interaction.ExitStrandsHint`: `Interaction.ExitAfterRequestStrands`
- `AdpfRuns.IndexExactIff`, `AdpfRuns.CloseListed`: `AdpfRuns.RefusedProfileStrands`
- `AdpfWake.WakeOrderIrrelevantIff`: `AdpfWake.SmallerRequestWins`
- `Pwle.DurationIff`: `Pwle.NegativeBrakingCutsShort`, `Pwle.NegativeBrakingWraps`

## Model

| member | source | states |
|---|---|---|
| `Bytes.PutFourBytes` | gpt-utils/gpt-utils.cpp:91-108 | the four masked stores leave the little-endian field in the buffer and every other byte alone |
| `Bytes.Get4OfPut4` | gpt-utils/gpt-utils.cpp:91-108 | a 32-bit field reads back what was put into it |
| `Bytes.MemCpy` | gpt-utils/gpt-utils.cpp:263-265 | a copy replaces exactly the destination range, also inside one buffer when the ranges do not overlap |
| `Crc32.KnownValues` | gpt-utils/gpt-utils.cpp:1446-1466 | the byte step gives the known entries of zlib's table |
| `Crc32.CheckValue` | gpt-utils/gpt-utils.cpp:1446-1466 | the digits one to nine have the standard CRC-32 check value |
| `Crc32.LastByteTells` | gpt-utils/gpt-utils.cpp:1446-1466 | two strings that differ in their last byte alone have different CRC-32 checksums |
| `GptHeader.SealIsSound` | gpt-utils/gpt-utils.cpp:517-522 | recomputing the checksum over the cleared field makes the checksum right and changes nothing else |
| `GptHeader.SetThenGet` | gpt-utils/gpt-utils.cpp:407-533 | on every header block, reading after writing a state returns that state, and no byte outside signature and checksum has moved |
| `GptHeader.MarksAre` | gpt-utils/gpt-utils.cpp:505-522 | breaking clears the first byte only, and mending writes "EFI PART" and a zero, whatever was there |
| `GptHeader.SoundHeaderDetermined` | gpt-utils/gpt-utils.cpp:407-458 | two sound headers that agree off signature and checksum are the same block |
| `GptHeader.BreakThenRestore` | gpt-utils/gpt-utils.cpp:475-533 | breaking and then restoring the signature gives back the block byte for byte, checksum included |
| `GptHeader.SetEntriesCrcIsSound` | gpt-utils/gpt-utils.cpp:371-377 | recording an entry checksum keeps the signature state and leaves a sound header that holds it |
| `BootChain.MatchesIffTwin` | gpt-utils/gpt-utils.cpp:186-212 | the prefix and suffix comparisons accept exactly the name and its "bak" twin |
| `BootChain.SwapAllInvolution` | gpt-utils/gpt-utils.cpp:229-270 | on every table, two boot-chain swaps restore it |
| `BootChain.SwapsCommute` | gpt-utils/gpt-utils.cpp:229-270 | swaps under names that share no match commute |
| `BootChain.LookupFlips` | gpt-utils/gpt-utils.cpp:186-270 | after the swap, each paired name leads first to what its second match held, and second to what its first held |
| `BootChain.UnlistedStays` | gpt-utils/gpt-utils.cpp:229-270 | an entry that matches no listed name never moves |
| `BootChain.FoundIffPair` | gpt-utils/gpt-utils.cpp:229-270 | a backup is reported exactly when the original table holds a pair for some listed name |
| `BootChain.SwapAllPermutes` | gpt-utils/gpt-utils.cpp:229-270 | with 128-byte entries the swap is a permutation |
| `BootChain.SwapListSeparate` | gpt-utils/gpt-utils.h:85 | no entry can match two names of the built-in list, which the results above need |
| `BootChain.KeptSeparate` | gpt-utils/gpt-utils.cpp:242-247 | nor of what a UFS device keeps of it |
| `BootChain.BootLoaderStaysOnUfs` | gpt-utils/gpt-utils.cpp:242-247 | on UFS an entry named xbl, xbl_config, multiimgoem or multiimgqti, or its twin, never moves |
| `BootChain.OthersAreSwapped` | gpt-utils/gpt-utils.cpp:242-247 | every other listed name is swapped on either kind of device, and off UFS all of them |
| `BootChain.TailsStay` | gpt-utils/gpt-utils.cpp:262-265 | bytes behind the first 128 of an entry stay where they are |
| `EntryTable.FlattenOfChunks` | gpt-utils/gpt-utils.cpp:186-212 | cutting a buffer into entries and joining them is the identity |
| `EntryTable.PentrySeek` | gpt-utils/gpt-utils.cpp:186-212 | the loop returns the offset of the first match at or after its start, and none exactly when there is none |
| `EntryTable.ExchangeEntries` | gpt-utils/gpt-utils.cpp:262-265 | the three copies exchange the first 128 bytes of two entries in the buffer |
| `EntryTable.BootChainSwap` | gpt-utils/gpt-utils.cpp:229-270 | the in-place loop leaves the swapped table, and reports "no backup" exactly when there was no pair |
| `EntryTable.SwapTableInvolution` | gpt-utils/gpt-utils.cpp:229-270 | on the raw bytes too, swapping twice restores the buffer |
| `GptSafety.StartIsValidPrimary` | gpt-utils/gpt-utils.cpp:712-779 | the starting condition is exactly a valid primary copy and a sound secondary header that describe the layout |
| `GptSafety.CallSafe` | gpt-utils/gpt-utils.cpp:712-892 | in every reachable state, any requested stage is safe before, after and in the middle of each of its writes |
| `GptSafety.CrashSafety` | gpt-utils/gpt-utils.cpp:712-892 | after any calls in any order, each cut or torn at any write, one copy has signature, header and entry checksums right, and the primary entries and all else outside the tables are unchanged; a run goes on after every tear that the reader's checksum notices |
| `GptRecovery.FinalDiskValid` | gpt-utils/gpt-utils.cpp:826-884 | the disk an update ends on has two valid copies with the primary's entries, and the original primary header byte for byte |
| `GptRecovery.FinalDiskIsStart` | gpt-utils/gpt-utils.cpp:781-884 | it is the original disk whenever the two copies agreed |
| `GptRecovery.Recovery` | gpt-utils/gpt-utils.cpp:758-892 | in every reachable state with intact header blocks, the stages from the detected one through FINALIZE succeed and end on that one disk |
| `GptRecovery.RecoveryAfterCuts` | gpt-utils/gpt-utils.cpp:712-892 | after any run of cut calls, at most three further calls, all succeeding, end there |
| `GptRecovery.UpdateRoundTrip` | gpt-utils/gpt-utils.cpp:781-884 | MAIN, BACKUP, FINALIZE on a disk with agreeing copies restores every byte |
| `GptRecovery.TornHeaderStopsUpdate` | gpt-utils/gpt-utils.cpp:736-779 | once a header block fails its checksum, every call fails and writes nothing, with one copy still valid |
| `GptRecovery.NoBackupsNoWrites` | gpt-utils/gpt-utils.cpp:286-392 | without a backup pair no run of calls writes anything |
| `GptRecovery.StageRemembered` | gpt-utils/gpt-utils.cpp:736-779 | on the disk that running a stage leaves, MAIN or BACKUP asked for again succeeds and writes nothing; any stage but the next fails without writing, a second FINALIZE included |
| `GptRecovery.MainPointsAtBackups` | gpt-utils/gpt-utils.cpp:781-825 | on the disk that running MAIN leaves, only the secondary copy is valid, and there each paired name leads to the primary's backup entry |
| `GptRecovery.TearLeavesBlock` | gpt-utils/gpt-utils.cpp:407-458 | on every start disk with a backup, MAIN torn in its first write can leave a header size beyond the block; the run then goes on exactly when the memory behind the reader's buffer does not make the checksum match |
| `GptRecovery.ShortWriteLosesBoth` | gpt-utils/gpt-utils.cpp:145-167 | if the array write of MAIN is short, which is reported as success, a valid copy is left exactly when the checksum does not notice the missing bytes |
| `GptCalls.FailedSwitchStops` | gpt-utils/gpt-utils.cpp:781-800 | a boot LUN that cannot be switched stops MAIN and BACKUP before any write |
| `GptCalls.SwitchMattersOnlyThere` | gpt-utils/gpt-utils.cpp:781-845 | the switch matters neither to FINALIZE, nor off UFS, nor without an xbl pair |
| `GptCalls.BadHeadersStopUpdate` | gpt-utils/gpt-utils.cpp:744-756 | with a bad header checksum, or two bad signatures, every call fails and writes nothing |
| `GptCalls.BadArrayStopsUpdate` | gpt-utils/gpt-utils.cpp:348-353 | with both headers good and a primary array that its checksum disowns, every call fails and writes nothing |
| `GptCalls.WritesNeedPrimary` | gpt-utils/gpt-utils.cpp:286-392 | on any sane disk, MAIN or FINALIZE writes only over a valid primary copy |
| `GptCalls.StartOrNothing` | gpt-utils/gpt-utils.cpp:712-892 | on any described disk that no update has touched, either an update may start or no call writes |
| `GptCalls.CallKeepsACopy` | gpt-utils/gpt-utils.cpp:712-892 | such a disk with a valid copy keeps one through any call and any fault, whatever its primary array holds |
| `GptCalls.NoBackupsSucceeds` | gpt-utils/gpt-utils.cpp:806-816 | MAIN without a backup pair succeeds and writes nothing |
| `GptCalls.MainInOrder` | gpt-utils/gpt-utils.cpp:286-392 | MAIN cut after one write has announced the swapped array and not written it; after two it is there and the primary header is untouched |
| `GptCalls.BackupInOrder` | gpt-utils/gpt-utils.cpp:826-862 | BACKUP cut after one write has mended the primary header byte for byte and not touched the secondary |
| `GptCalls.FinalizeInOrder` | gpt-utils/gpt-utils.cpp:863-882 | FINALIZE cut after one or two writes still has the secondary header marked bad, its array announced first and written second |
| `GptFormat.FieldsRead` | gpt-utils/gpt-utils.h:43-63 | a header laid out field by field reads back its entry place, count and size through the reader's offsets |
| `GptFormat.EntryReads` | gpt-utils/gpt-utils.h:55-63 | an entry laid out field by field is found under exactly the name in its name field and that name's original |
| `GptFormat.StartExists` | gpt-utils/gpt-utils.cpp:712-779 | for every block size, checksum and entry array there is a disk to start on with two agreeing valid copies, so the theorems are never empty |
| `GptFormat.UpdateCanStart` | gpt-utils/gpt-utils.cpp:286-392 | and one with a backup pair, whatever the device's first swapped name |
| `GptDevice.BlockDevice.constructor` | gpt-utils/gpt-utils.cpp:712-735 | a device swaps the built-in list without the names its kind skips |
| `GptDevice.BlockDevice.BlkRead` | gpt-utils/gpt-utils.cpp:145-167 | the buffer receives exactly the addressed bytes |
| `GptDevice.BlockDevice.BlkWrite` | gpt-utils/gpt-utils.cpp:145-167 | one write replaces its range, or is cut or torn by the armed fault, and the result says which |
| `GptDevice.BlockDevice.GptGetState` | gpt-utils/gpt-utils.cpp:407-458 | the reader returns the state of any block on disk, checksum before signature, and its checksum stays inside the buffer exactly when the size field does |
| `GptDevice.BlockDevice.GptSetState` | gpt-utils/gpt-utils.cpp:475-533 | the writer performs exactly the one write of the marked and sealed block |
| `GptDevice.BlockDevice.Gpt2SetBootChain` | gpt-utils/gpt-utils.cpp:286-392 | carries out its plan: refusal on a bad primary array, 1 without backups, else secondary header and then array |
| `GptDevice.BlockDevice.PreparePartitions` | gpt-utils/gpt-utils.cpp:712-892 | carries out its plan up to the first failing write, on any disk whose fields are sane once both checksums pass |
| `GptDevice.BlockDevice.RunCalls` | gpt-utils/gpt-utils.cpp:712-892 | a loop of calls, each with its own fault, leaves the disk of the corresponding run, hence a valid copy and unchanged primary entries |
| `GptCommit.UpdateCrcSealsPrimary` | gpt-utils/gpt-utils.cpp:1437-1471 | the primary header always comes out sound and holding the checksum of its array |
| `GptCommit.UpdateCrcSealsBackup` | gpt-utils/gpt-utils.cpp:1437-1471 | so does the backup header when the header sizes agree |
| `GptCommit.BackupSealIff` | gpt-utils/gpt-utils.cpp:1437-1471 | with any header sizes, the backup header comes out sound exactly when the checksum cannot tell the two lengths apart |
| `GptCommit.UnequalSizesBreakBackup` | gpt-utils/gpt-utils.cpp:1437-1471 | with CRC-32 and differing header sizes, at most one of the 256 values of the last byte that one length covers and the other does not leaves the backup header sound |
| `GptCommit.BackupCanBreak` | gpt-utils/gpt-utils.cpp:1437-1471 | so every image with differing header sizes is one byte away from a backup header with a bad checksum |
| `GptCommit.EditedIsGood` | gpt-utils/gpt-utils.cpp:1437-1471 | any edit of the two arrays, after the checksum update, is good in the primary copy, and in the backup exactly when its header came out sound, which equal header sizes ensure |
| `GptCommit.CommitSafe` | gpt-utils/gpt-utils.cpp:1474-1520 | every boundary and every tear of the four writes leaves a valid copy |
| `GptCommit.CommitLands` | gpt-utils/gpt-utils.cpp:1474-1520 | a complete commit leaves the image on an otherwise unchanged disk |
| `GptCommit.EditedCommitSafe` | gpt-utils/gpt-utils.cpp:1339-1520 | load, edit, update, commit, whatever the header sizes: under any fault a copy is valid; a complete commit reloads as the same headers and arrays, with the primary valid and the secondary valid exactly when its header was sealed |
| `GptCommit.CommitCutAfter` | gpt-utils/gpt-utils.cpp:1474-1520 | a commit cut after k writes has the first k of primary header, primary array, secondary header, secondary array new and the rest old |
| `GptCommit.CommitThenUpdate` | gpt-utils/gpt-utils.cpp:712-892 | an edited commit cut anywhere, and then any update call under any fault, leave a valid copy |
| `GptCommit.GptDisk.GetDiskInfo` | gpt-utils/gpt-utils.cpp:1339-1412 | the loaded handle holds both header blocks and the arrays they describe |
| `GptCommit.GptDisk.ReadArray` | gpt-utils/gpt-utils.cpp:1221-1267 | the array is read from where its own header places it |
| `GptCommit.GptDisk.UpdateCrcs` | gpt-utils/gpt-utils.cpp:1437-1471 | in place, the buffers become the updated image; an unloaded handle is refused unchanged |
| `GptCommit.GptDisk.Commit` | gpt-utils/gpt-utils.cpp:1474-1520 | performs the four planned writes up to the first that fails |
| `Interaction.ElapsedIsClose` | aidl/power-libperfmgr/InteractionHandler.cpp:62-67 | on a monotonic clock the computed milliseconds never wrap and are off by less than one |
| `CArithmetic.TruncDivIs` | aidl/power-libperfmgr/InteractionHandler.cpp:62-67 | division and conversion cut toward zero, for either sign |
| `Interaction.FinalDurationClampsIff` | aidl/power-libperfmgr/InteractionHandler.cpp:150-157 | the duration is the intended clamp exactly when request plus offset is not negative, or the limits coincide |
| `Interaction.NegativeRequestGetsMaximum` | aidl/power-libperfmgr/InteractionHandler.cpp:150-157 | a request below that gets the longest duration |
| `Interaction.DeadlineAdvances` | aidl/power-libperfmgr/InteractionHandler.cpp:150-180 | while the hint is held, an accepted request strictly advances the deadline and a skipped one ends less than 1 ms past it |
| `Interaction.StepKeepsInv` | aidl/power-libperfmgr/InteractionHandler.cpp:145-276 | every atomic step of either side but Exit keeps the invariant of state, eventfd and history |
| `Interaction.AbortSignalExact` | aidl/power-libperfmgr/InteractionHandler.cpp:145-276 | under every interleaving before Exit, the eventfd counts 1 exactly during a wait that an Acquire has called off; no wait starts with a stale abort and no drain finds it empty |
| `Interaction.HintBalanced` | aidl/power-libperfmgr/InteractionHandler.cpp:131-206 | lock and release alternate, the hint is held exactly in INTERACTION or WAITING, and each release follows a wait begun after the last accepted request |
| `Interaction.HeldHintCoversRequests` | aidl/power-libperfmgr/InteractionHandler.cpp:150-180 | the deadline covers every request made since the hint was taken |
| `Interaction.RoutineCanStep` | aidl/power-libperfmgr/InteractionHandler.cpp:216-276 | in every reachable state with the hint held, Routine has a next step |
| `Interaction.RoutineReleases` | aidl/power-libperfmgr/InteractionHandler.cpp:216-276 | from every reachable state before Exit, Routine by itself makes at most eleven steps, and it can go on exactly while the hint is held |
| `Interaction.ReleaseEndsAWait` | aidl/power-libperfmgr/InteractionHandler.cpp:216-276 | under every interleaving before Exit, each release follows an aborted or failed first poll, or a display that read idle or nothing after that poll timed out, or a second poll after it read busy |
| `Interaction.IdleReleasesAtOnce` | aidl/power-libperfmgr/InteractionHandler.cpp:239-250 | after an idle read or end of file the release is Routine's only step, after a busy read the second poll is |
| `Interaction.RequestHoldsHint` | aidl/power-libperfmgr/InteractionHandler.cpp:145-191 | every request before Exit, skipped or not, leaves the hint held |
| `Interaction.RequestIsRecorded` | aidl/power-libperfmgr/InteractionHandler.cpp:150-180 | the end by which the deadline is judged is the request's time plus its clamped duration |
| `Interaction.DirectRequest` | aidl/power-libperfmgr/InteractionHandler.cpp:159-165 | without display-idle support, or after Exit, a request is one direct hint of its clamped duration and changes no state |
| `Interaction.NothingReleasesAfterExit` | aidl/power-libperfmgr/InteractionHandler.cpp:115-129 | after Exit no step changes whether the hint is held |
| `Interaction.ExitStrandsHint` | aidl/power-libperfmgr/InteractionHandler.cpp:115-129 | the hint stays held for good exactly when the handler was not idle at Exit |
| `Interaction.ExitAfterRequestStrands` | aidl/power-libperfmgr/InteractionHandler.cpp:115-191 | a request followed at once by Exit leaves the hint held at every later point |
| `Interaction.ExitEndsRoutine` | aidl/power-libperfmgr/InteractionHandler.cpp:115-276 | after Exit no poll waits out its time and Routine makes at most six more steps, none left exactly when it has returned |
| `Interaction.InteractionHandler.constructor` | aidl/power-libperfmgr/InteractionHandler.cpp:91-113 | the state after a successful Init |
| `Interaction.InteractionHandler.AbortWaitLocked` | aidl/power-libperfmgr/InteractionHandler.cpp:209-214 | adds one to the eventfd |
| `Interaction.InteractionHandler.Acquire` | aidl/power-libperfmgr/InteractionHandler.cpp:145-191 | the locked body is the Acquire step of the state machine |
| `Interaction.InteractionHandler.EnterWait` | aidl/power-libperfmgr/InteractionHandler.cpp:261-276 | the locked head of Routine's loop is the Enter step |
| `Interaction.InteractionHandler.Release` | aidl/power-libperfmgr/InteractionHandler.cpp:193-206 | the Release step: give the hint back, or drain a pending abort |
| `Interaction.InteractionHandler.Exit` | aidl/power-libperfmgr/InteractionHandler.cpp:115-129 | the Exit step, hint untouched |
| `AdpfPid.CollectTerms` | aidl/power-libperfmgr/PowerHintSession.cpp:61-94 | for all batch lengths and windows, the one loop yields the sum over the last P samples, the clamped fold over the last I, and last error minus the one before the D window |
| `AdpfPid.ConvertWorkDurationToBoost` | aidl/power-libperfmgr/PowerHintSession.cpp:55-120 | output and stored state are those of the three terms, for every target, a dt of 0 included |
| `AdpfPid.OnlyTheWindowCounts` | aidl/power-libperfmgr/PowerHintSession.cpp:61-94 | samples before the last P, or the last I, do not matter to that term; a window of 0, or longer than the batch, counts them all |
| `AdpfPid.EachSampleCounts` | aidl/power-libperfmgr/PowerHintSession.cpp:81-87 | each sample in the P window counts once, with its own error in units of 100 us |
| `AdpfPid.OnTarget` | aidl/power-libperfmgr/PowerHintSession.cpp:81-87 | samples on target make no error |
| `AdpfPid.IntegralOfOne` | aidl/power-libperfmgr/PowerHintSession.cpp:88-92 | one sample moves the integral by its error times the target, cut to the limits |
| `AdpfPid.IntegralOfMore` | aidl/power-libperfmgr/PowerHintSession.cpp:88-92 | in a larger window the last sample comes on top of the batch without it |
| `AdpfPid.IntegralOfLast` | aidl/power-libperfmgr/PowerHintSession.cpp:88-92 | a window of one counts the last sample alone |
| `AdpfPid.DerivativeIs` | aidl/power-libperfmgr/PowerHintSession.cpp:82-93 | the derivative is the last error less the one before the D window when the P or I window reaches further back, else less the stored one |
| `AdpfPid.OutputAdds` | aidl/power-libperfmgr/PowerHintSession.cpp:95-102 | the output is the sum of those of the three terms alone |
| `AdpfPid.OutputP` | aidl/power-libperfmgr/PowerHintSession.cpp:95-96 | P times the samples its window counts is the gain for its sign times the error sum, up to cutting toward zero |
| `AdpfPid.OutputI` | aidl/power-libperfmgr/PowerHintSession.cpp:97 | I is its gain times the integral, cut toward zero |
| `AdpfPid.OutputD` | aidl/power-libperfmgr/PowerHintSession.cpp:98-100 | D times target and window is the gain for its sign times the derivative, up to cutting toward zero; a target of 0 units gives what the processor makes of it |
| `AdpfPid.DifferencesTelescope` | aidl/power-libperfmgr/PowerHintSession.cpp:82-85 | a sum of successive differences is last minus first |
| `AdpfPid.DerivativeIsSumOfSteps` | aidl/power-libperfmgr/PowerHintSession.cpp:82-85 | the closed form of the derivative is that sum over the D window |
| `AdpfPid.IntegralBounded` | aidl/power-libperfmgr/PowerHintSession.cpp:88-92 | the integral stays within its limits whatever is reported |
| `AdpfPid.UnsaturatedIsSum` | aidl/power-libperfmgr/PowerHintSession.cpp:88-92 | while no partial sum leaves the limits, it is the plain error sum times dt |
| `AdpfSessions.AddTidsAt` | aidl/power-libperfmgr/PowerSessionManager.cpp:115-134 | registering adds each thread's occurrences to its count and the session to its set |
| `AdpfSessions.RemoveTidsAt` | aidl/power-libperfmgr/PowerSessionManager.cpp:136-153 | unregistering takes them away again without reaching an error branch |
| `AdpfSessions.AddIndexedIff` | aidl/power-libperfmgr/PowerSessionManager.cpp:115-134 | creation keeps the index exact if and only if no thread new to it fails its task profile |
| `AdpfSessions.RemoveKeepsIndexed` | aidl/power-libperfmgr/PowerSessionManager.cpp:136-153 | removal always keeps it exact |
| `AdpfSessions.LiveMaxUnique` | aidl/power-libperfmgr/PowerSessionManager.cpp:160-169 | the maximum over the live sessions does not depend on the order of the scan |
| `AdpfSessions.FastIsScan` | aidl/power-libperfmgr/PowerSessionManager.cpp:155-171 | the per-thread list gives the same value as scanning every registered session |
| `AdpfSessions.SetUclampIsScan` | aidl/power-libperfmgr/PowerSessionManager.cpp:61-171 | after a request each listed thread carries the 0 to 1024 clamp of the larger of the value and the maximum over all registered live sessions listing it; no other thread changes |
| `AdpfRuns.ReportBounds` | aidl/power-libperfmgr/PowerHintSession.cpp:301-362 | a PID report leaves the minimum in [Low, High] and the integral within its limits |
| `AdpfRuns.CloseValues` | aidl/power-libperfmgr/PowerHintSession.cpp:259-276 | after close each of its threads carries the clamp of the maximum over the live sessions that remain, and every other thread what it had |
| `AdpfRuns.ClosedTwice` | aidl/power-libperfmgr/PowerHintSession.cpp:152-165 | a second close, such as the destructor's, is refused and changes nothing |
| `AdpfRuns.RunKeepsInv` | aidl/power-libperfmgr/PowerHintSession.cpp:124-585 | every run of calls, wake-ups and timer messages, whichever task profiles are refused, keeps the bounds, the lifecycle and the history of removals |
| `AdpfRuns.CreateIsExactIff` | aidl/power-libperfmgr/PowerSessionManager.cpp:115-134 | creating a session keeps an exact index exact if and only if no new thread refuses its task profile |
| `AdpfRuns.StepIsExactIff` | aidl/power-libperfmgr/PowerSessionManager.cpp:104-202 | every other step keeps it exact |
| `AdpfRuns.IndexExactIff` | aidl/power-libperfmgr/PowerSessionManager.cpp:115-153 | in every run the index is exact all along if and only if no creation had a new thread refuse its task profile |
| `AdpfRuns.SessionIndexExact` | aidl/power-libperfmgr/PowerSessionManager.cpp:115-153 | then each refcount is the thread's occurrences over the registered sessions, present iff positive; its set is exactly those sessions; no error branch is reached |
| `AdpfRuns.ControllerBounds` | aidl/power-libperfmgr/PowerHintSession.cpp:192-432 | in every run, no minimum exceeds max(High, Init) and no integral leaves its limits |
| `AdpfRuns.RemovedExactlyOnce` | aidl/power-libperfmgr/PowerHintSession.cpp:259-276 | a session was removed once if closed and never otherwise, and is registered exactly while open |
| `AdpfRuns.CloseIsTerminal` | aidl/power-libperfmgr/PowerHintSession.cpp:152-585 | from its close on, in every run, a session stays out of the manager, no call, wake-up or timer applies a value for it, and the threads' lists hold it exactly where close left it |
| `AdpfRuns.RemoveTidsLists` | aidl/power-libperfmgr/PowerSessionManager.cpp:136-153 | unregistering takes a session out of a listed thread's set exactly when the thread is counted |
| `AdpfRuns.CloseListed` | aidl/power-libperfmgr/PowerSessionManager.cpp:136-153 | close leaves a session in exactly the lists of its uncounted threads, and touches no other session's place |
| `AdpfRuns.ClosedIsUnlisted` | aidl/power-libperfmgr/PowerHintSession.cpp:259-276 | in a run without refused profiles a closed session is in no list |
| `AdpfRuns.RefusedProfileStrands` | aidl/power-libperfmgr/PowerSessionManager.cpp:115-153 | a session whose one thread refuses its profile is listed and not counted, and stays listed for good after its close |
| `AdpfValues.ClampIs` | aidl/power-libperfmgr/PowerSessionManager.cpp:61-65 | the clamp lies in 0 to 1024, is the identity there and keeps the order |
| `AdpfValues.LiveIs` | aidl/power-libperfmgr/PowerHintSession.cpp:389-392 | an active session is live exactly while less than target times stale factor has passed since its last report |
| `AdpfValues.TargetIs` | aidl/power-libperfmgr/PowerHintSession.cpp:278-299 | an accepted target is recorded times its factor, a refused one changes nothing |
| `AdpfValues.PauseValues` | aidl/power-libperfmgr/PowerHintSession.cpp:221-238 | after pause each of its threads carries the clamp of what the other live sessions ask for, no other thread changed |
| `AdpfValues.ResumeValues` | aidl/power-libperfmgr/PowerHintSession.cpp:240-257 | after resume its own minimum counts again beside the others |
| `AdpfValues.PauseThenResume` | aidl/power-libperfmgr/PowerHintSession.cpp:221-257 | together they restore the record, with the stale timer rearmed |
| `AdpfValues.CreateValues` | aidl/power-libperfmgr/PowerHintSession.cpp:124-150 | a new session's threads carry at least Init and what the others ask for, and its record starts from nothing else |
| `AdpfValues.ReportValues` | aidl/power-libperfmgr/PowerHintSession.cpp:301-362 | after a report its threads carry the clamp of the recorded minimum and the others |
| `AdpfValues.ReportRecords` | aidl/power-libperfmgr/PowerHintSession.cpp:337-353 | the recorded minimum is High without the PID, else the old one plus the output cut to Low and High |
| `AdpfValues.ReportAccepted` | aidl/power-libperfmgr/PowerHintSession.cpp:301-321 | accepted from an open, active session with a target and samples; an empty batch is an argument error only with a target |
| `AdpfValues.ReportRefused` | aidl/power-libperfmgr/PowerHintSession.cpp:301-321 | a refused report changes nothing |
| `AdpfValues.WakeRaises` | aidl/power-libperfmgr/PowerHintSession.cpp:410-432 | waking raises exactly the open, active, stale sessions to Init, and leaves them stale |
| `AdpfValues.StaleValues` | aidl/power-libperfmgr/PowerHintSession.cpp:498-525 | a due stale timer leaves what the live sessions ask for |
| `AdpfValues.BoostValues` | aidl/power-libperfmgr/PowerHintSession.cpp:549-579 | a due early-boost timer leaves at least High |
| `AdpfValues.TimersWait` | aidl/power-libperfmgr/PowerHintSession.cpp:498-579 | timers that are not due, or of closed sessions, do nothing, and none changes a record |
| `AdpfValues.TimerMatchesLiveness` | aidl/power-libperfmgr/PowerHintSession.cpp:301-362 | after a PID report the stale timer is due exactly when the session stops being live |
| `AdpfValues.BoostFollowsApps` | aidl/power-libperfmgr/PowerSessionManager.cpp:173-202 | the system boost is disabled exactly while some registered app session is live, and told of changes only |
| `AdpfValues.NoAppNoBoost` | aidl/power-libperfmgr/PowerSessionManager.cpp:173-202 | where no app has a session the boost is never touched |
| `AdpfWake.WakeLast` | aidl/power-libperfmgr/PowerSessionManager.cpp:104-109 | after waking, a thread carries what the last woken session listing it asked for, because woken sessions still count as stale |
| `AdpfWake.WakeOrderIrrelevantIff` | aidl/power-libperfmgr/PowerSessionManager.cpp:104-109 | the result is independent of the set's order exactly when all woken sessions listing the thread leave the same value |
| `AdpfWake.ExampleRun` | aidl/power-libperfmgr/PowerHintSession.cpp:124-362 | a run from the empty system in which two sessions come to ask for 100 and 200 on one thread |
| `AdpfWake.SmallerRequestWins` | aidl/power-libperfmgr/PowerSessionManager.cpp:104-109 | at the end of that run, once both are stale, one wake order leaves 200 on the thread and the other 100 |
| `AdpfObjects.PowerSessionManager.constructor` | aidl/power-libperfmgr/PowerSessionManager.h:78-96 | the empty system |
| `AdpfObjects.PowerSessionManager.AddPowerSession` | aidl/power-libperfmgr/PowerSessionManager.cpp:115-134 | the loop makes the index of the registered session, error branches and refused profiles included |
| `AdpfObjects.PowerSessionManager.RemovePowerSession` | aidl/power-libperfmgr/PowerSessionManager.cpp:136-153 | the loop makes the index without it |
| `AdpfObjects.PowerSessionManager.LargestLive` | aidl/power-libperfmgr/PowerSessionManager.cpp:160-169 | the inner loop, in whatever order, finds the largest live minimum, or 0 |
| `AdpfObjects.PowerSessionManager.SetUclampMin` | aidl/power-libperfmgr/PowerSessionManager.cpp:155-171 | one value per listed thread, that of the list aggregation, and nothing else |
| `AdpfObjects.PowerSessionManager.AnyAppSessionLive` | aidl/power-libperfmgr/PowerSessionManager.cpp:173-183 | the early-exit scan finds a live app session exactly when there is one |
| `AdpfObjects.PowerSessionManager.HandleMessage` | aidl/power-libperfmgr/PowerSessionManager.cpp:173-202 | the top-app boost is told of changes only |
| `AdpfObjects.PowerSessionManager.WakeSessions` | aidl/power-libperfmgr/PowerSessionManager.cpp:104-109 | wakes each registered session once, in some order |
| `AdpfObjects.PowerHintSession.constructor` | aidl/power-libperfmgr/PowerHintSession.cpp:124-150 | the creation step, whichever task profiles fail |
| `AdpfObjects.PowerHintSession.SetSessionUclampMin` | aidl/power-libperfmgr/PowerHintSession.cpp:192-208 | records the minimum, rearms the timer unless it is 0, applies it |
| `AdpfObjects.PowerHintSession.Pause` | aidl/power-libperfmgr/PowerHintSession.cpp:221-238 | the pause step and when it is accepted |
| `AdpfObjects.PowerHintSession.Resume` | aidl/power-libperfmgr/PowerHintSession.cpp:240-257 | the resume step and when it is accepted |
| `AdpfObjects.PowerHintSession.Close` | aidl/power-libperfmgr/PowerHintSession.cpp:259-276 | the close step, refused on a closed session |
| `AdpfObjects.PowerHintSession.UpdateTargetWorkDuration` | aidl/power-libperfmgr/PowerHintSession.cpp:278-299 | the new target, or one of the two refusals |
| `AdpfObjects.PowerHintSession.ReportActualWorkDuration` | aidl/power-libperfmgr/PowerHintSession.cpp:301-362 | the report step with its refusals in order, for every target |
| `AdpfObjects.PowerHintSession.HandleStaleMessage` | aidl/power-libperfmgr/PowerHintSession.cpp:498-525 | a live, due timer drops the session's request, any other does nothing |
| `AdpfObjects.PowerHintSession.HandleBoostMessage` | aidl/power-libperfmgr/PowerHintSession.cpp:549-579 | a live, due timer asks for High |
| `AdpfObjects.PowerHintSession.WakeUp` | aidl/power-libperfmgr/PowerHintSession.cpp:410-432 | only an open, active, stale session is raised to Init |
| `Pwle.PlayedEmit` | aidl/vibrator/Vibrator.cpp:758-877 | one primitive's segments play that primitive and then hand over at its end point |
| `Pwle.CompileIsFaithful` | aidl/vibrator/Vibrator.cpp:799-880 | for every accepted composition and instant, the segments play what the primitives describe, jumps omitted or not |
| `Pwle.JumpsAreRedundant` | aidl/vibrator/Vibrator.cpp:846-855 | leaving the jumps out plays the same envelope as always emitting them |
| `Pwle.JumpIsNeeded` | aidl/vibrator/Vibrator.cpp:846-855 | a jump before a primitive that lasts is emitted exactly when leaving it out would change the envelope |
| `Pwle.CompileIsWellFormed` | aidl/vibrator/Vibrator.cpp:754-880 | indices run consecutively from the first, levels stay within 0 to 0.99 and the limit at their frequency, and there is at most one jump per primitive |
| `Pwle.RampsWithinTable` | aidl/vibrator/Vibrator.cpp:819-844 | every ramp to a frequency from k up to k + 1 is at most 0.99 and at most entry k - 1 of the table |
| `Pwle.EndIsReached` | aidl/vibrator/Vibrator.cpp:819-858 | every active primitive has a ramp of its duration to its end frequency, at its own level where that is within both limits and at the lower of them where not |
| `Pwle.AcceptanceIs` | aidl/vibrator/Vibrator.cpp:809-870 | which primitives are accepted, in numbers |
| `Pwle.DurationsConserved` | aidl/vibrator/Vibrator.cpp:846-877 | segment durations add up to the primitives' total |
| `Pwle.SilentIff` | aidl/vibrator/Vibrator.cpp:758-783 | the output of any program falls silent exactly when the sum of its non-negative durations is over |
| `Pwle.PlayedTimeOf` | aidl/vibrator/Vibrator.cpp:846-877 | that time is the primitives' total plus what negative durations took off it |
| `Pwle.DurationIff` | aidl/vibrator/Vibrator.cpp:862-900 | the chip is told the time until silence plus the cold start exactly when the negative durations add up to a multiple of 2^32 |
| `Pwle.NothingOverdrawn` | aidl/vibrator/Vibrator.cpp:862-900 | so whenever no duration is negative |
| `Pwle.NegativeBrakingCutsShort` | aidl/vibrator/Vibrator.cpp:862-900 | 100 ms of vibration and then braking for -50 ms are accepted; the chip gets 56 ms while the output still drives at 75 ms |
| `Pwle.NegativeBrakingWraps` | aidl/vibrator/Vibrator.cpp:862-900 | one accepted braking primitive of -7 ms asks the chip for 4294967295 ms |
| `Pwle.ComposeIsSafe` | aidl/vibrator/Vibrator.cpp:785-907 | no hardware call at all unless every check passes; the vibration starts exactly on success; what is written plays what was asked |
| `Pwle.VerdictIs` | aidl/vibrator/Vibrator.cpp:785-893 | when each status is returned |
| `Pwle.CallsInOrder` | aidl/vibrator/Vibrator.cpp:889-902 | the five hardware calls of a success, in order, with their constants |
| `Pwle.ActiveSegments` | aidl/vibrator/Vibrator.cpp:809-858 | the active case accepts exactly the valid primitives, with every map lookup in range |
| `Pwle.Vibrator.Build` | aidl/vibrator/Vibrator.cpp:799-880 | the loop accepts exactly the valid compositions and yields the compiled program and the wrapped total |
| `Pwle.Vibrator.ComposePwle` | aidl/vibrator/Vibrator.cpp:785-907 | status and hardware calls, in order, of every outcome |

## Left out

- gpt-utils: switching the boot LUN, SCSI node lookup, symlinks and `recovery-ufs-bsg.cpp`; the switch is a parameter that may fail before any write.
- gpt-utils: `prepare_boot_update`, `add_lun_to_update_list` and path handling, which are device discovery.
- gpt-utils: failing ioctl, open, allocation and read calls; a call that stops on one of them has the effect of a cut.
- gpt-utils: write caching and the order in which a device makes writes durable; a write that returned is on the disk.
- gpt-utils: 32- and 64-bit overflow of offsets, excluded by the layout that every well-formed disk has.
- gpt-utils: the cached checksum fields of a loaded handle, which nothing reads back; header bytes and arrays are modelled.
- GptDevice.BlockDevice.BlkRead: reads are full length; the source also returns 0 for a short read and goes on with the rest of its buffer unset.
- GptDevice.BlockDevice.BlkWrite: a write that succeeds is full length; the source also returns 0 for a short write, and `ShortWriteLosesBoth` shows what that costs.
- GptDevice.BlockDevice.GptSetState: needs the header size inside the block, as it is wherever `prepare_partitions` reaches it on a disk that is sane once its checksums pass.
- GptSafety.CrashSafety: a run ends at a torn header block that passes the reader's checksum, by its own bytes or, when its size field exceeds the block, by the memory behind the buffer; the disk at that point is covered, calls after it are not. What that memory does to a given block is the same for every call of a run.
- GptRecovery.Recovery: needs both header blocks intact; `TornHeaderStopsUpdate` covers the rest.
- InteractionHandler: `Init` after `Exit`, closing of descriptors, and the polling calls of `WaitForIdle` as code; their possible results are steps of the state machine, and so is the endless loop of `Routine`.
- ADPF: `HintManager`, `AdpfConfig`, Looper queues, `sched_setattr`, tracing; the profile is fixed and the clock is read once per step.
- ADPF: the estimate of the next early boost is a parameter; integer overflow and the rounding of doubles are not modelled, gains are reals, and what a processor makes of a double divided by zero is a parameter.
- ADPF: looking up a thread without sessions leaves an empty set in the source's map; here it stays absent and reads as empty.
- Vibrator: the printed text, whose one-digit levels and rounded frequencies lose precision; its length is a parameter.
- Pwle.CompileIsFaithful: a segment of negative duration, which only braking can have, is taken to last no time.
- Vibrator: the asynchronous wait for completion, effects, calibration, ALSA and the bandwidth map.
- `liblight`, `lights`, `configs`, `rootdir`, `Power.cpp` and `PowerExt.cpp`: wrappers and configuration that would add only easy members.
