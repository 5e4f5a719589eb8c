# Arthur, modelled and verified in Dafny

Arthur captures a live process into a compressed archive (an "acore") and later rebuilds an ELF core
from it. This project models the parts of it that hold state and proves what they are for:

- **Block stream.** `Lz4Writer` and `Lz4Reader` follow `Lz4Stream`: two block slots over a stdio file,
  typed blocks, raw fields, continuation flags, checksums, the tail mark, sticky errors and terminal
  states. `WriterState` and `BlockStream` say what a sequence of calls means and what bytes it makes;
  `Lz4Codec` has the decode ring and the block codec; `Crc32` the checksum.
- **Archive and core.** `LiveTarget` is what a stopped process gives to a capture, and which processes a
  capture accepts. `Archive` has the metadata layouts of versions 1 to 6, `ProcFiles` the /proc
  files, `Maps`, `Notes` and `ElfLayout` the text and ELF parts, `CoreRebuild` the whole of `decompress`
  as a function on byte strings, `NoteViews` the notes as a debugger groups them, and `Accepting` what every
  accepted archive guarantees. `Capture`, `Dump` and `CoreReader` are the writing and reading code as
  it is written, proved against those functions.
- **Monitor.** `MonitorRuns` has what draining, detaching and releasing traced threads come to while the
  target exits, clones, executes or dies between any two requests; `MonitorProofs` has what every such run
  keeps, `MonitorAnswers` which signal it passes on, takes for the crash or stops at, and `Monitoring` is the
  code, which computes those runs. `CrashDrops` is one run.
  `Collecting` is one-shot thread collection; `Tids` is shared.
- **Commit.** `Commit` is the replacement protocol for the output path as a state machine interleaved with
  other writers of that path; `Publishing` is the code, every execution of which is a run of that
  machine; `CaptureCommit` joins it with the dump.
- **Remote call.** `PtCall` saves and restores the stack word, the red zone and the extended state around
  an injected call.

The long theorems about archives assume a lawful codec and a snapshot within the reader's limits;
`Witness` shows that such a codec and capture exist, and with them an accepted archive and a live process
that a dump accepts.

Values are plain: bytes are numbers below 256, files and memory are sequences and maps. A method that can
fail for outside reasons (a short write, a failing request, another process acting) picks the outcome
nondeterministically, or takes it from a script of which nothing is assumed, so every theorem holds for all of
them.

## Results worth knowing

- **A dump converts back.** A capture whose writes all succeeded decompresses to a core holding, at the
  offset each LOAD header gives, exactly the bytes `pread` delivered, and zero where it failed
  (`Dumping.Dump`, `CaptureCommit.CaptureTo`). `decompress` refuses a core of 65535 headers or more; a
  capture cannot reach that, because its maps text fits a 1 MB buffer (`Maps.MapsFitHeaders`), so the
  guard only concerns archives from elsewhere (`RoundTrip.ArchiveRoundTrip`). The headers and notes are read back
  from the bytes of the core, and the metadata from the bytes of the archive, as the live process
  (`Dumping.CoreHolds`, `Dumping.ArchiveShows`).
- **Thread collection and exec.** The claim that a complete confirming listing means that every thread is
  stopped fails when a worker that is not attached yet executes a new image: `Collecting.ExecEscapes` is
  a whole run that returns 0 while the target runs on, untraced, under the stopped leader's TID. The claim
  holds if and only if no image executed during the collection is alive under that TID, and always when a
  worker stood in for an exited leader (`Collecting.CollectStops`).
- **Two competitors.** The exchange branch of the commit keeps every file of other writers while there is at
  most one disturbance between the preflight `lstat` and the return. With two, the second file can be
  destroyed (`Commit.TwoCompetitors`); rolling back destroys a file exactly when the path held one at
  that moment (`Commit.RollbackLosesExactly`).
- **A dropped crash signal.** When the drain fails after it has recorded a crash, the monitor detaches instead
  of killing. The crash delivery was consumed by the drain, so the detach relays nothing for it: the crashing
  thread is released without its signal if and only if it is not killed before its own detach
  (`MonitorProofs.DetachExact`), and `CrashDrops.CrashDropped` is a whole run in which a target that should
  have died runs on. Without a recorded crash a detach conserves every signal
  (`MonitorProofs.DetachConserves`), and `kill_crashed` always passes the crash signal on
  (`MonitorProofs.KillExact`).

## Model

| member | source | states |
|---|---|---|
| `Lz4Codec.DecodeMore` | include/lz4/lz4.h:381-396 | a block that decodes against its dictionary decodes to the same bytes behind any longer history |
| `Lz4Codec.RingDecoder.PutCopy` | src/lz4.cc:103-113 | a copy inside the ring, with up to 14 junk bytes written past its end, yields the bytes of the unbounded history and destroys none of the window still in reach |
| `Lz4Codec.RingDecoder.Decompress` | src/lz4.cc:744-756 | at any ring position with room for a block, decoding succeeds exactly when it does on the full history, with the same bytes |
| `Lz4Codec.RingDecoder.Rewind` | src/lz4.cc:752-756 | starting over at the front keeps the 64 KB window valid |
| `Lz4Codec.RingDecoder.Next` | src/lz4.cc:744-756 | for every run of blocks, ring decoding equals decoding against the whole output |
| `Crc32.TableStep` | src/lz4.cc:580-598 | one table look-up does what eight steps of the bitwise division do |
| `Crc32.MakeTable` | src/lz4.cc:580-593 | each table entry is its index divided eight times |
| `Crc32.Update` | src/lz4.cc:580-598 | the table-driven loop computes the bitwise reflected 0xEDB88320 remainder (section 8 of RFC 1952) |
| `Crc32.CrcConcat` | src/lz4.cc:600-604 | the checksum of a concatenation is the checksum continued over the second part |
| `Crc32.CrcInjective` | src/lz4.cc:580-604 | over fixed data, different register values stay different and below 2^32 |
| `Crc32.BurstDetected` | src/lz4.cc:600-604 | any damage within four consecutive bytes, so any single byte, changes the checksum of a block of the same length |
| `Crc32.Residue` | src/lz4.cc:600-604 | a message followed by its stored checksum leaves one and the same register, whatever the message |
| `BlockStream.UnpackPack` | src/lz4.h:79-102 | the 1+4+19 bit packing loses nothing for headers that fit |
| `BlockStream.PackUnpack` | src/lz4.h:79-102 | every three bytes are the packing of exactly one header |
| `BlockStream.HeaderFits` | src/lz4.cc:607-628 | no compressed size is cut to 19 bits and no data header equals the tail mark |
| `BlockStream.ReadWritten` | src/lz4.cc:662-770 | reading a written block gives its header, its payload and the cursor right behind it, for any history that ends with its dictionary |
| `BlockStream.ReadBlockLocal` | src/lz4.cc:662-770 | a block that was read is read the same way with more bytes behind it |
| `BlockStream.ReadBlockMeaning` | src/lz4.cc:662-770 | a block is returned if and only if the bytes in front of the reader are one: its header, as many compressed bytes as it announces, decoding to its payload, and in a checked file four bytes equal to the bitwise CRC-32 of header and payload |
| `BlockStream.ReadBlockEnds` | src/lz4.cc:684-713 | a clean end is reported exactly at the end of the file, and a tail mark exactly at its three bytes |
| `BlockStream.ChecksumDamageDetected` | src/lz4.cc:757-766 | a written block whose stored checksum is replaced by any other value is corrupt |
| `BlockStream.DamageDetected` | src/lz4.cc:757-766 | so is one whose header or decoded bytes differ from what was written within four consecutive bytes |
| `WriterState.StepMeaning` | src/lz4.cc:301-329 | each call adds exactly its bytes, in order, under the type it was made for |
| `WriterState.ParseInverts` | src/lz4.cc:662-770 | parsing the bytes of any sequence of blocks and raw fields returns that sequence |
| `WriterState.TypedRoundTrip` | src/lz4.cc:377-578 | for every sequence of SetBlock, Write, WriteBlock, WriteRaw and Flush, the flushed file parses to the raw fields and payload bytes in write order, each byte under the type current when it was written |
| `Lz4Writer.Block.Write` | src/lz4.h:105-190 | all or nothing: appends when the bytes fit, and leaves the buffer alone otherwise |
| `Lz4Writer.Writer.Compress` | src/lz4.cc:607-658 | one block reaches the file with header, payload and checksum, the slots change roles, and the other slot holds its source bytes as the dictionary; after a short write the error stays |
| `Lz4Writer.Writer.Flush` | src/lz4.cc:377-406 | succeeds exactly on an open stream without an earlier short write, and seals what is buffered |
| `Lz4Writer.Writer.SetBlock` | src/lz4.cc:408-429 | buffered bytes keep the old type; later ones get the new |
| `Lz4Writer.Writer.EnableBlockChecksums` | src/lz4.cc:431-449 | turns checksums on or off, only before the first compressed or buffered byte, so all blocks of a file agree |
| `Lz4Writer.Writer.Write` | src/lz4.cc:451-519 | refines the abstract append; after a short write every non-empty write fails |
| `Lz4Writer.Writer.WriteBlock` | src/lz4.cc:521-578 | blocks of their own, all but the first marked as continuation; fails for ever after a short write |
| `Lz4Writer.Writer.WriteRaw` | src/lz4.cc:301-329 | a raw field behind what was buffered before it; a short write is reported and remembered |
| `Lz4Writer.Writer.PutFile` | src/lz4.cc:774-835 | prefix and FILE blocks of one file; an oversize file changes neither the buffered block nor the file |
| `Lz4Writer.Writer.Sync` | src/lz4.cc:205-219 | never succeeds once a write was short |
| `Lz4Writer.Writer.Close` | src/lz4.cc:221-252 | never reports success for an open stream once a write was short; the last block is flushed |
| `ProcFiles.PutFileItems` | src/lz4.cc:774-835 | the items of a file: its size prefix, one first block and continuation blocks |
| `ProcFiles.GetFileInverts` | src/lz4.cc:839-957 | every file up to the cap comes back, however it was cut into non-empty FILE blocks |
| `ProcFiles.GetPutFile` | src/lz4.cc:839-957 | in particular what PutFile wrote |
| `ProcFiles.GetFileSound` | src/lz4.cc:839-957 | conversely a returned file is the exact concatenation of one first block and continuation blocks, announced by a prefix equal to header plus size |
| `Lz4Reader.Reader.Peek` | src/lz4.cc:272-299 | shows the next bytes and consumes nothing |
| `Lz4Reader.Reader.ReadBlock` | src/lz4.cc:662-770 | the ring-backed reader returns what the stream denotes, so with a checksum it returns nothing that does not match it; after a tail mark or a failure every call fails and nothing moves |
| `Lz4Reader.Reader.VerifyPhysicalEof` | src/lz4.cc:347-374 | true exactly when a tail mark was read and no byte follows it |
| `Lz4Reader.Reader.GetFile` | src/lz4.cc:839-957 | agrees with the value-level GetFile on every input, errors included |
| `ArchiveProofs.ProcessRoundTrip` | src/core.cc:2358-2547 | the process record of each version decodes to the fields it was made from |
| `ArchiveProofs.ThreadRoundTrip` | src/core.cc:2621-2727 | the thread record of each version and machine decodes to its registers, siginfo and masks |
| `ArchiveProofs.FilesRoundTrip` | src/core.cc:3384-3390 | the /proc files come back in order |
| `ArchiveProofs.ThreadsRoundTrip` | src/core.cc:3436-3579 | all threads come back in order, through the reader's duplicate-TID, size and crash-signal checks |
| `ArchiveProofs.MetaRoundTrip` | src/core.cc:3296-3579 | ReadMeta recovers every field, file and thread for each of the layouts 1 to 6 and stops exactly where the metadata ends |
| `ArchiveProofs.ReadMetaLocal` | src/core.cc:3296-3579 | metadata that was accepted is read the same way with more bytes behind it |
| `Maps.ReadLine` | src/proc.cc:172-191 | the line up to the next newline, and the start of the next non-empty one |
| `Maps.Parse` | src/proc.cc:193-280 | the loop computes the accepted mapping list |
| `Maps.RegionsOrdered` | src/proc.cc:193-280 | accepted mappings are non-empty, in address order and disjoint |
| `Maps.MapsExact` | src/proc.cc:193-280 | a text is accepted with exactly given mappings if and only if its lines, without NUL, convert to them one by one and each starts at or behind the end of the one before, up to 1048576 of them |
| `Maps.MapsSound` | src/proc.cc:193-280 | a positive count means the whole file was consumed: each byte is in a line that became a mapping, or a newline between lines, and no line holds a NUL |
| `Maps.RegionsTakeRoom` | src/proc.cc:193-280 | each mapping below the last buffer of the address space, but for the few that start low, takes a line of at least 20 characters of the text |
| `Maps.MapsFitHeaders` | src/core.cc:2501-2515 | a maps text that fits the capture buffer names fewer than 65534 mappings |
| `Maps.NamesClean` | src/proc.cc:193-280 | no accepted name contains a NUL |
| `Notes.WalkNotes` | src/core.cc:1952-1992 | a walker after chapter 5 of the System V gABI with 4-byte alignment recovers exactly the generated notes and ends where they end |
| `Notes.FillFile` | src/core.cc:2092-2166 | the two passes over the mappings produce the NT_FILE payload, or refuse it |
| `Notes.FilePayloadInverts` | src/core.cc:2092-2166 | decoding NT_FILE gives the page size and, per file mapping in order, its addresses, its offset in pages and its name |
| `Notes.FileAccepted` | src/core.cc:2092-2166 | NT_FILE can be made if and only if the page size is a power of two and every mapping of a named inode has an aligned offset; it lists exactly those mappings |
| `NoteViews.NotesReadable` | src/core.cc:4039-4140 | walked as bytes, the notes are process information, auxiliary vector and mapped files, and then per thread in order its status, its FP state exactly when valid, and the siginfo of the first |
| `ElfLayout.PhdrRoundTrip` | src/core.cc:3762-3809 | a program header decodes from its bytes |
| `ElfLayout.EhdrRoundTrip` | src/core.cc:3762-3809 | the ELF header decodes from its bytes |
| `ElfLayout.ExpectedLoads` | src/core.cc:3581-3609 | the loop computes the derived LOAD headers, or refuses on overflow |
| `ElfLayout.LoadsFacts` | src/core.cc:3581-3609 | derived headers are contiguous, mirror their mappings, and their sizes add up to the total |
| `ElfLayout.CheckLayout` | src/core.cc:6965-7034 | the check loop computes the acceptance predicate |
| `ElfLayout.LayoutExact` | src/core.cc:6965-7034 | on derived headers the overflow, bounds, contiguity and sum checks accept if and only if the bytes written equal the derived total |
| `ElfLayout.CoreFileLayout` | src/core.cc:3811-3856 | decoded from the file: the ELF header, and each program header with the offset at which its bytes lie in this file, for LOAD behind headers and notes; headers, notes and LOAD bytes are disjoint, in order and cover the file |
| `CoreProofs.RecordsWhole` | src/lz4.cc:478-496 | any run of writes below the block size leaves each record wholly inside one block |
| `CoreProofs.ReadLoadsWritten` | src/core.cc:3975-4037 | ReadLoads returns the archived bytes and stops at the first block of another type |
| `RoundTrip.ReadElfWritten` | src/core.cc:3869-3969 | ReadElfHeader recovers the exact header list over as many blocks as the writer needed |
| `CoreProofs.PrefixFree` | src/core.cc:6880-7145 | no accepted archive is a proper prefix of another accepted one |
| `CoreProofs.TruncationRejected` | src/core.cc:6880-7145 | every proper truncation of an accepted archive is rejected |
| `RoundTrip.ArchiveRoundTrip` | src/core.cc:6880-7145 | a complete archive of any version decompresses to the captured core if and only if one header more stays below 65535 |
| `RoundTrip.CoreReadable` | src/core.cc:3811-3856 | the ELF header in the core has the machine and the number of headers, and header 0 cuts out exactly the notes |
| `RoundTrip.MemoryContent` | src/core.cc:3811-3856 | the program header decoded at place i + 1 of the core has the address, size and permissions of mapping i and cuts out the bytes archived for it; mappings without permissions take none |
| `Accepting.AcceptedSound` | src/core.cc:6880-7145 | whatever decompress accepts has a known version, distinct threads each with a stat of its own, the files of its version, a consistent crash signal, and a core whose headers are its mappings with exactly the archived bytes |
| `CoreReader.Metadata` | src/core.cc:3296-3579 | the reading code agrees with ReadMeta's meaning on every input |
| `CoreReader.Loads` | src/core.cc:3975-4037 | the same for ReadLoads |
| `CoreReader.ElfHeader` | src/core.cc:3869-3969 | the same for ReadElfHeader |
| `CoreReader.DecompressFile` | src/core.cc:6880-7145 | the imperative decompress, through ring and sticky states, computes the specification on every byte string |
| `Capturing.ReadBuffer` | src/core.cc:3660-3688 | a buffer filled by partial reads shows what was delivered, with zeros from a failing read on; end of file is reported |
| `Capturing.WriteRegion` | src/core.cc:3645-3726 | a mapping's bytes are archived completely, in order, through 1 MB buffers and 64 KB blocks |
| `Capturing.WriteLoads` | src/core.cc:3611-3758 | all mappings with permissions are archived in address order under the derived headers; it fails only on an unusable layout, unreadable or ended memory, or a failing write |
| `Capturing.ImageAt` | src/core.cc:3581-3758 | inside the LOAD stream, the bytes at a mapping's offset are that mapping's |
| `LiveTarget.ReadPath` | src/proc.cc:31-101 | reads a /proc file completely, or up to the buffer's capacity and says that more follows, also when it fits exactly |
| `LiveTarget.SnapshotWellFormed` | src/core.cc:2358-2547 | a process that the capture accepts makes a snapshot within the reader's limits |
| `LiveTarget.SnapshotShows` | src/core.cc:2358-2727 | the metadata to be read back is the live process: identity, credentials, time, zone, uname, complete file contents, and per thread registers, siginfo, pending and blocked masks, FP validity and stat |
| `LiveTarget.UsableParses` | src/core.cc:2440-2547 | what the capture validated is what `ParseAll` will accept, with the same mappings |
| `LiveTarget.RegionsFit` | src/core.cc:2501-2515 | an accepted process has fewer mappings than a core can have headers for |
| `Dumping.WriteFileHeader` | src/core.cc:2341-2356 | magic, version and machine, with checksums on for every block after it |
| `Dumping.PutLiveFile` | src/core.cc:2453-2496 | a file reaches the stream only complete and structurally valid, and is refused otherwise |
| `Dumping.WriteProcessMeta` | src/core.cc:2358-2547 | appends exactly the process record and the seven files of a process it can use, with the mappings; otherwise the process is unusable or a write has failed |
| `Dumping.WriteThreadMeta` | src/core.cc:2621-2727 | appends the record and stat of a thread it can use, which decode to that thread: its own registers, masks and stat, zeroes where optional state cannot be read; otherwise the thread is unusable or a write has failed |
| `Dumping.WriteElfHeader` | src/core.cc:3762-3809 | appends the header list in whole records; refuses 65535 and more without touching the stream |
| `Dumping.WriteTailMark` | src/core.cc:3858-3867 | appends the tail mark behind everything buffered |
| `Dumping.MemoryEndToEnd` | src/core.cc:3975-4037 | an archive of memory images converts to a core whose own bytes, decoded, give the machine, the notes of process and threads, and for every mapping a header that cuts out the delivered bytes |
| `Dumping.ArchiveIsLive` | src/core.cc:2358-2727 | the archive of a dump, decoded from its bytes, shows the live process and every thread |
| `Dumping.Dump` | src/core.cc:6786-6861 | the file of a dump shows the live process and converts to that core, for every process it accepts; it fails only on an unusable process, memory that cannot be mapped or read, or a write |
| `Commit.StepInv` | src/core.cc:302-386 | the protocol invariant survives every step of ours and of any other writer |
| `Commit.NeverDestroys` | src/core.cc:302-386 | in every interleaving within the limit no step of ours takes the last name of another writer's file, and the file they last put there still has one |
| `Commit.UntouchedUntilPlaced` | src/core.cc:219-274 | every failure before the rename leaves the path as the other writers made it; success implies our file was placed |
| `Commit.SucceedsUndisturbed` | src/core.cc:302-386 | when every call works and nobody else acts, at most eight calls return success with our file at the path and no temporary name, over an empty path or a regular file, and by the hard link where the no-replace rename is unsupported |
| `Commit.FailureHasCause` | src/core.cc:302-386 | every run that returns failure contains a failed call or an action of another writer, or met a path that is not a regular file |
| `Commit.PlacedAtFinal` | src/core.cc:320-372 | a successful run has a step of ours after which the path names our inode |
| `Commit.ReplacesOnlyInitial` | src/core.cc:322-350 | an exchange is accepted only when it displaced the regular file found at the start |
| `Commit.RollbackLosesExactly` | src/core.cc:326-343 | rolling back and removing the temporary name destroys another writer's file if and only if the path held one before the exchange back |
| `Commit.TwoCompetitors` | src/core.cc:326-343 | a run with two competing replacements in which a file is destroyed |
| `Publishing.Output.CreateAtomicOutput` | src/core.cc:219-274 | the code is the run that the script of calls and other writers decides; a path that is not a regular file is refused and nothing is left behind |
| `Publishing.Output.CommitAtomicPath` | src/core.cc:302-386 | the code is the run that the script decides, returns its result, inherits what holds of all runs, and succeeds when nothing interferes |
| `Publishing.Output.CommitAtomicLz4` | src/core.cc:405-416 | our file reaches the path only with the whole stream in it and exact byte counts, never after a short write, and always when nothing fails or interferes |
| `CaptureCommit.CaptureTo` | src/core.cc:6776-6877 | from temporary file to commit: whatever reaches the path under our inode shows the live process and converts to a core with the delivered memory, and no other writer's file is destroyed; it does reach the path when nothing fails or interferes |
| `MonitorProofs.DrainCloneKeeps` | src/core.cc:6410-6457 | through every failure and death in a clone event each reported tracee, the new child among them, is recorded, no delivery is dropped or invented, and success leaves parent and child running, or in their stops for a recorded crash |
| `MonitorProofs.DrainDeliveryKeeps` | src/core.cc:6496-6534 | a delivery is injected into its own thread with its own signal, lost with its thread, or held as a crash; whatever the disposition, none is dropped or invented |
| `MonitorProofs.DrainKeeps` | src/core.cc:6328-6569 | at every exit every reported tracee is recorded, nothing was dropped or invented, and nothing is held without a recorded crash, which stays recorded; a quiet end leaves no thread standing in a consumed stop |
| `MonitorProofs.SignalsConserved` | src/core.cc:6328-6569 | from the start, without a default-fatal signal, the deliveries consumed are exactly the injections and those whose thread was killed while held |
| `MonitorAnswers.FatalStopRecorded` | src/core.cc:6502-6514 | a core-dumping delivery whose disposition is the default is recorded as the crash with its thread and signal, is not injected, and its thread stays held unless it is killed |
| `MonitorAnswers.CrashDecided` | src/core.cc:6328-6569 | from the start: each core-dumping delivery is asked about once and injected no more often than it is cleared; the first answered default is the recorded crash, which a settled drain reports, and without one it is quiet; after it no thread is continued but to pass on such a signal; no thread is continued out of a group stop; the monitor knows of job control and of a leader that has exited |
| `MonitorAnswers.DrainEnds` | src/core.cc:6328-6569 | a drain fails only when a request has failed, and settles only when every recorded thread was polled without news since the last news |
| `MonitorAnswers.DrainGone` | src/core.cc:6371-6399 | the process is reported gone only when its leader is no tracee any more |
| `MonitorProofs.DetachExact` | src/core.cc:6175-6324 | from any state, a crash recorded or not: what the detach consumes itself it injects unless the thread is killed; a delivery held before, the recorded crash among them, is never injected and is dropped if and only if its thread is not killed before its detach; 0 leaves no reported tracee attached but a zombie leader |
| `MonitorProofs.DetachConserves` | src/core.cc:6175-6324 | without a recorded crash nothing is dropped or invented |
| `MonitorAnswers.DetachEnds` | src/core.cc:6175-6324 | a detach reports failure only when a request failed or a wait was cut short, and takes each recorded thread and each child found on the way once |
| `CrashDrops.CrashDropped` | src/core.cc:6572-6582 | a drain fails with a crash recorded, the detach returns 0, and the crash signal was neither injected nor lost with its thread |
| `MonitorProofs.KillExact` | src/core.cc:6747-6774 | each thread held in the crash signal is released with it exactly once more than before, or was killed first; any other held delivery gives way; no tracee is left but an exited leader |
| `MonitorProofs.CrashReleased` | src/core.cc:6328-6774 | from the start to the kill: each delivery of the crash signal to the crashing thread, earlier handled ones and the fatal one, was injected or lost with the thread |
| `Monitoring.Monitor.Drain` | src/core.cc:6328-6569 | the code computes the run of the drain theorems, for every behaviour of the target and the kernel |
| `Monitoring.Monitor.DetachAll` | src/core.cc:6175-6324 | the same for the detach theorems, with the recovery of a stop when a wait fails |
| `Monitoring.Monitor.KillCrashed` | src/core.cc:6747-6774 | the same for the release after a crash |
| `Collecting.FrozenForGood` | src/core.cc:3121-3125 | once no thread runs, no step of the target brings one back or starts a stopped one |
| `Collecting.AttachRunKeeps` | src/core.cc:3132-3160 | attaching what a listing shows leaves each listed thread stopped, a zombie or gone, and listed once, whatever the target does between two attaches |
| `Collecting.Collector.Collect` | src/core.cc:3110-3186 | the code computes the run that the theorems below speak of, for every behaviour of the target and the kernel |
| `Collecting.CollectStops` | src/core.cc:3110-3186 | returning 0 without omissions lists every live thread exactly once; all are stopped if and only if no image executed during the collection is alive under the leader's TID, and always when a worker stood in for an exited leader |
| `Collecting.CollectStopsForGood` | src/core.cc:3121-3125 | and they stay stopped and listed under every later target step |
| `Collecting.CollectConverges` | src/core.cc:3110-3186 | when every call works, a target that clones fewer than 64 times during the collection is collected, whatever the timing; an incomplete confirmation only costs a round |
| `Collecting.ExecEscapes` | src/core.cc:3110-3186 | a whole run that returns 0, nothing omitted, while the only thread runs on under the stopped leader's TID |
| `PtCall.InjectRspAligned` | src/core.cc:1491-1500 | the injected stack pointer is 8 modulo 16 (section 3.2.2 of the System V AMD64 psABI) and its word lies inside the saved red zone |
| `PtCall.RestoreRedZone` | src/core.cc:1432-1443 | all 16 words are written back, nothing outside the red zone changes, and success means they are all there |
| `PtCall.Call` | src/core.cc:1370-1750 | for any callee, every exit whose restore calls succeed leaves the red zone and the extended state as at entry, and no exit leaves a change of ours elsewhere; done means it was entered once, aligned, and ran to its page fault with no signal of the target swallowed, and anything else has its cause |

## Left out

- LZ4 match finding and its byte format: a codec is two functions with the library's documented contract (`Lz4Codec.Codec.Lawful`); blocks are lists of literals and copies.
- Text conversion (`sscanf`, `strtol`, stat, auxv, cmdline, prstatus and prpsinfo fields) is a set of given functions on bytes; line splitting, ordering and NUL handling are modelled. Assumed of a maps line that parses: numbers of their C types, a name that is part of the line, and at least the characters that its fields take.
- Read errors of the input file, timeouts, interrupted calls and directory contents other than the output path and its temporary name.
- The reader's two block slots and cursor are one payload value; nothing reads a block twice.
- Dumping.WriteProcessMeta: a /proc file does not change while it is read, and the fields of the record are written from one list.
- Dumping.Dump: starts from a collected thread list in the order it is archived, assumes that no mapping ends within 1 MB of 2^64, that the notes can be made, and the reader's limits on the number of threads and their metadata.
- Capturing.WriteLoads: shares that assumption about the end of the address space.
- MonitorProofs.DrainKeeps: goes over the recorded threads a given number of rounds, because the source loops as long as events arrive.
- MonitorProofs.DetachExact: handles a given number of threads, for the same reason; ptrace requests on live tracees succeed. A stop that `waitid` shows without consuming it counts as consumed there.
- MonitorProofs.KillExact: does not model the fallback `kill` after a failing detach, for the same reason, nor the one-shot thread list that stands in when no TID is recorded.
- TIDs are never reused while the target is monitored or collected.
- The main monitor loop around drain and detach, and event-zero deliveries consumed by thread collection and snapshots.
- Collecting.Collector.Collect: takes the confirming listing as a snapshot, TIDs as never reused, and says nothing about threads omitted in uninterruptible sleep.
- The monitored half of thread collection, `forkcore` and `forkcore_m` with their injection sequences, mode 2, smaps inspection and symbol resolution: error ladders tied to kernel behaviour.
- Commit.NeverDestroys: other writers create fresh inodes at the path and do not touch the temporary name; a failed `lstat` of the temporary name counts as a disturbance.
- PtCall.Call: x86-64 only; general registers are the caller's to restore, and no other thread writes the red zone while this one is stopped. The loop takes a given number of turns before its deadline.
- aarch64 SVE state, the command line, logging, statistics, `test_compress`, `test_decompress` and allocation clean-up.
