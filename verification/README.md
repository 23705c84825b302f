# Verification of the Ksnap snapshot engine

This Dafny project models how Ksnap takes a stopped process apart into one
snapshot file and puts it together again inside a fresh child, and proves that
what comes back is what was taken. It also covers the two components that read
the same data independently: the Check mode of the engine, the header decoder of
the web panel, and the panel's console feed.

The model has four layers.

- **Bytes.** `Bytes`, `DumpFormat`, `PathPool` and `Layout` describe the file:
  little-endian structs at their member offsets, the tables, the shared path
  pool, and the layout of the whole. `Reader` is the validating reader on
  arbitrary bytes; `RoundTrip` connects the two sides.
- **The dump.** `Target` is the stopped process and the file being written, as
  system calls see them. `Maps`, `Fds`, `SharedFiles`, `Collector` and `Dumper`
  are the dump itself, `Checker` and `Agreement` the independent count of what
  it would write.
- **The restore.** `AddressSpace` and `Child` are the traced child: cells with a
  value and a protection, named mappings, registers, descriptors and open files.
  `Injection` runs one system call at the child's instruction pointer;
  `KernelMaps`, `Areas` and `Descriptors` rebuild memory and descriptors through
  it; `Restorer` is the whole run.
- **End to end.** `Migration` composes dump and restore.

System calls are methods that may fail, chosen by `:= *`, so each contract holds
over every schedule of failures; closing a descriptor is the one call taken to do
its work whatever it returns. Loops and updates in place are methods with
invariants; what they compute is named by functions the lemmas are about. What
the engine sees succeed on the child is logged (`reported`), and so is how it
parts with it (`partings`), so that the order of a run can be stated. That some
call did not work is kept in ghost state (`denied` on the target, `failed` on the
child for the calls whose result is looked at, `brokeOff` and `answerLost` for a
walk over the descriptors), so that a refusal can be traced to a cause and no
failure passes for a success. Classes, flags and header tests are stated a
second time in plain strings and numbers (`Maps.ClassifiedExactly`,
`Reader.ForbiddenExactly` and their likes).

## What the kernel is taken to guarantee

- The mapping list of a process is in address order, page-aligned and without
  overlaps, and what is copied of it lies below the user address limit
  (`ImageOk`, `LinesOk`). Lines that are not copied may lie above it, as
  `[vsyscall]` does (`Layout.VsyscallFits`).
- Descriptors of one open file report one path, one position and one set of file
  flags (`FdsConsistent`, `OffsetsShared`), and creation flags are gone from an
  open file that its name still reaches (`FlagsStripped`). Positions are signed
  64-bit numbers (`OffsetsSigned`, asked for only where a restore has to succeed).
- A path read back from a descriptor link fits its buffer and has no NUL, and no
  file has the empty path (`ViewOk`).
- The entry point of the fresh program is executable, its eight bytes are clear
  of every kernel mapping that moves and of where it goes, its two instruction
  bytes lie in one area or in none, and the kernel mappings of the dumped process
  have distinct names (`BootFits`).
- An injected call that reports failure may have done any part of its work on
  memory, and so may a short write through the memory file. Setting registers,
  writing a word and the calls on descriptors do nothing when they fail.

## Where the code falls short of its promises

- Putting the instruction back after an injected call is not checked
  (`Ksnap-engine/src/restorer.c:601-602`), so a restore that reports success may
  have left the two opcode bytes at the entry point of the fresh program. No
  result is given up for it: descriptors, protections and kernel mappings come
  back all the same, and so does every byte elsewhere. The bytes themselves come
  back too if no instruction was lost; where the opcode was left standing, they
  are the dumped ones exactly if the entry point lies in no dumped mapping or the
  dumped process had the opcode there (`Migration.LossDoesNoHarm`,
  `Migration.LossIsFeltExactly`).
  `Injection.LostInstruction` and `Injection.LostInMap` say for one call exactly
  when a lost instruction makes a difference.
- How a single step ended is not looked at
  (`Ksnap-engine/src/restorer.c:593-596`). A signal from outside that stops the
  child before the instruction runs leaves the number of the call as its result,
  which reads as success. The child records the numbers of such calls as `cut`.
  What such a step cannot touch is promised all the same: registers, extended
  state, every byte of the memory, the descriptors with their files, offsets and
  sharing. Flags are promised if no `fcntl` was cut off, protections if no `mmap`
  and no `mprotect` was, kernel mappings if no `mremap` was (`Restorer.Restore`,
  `Migration.DumpThenRestore`); `Injection.InjectMprotect` and its likes say for
  one call that it did its work exactly if its step was not cut off.
- If the child ends during an injected call, the wait for that call reaps it, and
  the engine then sends the kill to a process that is gone
  (`Ksnap-engine/src/restorer.c:593-596`, `Ksnap-engine/src/restorer.c:198`). That
  is the one case in which an ended child is signalled (`Restorer.Restore`).
- Asking to be traced is not checked (`Ksnap-engine/src/restorer.c:884`). A
  program started without it runs to its end with the files of the snapshot open
  before the engine reports an error (`Restorer.SpawnTracedChild`).
- The result of letting the child go is not looked at
  (`Ksnap-engine/src/restorer.c:186-188`): OK says that the release was tried,
  and the child is released exactly when it worked (`Restorer.Restore`).
- Check looks neither at the length of kernel mapping names, which the dump
  refuses at 32 and above, nor at the room the paths of the mappings take, which
  the dump refuses at 4 GiB. `Agreement.CheckDecidesUpToRoom` is the exact
  condition; `Agreement.CheckMissesLongNames` and
  `Agreement.CheckMissesLongPaths` are listings where the two part.
- Neither walk over the descriptors notices an error while it reads the directory
  (`Ksnap-engine/src/dumper.c:400`, `Ksnap-engine/src/checker.c:394`), nor a
  failing look at the path of a link (`Ksnap-engine/src/fds.c:58-61`). A dump can
  complete without such descriptors; what it saw is `seen`, and its results are
  about the process with those descriptors. When nothing of the kind happened
  (`SawAll`), that is the whole process. A check moreover takes a directory
  it cannot open for an empty one (`Ksnap-engine/src/checker.c:387-389`) and does
  not report answers it did not get. Its promise is kept exactly when both saw
  equally many to carry, which after a dump that saw everything means that the
  check missed none (`Agreement.CheckThenDump`).
- The payload bound of the reader is compared in wrapping arithmetic.
  `Reader.PayloadInsideExactly` is the exact condition. The other wrapping sums
  of the reader are harmless, because an offset large enough to wrap one is
  refused by the seek that follows; `Reader.ReadSnapshotMetadata` states the
  result in unbounded arithmetic.
- For distinct names, the branch for a kernel mapping that is already in place
  cannot be reached: the hull test before it refuses such a layout
  (`KernelMaps.HullsApart`).

## Reading the proofs

Automatic induction is switched off on every lemma, so each proof shows its own
induction. `hide` at the head of a body keeps definitions a proof does not need
out of its way. Read `Migration.DumpThenRestore` and `Restorer.Restore` first.

## Model

| member | source | states |
|---|---|---|
| `Migration.DumpThenRestore` | Ksnap-engine/src/dumper.c:70-185 | A dump and a restore of its file that both report success leave a child with the dumped registers, extended state and bytes, and with the descriptors the dump saw, which are all of them unless reading the directory broke off or an answer was lost; if the fresh program leaves room, also with flags, protections and kernel mappings, each as far as no signal cut off a step that was to set them; the two bytes at its entry point can differ only if an instruction was lost, they were dumped and they were not the opcode. Both succeed when no call fails, no answer is lost, a snapshot can hold the process, offsets are signed positions, and the fresh program leaves room and has the kernel mappings; neither does when a call it looks at fails |
| `Migration.RestoreSnapshot` | Ksnap-engine/src/restorer.c:63-223 | A restore of a complete snapshot of a process gives back everything it carries; with signed offsets and in a fresh program that leaves room and has the kernel mappings, it succeeds iff no call it looks at fails |
| `Migration.NothingWrong` | Ksnap-engine/src/restorer.c:728-804 | A snapshot of a process gives a restore no reason to refuse if offsets are signed positions and the fresh program leaves room and has every kernel mapping with its size, all above or all below where they go |
| `Migration.EndToEnd` | Ksnap-engine/src/restorer.c:499-722 | The same statement on values: whatever file is a complete snapshot of a process, a child rebuilt from it is that process in everything a snapshot carries |
| `Migration.BytesEndToEnd` | Ksnap-engine/src/restorer.c:499-537 | Every byte of every copied mapping equals the dumped byte, a lost instruction aside, whatever the fresh program looks like and whichever calls were cut off |
| `Migration.LayoutEndToEnd` | Ksnap-engine/src/restorer.c:620-697 | In a fresh program that leaves room, every copied mapping has its protection, and every kernel mapping is listed at its recorded address and size with the cells of the mapping of that name in the fresh program |
| `Migration.LossDoesNoHarm` | Ksnap-engine/src/restorer.c:601-604 | A lost instruction leaves every dumped byte as it was if the entry point lies in no dumped mapping or the dumped process had the opcode there |
| `Migration.LossIsFeltExactly` | Ksnap-engine/src/restorer.c:601-604 | The opcode left at the entry point of a child that has everything leaves all dumped bytes as they were iff that point lies in no dumped mapping or the dumped process had the opcode there |
| `Migration.FdsComeBack` | Ksnap-engine/src/restorer.c:809-867 | Above stdio exactly the carried numbers are open; each has its own close-on-exec bit and its file at the saved offset unless it is a path-only descriptor; two share an open file iff they did when every comparison worked, and only if they did when one failed |
| `Migration.FdsEndToEnd` | Ksnap-engine/src/restorer.c:701-722 | The descriptors alone: whatever became of the memory, numbers, files, offsets and sharing are those of the dumped process, and so are the flags if every call that sets one was made |
| `Migration.RootsAndFiles` | Ksnap-engine/src/dumper.c:473-502 | In a linked table two chains end at one entry only if the descriptors share an open file, and always if they do when the pass was not cut short |
| `Migration.FitsMeansRestorable` | Ksnap-engine/src/maps.c:58-75 | The listing of a process makes its areas page-aligned, disjoint and clear of its kernel mappings, so only conditions on the fresh program and distinct kernel mapping names remain |
| `RoundTrip.WrittenIsAccepted` | Ksnap-engine/src/restorer.c:225-371 | Every file a dump completes passes every check of the reader, which returns the header, mapping table, extended state, descriptor table and pool that were written |
| `RoundTrip.RegionsHeld` | Ksnap-engine/src/dumper.c:572-627 | Each region of the file is found at the offset the header records for it |
| `RoundTrip.PayloadIsMemory` | Ksnap-engine/src/dumper.c:593-647 | The bytes at a mapping's data offset are that mapping's memory at dump time |
| `RoundTrip.PayloadsContiguous` | Ksnap-engine/include/dump_format.h:8-24 | The regions follow one another without gaps, payloads in table order, and from the data offset to the end of the file there is nothing but memory |
| `DumpFormat.HeaderCellStarts` | Ksnap-engine/include/dump_format.h:47-74 | The members of the header struct start where the compiler puts them and the struct is 4592 bytes |
| `DumpFormat.HeaderRoundTrip` | Ksnap-engine/include/dump_format.h:47-74 | Reading the written header at its member offsets gives the same header |
| `DumpFormat.VmaRoundTrip` | Ksnap-engine/include/dump_format.h:76-89 | The same for a mapping table entry of 48 bytes |
| `DumpFormat.FdRoundTrip` | Ksnap-engine/include/dump_format.h:92-104 | The same for a descriptor table entry of 32 bytes, with its signed numbers |
| `PathPool.Pool.Append` | Ksnap-engine/src/dumper.c:504-538 | Appending returns the old size as offset, keeps everything stored and adds the path and its terminator; it is refused exactly when the size would pass 32 bits, or when a bigger pool was needed and memory was short; its doubling neither overflows nor runs forever, and past the first page never reserves twice what is needed |
| `PathPool.PoolOfAppend` | Ksnap-engine/src/dumper.c:533-537 | One append turns the pool of a history of paths into the pool of the longer history and leaves every earlier offset as it was |
| `PathPool.EveryOffsetStillHolds` | Ksnap-engine/src/dumper.c:504-538 | Over any history of appends every offset handed out still denotes its string, and strings are disjoint |
| `Maps.DumpedExactly` | Ksnap-engine/src/maps.c:42-75 | A mapping is copied iff it is readable, private and not a pseudo mapping other than heap and stack; no kernel mapping is |
| `Maps.ClassifiedExactly` | Ksnap-engine/src/maps.c:42-75 | Each of the five classes iff what the privileges and the name say: kernel for `[vdso]` and names that begin with `[vvar`, then unreadable, shared, other bracketed names, and copied |
| `Maps.MapFlagsExactly` | Ksnap-engine/src/maps.c:90-92 | The sharing flag of a mapping is 2 for a private one and 1 otherwise |
| `Maps.ProtectionExactly` | Ksnap-engine/src/maps.c:77-88 | Each protection bit is set iff its letter stands in the privileges field |
| `Layout.VsyscallFits` | Ksnap-engine/src/maps.c:42-56 | A listing stays one the results are about when the vsyscall line stands at its end, far above the user address limit |
| `Fds.CarriedExactly` | Ksnap-engine/src/fds.c:23-64 | A descriptor travels iff it is a regular file above stdio whose link names no socket, pipe or anonymous inode, still names the same device and inode and does not end in " (deleted)"; it stops a dump iff its link or the file behind it cannot be read |
| `Fds.CountedExactly` | Ksnap-engine/src/fds.c:23-51 | A descriptor is counted as stdio iff its number is at most 2, as volatile iff its link names a socket, a pipe or an anonymous inode, and passed over as another kind iff the file behind a named link is not regular |
| `Fds.LossUnnoticed` | Ksnap-engine/src/fds.c:23-64 | Whatever answers the kernel loses, a descriptor the engine does not give up on is classified as if at most the look at its path had failed |
| `Fds.GlimpseCounts` | Ksnap-engine/src/checker.c:394-411 | A walk that ends early and loses answers counts at most what there is to carry, and all of it iff it missed none |
| `Maps.FindNamedMap` | Ksnap-engine/src/maps.c:94-123 | Returns the first line with the name, and fails exactly when there is none |
| `Collector.CollectVmas` | Ksnap-engine/src/dumper.c:248-374 | On success no call failed and the whole list was read, and the table records every copied mapping in order, with its path in the pool, and every kernel mapping; unless a call failed, success comes exactly on listings a snapshot can hold; every refusal has its cause in the listing or in a call that failed |
| `Collector.SortByNumber` | Ksnap-engine/src/dumper.c:453-455 | The table becomes strictly ascending and stays a permutation |
| `Collector.CollectFds` | Ksnap-engine/src/dumper.c:382-468 | The walk goes on to the end of the directory or to where reading it broke off; on success the table is ascending, carries exactly the regular files that can travel among the descriptors the walk saw, is linked, and none of those was unreadable; with no error of the reading and no answer lost it saw all; it fails only for a failed call, a lost answer, an unreadable descriptor or offset, or paths that outgrow the pool |
| `SharedFiles.LinkEntry` | Ksnap-engine/src/dumper.c:475-501 | One round of the outer loop sets the entry's link to the least descriptor of its open file, or leaves the table alone when a comparison fails, which can only be one with an entry of the same path |
| `SharedFiles.FindSharedFiles` | Ksnap-engine/src/dumper.c:473-502 | Every entry compared is linked to the least descriptor of its open file, which itself has no link; after a failed comparison the finished prefix is exact and the rest has no links |
| `SharedFiles.SameRepresentativeIffShared` | Ksnap-engine/src/dumper.c:470-502 | With every comparison made, two entries name the same representative iff they share an open file |
| `Dumper.BuildHeader` | Ksnap-engine/src/dumper.c:572-591 | The 64-bit sums of the header never wrap: they equal the offsets of the layout in unbounded arithmetic |
| `Dumper.LayOut` | Ksnap-engine/src/dumper.c:593-598 | Payload offsets are the running sums of the sizes before them; nothing else in the table changes |
| `Dumper.WriteVmaPayload` | Ksnap-engine/src/dumper.c:673-715 | Under any short reads and interruptions, success appends exactly the mapped bytes of the area in order, at most a page at a time; it terminates, and it fails exactly for a failed call or memory that is not there |
| `Dumper.WriteBody` | Ksnap-engine/src/dumper.c:600-647 | Success makes the stream the whole file; once the tables are written, the position read back is the promised one or the reading itself failed; it fails only for a failed call or memory that is not there |
| `Dumper.FinishStream` | Ksnap-engine/src/dumper.c:649-670 | Complete only when the flush, the sync and the close all succeeded, and then the disk holds the stream |
| `Dumper.WriteSnapshot` | Ksnap-engine/src/dumper.c:540-671 | Complete means the disk holds the file of the parts with laid-out payloads; otherwise it says how far it got |
| `Dumper.ReadXstate` | Ksnap-engine/src/dumper.c:196-224 | Accepts an extended state iff it is strictly inside the size bounds, failing calls aside |
| `Dumper.ReadExePath` | Ksnap-engine/src/dumper.c:226-246 | Accepts an executable path iff it is not empty, failing calls aside |
| `Dumper.LetGo` | Ksnap-engine/src/dumper.c:160-184 | Kills only with the option and a complete snapshot, detaches otherwise or when the kill fails; OK iff complete and the requested ending worked |
| `Dumper.Dump` | Ksnap-engine/src/dumper.c:70-185 | The events of a run are those of its description, the ending is allowed, OK is returned iff the snapshot is complete and the ending worked, and a complete snapshot of the process, with the descriptors the walk saw, is on the disk; those are all unless reading the directory broke off or an answer was lost. A complete snapshot is of a process a snapshot can hold; such a process is dumped completely whenever no call fails and no answer is lost, and OK says that no call failed |
| `Dumper.RunSafety` | Ksnap-engine/src/dumper.c:94-184 | In every run a kill is tried only right after flush, sync and close succeeded; a detach comes last; a run that seized the target ends in a successful kill or a detach |
| `Reader.FitsInFile` | Ksnap-engine/src/restorer.c:373-376 | The overflow-safe test equals the unbounded comparison |
| `Reader.BinarySearch` | Ksnap-engine/src/restorer.c:378-382 | Finds a number in an ascending prefix iff it is there |
| `Reader.CheckPath` | Ksnap-engine/src/restorer.c:470-484 | Accepts a path iff it is a non-empty NUL-terminated string of exactly its length inside the pool |
| `Reader.CheckFdTable` | Ksnap-engine/src/restorer.c:434-488 | Accepts a table iff it is strictly ascending above stdio, every link names an earlier entry, no flag would create or truncate, and every path is sound |
| `Reader.ForbiddenExactly` | Ksnap-engine/src/restorer.c:32-36 | The flags refused are those with any of the bits 0x40, 0x80, 0x200 and 0x400000 |
| `Reader.ReadFdTable` | Ksnap-engine/src/restorer.c:386-497 | Accepts arbitrary bytes iff both regions fit the file in unbounded arithmetic and the table is well formed |
| `Reader.CheckHeader` | Ksnap-engine/src/restorer.c:238-307 | The header tests with wrapping sums accept everything acceptable and, short of offsets the seek refuses, nothing else |
| `Reader.HeaderOkExactly` | Ksnap-engine/src/restorer.c:238-307 | An acceptable header has the magic KSNAPDMP, version 4, at least one mapping, at most 4 kernel mappings, a path length of 1 to 4095, an extended state of 576 to 65535 bytes, and its regions inside the file |
| `Reader.ReadSnapshotMetadata` | Ksnap-engine/src/restorer.c:225-371 | Accepts a file iff it is acceptable in unbounded arithmetic, the payload sums excepted, and returns what it holds |
| `Reader.HarmlessFlags` | Ksnap-engine/src/restorer.c:460-466 | In an accepted file the bits 0x40, 0x80, 0x200 and 0x400000 are clear in the flags of every entry |
| `Reader.HarmfulRefused` | Ksnap-engine/src/restorer.c:460-466 | A file with one entry whose flags have one of these bits is refused |
| `Reader.KnownProtections` | Ksnap-engine/src/restorer.c:325-332 | No accepted mapping asks for a protection beyond read, write and execute |
| `Reader.Root` | Ksnap-engine/src/restorer.c:446-454 | Every chain of links in an accepted table is well founded and ends at an entry without one |
| `Reader.AcceptedTable` | Ksnap-engine/src/restorer.c:434-488 | In an accepted table numbers are distinct and above stdio, links point strictly down, and the C string at a path offset has exactly the recorded length |
| `Reader.PayloadInsideExactly` | Ksnap-engine/src/restorer.c:334-343 | An accepted payload lies inside the file iff its end does not wrap 64 bits |
| `Reader.PayloadTestCanWrap` | Ksnap-engine/src/restorer.c:334-343 | A table entry the payload test accepts although its payload ends past the file |
| `Checker.ScanMaps` | Ksnap-engine/src/checker.c:297-377 | The counters are the class counts of the listing and the bytes of the copied mappings; each reason is given iff its cause is there; a listing that cannot be opened is the only reason then |
| `Checker.DevicesAre` | Ksnap-engine/src/checker.c:341-348 | A copied mapping counts as a device iff its path begins with `/dev/` |
| `Checker.ScanFds` | Ksnap-engine/src/checker.c:383-414 | The counters are the class counts of the descriptors it saw, on to the end of the directory or to where reading broke off; with neither an error of the reading nor a lost answer they are those of all descriptors; a directory it cannot open, an error and lost answers only make it see less |
| `Agreement.PromiseIsKept` | Ksnap-engine/src/checker.c:295-414 | The header of a complete snapshot carries the numbers of a check of the mappings, and the file past its data offset is exactly the promised number of bytes; the descriptor count agrees iff it is that of the carried ones |
| `Agreement.CheckThenDump` | Ksnap-engine/src/checker.c:383-414 | The promise of a check that read the whole listing is kept by a dump that completes exactly when both walks saw equally many descriptors to carry; if the dump saw all, exactly when the check missed none; neither misses any unless reading broke off or an answer was lost |
| `Agreement.NoReasonNoRefusal` | Ksnap-engine/src/dumper.c:291-309 | Without a mapping reason, and with names and paths that fit, a refusal of the dump means that one of its calls failed |
| `Agreement.CheckDecidesUpToRoom` | Ksnap-engine/src/checker.c:355-377 | A listing without a reason is one a snapshot can hold iff every kernel mapping name is shorter than 32 and the paths of the copied mappings take less than 4 GiB |
| `Agreement.CheckThenCollect` | Ksnap-engine/src/dumper.c:281-361 | A check and the collecting of one listing: without a reason collecting works, failing calls aside, exactly when names and paths fit; where it works, the check objects at most to shared and device mappings |
| `Agreement.StricterOnly` | Ksnap-engine/src/checker.c:355-377 | Where a snapshot can hold the listing, the only reasons of the check are shared and device mappings |
| `Agreement.CheckMissesLongNames` | Ksnap-engine/src/dumper.c:302-311 | A listing the check has nothing against although no dump of it can succeed |
| `Agreement.CheckMissesLongPaths` | Ksnap-engine/src/dumper.c:512-516 | A well-formed listing the check has nothing against although its paths outgrow the pool and no dump of it can succeed |
| `AddressSpace.PlantedBytes` | Ksnap-engine/src/restorer.c:575-577 | The masked word is the two opcode bytes followed by the other six bytes of the code |
| `AddressSpace.MapFrame` | Ksnap-engine/src/restorer.c:620-640 | Planting, mapping and putting back leaves memory outside the mapped range untouched, also when the site lies inside or straddles it; when putting back fails, untouched but for the two opcode bytes |
| `AddressSpace.ProtectFrame` | Ksnap-engine/src/restorer.c:642-656 | Planting, protecting and putting back changes nothing but the protection of the range; when putting back fails, the two opcode bytes besides |
| `AddressSpace.MoveFrame` | Ksnap-engine/src/restorer.c:789-792 | With the site clear of both ranges, planting, moving and putting back is the move alone; when putting back fails, the move and the opcode at the site |
| `Injection.InjectSyscall` | Ksnap-engine/src/restorer.c:540-613 | On success every register is back and memory is what the call left, with the eight code bytes restored unless the unchecked write failed; the call was made unless the site may not be executed or a signal cut the step off, and then nothing happened and its number comes back; if the child ended, the call fails; it fails exactly when a call of the engine failed or the child ended |
| `Injection.CallNumbers` | Ksnap-engine/src/restorer.c:540-722 | The numbers and arguments of the four injected calls, the range of results that are errors, and the opcode, as the kernel has them |
| `Injection.InjectMmap` | Ksnap-engine/src/restorer.c:620-640 | A reported success maps exactly the range afresh with every right if the call was made, and changes nothing if it was not, except that a lost instruction stays; it was made unless the site may not be executed or a signal cut it off |
| `Injection.InjectMprotect` | Ksnap-engine/src/restorer.c:642-656 | A reported success changes exactly the protection of the range if the call was made, and nothing if it was not, except that a lost instruction stays |
| `Injection.InjectMremap` | Ksnap-engine/src/restorer.c:789-801 | A reported success of an equal-sized move is exactly that move if the call was made, and nothing if it was not, except that a lost instruction stays |
| `Injection.InjectSetCloexec` | Ksnap-engine/src/restorer.c:701-722 | A reported success sets the close-on-exec bit of exactly that descriptor if the call was made, and none if it was not, whether or not the code went back |
| `Injection.BlindInjection` | Ksnap-engine/src/restorer.c:658-663 | The number of a call is no failure code, and planting and putting back leaves memory as it was, which is why a call that was never made looks like one that worked |
| `Injection.LostInstruction` | Ksnap-engine/src/restorer.c:601-604 | For a call that leaves the code at the site alone, not putting it back makes a difference iff the opcode did not stand there before |
| `Injection.LostInMap` | Ksnap-engine/src/restorer.c:601-604 | For a mapping call, not putting the code back makes no difference iff each of the eight bytes equals what the call left there: zero inside the mapped range, the opcode or the byte itself outside |
| `Injection.LostInProtect` | Ksnap-engine/src/restorer.c:601-604 | The exact condition for a protecting call |
| `Injection.LostInMove` | Ksnap-engine/src/restorer.c:601-604 | The exact condition for a moving call clear of the site |
| `KernelMaps.FindChildMap` | Ksnap-engine/src/maps.c:94-123 | The mapping found is the lowest of that name in the child, whatever listing the kernel gives; it fails only if the listing could not be read or has no mapping of that name |
| `KernelMaps.SurveyKernelMaps` | Ksnap-engine/src/restorer.c:737-765 | On success every wanted mapping was looked up, has the wanted size and is the lowest of its name, and the four bounds are the least starts and the greatest ends of where the mappings are and where they go, in the wrapping sums of the code; it fails only for a failed call, a missing mapping or another size |
| `KernelMaps.GuardPassed` | Ksnap-engine/src/restorer.c:767-775 | Whatever is wanted, past the hull test everything found lies above every wanted place or everything lies below |
| `KernelMaps.GuardFailed` | Ksnap-engine/src/restorer.c:767-775 | The hull test refuses only if some mapping found starts below some wanted end and some wanted place starts below some end found |
| `KernelMaps.RoomNoMeeting` | Ksnap-engine/src/restorer.c:767-775 | If all mappings to move lie above all wanted places or all below, no survey of them has meeting hulls |
| `KernelMaps.HullsApart` | Ksnap-engine/src/restorer.c:767-775 | Past the hull test every source is clear of every destination, and none is already in place |
| `KernelMaps.SecondLookup` | Ksnap-engine/src/restorer.c:777-787 | The second lookup finds what the first found, and the branch for a mapping already in place is never taken |
| `KernelMaps.OneMoved` | Ksnap-engine/src/restorer.c:777-801 | A move puts its mapping in place and covers none that moved before or is still to move |
| `KernelMaps.MoveKernelMaps` | Ksnap-engine/src/restorer.c:777-801 | Every lookup finds the mapping surveyed; if no move was cut off all mappings end at their wanted places with their contents; memory elsewhere and mappings not yet moved are untouched in any case; from a proper start only a failed call makes it fail |
| `KernelMaps.RestoreKernelMaps` | Ksnap-engine/src/restorer.c:728-804 | OK means, whatever was wanted, that every mapping was looked up, measured and looked up again, that the hull test passed and that every move reported success; from a proper start the injection site stays executable, and if no move was cut off every named mapping is at its wanted address with its contents. It refuses only for a failed call, a missing mapping, another size or hulls that meet; with no failed call, the mappings there, sizes equal and hulls apart, a proper start ends in OK |
| `Areas.RestoreVma` | Ksnap-engine/src/restorer.c:499-537 | Success means that the whole payload was inside the file and written, in chunks of 4096 bytes, and that the area holds it; if the mapping call was made the area is fresh with every right, and nothing outside it changed but for a lost instruction; it fails only for a failed call or a payload that cannot be read |
| `Areas.CopyPayload` | Ksnap-engine/src/restorer.c:513-534 | The loop writes every byte of the payload at its place and changes nothing else |
| `Areas.ChunksAreThePayload` | Ksnap-engine/src/restorer.c:513-534 | The chunks written follow one another from the start of the area, and together they are the payload |
| `Areas.RestoreAreas` | Ksnap-engine/src/restorer.c:152-162 | Success means that every payload was written and every area holds its own, whichever mapping calls were made; cells and mappings outside are kept; every area has every right if all of them were made; if no call fails, it succeeds iff every payload can be read |
| `Areas.FindSite` | Ksnap-engine/src/restorer.c:674-680 | Finds the area that holds the site, if one does |
| `Areas.SiteStillExecutable` | Ksnap-engine/src/restorer.c:658-663 | At every protecting call, including the last, the site is still executable |
| `Areas.RestoreProtections` | Ksnap-engine/src/restorer.c:664-697 | If no call was cut off every area ends at its recorded protection, also those skipped for already having every right; in any case protections elsewhere and all bytes are unchanged but for a lost instruction; it fails exactly for a failed call |
| `Descriptors.NextIsFree` | Ksnap-engine/src/restorer.c:809-867 | The next wanted number is above everything placed so far, so it is free and its link is in place |
| `Descriptors.PlaceFd` | Ksnap-engine/src/restorer.c:818-864 | One round of the loop adds exactly the wanted number, with a file of its own or its link's file, and gives the temporary number back; it fails only for a failed call or an offset that is no file position, and flags that are not forbidden leave every file as it was |
| `Descriptors.ReopenedFlags` | Ksnap-engine/src/restorer.c:835-844 | A file is reopened with its flags less the bit 0x80000, every higher and lower bit kept; path-only is the bit 0x200000 |
| `Descriptors.OpenSnapshotFds` | Ksnap-engine/src/restorer.c:809-867 | For any accepted table the open numbers are the inherited stdio and the table's, each with its file, none clobbered; it fails only for a failed call or an offset that is no file position, and in any case no file was created or emptied |
| `Descriptors.SharedIffSameRoot` | Ksnap-engine/src/restorer.c:822-833 | Two restored descriptors share an open file iff their chains of links end at one entry |
| `Descriptors.RestoreFdFlags` | Ksnap-engine/src/restorer.c:699-722 | If no call was cut off each descriptor gets its own close-on-exec bit back, also inside a group of duplicates; none gets a bit that is not its own, and a call cut off costs no other descriptor anything; memory is unchanged but for a lost instruction |
| `Restorer.SpawnTracedChild` | Ksnap-engine/src/restorer.c:869-889 | A child that stops has the table in place, minus nothing but inherited descriptors that close on exec; a program that was started untraced ran with that table and is only seen to have ended; only a failed call or an offset that is no file position keeps the child from stopping, and no file was created or emptied |
| `Restorer.DescriptorsBack` | Ksnap-engine/src/restorer.c:699-722 | Placing, starting the program and giving flags back together restore the table |
| `Restorer.RebuildMemory` | Ksnap-engine/src/restorer.c:141-172 | Success means exactly these steps in this order: the survey, the lookups and moves, each area with all its bytes, the protections with that of the site last; the bytes are then as recorded, and protections and kernel mappings as far as their calls were made; it fails only for a failed call, kernel mappings that cannot be moved or a payload that cannot be read |
| `Restorer.MapsBack` | Ksnap-engine/src/restorer.c:141-172 | The kernel mappings stay where they were brought, cell for cell, while areas are mapped and protected around them |
| `Restorer.BytesBack` | Ksnap-engine/src/restorer.c:664-697 | Protecting leaves the payloads in place, whichever calls were made |
| `Restorer.RebuildChild` | Ksnap-engine/src/restorer.c:137-184 | Success means the complete path ran, whatever the snapshot says, and registers and extended state are those of the snapshot; failure leaves a child that is stopped, or one whose end a wait reported |
| `Restorer.PartWith` | Ksnap-engine/src/restorer.c:184-213 | A rebuilt child is let go; any other is killed unless the first wait reported its end, and the kill goes astray iff a later wait did |
| `Restorer.RunChild` | Ksnap-engine/src/restorer.c:96-223 | From the fork on: what a whole restore promises, for any checked snapshot |
| `Restorer.Restore` | Ksnap-engine/src/restorer.c:63-223 | Detach is tried iff OK is returned iff the complete path ran, and the child is released iff the detach worked; otherwise a stopped or running child is sent the kill, and an ended one is iff its end was reported by the wait of an injected call. OK gives descriptors and bytes back, and flags, protections and kernel mappings as far as their calls were made. An error has a failed call, a file that is not acceptable, kernel mappings that cannot be moved, an unreadable payload or an offset that is no file position as its cause; with none of these it is OK, and with a failed call it is not. No file is created or emptied either way |
| `PanelHeader.UnpackAt` | Ksnap-web/Ksnap-backend/src/snapshot.py:92 | Item k of an unpacked format is what stands at the sum of the widths before it |
| `PanelHeader.DecodersAgree` | Ksnap-web/Ksnap-backend/src/snapshot.py:27-34 | On any 4592 bytes the panel's item-by-item decoding and the struct's member offsets find the same fields |
| `PanelHeader.ReadHeader` | Ksnap-web/Ksnap-backend/src/snapshot.py:83-137 | Refuses short files, other magic and other versions in this order, and otherwise shows what the engine's decoder finds, with counts and lengths clamped |
| `PanelHeader.WrittenIsShown` | Ksnap-web/Ksnap-backend/src/snapshot.py:83-137 | For every header the engine writes, the panel shows the version, counts, executable path, kernel mappings, rip, rsp and sizes that were written |
| `Logbook.Logbook.Append` | Ksnap-web/Ksnap-backend/src/logbook.py:23-36 | Adds every line of a message, or one empty line, under consecutive numbers with its level and source; what is retained is the last entries that fit of the old ones followed by all the new; the next number has grown by the number of lines; returns the last entry |
| `Logbook.AddedAllRecords` | Ksnap-web/Ksnap-backend/src/logbook.py:18-35 | Adding lines one by one records all of them in order and drops only what no longer fits at the front |
| `Logbook.MessageIsLines` | Ksnap-web/Ksnap-backend/src/logbook.py:25-35 | A message of several lines is one step of a run for each of its lines |
| `Logbook.Logbook.Since` | Ksnap-web/Ksnap-backend/src/logbook.py:38-43 | Returns the retained entries above the cursor in order, and the last number issued |
| `Logbook.Logbook.Clear` | Ksnap-web/Ksnap-backend/src/logbook.py:45-47 | Empties the feed and keeps the numbering |
| `Logbook.EveryRunIsSound` | Ksnap-web/Ksnap-backend/src/logbook.py:17-47 | Over every interleaving of lines, polls and wipes the retained entries are consecutive and end at the last number issued; a reader feeding its cursor back sees nothing twice or out of order, and misses exactly what was evicted or wiped unseen |
| `Logbook.ClosePollsSeeAll` | Ksnap-web/Ksnap-backend/src/logbook.py:17-47 | With no wipe and at most capacity lines between two polls the second poll returns exactly those lines |

## Left out

- Address-space equality: mappings of the fresh child outside the snapshot are not removed by the code, so only the dumped mappings are compared.
- Extended state contents: copied as opaque bytes; the refusal of a foreign CPU is one of the failures of setting it.
- Line parsing: listings start from parsed or unparsable lines, and offsets and flags of a descriptor from parsed numbers.
- Directory entries that are not numbers: both walks skip them before they do anything else.
- Status, command line, executable and ptrace probing of Check, and its JSON output: linear input and output beside the two counts.
- First wait of the restore: `waitpid` on the own child is taken to succeed, and a stop before the exec by an outside signal is not told apart from the stop at the exec.
- Kernel mapping names without a terminating NUL in a crafted header: a name ends at its 32 bytes here, where the C comparison would read on.
- Mappings without a name: the child's mapping list shows only named ones, which is what a lookup of a recorded name can find.
- Allocation failures of the reader: left out so that acceptance is a property of the bytes alone; those of the dump are failures like any other.
- Growth of the two tables by doubling: only its failure is kept; the doubling of the path pool is modelled.
- The exec of the recorded path: what the kernel sets up for a program is a parameter, `Boot`.
- UTF-8 decoding, file dates and sizes shown by the panel: library calls on the fields found here.
- Time stamps of console entries, and the lock: each line is one step, which is what the lock makes it.
- Web routes, process sessions, snapshot name validation, directory listing, argument parsing and the frontend: independent one-branch checks or thin wrappers.
- Multi-threaded targets, shared mappings, sockets and pipes: the engine does not carry them.
