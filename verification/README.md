# Model of VitaConnect's file, hash, FTP, SFO and refresh logic

A Dafny model of the parts of the application in which one step's mistake would show only after
many others. The device's calls become a small environment: one mutable tree of directories and
files (`Storage.Disk`), whose calls may fail at any time for reasons of their own, byte streams cut
into arbitrary chunks, a mutex, and a user who may cancel.

- `FileTree`, `PathText`, `Storage`, `Params`, `Bytes`: trees, paths as C strings, the file-system calls,
  progress and cancellation, packed structures.
- `MovePath`, `CopyPath`, `RemovePath`, `PathInfo`: the four recursions of `src/file.c`.
- `MoveRuns`, `CopyRuns`: the runs of `movePath` and `copyPath`, disturbed, cancelled or not, as relations
  between trees; `NestedPaths`, `NestedMove`, `NestedCopy`: what they do to a directory that is moved or copied
  into its own ancestor; `MoveLaw`, `CopyLaw`: exactly when their laws hold of every run.
- `Fips180`, `ShaConstants`, `ShaBits`: SHA-1 and SHA-256 in one shot, as FIPS 180-4 defines them, and what
  their constants and their functions of words are.
- `ShaMessages`, `Sha256Rows`, `Sha256Examples`, `Sha1Rows`, `Sha1Examples`: the definition computed on two
  published examples, one of them with a padding of two blocks.
- `ShaBuffer`, `Sha256`, `Sha1`, `FileSha1`, `Pbp`: the streaming forms and what is built on them.
- `ClientList`, `FtpServer`, `LinkedServer`: the linked list of clients, all threads that share it as a state
  machine, and the machine's runs taken on the links.
- `CurPath`, `Devices`, `Transfer`: the rest of the FTP server's state.
- `Sfo`, `SfoPack`, `Utf`: the packed key/value format, the buffers that its header file lays out, and the
  UTF-8 loop.
- `Licences`, `Dlc`, `LicenceRestore`: the licence walk and the two-phase refresh of `src/refresh.c`, and how
  the second finds what the first has stored.

Every failure of a device call is counted in the ghost field `faults`; "undisturbed" below means that
it did not grow. Contracts that say "at every exit" hold whether or not it did.

Some properties one might expect are false of the code. The model keeps the code as it is and states
exactly when they hold:

- The guard of `movePath` and `copyPath` rejects a destination below the source and lets one above it
  pass (`NestedPaths.GuardLetsAncestorPass`). The law of `movePath` holds of every run on every tree if and
  only if the paths are not nested or the merge flag is off (`MoveLaw.LawHoldsExactly`); `copyPath` keeps its
  source in every run on every tree if and only if they are not nested (`CopyLaw.KeepsSourceExactly`). For
  nested paths that are merged there are trees on which a file is lost, or not, by the order of the
  listing (`NestedMove.NestedMergeLoses`), and trees on which a copy overwrites a file of its own source
  (`NestedCopy.NestedCopyOverwritesSource`). On a given tree the contracts need only that no directory is
  merged, or copied, into one above it (`MovePath.Separate`, `CopyPath.Separate`).
- `movePath` removes the destination file before its second rename; if the device then refuses that
  rename, the old destination is gone and the source stays (`MovePath.Lost`). Some run loses a node of the
  destination like this if and only if a file of the source is to replace it (`MoveLaw.LosesExactly`).
- The guard against copying into a subfolder is stable under recursion only for paths without a
  trailing slash (`PathText.GuardUnderDescent`, `PathText.TrailingSlashSlipsThrough`).
- The shutdown walk holds the mutex while it waits, so a client that is about to delete itself blocks
  it forever (`FtpServer.WalkCanEnd`, `FtpServer.WalkCanBlock`).
- The shutdown walk reads a client's record again after it has aborted the client's control socket, and
  by then the client may have freed it: exactly when its free comes between the two
  (`FtpServer.StaleExactly`, `FtpServer.WalkCanReadFreed`).
- A directory that is restored because its promotion failed need not be whole: its `work.bin` has been
  removed or written before (`Dlc.RestoredWhole`, `Dlc.HomebrewIsNotWhole`).
- A download cannot be resumed at or past 2^31, whatever number REST leaves (`Transfer.ResumedDownload`,
  `Transfer.DownloadsExactly`): the field has 32 bits, and the seek takes it for a signed number.
- A restore point outlives its command: REST, or an APPE whose file cannot be opened, makes a later STOR of
  any file append (`Transfer.RestorePoint`, `Transfer.RestStaysPending`, `Transfer.StorAfterRun`).
- CWD and CDUP are inverse only from a path without a slash at its end (`CurPath.DownsAndUps`), and a client
  can reach one that has it (`CurPath.SlashAtEndStays`).
- `CWD a` and `x:/y` is not `a/x:/y` (`CurPath.EnterOrName`).
- A device added twice survives one removal (`Devices.AddRefines`, `Devices.DuplicateStays`).
- `utf8_to_utf16` takes a lead byte of four for one of three (`Utf.DecodesBmp`).
- The 32-bit total of `hash_pbp` can wrap around on a file of 4 GiB (`Pbp.HashPbp`).

Some predicates are stated over every value equal to a given one (such as `Licences.Walked`, `CopyPath.Copying`
and `CopyRuns.EntriesRan`); this keeps the verifier from unfolding them where no proof step needs it, and means the same.

## Model

| member | source | states |
|---|---|---|
| MovePath.MovePath | src/file.c:502-591 | IDENTICAL and SUBFOLDER exactly for a destination that is, up to case, the source or below it. Past the guard, at every exit, unless a directory is merged into one above it (Separate): each relative path is either kept on both sides, or moved with its source gone, or (only if the device failed, and only for a file being replaced) gone from the destination with the source file still there; nothing outside the two subtrees changes. An undisturbed run of this kind ends exactly in the predicted outcome, or in INVALID_TYPE exactly when a file meets a directory. Nested or not, disturbed or not, every run is one of the relation MoveRun. |
| MovePath.Integrate | src/file.c:550-587 | The merge loop, over any listing order: for paths of which neither is above the other, the entries done have their outcome and the others are untouched; nested or not, its runs are those of MergeRun, and it terminates by the height of the source subtree. |
| MovePath.MoveOverrides | src/file.c:502-591 | With both flags and no clash, a completed move (as MovePath promises under Separate) leaves the destination overridden by the source, and no source. |
| MovePath.MoveFills | src/file.c:550-587 | With MOVE_INTEGRATE alone and no clash a completed move only fills up the destination, and leaves behind exactly the files that have a counterpart there, with the directories on the way to them. |
| MovePath.MoveKeeps | src/file.c:514-548 | Without MOVE_INTEGRATE a completed move onto an existing destination changes nothing, but for one file that replaces another under MOVE_REPLACE. |
| MovePath.NothingIsLost | src/file.c:538-545 | At every exit under Separate, where MovePath promises Conserved: every source node is still on one side; without MOVE_REPLACE no destination node changes; without a device failure a destination node changes only into the source's. |
| MovePath.OneOutcome | src/file.c:551-587 | Two completed moves of the same tree, of the kind Separate, agree, whatever order their directories were listed in. |
| NestedPaths.GuardLetsAncestorPass | src/file.c:502-512 | The identical/subfolder guard passes for every destination that is a proper ancestor of the source. |
| NestedMove.NestedMergeBreaksLaw | src/file.c:546-588 | For every destination, every directory below it and any flags with MOVE_INTEGRATE, some tree has an undisturbed successful run after which the law of MovePath is broken: its hypothesis Separate cannot be dropped. |
| NestedMove.NestedMergeLoses | src/file.c:551-587 | With both flags, for every such pair of paths some tree has two undisturbed successful runs, by the order of the listing: one leaves a source file nowhere, the other leaves it at the destination. |
| MoveLaw.LawHoldsExactly | src/file.c:502-512 | Of the paths that the guard lets pass, every run on every tree, disturbed or not, obeys the law of MovePath if and only if the paths are not nested or MOVE_INTEGRATE is off. |
| MoveLaw.RunsAgree | src/file.c:551-587 | Under Separate all undisturbed runs on a tree, over every listing order, return the same code, INVALID_TYPE exactly at a clash, and without one they leave the same tree. |
| MoveLaw.LosesExactly | src/file.c:535-546 | Under Separate no undisturbed run leaves nothing at a place of the destination that held something; some disturbed run does, at a given relative path, if and only if a file of the source meets a file there, MOVE_REPLACE is on, and the path is the top or MOVE_INTEGRATE is on. |
| CopyPath.CopyPath | src/file.c:419-500 | IDENTICAL and SUBFOLDER exactly for a destination that is, up to case, the source or below it. Past the guard: everything outside the destination is unchanged, and unless a directory is copied into one above it (Separate) each destination path is untouched, copied, or a file given up, and the counter advances by at most the source's cost, at every exit; an undisturbed success of this kind has the override outcome and advances the counter by exactly that cost; an undisturbed failure means a clash. Nested or not, disturbed, cancelled or not, every run is one of the relation CopyRun. A run in which the user newly cancels, and only such a run, returns 0, and takes no step afterwards. |
| CopyPath.CopyFile | src/file.c:331-417 | Byte equality through any chunking of reads, and success only with the whole file; a failed or cancelled copy removes the partial file, unless the device refuses that, which leaves a prefix; every run is one of the relation FileRun; the counter advances by the bytes written; the two guard errors and cancellation as for copyPath. |
| CopyPath.CopyOverrides | src/file.c:419-500 | A completed copy under Separate without clashes leaves the destination tree equal to the old one overridden by the source, and the source as it was. |
| CopyPath.SourceKept | src/file.c:419-500 | Under Separate the source is as it was at every exit. |
| NestedCopy.NestedCopyOverwritesSource | src/file.c:459-491 | For every destination and every directory below it some tree has an undisturbed successful copy that overwrites a file of the source, whose content is then nowhere. |
| CopyLaw.KeepsSourceExactly | src/file.c:419-432 | Of the paths that the guard lets pass, the source is as it was after every run on every tree, disturbed, cancelled or not, if and only if they are not nested. |
| CopyLaw.AllButOne | src/file.c:385-417 | In every run between unnested paths, disturbed, cancelled or not, each destination path is as it was or as in the source, but at most one, that of the file given up; after a success all are. |
| CopyLaw.RunsAgree | src/file.c:459-491 | Under Separate all completed undisturbed copies of a tree leave the same tree, over every listing order. |
| CopyPath.StrangersKept | src/file.c:459-491 | At every exit under Separate a destination path that the source has no counterpart of is as it was. |
| CopyPath.CopyCostAgrees | src/file.c:385-390 | What a completed copy under Separate adds to the counter is size + 4096 * folders of what getPathInfo reports for the source. |
| RemovePath.RemovePath | src/file.c:245-329 | At every exit the counter advanced by the number of nodes removed, nothing outside the subtree changed, and Rmdir was never called on a directory with entries unless the device failed; success means that the whole subtree is gone; a run in which the user newly cancels, and only such a run, returns 0, and takes no step afterwards; one in which a removal fails, and only such a run, returns less, and tries no removal afterwards. |
| RemovePath.RemoveCostAgrees | src/file.c:274-309 | A completed removal advances the counter by folders + files of what getPathInfo reports. |
| PathInfo.GetPathInfo | src/file.c:180-243 | Undisturbed, adds to the three counters exactly the nodes that the handler lets through, each once. |
| PathInfo.CountersAgree | src/file.c:449-451 | For every set of nodes the copy cost is size + 4096 * folders, and the number of nodes is folders + files. |
| PathText.GuardRejects | src/file.c:503-512 | For all paths: the comparison finds exactly equal paths, and the second guard exactly a destination below the source, both up to case of letters, component by component. |
| PathText.SameLetter | src/file.c:504 | Two characters compare as the same exactly if they are equal or the capital and the small form of one of the 26 letters. |
| PathText.GuardUnderDescent | src/file.c:470-482 | Exactly when the joined child paths pass the identical/subfolder guard, given that their parents do, trailing slashes and case included. |
| PathText.GuardIsStable | src/file.c:564-571 | For paths without a trailing slash the guard that passed at the top passes at every recursive call. |
| PathText.TrailingSlashSlipsThrough | src/file.c:421-429 | With a trailing slash it need not: a top-level guard that passes and a recursive one that fails. |
| FileTree.RenamedIsTree | src/file.c:514 | A rename of a subtree leaves a well-formed tree. |
| Fips180.PadInjective | src/sha256.c:118-144 | Two messages below 2^61 bytes with the same padded blocks are equal. |
| Fips180.PadsOne | src/sha256.c:121-125 | The one-block branch of the final step writes the padding of section 5.1.1 of FIPS 180-4. |
| Fips180.PadsTwo | src/sha256.c:126-132 | The two-block branch does. |
| Fips180.Be64Number | src/sha256.c:136-143 | The eight length bytes are the number, most significant first. |
| ShaBits.ChBits | src/sha256.c:24 | Each bit of Ch is the second word's where the first has one, and the third's elsewhere. |
| ShaBits.MajBits | src/sha256.c:25 | Each bit of Maj is the one that two of the three words have. |
| ShaBits.BigSigma0Bits | src/sha256.c:26 | Bit i is the exclusive or of bits i + 2, i + 13 and i + 22, modulo 32. |
| ShaBits.BigSigma1Bits | src/sha256.c:27 | Bit i is the exclusive or of bits i + 6, i + 11 and i + 25. |
| ShaBits.SmallSigma0Bits | src/sha256.c:28 | Bit i is the exclusive or of bits i + 7 and i + 18 and, where there is one, i + 3. |
| ShaBits.SmallSigma1Bits | src/sha256.c:29 | Bit i is the exclusive or of bits i + 17 and i + 19 and, where there is one, i + 10. |
| ShaBits.RotationBits | src/sha1.c:18-30 | The rotations of SHA-1 move every bit by 1, 5 and 30 places to the left. |
| Sha256Examples.AbcDigest | src/sha256.c:44-158 | SHA-256 of "abc", as published: ba7816bf ... f20015ad. |
| Sha256Examples.LongDigest | src/sha256.c:126-132 | SHA-256 of the published message of 56 bytes, which takes the two-block branch: 248d6a61 ... 19db06c1. |
| Sha1Examples.AbcDigest | src/sha1.c:22-149 | SHA-1 of "abc", as published: a9993e36 ... 9cd0d89d. |
| Sha1Examples.LongDigest | src/sha1.c:108-149 | SHA-1 of the message of 56 bytes: 84983e44 ... e54670f1. |
| ShaConstants.H256FromSquareRoots | src/sha256.c:90-97 | The initial hash value is the fractional parts of the square roots of the first eight primes (section 5.3.3 of FIPS 180-4). |
| ShaConstants.K256FromCubeRoots_0 | src/sha256.c:30-41 | The first eight round constants are the fractional parts of the cube roots of the first eight primes; seven more lemmas cover the other fifty-six (section 4.2.2). |
| Sha256Stream.Context.Update | src/sha256.c:99-112 | For any split of the message into calls, the buffered bytes, the bit count and the state stay those of the message so far. |
| Sha256Stream.Context.Transform | src/sha256.c:44-84 | One block in place takes the chaining value of the blocks so far to that of one more, by section 6.2.2 of FIPS 180-4. |
| Sha256Stream.Context.Final | src/sha256.c:114-158 | Writes exactly SHA-256 of all bytes passed to Update, on both padding branches. |
| Sha256Stream.Schedule | src/sha256.c:48-51 | The two loops over m[64] compute the message schedule. |
| Sha256Stream.RoundsStep | src/sha256.c:62-73 | One pass of the round loop is one more round of the recursive definition. |
| Sha1Stream.Context.Update | src/sha1.c:93-106 | As for SHA-256. |
| Sha1Stream.Context.Rounds | src/sha1.c:38-69 | The four consecutive loops of twenty rounds compute the eighty rounds of the single indexed function f_t and K_t. |
| Sha1Stream.Context.Final | src/sha1.c:108-149 | Writes exactly SHA-1 of all bytes passed to Update. |
| Sha1Stream.SumIsOr | src/sha1.c:25-26 | Summing the four shifted bytes of a word is the same as joining them. |
| Sha1Stream.RoundsStep | src/sha1.c:38-69 | A pass of whichever loop is running is the round that the index selects. |
| FileSha1.GetFileSha1 | src/file.c:118-178 | However the file is cut into reads, an uncancelled run leaves SHA-1 of the file; any other leaves the output alone; the counter advances once for every chunk; it returns 0 exactly when newly cancelled, and reads nothing afterwards. |
| Pbp.HashPbp | src/pbp.c:170-208 | Hashes a prefix of the file: exactly the first hash_sz bytes or the whole shorter file, if and only if hash_sz is at most the last total of full reads below 2^32 or the file is shorter than 2^32 bytes. |
| Pbp.OneRead | src/pbp.c:191-203 | One pass of the do-while loop keeps the 32-bit total the number of bytes hashed, or ends with the prefix that hash_sz asks for. |
| Pbp.NoOverflow | src/pbp.c:181 | Without 32-bit overflow hash_sz is data_psar_ptr + 0x1C0000 and at least the first read. |
| Pbp.SizeOfHeader | src/pbp.h:85-97 | Of a header laid out field by field, hash_sz is the last field plus 0x1C0000, in 32 bits. |
| ClientList.List.Add | src/ftpvita.c:849-868 | The links are those of the sequence with the client in front, acyclic and without repetition; only the old head is written besides the client; its restore point is 0. |
| ClientList.List.Delete | src/ftpvita.c:870-888 | The links are those of the sequence without the client; only its two neighbours are written. |
| FtpServer.RunsAreSafe | src/ftpvita.c:849-1000 | In every interleaving of accepts, client exits and shutdown: no freed record is used but by the walk's reads after its abort of the control socket, no record is freed twice, the mutex is never used after its deletion, and until the reset the list holds exactly the clients added and not deleted by themselves, each once, with number_clients its length. |
| FtpServer.StaleExactly | src/ftpvita.c:904-916 | A run has such a late read of a freed record if and only if some client is freed between the abort of its control socket and a read of its record by the walk. |
| FtpServer.WalkCanReadFreed | src/ftpvita.c:973-997 | A run that has one: a client that returns from the aborted receive and frees its record at once. |
| FtpServer.SectionsAreAtomic | src/ftpvita.c:849-888 | While the server or a client holds the mutex, no record of the list can be freed, so that their critical sections may be single steps. |
| FtpServer.WalkVisitsAll | src/ftpvita.c:890-926 | When the shutdown walk is over it has visited every client left in the list, once each, and all of them have ended. |
| FtpServer.WalkTerminates | src/ftpvita.c:890-926 | If every listed client leaves by the abort path, the walk takes boundedly many steps forward under any interleaving, and until it is done one is always enabled. |
| FtpServer.WalkCanEnd | src/ftpvita.c:897-925 | From any state of the walk it can still end if and only if no listed client is about to delete itself. |
| FtpServer.StuckForever | src/ftpvita.c:920 | A listed client that wants to delete itself never gets the mutex that the walk holds. |
| FtpServer.WalkCanBlock | src/ftpvita.c:966-972 | A run that gets there: a client that closes its connection just before the shutdown. |
| FtpServer.StepKeepsInv | src/ftpvita.c:1004-1094 | Every step of the server, of a client and of the shutdown, the walk's abort and its later reads being separate steps, keeps the invariant. |
| FtpServer.DeleteIsSafe | src/ftpvita.c:870-888 | The neighbours that a leaving client writes to are still allocated. |
| LinkedServer.Replay | src/ftpvita.c:849-926 | Every run of the machine can be taken on the linked list: after it the links are those of the machine's sequence, number_clients is its count, and during the walk the pointer that the walk follows is to the client that the machine says comes next, or null. |
| LinkedServer.Links.Take | src/ftpvita.c:849-912 | One step of any thread on the links: an addition, a deletion, the walk's read of the head or of a next link, or the reset. |
| LinkedServer.Links.Add | src/ftpvita.c:849-868 | Only the records that the machine's step touches are written. |
| LinkedServer.Links.Delete | src/ftpvita.c:870-888 | Likewise. |
| LinkedServer.StepMeans | src/ftpvita.c:849-926 | In every state that keeps the invariant a step asks of the links only what they can do, and does to the sequence just what they do. |
| CurPath.Client.CWD | src/ftpvita.c:440-484 | The new current path and the reply, in all four cases; the path stays "/" or one with two slashes. |
| CurPath.Client.CDUP | src/ftpvita.c:509-513 | Goes up, strictly shortening every path but "/". |
| CurPath.StepKeepsGood | src/ftpvita.c:420-484 | Every CWD or CDUP, accepted or refused, keeps the invariant of the current path. |
| CurPath.TargetIsGood | src/ftpvita.c:467-479 | The path that CWD asks for is never "/", so the existence check is never skipped. |
| CurPath.DirUpKeepsGood | src/ftpvita.c:420-438 | dir_up keeps the invariant and strictly shortens every path but "/". |
| CurPath.DownAndUp | src/ftpvita.c:420-484 | One accepted CWD to a plain name and one CDUP return, if and only if the path had no slash at its end beyond its second. |
| CurPath.DownsAndUps | src/ftpvita.c:440-513 | Any n accepted CWDs to plain names and n CDUPs return, under the same condition. |
| CurPath.SlashAtEndStays | src/ftpvita.c:440-484 | From anywhere one CWD reaches any such path, for instance /ux0:/a/, and one more CWD and a CDUP do not return to it. |
| CurPath.EnterOrName | src/ftpvita.c:555-573 | CWD d and a command on f address the components that the command on d/f does, if and only if d/f does not have the device form or the current path has no components. |
| CurPath.EnterIsNotName | src/ftpvita.c:564-567 | The exception is real: d = "a", f = "x:/y". |
| CurPath.AbsoluteIsItself | src/ftpvita.c:555-573 | An absolute argument, or one of the device form, addresses its own components, wherever the client is, for a command as for CWD. |
| CurPath.RelativeIsBelow | src/ftpvita.c:555-573 | Any other argument addresses the components of the current path and then its own. |
| CurPath.CwdGoes | src/ftpvita.c:440-484 | CWD is refused exactly without an argument or when a directory other than / and .. is not there, and otherwise goes to the components that its argument addresses. |
| CurPath.UpComponents | src/ftpvita.c:420-438 | dir_up drops the last component of a path without a slash at its end, and goes to the root from any other, such as /ux0:/a/. |
| CurPath.DeviceFormIs | src/ftpvita.c:563-567 | The device form is a device of three characters, a colon and a slash. |
| Devices.Table.AddDevice | src/ftpvita.c:1232-1243 | Fills the first slot that is not valid, or fails with the table unchanged. |
| Devices.Table.DelDevice | src/ftpvita.c:1245-1255 | Invalidates the first slot of that name, valid or stale. |
| Devices.AddRefines | src/ftpvita.c:1232-1243 | Fails exactly when sixteen names are there, else adds the name; keeps the invariant if and only if the name was not there or the table was full. |
| Devices.DelRefines | src/ftpvita.c:1245-1255 | Always removes the name from the set, because no stale slot comes before its valid one. |
| Devices.RunRefines | src/ftpvita.c:1157-1159 | After any adds and deletes without a duplicate add, from any stale names, the table is exactly the bounded set. |
| Devices.DuplicateStays | src/ftpvita.c:1232-1255 | With a duplicate add, one delete leaves the name there. |
| Transfer.Client.SendFile | src/ftpvita.c:515-551 | However the file is read, what is sent is its suffix from the restore point (all of it when that is negative as a signed number), and the restore point is then 0. |
| Transfer.Client.ReceiveFile | src/ftpvita.c:582-635 | However the data is received, a closed connection leaves old content (none when the restore point is 0) and all bytes received; an aborted one leaves no file. |
| Transfer.RestorePoint | src/ftpvita.c:767-799 | After any run of a new session the restore point is not 0 if and only if, after the last completed transfer, the last command that left one is a REST with a number other than 0 or an APPE whose file could not be opened; it is then what that command left. |
| Transfer.RestStaysPending | src/ftpvita.c:767-773 | There is one after a REST alone. |
| Transfer.StorAfterRun | src/ftpvita.c:590-600 | So a STOR after a run appends to what its file holds if and only if such a restore point is pending, whichever file it was meant for. |
| Transfer.OtherFilesKept | src/ftpvita.c:515-635 | A command changes at most the file that it names. |
| Transfer.ResumedDownload | src/ftpvita.c:515-551 | A download of which n bytes are there can be resumed, so that these bytes and what is sent are the whole file, by some value that REST leaves in the 32-bit field, if and only if n is below 2^31; then REST n does it. |
| Transfer.ResumesExactly | src/ftpvita.c:525 | Which values do it: the number n, for n = 0 a negative one, and for a file that is there already any that is not below its size. |
| Transfer.DownloadInParts | src/ftpvita.c:515-551 | Downloads that break off anywhere and are each resumed there, at offsets below 2^31, give a prefix of the file, and the file exactly when the parts reach its size, whatever its size. |
| Transfer.DownloadsExactly | src/ftpvita.c:767-773 | Of the downloads whose last part does not break off, exactly those give the file whose every part was resumed below 2^31, whatever REST makes of larger numbers. |
| Transfer.UploadInParts | src/ftpvita.c:582-635 | STOR followed by any number of APPE, or REST with a number and STOR, leaves all bytes in order and every other file alone. |
| Transfer.PartsThatLose | src/ftpvita.c:590-633 | STOR at restore point 0 replaces; an aborted STOR or APPE removes the whole file at any restore point. |
| Sfo.GetSfoValue | src/sfo.c:22-38 | The number of the first entry of that name; the two error codes otherwise. |
| Sfo.GetSfoString | src/sfo.c:40-58 | Its text truncated to length - 1 with zeros behind, nothing else written. |
| Sfo.SetSfoValue | src/sfo.c:60-76 | Only the four bytes of the first matching entry change. |
| Sfo.SetSfoString | src/sfo.c:78-94 | Only the bytes of the string and its terminator change. |
| SfoPack.PackedIsWellFormed | src/sfo.h:29-44 | Every list of entries with distinct keys, written field by field as the two structures lay them out, is a well-formed buffer. |
| SfoPack.PackedValue | src/sfo.c:22-38 | getSfoValue of the i-th key of such a buffer is its number, if its data are the four bytes of one. |
| SfoPack.PackedString | src/sfo.c:40-58 | getSfoString of the i-th key reads its string, if its data are one with its terminator. |
| SfoPack.PackedMissing | src/sfo.c:37-57 | Of a key that is not in the list both report NOT_FOUND. |
| Sfo.StoreFrame | src/sfo.c:60-94 | On a well-formed buffer a write that fits its region keeps header, entries, keys and well-formedness, so that get and set find the same entries before and after. |
| Sfo.ValueRoundTrip | src/sfo.c:22-76 | On a well-formed buffer whose region of that name, if any, holds four bytes, setSfoValue, then getSfoValue: the value, or NOT_FOUND exactly when no entry has the name. |
| Sfo.StringRoundTrip | src/sfo.c:40-94 | On a well-formed buffer whose region of that name, if any, holds the string and its terminator, setSfoString, then getSfoString: the string, or NOT_FOUND exactly when no entry has the name. |
| Sfo.TruncatedText | src/sfo.c:50-52 | What getSfoString leaves is a C string: the text, or all of it that fits. |
| Sfo.WellFormedIsReadable | src/sfo.c:22-94 | On a well-formed buffer every search, every copy of a string, and every access that fits its region stays in the buffer. |
| Sfo.OtherKeyKept | src/sfo.c:60-94 | After a write that fits its region every other key reads as before, within its own region. |
| Sfo.LastWriteWins | src/sfo.c:60-94 | After any number of writes that each fit the region of their key, each key holds the last one to it. |
| Utf.Utf8ToUtf16 | src/utils.c:95-111 | Writes the decoded units and the terminator, nothing behind it, and reads nothing past the end of the source. |
| Utf.DecodesBmp | src/utils.c:95-111 | For every text encoded by section 3 of RFC 3629 the loop writes as many units as UTF-16 has, and they are the UTF-16 text if and only if every code point is in the Basic Multilingual Plane. |
| Utf.OneUnitEach | src/utils.c:97-108 | One unit for every code point of such a text, equal to it. |
| Licences.ParseDirs | src/refresh.c:311-336 | The depth is restored and never exceeds max_depth; in the first pass the count grows by exactly the .rif files at that depth. |
| Licences.LicenseDir | src/refresh.c:742-753 | One level down, and the depth restored. |
| Licences.LicenseFile | src/refresh.c:718-740 | Counts, or inserts a complete licence, of the files whose name ends in .rif in any case. |
| Licences.LicenseThread | src/refresh.c:755-802 | The number of rows grows by exactly the number copied, existing rows stay, every new row is a licence file's, and undisturbed every complete licence file has a row. |
| Licences.WalkedMore | src/refresh.c:718-753 | Walks over disjoint sets of files add up, in either pass. |
| Licences.RifsAre | src/refresh.c:773-783 | The files that are walked are those in a directory of the first tree, and those two directories deep in the second. |
| Licences.RifNames | src/refresh.c:723-724 | Licence files are those whose name ends in .rif in any case. |
| LicenceRestore.LicenceIsFromFile | src/rif.c:46-108 | After a walk into an empty database a query for a content id gives the first 512 bytes of a licence file with that id; undisturbed, exactly if there is such a file. |
| LicenceRestore.IdBehindSixteen | src/rif.c:59 | The content id of a licence is the string behind its first sixteen bytes. |
| LicenceRestore.AskedForPacked | src/refresh.c:286-292 | The content id that refreshApp asks for is the one packed as CONTENT_ID into param.sfo. |
| LicenceRestore.RefreshOne | src/refresh.c:274-308 | With its lookup: undisturbed, a refresh that does not promote writes as work.bin exactly the licence of the content id in param.sfo, if work.bin was missing, its directory is there and the database has one. |
| LicenceRestore.RestoredLicence | src/refresh.c:436-438 | A restored directory that had lost its work.bin gets the first 512 bytes of a licence file of its content id that the walk has seen, or nothing if there was none. |
| Dlc.DlcOuter | src/refresh.c:404-443 | At every exit each listed directory is at home, in the temporary directory or promoted, whole but for its work.bin, its string was freed once, and the counter grew by at least the number of promoted directories and at most the number of listed ones; one that needs no refresh is untouched; undisturbed, each other is promoted, and counted, or back at home with the work.bin that refreshApp left. |
| Dlc.RestoredWhole | src/refresh.c:274-303 | A restored directory is whole if and only if its work.bin was not a homebrew's and was not missing with a licence for it at hand. |
| Dlc.RestoredBin | src/refresh.c:274-303 | Its work.bin is gone if it was a homebrew's, is the licence if it was missing with a directory and a licence for it, and is otherwise what it was. |
| Dlc.HomebrewIs | src/refresh.c:50-62 | A homebrew's is a file whose first 512 bytes are there and zero. |
| Dlc.WorkText | src/refresh.c:279 | Where work.bin is, as a C string. |
| Dlc.HomebrewIsNotWhole | src/refresh.c:274-277 | For every directory there is a tree in which it is a homebrew's, and after the restore its work.bin is gone. |
| Dlc.IsCustomHomebrew | src/refresh.c:50-62 | A custom homebrew is a work.bin of at least 512 bytes whose first 512 are zero; undisturbed the check finds exactly that. |
| Dlc.PrepareBin | src/refresh.c:274-303 | Before the promotion at most work.bin changes: it is removed if it is a homebrew's, and written if it is missing, its directory is there and the database has the licence, whose bytes are then the whole file. |
| Dlc.RefreshApp | src/refresh.c:267-308 | A failed refresh leaves the directory as it has been prepared, a successful one takes it over. |
| Dlc.PromoteAll | src/refresh.c:430-443 | The second phase: nothing that was not moved out is touched, every other string is freed, and undisturbed the promoted are counted and the others restored. |
| Dlc.Collect | src/refresh.c:386-402 | Lists the first 1024 directories whose name does not start with sce_, or counts all of them. |
| Dlc.FirstNames | src/refresh.c:396-397 | All of up to 1024 names, and the first 1024 of more. |
| Dlc.OneStep | src/refresh.c:418-441 | Moving one directory out or back changes nothing about the others. |

## Left out

- Pbp.HashPbp: a header whose sum overflows so far that hash_sz is below the first read is required away, because the C code then passes a negative length to sha256_update; read errors, which the code compares as unsigned numbers, are not modelled either.
- Sfo.SetSfoString: the caller must leave room for the string in the buffer, which the code does not check; the laws about several keys ask that it fits the region of its key, which the code does not check either.
- Sfo.GetSfoValue: the sums of 32-bit offsets do not wrap around; all tables and keys lie in the buffer.
- Sha256Stream.Context.Update: one call takes fewer than 2^32 bytes, as its 32-bit loop counter needs.
- Transfer.Client.ReceiveFile: writes are complete; a file that cannot be opened is a parameter.
- Transfer.Client.SendFile: read errors, which the code takes for a huge unsigned count, do not occur.
- LicenceRestore.RefreshOne: a param.sfo that getSfoString cannot read, or that has no content id, is required away, because the C code then asks for what an unset buffer holds.
- Licences.LicenseFile: the database is a map with unique keys; SQL text and quoting are left out.
- Dlc.DlcOuter: whether a directory needs a refresh, which licence the database has for it (LicenceRestore says which), and whether its promotion succeeds, are choices of the environment; a promotion takes the directory over.
- Path buffers: MAX_PATH_LENGTH truncation, PATH_MAX, and failures of malloc and strdup.
- Directory listings are snapshots taken when the directory is opened; an error while reading one ends the loop like its end does.
- The tree's lookup is case-sensitive; only the guards fold case, as the code does.
- File metadata: the stat and chstat calls that copy times and attributes.
- The progress counter is unbounded instead of 64 bits; displaying it is left out.
- Sockets, PASV and PORT, replies, command dispatch, LIST formatting and the thread names that read number_clients outside the mutex.
- The unrolled writes of the digest, of five or eight words, are one inner loop in ShaBuffer.PutDigest.
- The application, patch, PSM and PSP refresh callbacks: each is the two-phase algorithm for one directory.
- User interface, kernel modules, mounting, package promotion, PFS and NP DRM calls.
