# Verified models of the HIDloom host tooling

A Dafny model of the host-side tools of the HIDloom keyboard repository: the source scanners,
the profile and script reconcilers with their crash recovery, the bounded tree snapshot, the
dotenv key rewrite, the macro parser, the layout exchange, the compliance lock and archive, the
WebSocket framing of the browser probe, and the matrix and HID log tools. Code that changes
things step by step is modelled by methods and classes that change the same state, proved
against specification functions; the lemmas say what those functions guarantee.

`dafny verify dfyconfig.toml` checks the whole project.

| module | models |
|---|---|
| `CommentScanners`, `ScannerLaws`, `CStyleLaws` | three character state machines over an in-place buffer, and what they do to each form of text |
| `Files` | a disk whose every primitive may fail, backup names, atomic replacement |
| `ProfileRecovery`, `ProfileApply`, `ProfileRun`, `Services` | applying a device profile, its service calls, and the commands reported when it fails |
| `MigrateScripts` | migrating runtime scripts |
| `TreeWalk`, `TreeKernel`, `TreeSnapshot` | the descriptor-pinned, bounded walk of the early runtime tree, and the system calls it makes |
| `Dotenv`, `DotenvPlan`, `DotenvLaws` | parsing and rewriting a dotenv file, and what is found in one |
| `KmlTokens`, `KmlForms`, `KmlMeaning`, `KmlParser` | the macro language: its text, form by form, its meaning, the parser |
| `KmlKeys`, `KmlTiming` | the keys of a macro, and the length of notes in floating-point numbers |
| `VilLayout`, `VilOrder` | .vil export and import, and the order of what is imported |
| `LockMerge`, `LockRecord`, `LockLaws` | the toolchain component lock, and what its validators accept |
| `PosixPaths`, `TarExtract`, `TarWrite` | the compliance archive |
| `WebSocket` | framing as in sections 5.2 and 5.3 of RFC 6455 |
| `RollAnalyzer` | release/next-press pairs in a HID log |
| `MatrixReplay`, `ReplayLaws` | key matrix streams, and the keys chosen for them |
| `Ordering`, `Chars`, `Options` | Python's `sorted` and its orders, decimal numerals, character classes, optional values |

Every primitive of `Files.Disk` and every service call may fail at any time and then counts as a
fault. `TreeKernel.Kernel` follows an arbitrary script that says of each call whether it goes as
the tree has it, fails, or shows a concurrent change. So a contract that speaks of failure speaks
of every pattern of failures.

What the code does where a reader might expect otherwise:

- The two C-style scanners disagree on nested block comments. `CommentScanners.Lockstep` gives
  the exact condition under which they agree, `NestedCommentKeptTwice` an input on which they do not.
- The profile marker is renamed into place last and without a backup. Its temporary is gone after
  the rename, but the probe for it or the final message can still fail. The reported commands then
  bring the marker back if and only if it was absent before, had the new content already, or the
  run made a backup of it (`ProfileRun.ApplyProfile`, `ProfileRecovery.ReplacedMarkerIsLost`).
- An accepted profile that copies a configuration file from the runtime flick.json fails after that
  file was removed, unless another file is copied to flick.json before (`ProfileRun.ApplyProfile`).
- The snapshot closes all descriptors but those it opened and could not examine: when the call
  that examines a fresh descriptor (or duplicates the root's) fails, that descriptor stays open
  (`TreeSnapshot.DescriptorStaysOpen`). No other failure leaves one open.
- The byte budget of the snapshot bounds what is captured, not what is read: a file that grows
  after its stat is read and then refused (`TreeSnapshot.ReadsBeyondBudget`).
- A script migration writes through a left-over temporary that is a link
  (`MigrateScripts.LinkedTemporaryHarms`).
- A chord of two coordinate texts for one cell presses that cell twice
  (`MatrixReplay.SameCellPressedTwice`).
- A macro value in empty brackets raises, as does a tempo or note length of zero; escapes such as
  `\n` tap their key without the modifiers of the ranges around them.
- The receiver hands on every frame that is neither ping nor close, so a pong or a continuation
  frame is delivered like a message; it also takes lengths that are not in the shortest form.
- The lock generator refuses its own record in its final check when there is an empty name or
  version, an empty download, an unsafe license file name, or a base URL that ends in two slashes.
- A layer action with a negative number indexes the layers from the end.

## Model

| member | source | states |
|---|---|---|
| CommentScanners.MaskCStyleLiterals | tools/development_residue_hygiene.py:281-344 | The in-place buffer ends as the masked text: comment and literal characters blank, newlines and code kept, whatever jumps the scanner took. |
| CommentScanners.CStyleCommentText | tools/development_residue_hygiene.py:347-412 | The in-place buffer ends holding exactly the characters the nesting scanner calls comment, at their own offsets. |
| CommentScanners.HashCommentText | tools/development_residue_hygiene.py:415-459 | The same for the hash scanner. What it takes for a comment is fixed form by form in ScannerLaws: strings of both kinds, escapes, comments, and number signs inside words. |
| CommentScanners.LineNumbersAgree | tools/development_residue_hygiene.py:462-472 | All three scanned texts have the length and the newline positions of the source, so the line number reported for an offset is the source line number. |
| CommentScanners.LinesCounted | tools/development_residue_hygiene.py:470-470 | Lines are counted from 1, and each newline before an offset adds one. |
| CommentScanners.CommentsIdempotent | tools/development_residue_hygiene.py:347-412 | Extracting C-style comments twice equals extracting once, for every text. |
| CommentScanners.Rescan | tools/development_residue_hygiene.py:347-412 | The stuttering simulation behind it: rescanning the extracted text from the matching state gives the same kinds. |
| CommentScanners.HashIdempotent | tools/development_residue_hygiene.py:415-459 | Extracting hash comments twice equals extracting once, for every text. |
| CommentScanners.HashRescan | tools/development_residue_hygiene.py:415-459 | The stuttering simulation of the hash scanner on its own output. |
| ScannerLaws.HashSingle | tools/development_residue_hygiene.py:429-433 | A string in single quotes ends at the next single quote, whatever it holds, backslashes included; it is dropped, and scanning goes on right after it. |
| ScannerLaws.HashDouble | tools/development_residue_hygiene.py:424-442 | A string in double quotes, made of plain characters and escape pairs, is dropped as a whole. |
| ScannerLaws.HashEscape | tools/development_residue_hygiene.py:434-437 | A backslash outside quotes drops itself and the next character, which opens neither a string nor a comment. |
| ScannerLaws.HashRemark | tools/development_residue_hygiene.py:443-452 | A number sign at the beginning of a word starts a comment that is kept up to its newline. |
| ScannerLaws.HashPlain | tools/development_residue_hygiene.py:443-459 | Any other character is dropped, and after it a word goes on, so that a number sign in it starts no comment. |
| ScannerLaws.HashForms | tools/development_residue_hygiene.py:415-459 | Every text begins in one of these forms, or with one that the text ends before it closes: the laws leave nothing open. |
| ScannerLaws.FromStart | tools/development_residue_hygiene.py:415-459 | Scanning starts at the beginning of the text, outside quotes and comments. |
| ScannerLaws.HashLastRemark | tools/development_residue_hygiene.py:443-452 | A comment that the text ends is kept to its end. |
| ScannerLaws.HashOpenSingle | tools/development_residue_hygiene.py:429-433 | A single-quoted string that is not closed is dropped to the end of the text. |
| ScannerLaws.HashOpenDouble | tools/development_residue_hygiene.py:424-442 | So is a double-quoted one. |
| ScannerLaws.HashLastBackslash | tools/development_residue_hygiene.py:434-437 | So is a backslash at the end of the text. |
| ScannerLaws.HashNothing | tools/development_residue_hygiene.py:415-459 | At the end of the text nothing more comes. |
| CommentScanners.MaskedIsInert | tools/development_residue_hygiene.py:281-344 | Masked text holds no quote and no comment opener. |
| CommentScanners.MaskIdempotent | tools/development_residue_hygiene.py:281-344 | Masking again is the identity, and no comment is left to extract. |
| CommentScanners.Lockstep | tools/development_residue_hygiene.py:281-412 | The masking and the comment scanner visit the same positions in the same states if and only if the block-comment depth never reaches 2. |
| CommentScanners.Partition | tools/development_residue_hygiene.py:281-412 | On such a text each position other than a newline is code, comment or literal, and is never kept non-blank by both scanners. |
| CommentScanners.MaskedCommentsBlank | tools/development_residue_hygiene.py:281-412 | On such a text, masking what the comment scanner extracted leaves only blanks: the two scanners never keep the same character. |
| CommentScanners.NestedCommentKeptTwice | tools/development_residue_hygiene.py:281-412 | The condition is needed: a text with a nested comment on which both scanners keep the same character. |
| CStyleLaws.PlainCharacter | tools/development_residue_hygiene.py:281-412 | A character that opens nothing stays in the masked text and is dropped from the comments. |
| CStyleLaws.StringDropped | tools/development_residue_hygiene.py:281-412 | A string of plain characters and escape pairs in any of the given quotes is dropped by both scanners, and nothing in it opens a comment. |
| CStyleLaws.LineComment | tools/development_residue_hygiene.py:281-412 | A line comment is masked up to its newline by one scanner and extracted by the other, whatever quotes it holds. |
| CStyleLaws.BlockMasked | tools/development_residue_hygiene.py:281-344 | The masking scanner ends a block comment at the first closer, however often one was opened in it. |
| CStyleLaws.BlockExtracted | tools/development_residue_hygiene.py:347-412 | The extracting scanner ends it where the nesting closes, and keeps all of it. |
| CStyleLaws.FromBeginning | tools/development_residue_hygiene.py:281-412 | Both scanners start at the beginning of the text, in code, and give nothing after its end. |
| CStyleLaws.LastLineComment | tools/development_residue_hygiene.py:281-412 | A line comment that the text ends is treated like one that a newline ends. |
| CStyleLaws.OpenBlockMasked | tools/development_residue_hygiene.py:281-344 | A block comment without a closer is masked to the end of the text. |
| CStyleLaws.OpenBlockExtracted | tools/development_residue_hygiene.py:347-412 | A block comment that stays open is extracted to the end of the text. |
| CStyleLaws.OpenStringDropped | tools/development_residue_hygiene.py:281-412 | A string that is not closed is dropped to the end of the text. |
| Files.Disk.FreshBackup | script/apply_device_profile.py:93-99 | The first free name of the numbered backups; the search ends because finitely many names exist. |
| Files.AtomicContent | script/apply_device_profile.py:102-112 | Write, chmod and rename with a fault possible at every step: either the path has the new bytes and mode, or only a fresh temporary may be left; it succeeds if and only if no call failed. |
| Files.BackupComesLater | script/apply_device_profile.py:338-367 | A backup sorts after the file it saves, in the order of paths. |
| Files.NamesTried | script/apply_device_profile.py:93-105 | The names in the order in which they are tried: the timestamp alone, then with 1, 2 and so on; and the form of a temporary's name. |
| Files.NamesMatch | script/apply_device_profile.py:338-347 | What is taken for a backup, and what for a temporary, of a path. |
| Files.DefaultModeIs | script/apply_device_profile.py:102-112 | The mode of a written file: its owner may write, all may read. |
| ProfileRecovery.ReportPartialApply | script/apply_device_profile.py:328-367 | The reported commands, and the paths left to manual recovery: exactly those that are not recoverable. |
| ProfileRecovery.RecoveryRestores | script/apply_device_profile.py:338-367 | Running the reported commands in order returns a tracked path to its bytes and mode, or to absence, if and only if it is unchanged, was absent or has a verified new backup; other files stay as they are. |
| ProfileRecovery.CommandsMean | script/apply_device_profile.py:338-356 | Which command a path gets: none if it is as it was; else a copy of the first backup made by this run that holds what the path held; else a removal if it did not exist; else none. |
| ProfileRecovery.ChangeAfterBackup | script/apply_device_profile.py:115-140 | Changing a file after backing it up keeps every tracked path recoverable. |
| ProfileRecovery.DisturbingIsSafe | script/apply_device_profile.py:102-112 | A left-over temporary or a half-written backup never makes a path unrecoverable. |
| ProfileRecovery.ReplacedMarkerIsLost | script/apply_device_profile.py:489-493 | The marker is written without a backup: one that was replaced by another content and has no backup made by this run is not brought back by the reported commands. |
| ProfileApply.CopyFile | script/apply_device_profile.py:115-127 | Backup, then atomic replacement; at every fault point the tracked paths stay recoverable, and success leaves the source's bytes with mode 0644. |
| ProfileApply.RemoveRuntimeFile | script/apply_device_profile.py:130-141 | Backup, then unlink; the same promise, and absence on success. |
| ProfileApply.OwnNamesAreNoBackups | script/apply_device_profile.py:338-367 | The tool's own file names are never taken for backups. |
| ProfileApply.ManagedIsRecognised | script/apply_device_profile.py:175-208 | A drop-in written with its header is recognised as owned by its digest. |
| ProfileApply.OnlySignedIsManaged | script/apply_device_profile.py:199-206 | A content is taken for the tool's own if and only if it is the header with the digest of the rest, a newline, and that rest: an edited body is not, and a foreign file is not. |
| ProfileApply.DropinsAre | script/apply_device_profile.py:175-197 | Which paths are looked at, and what is written there, with the names and the header spelled out. |
| ProfileApply.RefusedIfUntouchable | script/apply_device_profile.py:191-208 | Planning refuses if and only if a drop-in that is there, or is to be written, lies under a link, or is no regular file, or has neither a valid signature nor one of the original texts. |
| ProfileApply.EditedIsUntouchable | script/apply_device_profile.py:203-206 | An edited drop-in, and one without the header, is such a drop-in unless it is an original text. |
| ProfileApply.OriginalsAre | script/apply_device_profile.py:35-39 | The texts of the original profile, and the units that had one. |
| ProfileApply.WriteDropins | script/apply_device_profile.py:211-240 | Success backs up, removes and writes exactly what the plan says; at every fault point recovery is still possible. |
| ProfileApply.DropinsBecomeExact | script/apply_device_profile.py:191-240 | After success the profile drop-ins on the disk are exactly the desired ones, with mode 0644. |
| ProfileApply.DropinsSettle | script/apply_device_profile.py:175-240 | The reconciled drop-ins are recognised as owned, and planning accepts them again. |
| ProfileApply.SecondRunChangesNothing | script/apply_device_profile.py:211-240 | A second reconciliation finds every desired drop-in exact, so there is nothing to write, remove or back up. |
| ProfileRun.ApplyProfile | script/apply_device_profile.py:243-284 | The whole apply: refused without any change if and only if validation fails; applied if and only if accepted, no call failed, and no configuration file needs the flick.json removed before. Services are called in order and only when all files are in place; the marker is renamed only when every service call and the wait for sockets have completed, and until then every marker file is as it was. After a failure with backups the reported commands restore every tracked path; the marker comes back if and only if it was not renamed, was absent or had the new content before, or the run made a backup of it, which happens only if a listed file is named like one. |
| ProfileRun.RefusalReasons | script/apply_device_profile.py:243-284 | The reasons of a refusal, each spelled out over the profile and the files: a bad profile id or file name, a source that is missing or a destination that is no plain file, a bad unit, list or socket, a bad or untouchable drop-in. The profile is accepted if and only if none holds. |
| ProfileRun.ApplySteps | script/apply_device_profile.py:402-493 | Copies, the removal of flick.json and its possible re-creation, drop-ins, then the service calls in order, and the marker last: once it is renamed all calls are in the log as completed and everything is in place; before that no marker has changed. |
| ProfileRun.CompleteApply | script/apply_device_profile.py:417-493 | What a successful apply leaves: every listed file installed, no stale flick.json, exact drop-ins and the new marker; and no backup of the marker unless a listed file is named like one. |
| ProfileRun.CopyFiles | script/apply_device_profile.py:402-443 | The files of a section are copied in order; without a failed call this succeeds if and only if each source is there when its turn comes. |
| ProfileRun.BackupOfOther | script/apply_device_profile.py:93-99 | The backup of another file is taken for a backup of the marker only if that file is named like one. |
| Services.ServiceManager.PerformAll | script/apply_device_profile.py:402-410 | The calls in order, each recorded as attempted and completed, up to the first that fails. |
| Services.CallsAre | script/apply_device_profile.py:463-487 | The calls in full and in order, with a restart and without; those without units or sockets are left out. |
| Services.PolicyHolds | script/apply_device_profile.py:447-483 | What the calls make of a unit: enabled ones end unmasked and enabled, and with a restart running; disabled and masked ones end so, and with a restart stopped; all others are as they were. |
| ProfileRun.MarkerRecovers | script/apply_device_profile.py:338-367 | After its rename the marker is recoverable if and only if it was absent before, had the new content and mode already, or has a verified backup of this run. |
| MigrateScripts.InstallDefault | script/migrate_runtime_scripts.py:61-70 | Copy to a temporary, following a left-over link, rename, drop the temporary. It succeeds if and only if the copy is possible and no call fails, and then the files are exactly those of this copy and rename; in any case only the target, the temporary and the file a link leads to can change, and from a clean start the target changes at once or not at all. |
| MigrateScripts.TemporaryIs | script/migrate_runtime_scripts.py:62-62 | The name of a temporary: hidden, beside the script, and with the number of the process. |
| MigrateScripts.MigrateRuntimeScripts | script/migrate_runtime_scripts.py:73-127 | A dry run or a run on settled scripts changes nothing and reports the branch of every script. When no temporary is taken or is a link: the run completes unless a call fails, a default of the manifest is missing, or a script's place holds a directory; then every script is settled; what may not be replaced never is, and with backups each replaced script survives in a fresh backup, also when the run is cut short; the defaults, the other directories and the cleanness of the temporaries are kept. Whatever was left over, a completed run is a sequence of exactly described turns. Each reported action has its own reason. |
| MigrateScripts.ReasonsOf | script/migrate_runtime_scripts.py:95-118 | Each action has its own reason: a link is preserved, a missing script is seeded, one with the default's content is current, a listed one is migrated, and any other content is preserved as the user's own; each if and only if. |
| MigrateScripts.ReportsMean | script/migrate_runtime_scripts.py:95-127 | What a run reports is that action for the files it found. |
| MigrateScripts.SecondRunIsQuiet | script/migrate_runtime_scripts.py:73-127 | Two runs in a row, the second with any timestamp and temporaries: after a completed first run the second reports only current and preserve actions and leaves every script settled, and both complete unless a call fails, a default of the manifest is missing, or a script's place holds a directory. |
| MigrateScripts.LinkedTemporaryHarms | script/migrate_runtime_scripts.py:61-70 | The condition is needed: in a run that seeds a script whose temporary is a left-over link, the file the link leads to is overwritten, and the link becomes the script. |
| MigrateScripts.LinkDecides | script/migrate_runtime_scripts.py:61-70 | A completed install puts the default at the target if and only if no link was left over at the temporary. |
| MigrateScripts.SettledMeans | script/migrate_runtime_scripts.py:95-115 | A script is settled if and only if a link is there, or a file whose content is the default's or is not listed. |
| TreeKernel.Kernel.OpenAt | tools/boot_marker_baseline.py:829-834 | One of the system calls the walk uses. What it opens is what the script of the run lets it see, links are not followed, with the directory flag only a directory opens, and the open descriptors are accounted for. |
| TreeKernel.OpensItself | tools/boot_marker_baseline.py:829-834 | Undisturbed, a path is opened as it is, a directory or without the flag a regular file, and never what a link leads to. |
| TreeWalk.SafeNamesAre | tools/boot_marker_baseline.py:827-828 | The names accepted below a descriptor. |
| TreeSnapshot.ReadBoundedRegularAt | tools/boot_marker_baseline.py:817-862 | A successful read has exactly the size the caller saw beforehand and delivers exactly these bytes, and its calls saw the identity of the expected file in the opened file before and after the reads and at the path in the end; any read delivers at most one byte more than the bound; every path closes the descriptor; an undisturbed read succeeds if and only if the file fits. |
| TreeSnapshot.CaptureFile | tools/boot_marker_baseline.py:1021-1063 | A file is captured only within what is left of both budgets and with one identity throughout, and then as many bytes are read; one over the budget is not read at all. |
| TreeSnapshot.OpenRelativeDirectory | tools/boot_marker_baseline.py:888-904 | Walking down ends where the opens lead, for every outcome of the calls; it holds one descriptor at a time and leaks none, on success and on failure. |
| TreeSnapshot.VerifyQueuedDirectory | tools/boot_marker_baseline.py:907-919 | It succeeds if and only if the pinned descriptor and the directory found by walking down the path are both seen with the recorded identity; nothing stays open. |
| TreeSnapshot.QueueChild | tools/boot_marker_baseline.py:1078-1102 | What comes of opening and pinning a child, for every outcome of the two calls: queued with its descriptor, refused and closed, or lost, and lost exactly when the open succeeded and the fstat of the new descriptor failed. |
| TreeSnapshot.ExamineChild | tools/boot_marker_baseline.py:1081-1102 | The fstat of the new descriptor decides: unreadable and still open, another directory and closed, or the same one and queued. |
| TreeSnapshot.SnapshotEntry | tools/boot_marker_baseline.py:1000-1102 | One row for one entry; a captured file had one identity from the stat of the entry through the stat after the reads; the bytes captured never pass what was left of the byte budget; undisturbed, exactly the captured bytes are read, else at most one file and a byte more. |
| TreeSnapshot.SnapshotDirectory | tools/boot_marker_baseline.py:976-1126 | One turn of the queue: a directory is refused, with one row and no children, if and only if its descriptor or its path no longer has the recorded identity; else rows, children, budgets, bytes read and descriptors, and in an undisturbed run exactly the entries of the directory. Its entries are listed, and its children queued, in the order of their names. |
| TreeSnapshot.SnapshotEarlyRuntimeTree | tools/boot_marker_baseline.py:922-1130 | For every tree and every script of failures and changes: no more descriptors stay open than calls of fstat and dup failed, so none when these succeed; it raises if and only if the root's new descriptor cannot be examined or duplicated; entries and captured bytes stay within their budgets, and bytes read are at most those captured and a file and a byte for each failed read; undisturbed, the rows list the tree, nothing stays open and exactly the captured bytes are read. In every run the entries come breadth first and by name, after the root's row and before that of the bound; undisturbed, each has the row its size and the bytes captured before ask for. |
| TreeSnapshot.SnapshotOrder | tools/boot_marker_baseline.py:975-1000 | For every run: of two listed entries the earlier is not deeper; with one parent it has the smaller name; and the entries of an earlier directory come first. |
| TreeSnapshot.CapturedIfItFits | tools/boot_marker_baseline.py:1021-1063 | Undisturbed, a file is captured if and only if it is within the bound for files and fits beside the bytes captured before it; without room it is refused for that; links and all other kinds have their own rows. |
| TreeSnapshot.OneSnapshot | tools/boot_marker_baseline.py:922-1130 | In whatever order directories are read, an undisturbed snapshot within the bounds has one possible result. |
| TreeSnapshot.SteadyMeans | tools/boot_marker_baseline.py:817-862 | A captured file was seen four times, by name, twice in the open file and by name again, with one device, inode, size and both times. |
| TreeSnapshot.RowsInPlace | tools/boot_marker_baseline.py:941-1126 | The root's row is the first and only one of its kind, and the row of the bound can only be the last. |
| TreeSnapshot.IdentitiesMean | tools/boot_marker_baseline.py:600-875 | Which fields make the identity of a file, and which that of a directory. |
| TreeSnapshot.PinRoot | tools/boot_marker_baseline.py:953-971 | The new root descriptor is compared and duplicated; an exception leaves it open, and is raised exactly when one of the two calls fails there. |
| TreeSnapshot.OpenRoot | tools/boot_marker_baseline.py:931-971 | A finished answer, an exception, or a pinned root with the first queue entry, and what is open in each case. |
| TreeSnapshot.SnapshotPending | tools/boot_marker_baseline.py:973-1130 | The queue loop with its final clean-up: whatever is still queued is closed. |
| TreeSnapshot.DescriptorStaysOpen | tools/boot_marker_baseline.py:953-955 | A run that leaves a descriptor open: the fstat of the root fails. |
| TreeSnapshot.ReadsBeyondBudget | tools/boot_marker_baseline.py:1021-1063 | One visit of a run that reads more than the byte budget allows: a file grows between stat and open, and is read before the identity check refuses it. |
| TreeSnapshot.WalkIsComplete | tools/boot_marker_baseline.py:922-1130 | The queue-driven walk refines the recursive listing: with an empty queue every entry within the depth bound was listed once. |
| TreeSnapshot.WalkIsCutOff | tools/boot_marker_baseline.py:990-1113 | The boundary row appears only when there are more entries than the budget allows. |
| TreeWalk.WalkExpands | tools/boot_marker_baseline.py:922-1130 | Expanding the first directory of the queue keeps the invariant that listed entries and those below queued directories are the target. |
| TreeWalk.OrderGoesOn | tools/boot_marker_baseline.py:975-1098 | Expanding the first directory by sorted names keeps entries and queue in breadth-first order. |
| TreeWalk.WalkEnds | tools/boot_marker_baseline.py:975-1126 | An empty queue means the target is listed completely. |
| TreeWalk.WalkOverflows | tools/boot_marker_baseline.py:990-1113 | Listed entries are distinct members of the target, so more of them than the budget means a larger target. |
| Dotenv.MatchLineIsPattern | tools/local_environment_hygiene.py:17-19 | The scan finds a span exactly when the assignment pattern matches with that span; the pattern is unambiguous. |
| Dotenv.ParseEnvironment | tools/local_environment_hygiene.py:64-86 | The findings of every line in the sorted order of line, kind text and key, and the assignments in line order. |
| DotenvLaws.LineThenRest | tools/local_environment_hygiene.py:67-69 | Lines: a carriage return and a line feed end one line together, any other break by itself, and the rest is read on from there. |
| Chars.BreaksAre | tools/local_environment_hygiene.py:67-67 | The characters that end a line, by code points. |
| Chars.SpacesAre | tools/local_environment_hygiene.py:70-72 | The characters that are white space, by code points. |
| DotenvLaws.CharactersAre | tools/local_environment_hygiene.py:17-19 | The characters of the assignment pattern, spelled out. |
| DotenvLaws.LineKinds | tools/local_environment_hygiene.py:70-75 | A blank line and one that starts with a number sign are passed over; any other is an assignment where the pattern matches, and else invalid. |
| DotenvLaws.AssignmentsMean | tools/local_environment_hygiene.py:64-86 | There is one assignment for each line that is one, and no other. |
| DotenvLaws.FindingsMean | tools/local_environment_hygiene.py:64-86 | Exactly these are found, each once: an invalid line, a name that an earlier line assigns too, a retired name. |
| DotenvLaws.KindsInOrder | tools/local_environment_hygiene.py:25-30 | Findings of different kinds come in a fixed order of the kinds, that of their names. |
| Dotenv.FindingOrder | tools/local_environment_hygiene.py:86-86 | The order of findings, with the kinds compared by their texts, is a strict total order: the sorted list is determined by its members. |
| Dotenv.RewrittenLine | tools/local_environment_hygiene.py:164-214 | A rewritten line is classified as before, with the canonical key at the same start; only the key span differs. |
| Dotenv.RewriteKeepsLines | tools/local_environment_hygiene.py:201-210 | The rewritten text splits into the rewritten lines, for all line separators. |
| Dotenv.RewrittenIsClean | tools/local_environment_hygiene.py:64-86 | With no blocking finding and distinct canonical names the rewritten text has no findings at all. |
| Dotenv.RewriteIsFinal | tools/local_environment_hygiene.py:164-214 | Same lines and line numbers, canonical pairwise distinct names, no findings, and rewriting again changes nothing. |
| Dotenv.CanonicalIsKey | tools/local_environment_hygiene.py:58-61 | A canonical key is a key, is not retired, and is its own canonical form. |
| DotenvLaws.OnlyTheName | tools/local_environment_hygiene.py:201-210 | In a rewritten assignment only the name is exchanged, and any other line stays as it is. |
| DotenvLaws.RetiredNames | tools/local_environment_hygiene.py:58-61 | A name is retired if it begins with the four characters in either case; these are exchanged, and no other name is changed. |
| DotenvPlan.ClashesFound | tools/local_environment_hygiene.py:175-199 | A collision is reported if and only if two assignments would end up with the same name. |
| DotenvLaws.ClashesMean | tools/local_environment_hygiene.py:175-199 | A collision is reported for each retired name whose new name is assigned somewhere or is the new name of an earlier one, and for no other. |
| DotenvLaws.KindsAre | tools/local_environment_hygiene.py:164-175 | Only retired names do not stand in the way of a rewrite. |
| DotenvLaws.RenamingsMean | tools/local_environment_hygiene.py:188-197 | The mappings are those of the retired names, in file order. |
| DotenvPlan.PlanReplacements | tools/local_environment_hygiene.py:175-197 | The first loop: the collisions, or the mappings and the new name of each line. |
| DotenvPlan.SpliceKeys | tools/local_environment_hygiene.py:201-210 | The second loop: overwriting spans line by line gives the rewritten text. |
| DotenvPlan.MigrationPlan | tools/local_environment_hygiene.py:164-214 | Blocking findings or collisions are returned sorted and leave the text as it was; otherwise the plan is the rewritten text and its mappings, and the final re-check never refuses. |
| DotenvPlan.PlanningAgain | tools/local_environment_hygiene.py:164-214 | Planning for the rewritten file succeeds with no mapping and the same text. |
| KmlTokens.PrintedToken | macro/kml.py:131-352 | Scanning a written token gives that token, and scanning goes on right after it. |
| KmlTokens.PrintedProgram | macro/kml.py:101-352 | Every program written down, with or without brackets around values, is read back token by token, and is not taken for a comment. |
| KmlTokens.PrintedNames | macro/kml.py:229-275 | The modifier names of a range are read back, and its content starts where it was written. |
| KmlForms.CharacterForms | macro/kml.py:327-352 | A key's character followed by a digit is a note of that length, else one of the set length; a character without a key is passed over alone. |
| KmlForms.KeyForms | macro/kml.py:302-325 | A bracket and the next closing one enclose a key name; a bracket that is never closed is passed over alone. |
| KmlForms.EscapeForms | macro/kml.py:131-173 | The escapes of one character, and what is none is passed over with its backslash. |
| KmlForms.LettersAre | macro/kml.py:138-146 | The letters of the four commands. |
| KmlForms.NumberIs | macro/kml.py:185-205 | Values are decimal, and leading zeros do not matter. |
| KmlForms.CharactersAre | macro/kml.py:229-275 | The classes of characters the scanner tells apart, spelled out. |
| KmlForms.CommandForms | macro/kml.py:175-227 | A command letter with digits, with digits in brackets, with empty brackets, with brackets that do not close, or alone: what each is, and where scanning goes on. |
| KmlForms.RangeForm | macro/kml.py:229-288 | A range opens with its names, and what comes after them is read on. |
| KmlForms.RangeForms | macro/kml.py:236-252 | Gaps before the names of a range are skipped; its end and any character that is no letter end the names. |
| KmlForms.NameForm | macro/kml.py:252-268 | A modifier name is taken, with all gaps and plus signs after it. |
| KmlForms.OtherWord | macro/kml.py:252-275 | Any other word ends the names and belongs to the content. |
| KmlForms.CommentLines | macro/kml.py:106-113 | A line is a comment if its first character that is no white space is a number sign. |
| KmlForms.ContentForms | macro/kml.py:106-114 | Comment lines are left out with their line feeds, all others stay as they are. |
| KmlKeys.NoteTaps | macro/kml.py:43-66 | The key of each letter, in either case, and of each digit. |
| KmlKeys.EditingKeys | macro/kml.py:43-66 | The keycodes of Enter and Escape. |
| KmlKeys.BlankKeys | macro/kml.py:43-66 | Of Backspace, Tab and Space. |
| KmlKeys.PunctuationKeys | macro/kml.py:43-66 | Of Minus, Equal, Insert, Home and PageUp. |
| KmlKeys.UpperBlock | macro/kml.py:43-66 | Of PgUp, Delete, End, PageDown and PgDn. |
| KmlKeys.LowerBlock | macro/kml.py:43-66 | Of the arrows. |
| KmlKeys.FunctionKeys | macro/kml.py:43-66 | Of F1 to F6. |
| KmlKeys.MoreFunctionKeys | macro/kml.py:43-66 | Of F7 to F12. |
| KmlKeys.ControlAndShift | macro/kml.py:43-66 | Of the names of Ctrl and Shift. |
| KmlKeys.AltAndGui | macro/kml.py:43-66 | Of the names of Alt and Win. |
| KmlKeys.OtherGui | macro/kml.py:43-66 | Of GUI, Command and Cmd. |
| KmlKeys.BitOf | macro/kml.py:69-78 | Each of the eight modifier keys has its own bit. |
| KmlParser.ReadNames | macro/kml.py:229-275 | The index-driven loop over the modifiers of a range. |
| KmlParser.StripComments | macro/kml.py:106-113 | Dropping the comment lines. |
| KmlParser.Parser.ParseCommandValue | macro/kml.py:175-227 | A command with or without brackets; empty brackets and a zero tempo or length raise. |
| KmlParser.Parser.ParseRangeStart | macro/kml.py:229-288 | Pushes the enclosing modifiers with those of the range. |
| KmlParser.Parser.ParseRangeEnd | macro/kml.py:290-300 | Pops a level, but never the last one. |
| KmlParser.Parser.ParseSpecialKey | macro/kml.py:302-325 | A key name in brackets; an unknown one is passed over. |
| KmlParser.Parser.ParseCharacter | macro/kml.py:327-352 | A note with an optional length digit; an unknown character leaves the digit alone. |
| KmlParser.Parser.AddTapEvent | macro/kml.py:354-363 | A press that takes the pending rest and a release. |
| KmlParser.Parser.ParseEscape | macro/kml.py:131-173 | Commands, ranges and escapes, each at least one character on and never past the end. |
| KmlParser.Parser.Parse | macro/kml.py:101-129 | Terminates, and plays the tokens of the text in order up to the first that raises; tempo, length and a pending rest carry over from earlier calls. |
| KmlKeys.PlayOnce | macro/kml.py:95-129 | A new parser plays a text as the specification says. |
| KmlKeys.WordIsTyped | macro/kml.py:101-352 | A word of letters leaves one press and one release for each letter, of that letter's key, without modifiers and of a quarter note at the first tempo. |
| KmlKeys.ModifiedWord | macro/kml.py:101-352 | The same word in a range of one modifier leaves the same keys with that modifier's bit. |
| KmlKeys.TimedNote | macro/kml.py:209-370 | A letter with a digit lasts the part of a whole note the digit says, at the tempo set before it. |
| KmlKeys.SpecialKey | macro/kml.py:302-325 | A key name in brackets taps the key of that name. |
| KmlKeys.EscapeKey | macro/kml.py:151-166 | The escapes tap Enter, Tab, Backspace and Space without modifiers. |
| KmlTiming.TimingIsExact | macro/kml.py:365-370 | The milliseconds computed with floating-point division and multiplication, each rounded to 53 bits, are the exact quotient rounded down, for every tempo and length. |
| KmlTiming.RoundReaches | macro/kml.py:365-370 | Rounding does not fall below a whole number that the exact value misses by at most one part in 2^54; ties to even matter here. |
| KmlParser.Parser.LengthToMs | macro/kml.py:365-370 | The length in milliseconds, or the exception of a zero tempo or length. |
| KmlParser.ParsedScore | macro/kml.py:101-129 | What parse returns on a new parser: it raises exactly when a token is not playable; else the events are the score, in press/release pairs, with every rest accounted for. |
| KmlMeaning.RunPlaysScore | macro/kml.py:101-370 | The stateful interpreter refines the score, in which each tap is read off the text around it: last tempo, last length, enclosing ranges, rests since the last tap. |
| KmlMeaning.NestedStep | macro/kml.py:277-300 | The modifier stack is never empty and its levels are the modifiers of the open ranges. |
| KmlMeaning.ModifierIsOpenRanges | macro/kml.py:229-300 | A modifier bit is held if and only if a range that is still open asks for it. |
| KmlMeaning.LevelsContain | macro/kml.py:277-300 | Each level of the stack contains the one below it. |
| KmlMeaning.RestsConserved | macro/kml.py:209-225 | Initial pending rest plus all rests equals the press delays plus the final pending rest. |
| KmlMeaning.ScoreIsPairs | macro/kml.py:354-363 | Two events for each token that taps a key, with equal key and modifier. |
| WebSocket.SendFrame | tools/morse_browser_smoke.py:79-94 | What is sent decodes, by sections 5.2 and 5.3 of RFC 6455, to one final masked text frame with the payload, and uses the shortest length form. |
| WebSocket.DecodeEncoded | tools/morse_browser_smoke.py:79-121 | Decoding gives back every frame, masked or not, across the length boundaries, whatever follows it. |
| WebSocket.MaskedTwice | tools/morse_browser_smoke.py:92-94 | Masking is its own inverse. |
| WebSocket.Socket.ReadExact | tools/morse_browser_smoke.py:96-103 | However the socket splits the stream, exactly the requested bytes, or the end of the stream. |
| WebSocket.Socket.ReceiveFrame | tools/morse_browser_smoke.py:105-121 | Reads the frame the decoder finds and leaves the rest of the stream; pings are passed over, a close frame or the end of the stream closes. |
| WebSocket.PingsPassedOver | tools/morse_browser_smoke.py:105-121 | On any number of pings and one other frame, exactly these are consumed and that frame's payload is delivered. |
| RollAnalyzer.ZeroToNextPress | tools/hid_release_roll_analyzer.py:44-80 | All rolls under the threshold, once each, in log order, and nothing else. |
| RollAnalyzer.FindNext | tools/hid_release_roll_analyzer.py:54-61 | The next write on the same endpoint, or none. |
| RollAnalyzer.RollMeans | tools/hid_release_roll_analyzer.py:11-69 | What a roll is, from the log alone: the first later write on the endpoint of one of the two all-keys-up reports is neither of them and follows in less than the threshold. |
| RollAnalyzer.OnePassFindsRolls | tools/hid_release_roll_analyzer.py:44-80 | A single pass that remembers the last write of every endpoint finds exactly the rolls. |
| RollAnalyzer.OnePassDistinct | tools/hid_release_roll_analyzer.py:44-80 | The single pass finds no match twice. |
| RollAnalyzer.SearchIsOnePass | tools/hid_release_roll_analyzer.py:44-80 | The quadratic search and the single pass find the same matches, each as often. |
| RollAnalyzer.PressClaimedOnce | tools/hid_release_roll_analyzer.py:44-80 | No next write is claimed twice. |
| RollAnalyzer.ThresholdMonotone | tools/hid_release_roll_analyzer.py:68-69 | A larger threshold only adds matches. |
| VilLayout.BuildVilDocument | vil_layout.py:159-221 | Every cell and encoder target of every layer with its keycode, the settings, and a warning for exactly the exported actions without a keycode. |
| VilLayout.ParseVilImport | vil_layout.py:433-537 | For any document: refused, set aside for a foreign uid, or exactly the list of remaps its in-range decodable values ask for, in order and as often as they ask, those of the layout first. |
| VilLayout.ExportImport | vil_layout.py:159-537 | Importing an export and applying the remaps in order: every exported position whose keycode names an action gets it, also where encoder targets overlap the matrix; all other positions stay as they were. |
| VilLayout.RestoredExactly | vil_layout.py:159-537 | A changed exported position is restored if and only if the codec gives its action back. |
| VilLayout.ExportIsReadable | vil_layout.py:159-221 | Interaction settings, macro buffer and uid come back unchanged. |
| VilLayout.EncodersWin | vil_layout.py:503-526 | Where a document gives a cell and an encoder target the same place, the encoder's action stays. |
| VilLayout.ImportEncoders | vil_layout.py:508-526 | The remaps of the encoder values of one layer, in order; extra encoders and values are ignored. |
| VilLayout.LayoutRemapsMean | vil_layout.py:488-506 | A remap is in the layout's list if and only if an in-range cell of its layer decodes to it. |
| VilLayout.TurnsRemapsMean | vil_layout.py:508-526 | A remap is in the encoders' list if and only if an encoder value of its layer decodes to it and aims at its place. |
| VilOrder.LayoutInTurn | vil_layout.py:488-506 | The remaps of the layout are those of its in-range values that name an action, each once, layer by layer, row by row, value by value. |
| VilOrder.TurnsInTurn | vil_layout.py:508-526 | Those of the encoder layout are those of the first two values of each configured encoder, each once and in order. |
| VilOrder.NumbersNameActions | vil_layout.py:553-565 | A value names an action if it is a number, is not negative and the codec knows it. |
| VilOrder.CellsAre | vil_layout.py:490-503 | A value is looked at only inside arrays of arrays. |
| VilOrder.ExportedCell | vil_layout.py:172-182 | A cell is exported as the keycode of its action, and one without an action as that of KC_NONE. |
| VilOrder.ExportedTurn | vil_layout.py:183-196 | So are the two targets of each encoder, in their order. |
| VilOrder.ExportIsMarked | vil_layout.py:196-221 | The version, the identity, and the settings of an export: the warnings if there are any, and what else travels along if it is there. |
| VilLayout.LastWins | vil_layout.py:503-537 | Of several remaps for one place the last one stays. |
| LockMerge.MergedSummaryRows | tools/buildroot_compliance_bundle.py:189-222 | Refused exactly when the column names are not the expected ones, there is no row, or two rows of a component name different archives; else the collected components in strictly increasing key order. |
| LockMerge.OccurrencesAddUp | tools/buildroot_compliance_bundle.py:217-222 | The occurrences of all components add up to the number of rows. |
| LockMerge.RowOrderDoesNotMatter | tools/buildroot_compliance_bundle.py:189-222 | Reordering the rows changes nothing but the source sites. |
| LockMerge.SiteIsOfFirstRow | tools/buildroot_compliance_bundle.py:199-213 | The source site does depend on the order: it is the first row's. |
| LockRecord.LockToolchain | tools/buildroot_compliance_bundle.py:271-333 | A lock comes out if and only if the evidence has the pinned digests, the rows are accepted, and names, base URLs and downloads are well formed; then it is the record of the summary and passes both validators. |
| LockRecord.BuildLock | tools/buildroot_compliance_bundle.py:271-333 | The record built for each component, its artifacts, the copied toolchain and builder fields and the counts. |
| LockRecord.GeneratedLockPasses | tools/buildroot_compliance_bundle.py:271-451 | A lock generated from an accepted summary always matches that summary, and passes the other validator if and only if names, base URLs and downloads are well formed. |
| LockRecord.SummaryMatches | tools/buildroot_compliance_bundle.py:411-451 | Comparing a lock with its summary by its keys, licenses, archives and file addresses finds no difference. |
| LockLaws.ValidatedIsRecord | tools/buildroot_compliance_bundle.py:346-451 | Any lock that passes both validators, however it came about, has the pinned evidence and of each component of the summary exactly one record in key order, with the licenses, archive, site and file addresses of the summary, and digests and sizes that are well formed. |
| LockLaws.CountsMean | tools/buildroot_compliance_bundle.py:318-331 | Sources and license files are counted one by one, stored objects by digest. |
| LockLaws.AddressesAre | tools/buildroot_compliance_bundle.py:116-123 | Sources and license files lie under name and version, the license files of a buildroot that was not saved under its name alone. |
| LockLaws.AddressIs | tools/buildroot_compliance_bundle.py:112-117 | An address is the base without its last slashes, the encoded component and the encoded name. |
| LockLaws.SafeRelativeMeans | tools/buildroot_compliance_bundle.py:72-76 | The license file names accepted: relative, written in the normal way, without dot-dot. |
| LockLaws.DigestsAre | tools/buildroot_compliance_bundle.py:46-46 | A digest is 64 hexadecimal digits, in small letters. |
| LockLaws.ColumnsAre | tools/buildroot_compliance_bundle.py:189-198 | The seven columns of a summary. |
| LockRecord.UrlUnderBase | tools/buildroot_compliance_bundle.py:116-117 | An official URL starts with its configured base unless the base ends in two slashes. |
| LockRecord.LockCountsRows | tools/buildroot_compliance_bundle.py:318-331 | The counted rows are the rows of the summary, and the components their distinct keys. |
| PosixPaths.JoinedIsSafe | tools/buildroot_compliance_bundle.py:1063-1072 | A name joined from parts is accepted unless a part is dot-dot or holds a backslash. |
| PosixPaths.SafeMeans | tools/buildroot_compliance_bundle.py:1063-1072 | The accepted names are exactly those joined from parts that are neither empty, dot, nor dot-dot and hold no backslash, perhaps with slashes at the end. |
| PosixPaths.PartThenRest | tools/buildroot_compliance_bundle.py:1063-1064 | A name is read part by part; empty parts and single dots are dropped. |
| PosixPaths.JoinedTogether | tools/buildroot_compliance_bundle.py:1064-1064 | Joined parts have one slash between them. |
| PosixPaths.PartsOfJoined | tools/buildroot_compliance_bundle.py:1063-1064 | Joining parts and reading the name again gives the parts back. |
| TarWrite.NormalizedTar | tools/buildroot_compliance_bundle.py:643-668 | The members in sorted order; a file already archived under another name becomes a link to it. |
| TarWrite.ArchiveAccepted | tools/buildroot_compliance_bundle.py:643-1126 | An archive written from a directory is accepted if and only if the directory holds only folders and plain files without backslashes in their names and is within 8 GiB. |
| TarWrite.ArchiveRoundTrip | tools/buildroot_compliance_bundle.py:643-1126 | Extracting what was written gives back every file with its bytes, hard links included, every folder, and nothing else. |
| TarExtract.ExtractArchive | tools/buildroot_compliance_bundle.py:1046-1126 | Any sequence of members is accepted exactly when it is not empty and each member fits those before it: distinct safe names under the one root, links to files already extracted, a free place, total size within the limit; then exactly the members' files are there. |
| TarExtract.ExtractMember | tools/buildroot_compliance_bundle.py:1083-1109 | Where a member goes, and when its place is taken. |
| TarExtract.Contained | tools/buildroot_compliance_bundle.py:1063-1079 | Nothing is extracted outside the one root. |
| TarExtract.OneDestination | tools/buildroot_compliance_bundle.py:1086-1109 | The accepted members determine the extracted tree. |
| MatrixReplay.ParseMatrixStream | tools/logicd_python_matrix_replay.py:24-38 | The events of a stream of packets, or the refusal. |
| ReplayLaws.PacketIsRead | tools/logicd_python_matrix_replay.py:28-37 | Which four characters are a packet, and the event of each; the last character is not looked at. |
| ReplayLaws.PacketIs | tools/logicd_core_parity_suite.py:70-76 | The four characters written for an event, and the rows and columns in range. |
| ReplayLaws.StreamIsRead | tools/logicd_python_matrix_replay.py:24-38 | A stream is read packet by packet, and refused for a part of one. |
| ReplayLaws.HeldMeans | tools/logicd_core_parity_suite.py:126-218 | Independent of the fold that computes it: a run is legal if presses are of keys that are up and releases of keys that are down, and held are the cells whose last event is a press. |
| MatrixReplay.PacketsRead | tools/logicd_core_parity_suite.py:70-76 | A generated stream reads back as the events it was made of. |
| MatrixReplay.PressIsReleased | tools/logicd_core_parity_suite.py:126-218 | In a balanced run every press has exactly one release, with nothing on that key in between. |
| MatrixReplay.RunIsBalanced | tools/logicd_core_parity_suite.py:137-218 | A tap, chord or layer run presses no key twice and ends with nothing pressed if and only if it does not hold and tap the same cell. |
| MatrixReplay.SequencesReplay | tools/logicd_core_parity_suite.py:126-218 | Each generated stream reads back as the events of its run. |
| MatrixReplay.HeldIsNotTapped | tools/logicd_core_parity_suite.py:148-218 | When different coordinate texts name different cells no generated run holds and taps the same cell. |
| MatrixReplay.SameCellPressedTwice | tools/logicd_core_parity_suite.py:148-165 | The condition is needed: for a keymap with a modifier and a letter at two texts for one cell, a generated run presses that cell twice. |
| MatrixReplay.ChordIsBalanced | tools/logicd_core_parity_suite.py:148-165 | The chord of a keymap is balanced if and only if its modifier and its normal key are not texts for one cell. |
| MatrixReplay.NothingRaises | tools/logicd_core_parity_suite.py:126-218 | With all cells and layers in range the generation raises nothing. |
| MatrixReplay.TapSequences | tools/logicd_core_parity_suite.py:137-146 | One tap stream for each of the first supported keys, or the exception of a cell out of range. |
| MatrixReplay.LayerSequences | tools/logicd_core_parity_suite.py:167-218 | One stream for each layer key in order whose layer has a normal key, or the exception. |
| MatrixReplay.LayerSequence | tools/logicd_core_parity_suite.py:167-218 | The stream for a layer key and the first normal key of its layer. |
| MatrixReplay.ChordSequence | tools/logicd_core_parity_suite.py:148-165 | The first modifier held around the first normal key. |
| MatrixReplay.BuildSequences | tools/logicd_core_parity_suite.py:126-218 | The streams are those of the taps, then the chord, then the layer keys in order, one for one; it raises exactly when one of these does. |
| ReplayLaws.RunsAre | tools/logicd_core_parity_suite.py:126-218 | The taps of the first keys, the chord, and the runs of the layer keys, put together in this order. |
| ReplayLaws.TappedAre | tools/logicd_core_parity_suite.py:132-138 | The keys to be tapped: those of the base layer with codes 1 to 231, in the order of their coordinates. |
| ReplayLaws.KeyCodes | tools/logicd_core_parity_suite.py:79-93 | Codes 1 to 223 are normal keys, 224 to 231 modifiers; code 0 is supported and neither. |
| ReplayLaws.TakenAre | tools/logicd_core_parity_suite.py:142-142 | A count takes that many from the front, a negative one leaves that many out at the end. |
| ReplayLaws.TapsAre | tools/logicd_core_parity_suite.py:142-146 | Each tap is of its coordinate's cell and has its action. |
| ReplayLaws.ChordIs | tools/logicd_core_parity_suite.py:139-165 | The chord is of the least coordinate with a modifier and the least with another key. |
| ReplayLaws.NoChord | tools/logicd_core_parity_suite.py:148-165 | Without a modifier, or without another key, there is no chord. |
| ReplayLaws.LayerRunIs | tools/logicd_core_parity_suite.py:167-218 | The run of a layer key: with the least coordinate of its layer that has a normal key and is not its own; none without such a key, and an exception for a layer before the first. |
| ReplayLaws.LayerIs | tools/logicd_core_parity_suite.py:167-178 | A layer number counts from the front, a negative one from the end; beyond the last there is no layer, before the first an exception. |
| ReplayLaws.LayerActionIs | tools/logicd_core_parity_suite.py:96-109 | A layer action is one of five names with a number in parentheses. |
| ReplayLaws.LayerActionsOnly | tools/logicd_core_parity_suite.py:96-109 | Nothing else is a layer action. |
| ReplayLaws.KeysPressed | tools/logicd_core_parity_suite.py:137-218 | The events of each kind of run, spelled out. |
| MatrixReplay.KeyKinds | tools/logicd_core_parity_suite.py:79-93 | Each supported key with a code is a normal key or a modifier, and never both. |

## Left out

- Sockets, subprocesses, journal reading, report rendering, argument parsing and printing: input and output without a property of their own.
- Python syntax checks, regular-expression engines (but for the one assignment pattern), JSON text, tar and zstd formats: library behaviour. Tar member order, hard-link detection and JSON values are modelled, their bytes are not.
- SHA-256 is an injective function, or contents are compared directly.
- Bytes of files are strings; UTF-8 coding and its errors are not modelled.
- Files: directories, links in parent directories and file owners; a path is its parts and a name. `mkdir` of parents is a fault point.
- ProfileRun.ApplyProfile: the JSON types of the profile's fields are taken for granted and the text of rendered drop-ins is a parameter; what a service call does when it fails half way, and the messages of a dry run, are not modelled.
- ProfileRun.CompleteApply: says that files and drop-ins are installed only when the runtime directory is no drop-in directory and holds none of the sources, because otherwise a later step may overwrite an earlier one.
- MigrateScripts.MigrateRuntimeScripts: what is kept is stated only when no script or possible backup is named like a temporary of the run and no left-over temporary is a link; otherwise only the turns of a completed run are described. Default scripts that are symbolic links are not modelled.
- TreeSnapshot.SnapshotEarlyRuntimeTree: contents are represented by their length; previews and JSON details of the rows are left out.
- TreeSnapshot.SnapshotEarlyRuntimeTree: that the rows list the tree is stated for runs in which no call fails and the tree does not change.
- Dotenv.ParseEnvironment: inspecting the file (owner, mode, signature) and the atomic rewrite are left out.
- KmlParser.Parser.Parse: letters and digits outside ASCII, and numbers too long for `int`, are not modelled. The executor that sends the events is left out.
- VilLayout.BuildVilDocument: tap dances, combos and key overrides are a parameter, since import passes over them; a warning is represented by its action. The keycode codec is a pair of functions.
- VilLayout.ParseVilImport: its own warnings are left out.
- LockMerge.MergedSummaryRows: reading CSV text; rows and the set of column names are its result.
- LockRecord.GeneratedLockPasses: percent-encoding is a function whose results have no leading slash, and downloads are a function of the address.
- Bundle manifests, checksum files and legal-info verification: one field check after another.
- TarExtract.ExtractArchive: which files share an inode after extraction; a truncated stream.
- WebSocket.Socket.ReceiveFrame: the JSON in the payload, timeouts, and reassembly of fragments, which the source does not do either.
- RollAnalyzer.ZeroToNextPress: rounding of the reported milliseconds; times are reals divided exactly.
- MatrixReplay.BuildSequences: `int()` of a text is a parameter; sequence names and the run of the two daemons are left out.
- Owner recovery, live smoke and stress tools, LED previews, video and icons, SBOM and provenance tools: their outcome depends on devices or on long lists of single checks.
