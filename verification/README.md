# PathGuard Next: what its parts promise, proved

PathGuard Next turns a rules file into a binary policy, publishes it, and enforces it by bind
mounts inside an app's mount namespace. This project models the parts where a mistake is hard to
see and proves, for every input and every run, what they promise.

**The mount transaction** (`MountBackend`, `MountTransaction`, `MutationJournal`, `MountTable`,
`MountExecutor`, `Protocol`, `ProtocolInvariant`, `ProtocolSafety`). Three processes share one
status word and one result record: the app that waits, the forked worker that mounts and rolls
back, and the companion that reaps the worker. `Protocol.Step` is one load, one write, one
compare-and-swap or one kernel mutation of one of them; any process may die between two steps,
every system call may fail, and other processes mount and unmount away from the plan's targets. A
plan is any plan that can be loaded: one to 64 redirects and denials with different targets, which
may lie below one another.

**The arrow scanner and the desugarer** (`TomlString`, `Lexer`, `Desugaring`, `ScanTracking`,
`ArrowScanner`, `RewriteMap`, `Desugarer`). `Lexer` says what it means to read a text as lexemes.
The scanner's history variable `cut` carries the lexemes read so far, cut into arrow rules and
everything else; the scanner is proved to keep that history true, and the emitted text to read as
the rewritten lexemes.

**The policy format** (`ByteLayout`, `OctetBits`, `DecimalText`, `Separated`, `LogicalPath`,
`Validation`, `PolicyFormat`, `Checksum`, `PolicyDecoder`, `PolicyIndex`, `PolicyEncoder`,
`PlanLoader`, `CompiledPolicy`). The encoder with its string table, the validating decoder, the
lookup by name, and the loader that reads one process's plan straight from the mapped file. A file
is a `string` whose characters are its bytes. The 32-bit package hash and the 64-bit generations
are the FNV-1a functions of the format; the checksum is the CRC of section 8 of RFC 1952.

**The semantic checks** (`PathOrder`, `Sorting`, `Neighbours`, `RedirectCycle`, `Semantic`). Checks
that look at sorted neighbours only, against the definitions they stand for.

**Publishing** (`Publisher`, `Reconciler`). The publish sequence over a directory of files whose
every operation may fail, and the control state around it.

**The provider path mapper** (`PathMapper`). Longest-match rewriting and its inverse.

Four natural claims are false of the code. Each has a witness and the exact condition under which
the claim holds:

- comparing sorted neighbours misses an overlap when a path continues another with a byte below
  `/` (`Neighbours.SpaceHidesAnOverlap`, `Neighbours.NeighbourCheckExact`), and the deny check
  misses a covering denial for the same reason (`Neighbours.SpaceHidesADenial`,
  `Neighbours.DenyCheckExact`);
- the depth-first search keeps the first rule of a repeated source, so it can miss a cycle of the
  rules (`RedirectCycle.MissedTargets`, `RedirectCycle.ExactlyForDistinctSources`);
- a publish that fails without a previous policy, and cannot remove what it put in place, leaves
  the new policy active and the control state unaware (`Reconciler.StrandedPolicy`,
  `Publisher.Publish`, `Publisher.RecoversExactly`);
- restoring a path is ambiguous when one rule of a caller restores what another one made
  (`PathMapper.SharedBackingIsAmbiguous`, `PathMapper.RestoreExactly`).

`dafny verify dfyconfig.toml` checks the whole project.

## Model

| member | source | states |
|---|---|---|
| `MountBackend.SelectBackend` | core/include/pathguard/mount_backend.h:46-75 | The backend selected is the first usable one, strict backends before the string bind, which needs the policy flag; none is selected exactly when none is usable, and the reason says what is missing |
| `MountBackend.NextBackend` | core/include/pathguard/mount_backend.h:77-89 | A fallback moves strictly up the order of backends or gives up, and reaches the string bind only with the policy flag, a disposable namespace and a plan of redirects alone |
| `MutationJournal.Journal.constructor` | core/include/pathguard/mutation_journal.h:8-41 | A new journal is empty and has the requested capacity |
| `MutationJournal.Journal.Push` | core/include/pathguard/mutation_journal.h:10-14 | The entry is appended exactly when there is room; a full journal is unchanged |
| `MutationJournal.Journal.Pop` | core/include/pathguard/mutation_journal.h:16-20 | The newest entry is taken away, so that a pop undoes a push; an empty journal is unchanged |
| `MutationJournal.Journal.UpdateAt` | core/include/pathguard/mutation_journal.h:28-32 | One recorded entry is replaced and no other; an index out of range changes nothing |
| `MutationJournal.Journal.Clear` | core/include/pathguard/mutation_journal.h:38-38 | Nothing is recorded any more |
| `MountTable.FindEntry` | native/mount_info_snapshot.cpp:187-220 | The row found is the last exact match, or the last of those with the longest mountpoint owning the path; no row is found only if none matches |
| `MountTable.FindSelects` | native/mount_info_snapshot.cpp:187-220 | The recursive selection satisfies that declarative description |
| `MountTable.OnMountIsTransitive` | native/mount_info_snapshot.cpp:97-103 | Lying on a mountpoint is transitive |
| `MountTable.UnmountOurs` | native/mount_executor.cpp:423-439 | Detaching the newest mount of the transaction, when nothing hangs below it, removes that mount alone and changes no lookup elsewhere |
| `MountTable.UnmountElsewhere` | native/mount_executor.cpp:423-439 | A detach elsewhere, with everything that hangs below it, removes none of the transaction's mounts |
| `MountExecutor.VerifyMount` | native/mount_executor.cpp:313-392 | A mount is confirmed only if a row stands on its target, and the id recorded is that row's and not zero; nothing but the id changes |
| `MountExecutor.ValidateRollback` | native/mount_executor.cpp:394-421 | An entry passes only if its id was recorded and is the id of the row on its target |
| `MountExecutor.VerifyRollback` | native/mount_executor.cpp:441-471 | An entry passes only if the row on its target is not the mount that was undone |
| `MountExecutor.ValidateAllPasses` | zygisk/src/module_entry.cpp:1929-1945 | The identity pass succeeds exactly when every entry passes |
| `MountExecutor.ValidateJournal` | zygisk/src/module_entry.cpp:1929-1945 | The downward loop that stops at the first failure succeeds exactly when every entry passes, and otherwise reports the failure of the newest entry that fails |
| `MountExecutor.VerifyRollbackAllPasses` | zygisk/src/module_entry.cpp:1970-1977 | The last pass succeeds exactly when every entry passes |
| `ProtocolInvariant.StepKeeps` | zygisk/src/module_entry.cpp:1444-2014 | Every step of every process, and every death, keeps the invariant that ties status, lease, result, the processes' places, journal and mount table; only other mounters change foreign mounts |
| `ProtocolInvariant.RunKeeps` | zygisk/src/module_entry.cpp:1444-2014 | The invariant holds in every state of every run |
| `ProtocolInvariant.UnmountKeepsTable` | zygisk/src/module_entry.cpp:1946-1952 | Unmounting in reverse order takes the transaction's newest mount away and leaves the others on top of their targets, nested targets included |
| `ProtocolInvariant.HydratedJournal` | zygisk/src/module_entry.cpp:1824-1878 | A hydrated journal still names the plan's rules in order, and every id it holds is the id of the transaction's own mount |
| `ProtocolSafety.FalseMeansNoMutation` | zygisk/src/module_entry.cpp:2077-2138 | If the app's wait ever returns false without the app being killed, the transaction has made no mount and no propagation change in any state before and will make none in any state after |
| `ProtocolSafety.NeverPendingAgain` | zygisk/src/module_entry.cpp:1260-1269 | Once the status has left Pending no step enters it again and the lease cannot be won |
| `ProtocolSafety.RollbackCompleteRestores` | zygisk/src/module_entry.cpp:1993-2012 | RollbackComplete means that nothing of the transaction is left and, with no other mounter, the table is the original one, or that the namespace was terminated; also when the worker lost its race and the companion published |
| `ProtocolSafety.AloneKeepsForeign` | zygisk/src/module_entry.cpp:1444-2014 | With no other mounter, the mounts that are not the transaction's are the original table in every state |
| `ProtocolSafety.CleanRollbackIsExact` | zygisk/src/module_entry.cpp:1889-1982 | A rollback that reports no failure has removed every mount of the transaction and, with no other mounter, restored the table exactly, whether or not the propagation of /storage was changed |
| `ProtocolSafety.UnmountsAreConfirmed` | zygisk/src/module_entry.cpp:1929-1952 | Whenever an unmount changes the table, every journal entry had been confirmed, the ids are those of the live mounts, and exactly the newest of them disappears |
| `ProtocolSafety.UnconfirmedBlocksUnmount` | native/mount_executor.cpp:394-405 | One entry with mount id 0 makes the identity pass fail, and the rollback goes on to report failure without unmounting anything |
| `ProtocolSafety.JournalNeverOverflows` | zygisk/src/module_entry.cpp:1756-1761 | In every run the journal has room for the next mutation, so no mutation goes unrecorded |
| `ProtocolSafety.CompleteStaysInForce` | zygisk/src/module_entry.cpp:1695-1888 | From the step that sets Complete on, each rule has exactly one live journaled mount on top of its target, in order and on one backend, which is the string bind only if allowed and every rule is a redirect |
| `ProtocolSafety.OnlyTheLeaseHolderCompletes` | zygisk/src/module_entry.cpp:1800-1822 | Complete is set by a step of the worker, from Applying, while it holds the lease |
| `ProtocolSafety.ResultIsFinal` | zygisk/src/module_entry.cpp:1238-1247 | A status with a result, and the result it announced, never change again, although the transition table would let Failed become RollbackComplete |
| `ProtocolSafety.ResultMatchesStatus` | zygisk/src/module_entry.cpp:1238-1247 | A published result says success exactly when the status is Complete |
| `ProtocolSafety.NoReportWhileApplying` | zygisk/src/module_entry.cpp:2697-2719 | The companion never holds a worker's report while the status is Applying, so its branch that would publish Complete for the worker is never taken |
| `ProtocolSafety.CompletionIsReachable` | zygisk/src/module_entry.cpp:1444-1888 | From every initial state a plan of one rule has a run that completes |
| `TomlString.ScanStringToken` | rules/src/arrow_scanner.cpp:92-134 | The scan by parity of backslash runs finds the same end, form and termination as reading left to right and letting each escape consume a character, for all four string forms |
| `TomlString.CountQuotes` | rules/src/arrow_scanner.cpp:86-90 | The count is the length of the run of quotes |
| `TomlString.QuotesRead` | rules/src/arrow_scanner.cpp:111-131 | A run of three live quotes or more closes a multi-line string and takes at most two more quotes with it; a shorter run is content |
| `TomlString.StringIsLocal` | rules/src/arrow_scanner.cpp:92-134 | A closed string token is read the same before any continuation that starts alike |
| `Lexer.LexesConcat` | rules/src/arrow_scanner.cpp:145-266 | A text reads as two lists of lexemes in a row exactly when the first reads before the second and the second from the state the first leaves |
| `Lexer.LexingIsDeterministic` | rules/src/arrow_scanner.cpp:145-266 | A text has one complete reading |
| `Lexer.ReadsStable` | rules/src/arrow_scanner.cpp:145-266 | A lexeme is read the same before every continuation it cannot be merged with |
| `Desugaring.RewriteLexes` | rules/src/desugarer.cpp:192-271 | The rewritten text reads as the rewritten lexemes and leaves the scanner in the state the original leaves it in |
| `Desugaring.RewriteTokens` | rules/src/desugarer.cpp:192-271 | Its tokens are the original ones with each String Arrow String replaced by the nine tokens of a table with the same operands |
| `Desugaring.NoArrowSurvives` | rules/src/desugarer.cpp:192-271 | No rewritten lexeme is an arrow |
| `Desugaring.DesugaringPreservesTokens` | rules/src/desugarer.cpp:192-271 | Every complete reading of the rewritten text has those tokens, holds no arrow, and ends in the original state |
| `ScanTracking.SoundMeans` | rules/src/arrow_scanner.cpp:394-459 | The pieces the automaton's history is cut into are well formed, stand apart and have their arrow rules in arrays |
| `ScanTracking.Flush` | rules/src/arrow_scanner.cpp:478-486 | What the automaton still holds at the end is no arrow rule, and the sites of the cut are the candidates reported |
| `ScanTracking.CompleteTracked` | rules/src/arrow_scanner.cpp:394-476 | Accepting a target adds exactly the arrow rule that was read and goes on tracking |
| `ArrowScanner.Scanner.constructor` | rules/src/arrow_scanner.cpp:136-145 | A new scanner has read nothing and found nothing wrong |
| `ArrowScanner.Scanner.AddDiagnostic` | rules/src/arrow_scanner.cpp:288-301 | A finding marks the scan as failed even when the list of diagnostics is full |
| `ArrowScanner.Scanner.HandlePending` | rules/src/arrow_scanner.cpp:394-459 | As long as nothing is wrong, the pending candidate is exactly what the tokens read so far make of it |
| `ArrowScanner.Scanner.ConfirmCandidate` | rules/src/arrow_scanner.cpp:461-476 | A confirmed candidate is added once, and only within the limit |
| `ArrowScanner.Scanner.Emit` | rules/src/arrow_scanner.cpp:380-392 | A token is added to the history, and the scanner stays valid |
| `ArrowScanner.Scanner.PushFrame` | rules/src/arrow_scanner.cpp:303-315 | A frame is pushed with a number of its own, or the depth limit is reported |
| `ArrowScanner.Scanner.PopFrame` | rules/src/arrow_scanner.cpp:339-368 | Exactly the innermost frame is closed |
| `ArrowScanner.Scanner.FinishAtEof` | rules/src/arrow_scanner.cpp:478-486 | A clean end leaves no arrow waiting and reports every completed rule |
| `ArrowScanner.Scanner.Loop` | rules/src/arrow_scanner.cpp:145-266 | Unless something is wrong, the cursor reaches the end of the source and everything before it has been read |
| `ArrowScanner.ScanArrowCandidates` | rules/src/arrow_scanner.cpp:145-266 | A clean scan consumes the whole source, and its candidates are exactly the arrow rules of the one reading of the source |
| `RewriteMap.Create` | rules/src/desugarer.cpp:62-82 | A map is made exactly from lists of segments that tile the generated text in order and stay inside the source |
| `RewriteMap.UpperBound` | rules/src/desugarer.cpp:84-112 | Binary search splits the segments by where they begin |
| `RewriteMap.MapGeneratedPosition` | rules/src/desugarer.cpp:84-112 | The segment found is the one linear search finds; every offset up to the end of the text is mapped and no other |
| `RewriteMap.MapGeneratedSpan` | rules/src/desugarer.cpp:114-144 | A span maps to the hull of what its segments stand for |
| `RewriteMap.HullExact` | rules/src/desugarer.cpp:114-144 | A span attained by one segment and exceeded by none is that hull |
| `Desugarer.PlanSize` | rules/src/desugarer.cpp:159-190 | The size computed beforehand never runs below zero and is the size of the text; acceptable rewrites fail only if the text is too large |
| `Desugarer.EmittedSize` | rules/src/desugarer.cpp:159-190 | The emitted text has the source's length plus what each table adds |
| `Desugarer.EmitTable` | rules/src/desugarer.cpp:213-254 | A table is appended with its five segments, or the segment limit is reached |
| `Desugarer.EmitRules` | rules/src/desugarer.cpp:192-256 | The loop writes the source between the rules and one table per rule, with at most six segments each |
| `Desugarer.EmitDesugaredSource` | rules/src/desugarer.cpp:146-271 | Success gives the rewritten bytes and a map whose segments tile them, copy truly, and together copy the source minus its operators; with six segments per rewrite and one more, acceptable rewrites fail only on the text's size |
| `Desugarer.EmittedIsRewritten` | rules/src/desugarer.cpp:192-271 | Replacing bytes at the sites gives the text of the rewritten lexemes |
| `Desugarer.SitesInSequence` | rules/src/desugarer.cpp:28-41 | The sites of a clean scan are ordered, disjoint and valid |
| `Desugarer.CandidatesAcceptable` | rules/src/desugarer.cpp:28-41 | What a clean scan reports is accepted by the emitter, and emits the rewriting of the scanned pieces |
| `Desugarer.RedirectMapsBack` | rules/src/desugarer.cpp:114-144 | Each generated table, source and target maps back to exactly the rule, source and target it was made from |
| `Desugarer.DesugarRulesSource` | rules/src/desugarer.cpp:273-290 | The parser is handed a desugaring of the source with an exact map, or the scanner's findings are reported; with room for the segments the only internal failure is a text that is too large, and with room for the text there is none |
| `Desugarer.DefaultsAreRoomy` | rules/include/pathguard/rules_contract.h:10-23 | The default limits leave that room for every source of up to one mebibyte, so that desugaring it never fails internally |
| `Desugarer.NeverOversized` | rules/src/desugarer.cpp:159-190 | A rewrite adds at most 18 bytes, so the computed size stays within a limit that leaves that much for each |
| `Desugarer.DesugaringPreservesMeaning` | rules/src/desugarer.cpp:273-290 | However source and generated text are read, the tokens of the second are the desugared tokens of the first and no arrow is among them |
| `PathOrder.BetweenAncestorAndDescendant` | rules/src/semantic.cpp:356-362 | Between a path and something below it sort only paths below it and paths that continue it with a byte below the separator |
| `Neighbours.NeighbourCheckExact` | rules/src/semantic.cpp:193-210 | On a sorted list neighbours overlap exactly when a path repeats, or some path has another below it and no intruder in the list |
| `Neighbours.NeighbourCheckComplete` | rules/src/semantic.cpp:193-210 | With no byte below the separator, neighbours overlap exactly when any two paths do |
| `Neighbours.SpaceHidesAnOverlap` | rules/src/semantic.cpp:193-210 | A sorted list with an overlap that no two neighbours show |
| `Neighbours.ReductionKeepsCoverage` | rules/src/semantic.cpp:248-266 | Dropping denials under the last one kept never changes which paths are covered, in whatever order they come |
| `Neighbours.ReducedIsMinimal` | rules/src/semantic.cpp:248-266 | Sorted and without such bytes, no two denials that are kept overlap |
| `Neighbours.DenyCheckExact` | rules/src/semantic.cpp:267-291 | The check finds a covering denial for every source if and only if no denial lies below another or continues another with a byte below the separator |
| `Neighbours.IntruderHides` | rules/src/semantic.cpp:267-291 | For any such continuation, a source whose covering denial the check misses |
| `Neighbours.MeetsIsCovered` | rules/src/semantic.cpp:267-291 | With no byte below the separator and no two denials overlapping, the check finds a covering denial exactly when there is one |
| `Neighbours.SpaceHidesADenial` | rules/src/semantic.cpp:267-291 | A reduced list whose covering denial the check misses |
| `Neighbours.InsertionPoint` | rules/src/semantic.cpp:267-291 | The two denials around the lower bound decide the check |
| `RedirectCycle.FindCycle` | rules/src/semantic.cpp:212-234 | The coloured search terminates and reports a rule exactly when following redirects, each to the first rule with that source, returns to its start |
| `RedirectCycle.ReportedCycleIsReal` | rules/src/semantic.cpp:212-234 | What is reported is a cycle of the source-to-target graph |
| `RedirectCycle.ExactlyForDistinctSources` | rules/src/semantic.cpp:212-234 | Over all targets, the search agrees with the source-to-target graph if and only if no source occurs twice |
| `RedirectCycle.MissedTargets` | rules/src/semantic.cpp:212-234 | For any list with a repeated source, targets that make a cycle the search misses |
| `Semantic.NothingLost` | rules/src/semantic.cpp:94-110 | A list of diagnostics that did not fill up holds everything that was found |
| `Semantic.DropDuplicates` | rules/src/semantic.cpp:171-191 | Of sorted rules with equal source and target one is kept, and only warnings are given |
| `Semantic.App.ValidateRedirects` | rules/src/semantic.cpp:168-243 | The rules left are the sorted distinct ones, and each kind of error is raised exactly when its condition holds of them |
| `Semantic.App.ValidateDeny` | rules/src/semantic.cpp:245-292 | The denials left are the reduction of the sorted ones, and a conflict is raised exactly when the neighbour check meets one |
| `Semantic.App.Validate` | rules/src/semantic.cpp:168-292 | With no byte below the separator and a list of diagnostics that did not fill up, an error is reported exactly when two sources overlap, a source overlaps its target, a denial covers a source, redirects form a cycle, or a file picker has no redirect |
| `Semantic.LowerBound` | rules/src/semantic.cpp:267-272 | Binary search splits the denials by whether they sort before the path |
| `Semantic.CanonicalIgnoresOrder` | rules/src/semantic.cpp:444-475 | Reordering denials, redirects, users and processes, or renumbering rules, leaves an application's canonical form as it is |
| `Semantic.PolicyIgnoresOrder` | rules/src/semantic.cpp:441-482 | Reordering the applications too leaves the canonical policy as it is, if its packages differ |
| `CompiledPolicy.BytesIgnoreOrder` | rules/src/semantic.cpp:116-154 | Documents that differ in those orders only compile to the same bytes, or both to none |
| `CompiledPolicy.CompiledIsVerified` | rules/src/semantic.cpp:294-314 | The compiled bytes decode to the compiled applications and their content generation, so the compiler's own verification of them succeeds |
| `Separated.SplitJoin` | core/src/binary.cpp:146-168 | Splitting undoes joining exactly when there is an item and none holds the separator |
| `Separated.JoinSplit` | core/src/binary.cpp:146-168 | Joining undoes splitting, and no piece holds the separator |
| `LogicalPath.NormalizeLogicalPath` | core/src/path.cpp:82-93 | Normalisation leaves a path of proper components as it is and rejects every other |
| `LogicalPath.ExpandPathPlaceholders` | core/src/path.cpp:95-120 | Every package placeholder is filled, user placeholders stay, and any other brace is an error |
| `LogicalPath.ExpandedTwice` | core/src/path.cpp:95-120 | What was expanded once stays as it is |
| `Validation.NormalizeMounts` | core/src/validation.cpp:74-118 | Mounts are accepted exactly when each has a normal form and no two collide, and are then in that form |
| `Validation.ValidatePolicy` | core/src/validation.cpp:66-197 | A plan is accepted exactly when users, mounts and events are proper and agree with each other; accepted, it is in canonical form and order |
| `Validation.ValidatedTwice` | core/src/validation.cpp:66-197 | Validating a validated plan changes nothing |
| `Validation.MountsOnce` | core/src/validation.cpp:76-190 | Validated mounts are their own normal form, agree, are sorted, and are a permutation of the normalised ones |
| `ByteLayout.FieldReads` | core/src/binary.cpp:30-77 | A field written in little-endian order is read back from its place in the record |
| `ByteLayout.StringTable.constructor` | core/src/binary.cpp:170-172 | A new table holds the empty string at offset 0 |
| `ByteLayout.StringTable.Add` | core/src/binary.cpp:174-183 | A known string keeps its offset; a new one is appended with its terminator |
| `ByteLayout.InternedHolds` | core/src/binary.cpp:174-183 | After an addition the string stands at its offset, and every earlier string where it stood |
| `ByteLayout.HeldIsRead` | core/src/binary.cpp:192-203 | A NUL-free string that stands at an offset is what a reader finds there |
| `PolicyFormat.ListsSurvive` | core/src/binary.cpp:146-168 | A list survives storage exactly when it has items, none empty and none with a comma |
| `PolicyFormat.MountRowReads` | core/src/binary.cpp:325-333 | A mount row is read back as the mount it was written for |
| `PolicyFormat.EntryRowReads` | core/src/binary.cpp:308-323 | A package row is read back as the entry it was written for |
| `Checksum.Crc32` | core/include/pathguard/policy_format.h:77-87 | The two loops compute the checksum of the bytes |
| `Checksum.StepIsInjective` | core/include/pathguard/policy_format.h:77-87 | The per-bit step loses nothing |
| `Checksum.ShortBurstsAreDetected` | core/include/pathguard/policy_format.h:77-87 | Two payloads of one length that differ only within four consecutive bytes have different checksums |
| `PolicyDecoder.DecodePolicy` | core/src/binary.cpp:386-566 | For every byte string, reading within bounds, the decoder accepts exactly the files whose header, checksum, tables, order, canonical form and generations fit, and returns what they say |
| `PolicyIndex.RangesPartition` | core/src/binary.cpp:430-545 | The mount and event ranges of the packages read so far follow one another from the start of their tables, and each row says where its ranges are |
| `PolicyIndex.RangesUseTables` | core/src/binary.cpp:386-566 | In an accepted file the ranges of the packages the header counts add up to exactly the mount and event rows the header counts |
| `PolicyIndex.MountsAreTheirs` | core/src/binary.cpp:430-545 | Each package's mounts are read from its own range |
| `PolicyIndex.PackagesInOrder` | core/src/binary.cpp:430-452 | The packages of an accepted file are strictly ordered by hash and name |
| `PolicyIndex.CorruptionIsRejected` | core/src/binary.cpp:409-420 | An accepted file whose payload is changed within four consecutive bytes is rejected |
| `PolicyIndex.AcceptedIsIndexed` | core/include/pathguard/policy_index.h:36-43 | The package table of an accepted file is a hashed, ordered index of its names |
| `PolicyIndex.FindPackageEntry` | core/include/pathguard/policy_index.h:45-78 | The lookup finds a NUL-free name exactly when a linear search would, hash collisions included |
| `PolicyEncoder.CanonicalizeDocument` | core/src/binary.cpp:216-244 | A document is accepted exactly when it has schema 2, fails open, has applications with different packages, and each validates and asks only for redirects and denials |
| `PolicyEncoder.PutMounts` | core/src/binary.cpp:325-333 | The loop appends one row per mount, its strings interned in order |
| `PolicyEncoder.FillTables` | core/src/binary.cpp:304-344 | The loop over the applications writes the tables that the recursive definition of the file says |
| `PolicyEncoder.BodyFilled` | core/src/binary.cpp:304-344 | Every row written for an application or a mount names strings that the table holds |
| `PolicyEncoder.AssembleFile` | core/src/binary.cpp:361-384 | Writing a zero checksum and storing the real one over it gives the file with the checksum of its payload |
| `PolicyEncoder.EncodePolicy` | core/src/binary.cpp:270-384 | The result is a function of the document, and there is one exactly when the document is acceptable and its file fits 32-bit offsets |
| `PolicyEncoder.SmallDocumentsEncode` | core/src/binary.cpp:346-350 | An acceptable document whose rows and strings take less than four gigabytes is encoded |
| `PolicyEncoder.FileEncodes` | core/src/binary.cpp:304-384 | The file has the header that describes its tables, and its rows say what the applications are |
| `PolicyEncoder.GenerationIgnoresOrder` | core/src/binary.cpp:124-144 | The content generation does not depend on the order of the applications |
| `PolicyEncoder.UsersSortOneWay` | core/src/validation.cpp:43-50 | Users of different numbers have one sorted order, whatever sort is used |
| `PolicyEncoder.EncodeThenDecode` | core/src/binary.cpp:270-566 | Decoding an encoded document gives its validated applications in order of hash and package with the same content generation, if packages are NUL-free, lists have storable items and users differ in number |
| `PlanLoader.ListContains` | zygisk/src/module_entry.cpp:283-298 | The scan of a joined list finds an item exactly when the list is a star or has it |
| `PlanLoader.ProcessMatches` | zygisk/src/module_entry.cpp:300-306 | A process matches the joined list exactly when the decoded list admits it |
| `PlanLoader.ExpandRuntimePath` | zygisk/src/module_entry.cpp:894-917 | The result is the path with every user placeholder filled, if it then fits and is an allowed target |
| `PlanLoader.ValidPackageIndex` | zygisk/src/module_entry.cpp:417-438 | The walk accepts exactly tables whose names exist, hash as stored and are strictly ordered |
| `PlanLoader.ValidPolicyTables` | zygisk/src/module_entry.cpp:440-495 | The walk accepts exactly tables whose ranges follow one another and use them up, and whose rows are well formed |
| `PlanLoader.LoadRules` | zygisk/src/module_entry.cpp:664-699 | The loop plans the mounts of a range in order, or fails where one cannot be planned or the paths get too long |
| `PlanLoader.AcceptedIsLoadable` | zygisk/src/module_entry.cpp:417-495 | Whatever the decoder accepts, the loader's own checks accept |
| `PlanLoader.LoadProcessPlan` | zygisk/src/module_entry.cpp:497-705 | On every file the decoder accepts, the loader plans exactly what the decoded document says for that process and user: the mounts in order with the user filled in, by membership in the decoded lists, or nothing |
| `PlanLoader.PlannedTargetsDiffer` | zygisk/src/module_entry.cpp:497-705 | A plan taken from an accepted file has one to 64 rules, no two with the same target |
| `Publisher.Prepare` | daemon/src/rules_control.cpp:460-503 | The candidate is ready exactly when no fault struck and what landed in the file is the verified blob; no other file changes |
| `Publisher.Install` | daemon/src/rules_control.cpp:504-542 | The candidate takes the active policy's place, or the active policy is as it was, exactly unless undoing was needed and impossible |
| `Publisher.Publish` | daemon/src/rules_control.cpp:440-543 | Under every fault the active policy is the complete verified new one, the old one, or missing; after a failed publish it is the old one if and only if the publish was not stranded |
| `Publisher.RecoversExactly` | daemon/src/rules_control.cpp:518-538 | Over all faults, a publish cannot be stranded if and only if the old policy can be renamed back or, without one, the new file can be removed |
| `Reconciler.Reconciler.constructor` | daemon/src/rules_control.cpp:588-607 | The state starts with the generation of the active policy, 0 if there is none, and the recorded epoch if it belongs to that generation |
| `Reconciler.Reconciler.SetDeviceSnapshot` | daemon/src/rules_control.cpp:609-612 | A new device snapshot makes the next reconciliation compile again |
| `Reconciler.Reconciler.Reconcile` | daemon/src/rules_control.cpp:614-691 | The policy changes only to the complete compiled policy of current, admitted rules; the epoch rises by one exactly then; from a truthful state the state names the active policy's generation afterwards if and only if the publish was not stranded, and from any state it does once a policy is published or found active |
| `Reconciler.Reconciler.SaveRules` | daemon/src/rules_control.cpp:693-763 | Only rules that compile, are admitted and replace what the caller last saw are saved; then the policy is the compiled replacement and the epoch has risen by one, or neither has changed; a rejected save changes neither policy nor state |
| `Reconciler.StrandedPolicy` | daemon/src/rules_control.cpp:527-538 | A failed publish after which the new policy is active and the state says there is none |
| `Reconciler.StrandedUntilDirty` | daemon/src/rules_control.cpp:614-691 | After that, reconciling the same rules changes nothing; with a new device snapshot the policy is found active and the state names its generation, at the same epoch |
| `PathMapper.LogicalSuffix` | zygisk/src/provider_path_mapper.cpp:9-30 | The root found is the first of the user's three that the path begins with |
| `PathMapper.HasSafeTail` | zygisk/src/provider_path_mapper.cpp:40-55 | The scan accepts exactly tails without a dot or dot-dot component |
| `PathMapper.Select` | zygisk/src/provider_path_mapper.cpp:75-101 | The loop over the rules selects what the declarative choice says, or fails at an unsafe tail |
| `PathMapper.OneRoot` | zygisk/src/provider_path_mapper.cpp:9-30 | A path lies under one root of one user at most |
| `PathMapper.ChosenIsLongest` | zygisk/src/provider_path_mapper.cpp:75-101 | No rule of the caller that matches has a longer pattern than the chosen one, and none has an unsafe tail |
| `PathMapper.ChosenIsUnbeaten` | zygisk/src/provider_path_mapper.cpp:108-137 | No rule of the caller that applies is preferred to the chosen one; in restoring that includes the smaller visible path among equal backing paths |
| `PathMapper.UnbeatenIsChosen` | zygisk/src/provider_path_mapper.cpp:75-137 | A match preferred to every other rule that applies is chosen, if all tails are safe |
| `PathMapper.RewriteStaysInside` | zygisk/src/provider_path_mapper.cpp:75-106 | A rewritten path is the same root, the backing path of one of the caller's rules and the safe remainder of the original |
| `PathMapper.MatchesVisiblePath` | zygisk/src/provider_path_mapper.cpp:59-73 | The filter accepts exactly absolute paths below some rule's visible path |
| `PathMapper.ValidLogicalRulePath` | zygisk/src/provider_redirect_hook.cpp:195-215 | The scan accepts exactly relative paths of bounded length without braces whose names are proper, except that the last may be empty |
| `PathMapper.Install` | zygisk/src/provider_redirect_hook.cpp:1043-1078 | Rules are taken exactly if there are one to 64, each is proper, and no visible path of a caller and user has two backing paths |
| `PathMapper.PrefilterNeverVetoes` | zygisk/src/provider_redirect_hook.cpp:299-311 | The filter that does not know the caller accepts every path that would be rewritten |
| `PathMapper.RestoreUndoesRewrite` | zygisk/src/provider_path_mapper.cpp:75-141 | If the caller's backing paths do not overlap and there is room, restoring undoes every rewrite, whatever else the rules are |
| `PathMapper.RestoreExactly` | zygisk/src/provider_path_mapper.cpp:75-141 | Of rules the installer takes, restoring undoes every rewrite of a caller if and only if no two of its rules for one user are such that the second restores at or below the backing path of the first and no longer visible path claims what it restores |
| `PathMapper.BeatenIsConfused` | zygisk/src/provider_path_mapper.cpp:108-141 | A rule that is preferred, in restoring, to the rule that rewrote is such a second rule |
| `PathMapper.ConfusedIsNotUndone` | zygisk/src/provider_path_mapper.cpp:75-141 | For any two such rules, a path that is rewritten and not restored |
| `PathMapper.ApartConfusesNone` | zygisk/src/provider_path_mapper.cpp:108-141 | Among rules whose backing paths do not overlap there are no two such rules |
| `PathMapper.SharedBackingIsAmbiguous` | zygisk/src/provider_path_mapper.cpp:108-141 | Two rules the installer takes, with one backing path, for which restoring does not undo some rewrite |

## Left out

- Kernel: system calls, `/proc` parsing, sockets, descriptors, futex timing, `setns` and `unshare` are steps that may fail; a call that fails has changed nothing, a snapshot is one atomic look, and a bind adds one row below any mount that owns its target.
- Kernel: `umount2` takes the top row with the exact path and what hangs below it, or fails; that a target hidden by a later mount cannot be reached by its path is one of the ways to fail.
- Other mounters act away from the plan's targets, neither above nor below one; without that no claim about the plan's mounts can be made.
- The worker's preflight checks are one step that may fail; namespace termination is recorded, not modelled.
- Status files, JSON, messages, log lines, timing counters and the diagnostic package's output.
- The TOML parser and the decoding of its tree in rules/src/compiler.cpp: the format probe's finding is a parameter, and documents are arbitrary.
- The limit on expanded rules and path lengths in rules/src/semantic.cpp: checks on one number each.
- SHA-256, the compiler and the admission check are parameters of the reconciler; it is assumed that the compiler returns what decodes to the generation it names, which `CompiledPolicy.CompiledIsVerified` proves of the encoder.
- Installing: the hooks that follow the check of the rules.
- JNI, Binder, the hook wrappers, query counters and the largest frame depth.
- Line numbers of rules, which decoding clears.
- `std::sort` is an insertion sort here; where elements may tie the results are shown not to depend on the sort. The order of users with equal numbers, such as 1 and 01, is left open by the program.
- ArrowScanner.ScanArrowCandidates: says what a clean scan means, and not which sources are rejected.
- Desugarer.DesugarRulesSource: sources of 2^32 bytes or more are outside, as are they for the program.
- PlanLoader.LoadProcessPlan: claims nothing for files the decoder rejects, whose fields the loader reads under its own checks only.
- PlanLoader.LoadProcessPlan: path offsets of the plan are values; only the space they take is counted.
- PolicyEncoder.EncodeThenDecode: the content generation of a verified blob must also differ from 0 in the compiler; a hash of 0 is not excluded.
- Publisher.Publish: power loss is not modelled, so only the state at the end of a call is described; whether a regular file stands at the active name is answered truthfully, and the candidate and backup names are fresh.
- Reconciler.Reconciler.SaveRules: a rejected save can leave the new rules file in place when flushing the directory fails after the rename; the contract excepts that outcome.
- Reconciler: 64-bit wrap of epoch and candidate numbers.
- PathMapper: rewriting and restoring share one selection loop, which the program writes twice.
- Lint, format probe, explanations, device probes, the command line and the daemon's loop.
