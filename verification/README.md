# SqlWolf: a verified model of its self-contained cores

SqlWolf is a desktop SQL client. Most of it is user interface and driver plumbing, but a number of pieces decide
hard questions on their own. This project models those pieces in Dafny and proves what they are for. Code that works
step by step is modelled as methods with loops, arrays and classes, each proved against a specification function;
the theorems are lemmas about those functions.

| file | models |
|---|---|
| `JsonViewer.dfy`, `JsonLocator.dfy` | pretty-printed JSON (section 25.5.2 of ECMA-262) and the search for the line of a key path |
| `Vimrc.dfy`, `VimrcStack.dfy`, `VimrcParser.dfy`, `VimrcLines.dfy` | vimrc directives, dropping superseded mappings, from keymaps on which mappings replace or cover each other, reading a vimrc, and what whole lines of it come to |
| `TransactionTimers.dfy` | the two-stage auto-rollback timers, interleaved with the handlers that arm and clear them |
| `QueryAudit.dfy` | the audit log kept by SQLite triggers, its replay, and the append-only trigger in its two versions |
| `Export.dfy` | the chunked export loop, the exported text, and deduplicated column names |
| `ConfigTree.dfy`, `ConfigProvider.dfy` | lodash `get`, `set`, `merge`; layered lookup, merged cache, reload |
| `ConfigWarnings.dfy` | the warnings about unrecognized, conflicting and deprecated keys |
| `ConfigDefaults.dfy` | filling every database section from `db.default` in place |
| `ConfigWriter.dfy` | writing a user value: load, process, set, write, load and process again |
| `ConnectionStore.dfy`, `ConnectionTrace.dfy` | the connect and disconnect actions, interleaved at their awaits, and what each owes to its own awaits |
| `ArgSplitter.dfy` | splitting a custom-argument string with quotes |
| `BinaryText.dfy` | hex and base64 (sections 8 and 4 of RFC 4648), truncated encoding, decoding into a buffer |
| `FolderTree.dfy` | the folder tree built through an id index over shared nodes, and the ancestor walk |
| `Text.dfy` | white space, splitting and joining, decimal numerals |

Where a promise turned out to need a condition, the condition is proved to be the exact one:

- A path that does not exist in the JSON can be answered with a line of another branch
  (`JsonLocator.AbsentPathCanBeFound`); for keys that need no escaping the answer is -1 exactly when no chain of entries
  with these keys is printed.
- An entry whose own key is printed with escapes is never found (`JsonLocator.EscapedKeyNeverFound`).
- On an editor that keeps covered mappings, dropping superseded ones shows exactly when a key that has some, since it
  was last cleared, is unmapped after its last mapping, and not so often that nothing is left anyway
  (`VimrcStack.StackedDedupeIff`; `UnmapUncovers` is such a list).
- A leader comes out unchanged in every key exactly when it holds no replacement pattern.
- A rollback can come before the configured timeout when a delay does not fit a timer; `NeverEarlyIffPatient` says
  for which limits it never does, and `HugeTimeoutIsImpatient` names some for which it does.
- An open transaction need not have a timer: the end of an automatic rollback takes one away exactly when the tab has
  been armed since (`TransactionTimers.RollbackDisarmsIff`; `TimerCanBeLost` is a run in which it does).
- With the first append-only trigger a query could be deleted exactly while it had at most one audit
  (`QueryAudit.RenamedCannotBeDeleted` is a run after which it cannot); with the narrow one it always can
  (`QueryAudit.DeleteOutcome`).
- Snapshots are resolved by timestamp, and with timestamps that never go back show every audit of a query its own state
  exactly when no two of them have the same one (`QueryAudit.SnapshotsIffStampsDiffer`; `SameSecondShowsLater` is a run
  in which one does not). Restoring goes back to an audit's own state under the same condition
  (`QueryAudit.RestoresIffStampsDiffer`).
- The exported file has its header first, in every format, exactly when the columns are settled by the first read
  (`ExportedText.LateColumnsBreakForm` has them later, `LateColumnsText` says what the file is then).
- Deduplicated column names clash exactly when a generated name is the name of another column
  (`ExportColumns.ClashingNames`).
- A written value comes back exactly when processing the file leaves it there, and a write to `db.default` changes the
  lookup of exactly those section entries that had no value (`ConfigWriter.WriteThenGet`, `WriteElsewhere`;
  `WriteReachesSections` is a concrete case).
- Checking for conflicts throws exactly when the user's configuration holds a null, and a warning is wrong exactly where
  the system layer holds one (`ConfigWriter.NullMisreported`). So a write makes loading fail exactly when it leaves a
  null in the user layer: a null written where no defaults fill it again, or an empty string below `db.default`
  (`ConfigWriter.LoadsAfterWriteIff`; `EmptyStringBreaksLoading` and `NullBreaksLoading` are concrete cases).
- A connect that returns true leaves the store connected exactly when no disconnect cleared it meanwhile
  (`ConnectionStore.ReturnedTrueDisconnected` is a run in which one did).
- Parsing two argument strings joined by white space gives both argument lists exactly when the first closes its quotes.
- The folder roots reach everything exactly once if and only if parent links are acyclic.
- The merged configuration and layered lookup agree on a leaf exactly when no longer list lies below it
  (`ConfigProvider.ShorterListDiffers`).
- A value in a database section survives filling exactly when the defaults have no section with values in its place
  (`ConfigDefaults.SectionReplacesValue`).

## Model

| member | source | states |
|---|---|---|
| JsonPrinter.PrintedLines | apps/studio/src/lib/data/jsonViewer.ts:28-31 | splitting the two-space JSON text at line breaks gives exactly the modelled lines: no key or value can break a line |
| JsonPrinter.QuotedReadsBack | apps/studio/src/lib/data/jsonViewer.ts:28-30 | every key and string, whatever its characters, is what its quoted form reads back to by the string grammar of section 7 of RFC 8259 |
| JsonPrinter.ShortEscapes | apps/studio/src/lib/data/jsonViewer.ts:28 | the single-character escapes of section 25.5.2.3 of ECMA-262 are used where there is one |
| JsonPrinter.ArrayPrinted | apps/studio/src/lib/data/jsonViewer.ts:28 | a concrete array, laid out with a gap of two spaces |
| JsonPrinter.ObjectPrinted | apps/studio/src/lib/data/jsonViewer.ts:28 | a concrete object, laid out with a gap of two spaces |
| JsonLocator.FindKeyPosition | apps/studio/src/lib/data/jsonViewer.ts:30-63 | the nested loops return the greedy search's answer: each key on the first matching line below the one before, else -1 |
| JsonLocator.LinesAgree | apps/studio/src/lib/data/jsonViewer.ts:43-45 | on every printed line the regular expression matches a plain key at a depth if and only if the line prints that entry at that depth, strings in arrays and escaped keys included |
| JsonLocator.LocatorFindsEntry | apps/studio/src/lib/data/jsonViewer.ts:30-63 | for every JSON tree and every path through objects whose own keys need no escaping, the answer is the number of lines printed above that entry |
| JsonLocator.EntryLineShowsValue | apps/studio/src/lib/data/jsonViewer.ts:25-30 | from that line on the text holds the entry's key at its depth and the whole value at the path |
| JsonLocator.AnswerIsEarliestEnd | apps/studio/src/lib/data/jsonViewer.ts:30-63 | in any text and for any non-empty path, keys of every kind, the answer is the earliest line on which a chain of lines matching the keys at successive depths can end, and -1 if there is none |
| JsonLocator.NotFoundIffNoChain | apps/studio/src/lib/data/jsonViewer.ts:34-62 | for any path of keys that need no escaping, existing or not, the answer is -1 if and only if no entries announcing its keys at successive depths stand one below the other |
| JsonLocator.AbsentPathCanBeFound | apps/studio/src/lib/data/jsonViewer.ts:38-46 | a concrete path that does not exist and is answered with the line of an entry of a later sibling |
| JsonLocator.EscapedKeyNeverFound | apps/studio/src/lib/data/jsonViewer.ts:43-45 | an entry whose own key needs escaping is never answered with its line |
| Vimrc.DedupeMappings | apps/studio/src/lib/editor/vim.ts:198-222 | find, splice and push leave exactly the directives that no later mapping of the same key and mode supersedes, in order |
| Vimrc.DedupePreservesKeymap | apps/studio/src/lib/editor/vim.ts:194-222 | where a mapping replaces the one before it: for every directive list, starting editor and reading of modes, the shortened list ends in the same keymap and options, with unmaps, mapclears and mode-less mappings overlapping at will |
| VimrcStack.StackedDedupeIff | apps/ui-kit/lib/components/text-editor/extensions/vim.ts:169-191 | where mappings stack up and an unmap takes the newest away: for every list and whatever a mapclear empties, the shortened list shows the same mappings and options from every starting editor if and only if no key that has a superseded mapping since it was last cleared is unmapped after its last one, unless it was cleared and the unmaps use up all that lay below |
| VimrcStack.UnmapUncovers | apps/studio/src/lib/editor/vim.ts:194-222 | two mappings of a key and an unmap: as written the first mapping is left, shortened none |
| VimrcStack.PileStep | apps/ui-kit/lib/components/text-editor/extensions/vim.ts:59-83 | where mappings stack up: a mapping goes on top of its slot's pile, an unmap takes the top off, a mapclear takes the pile away, and no other slot changes |
| VimrcStack.SameOptions | apps/ui-kit/lib/components/text-editor/extensions/vim.ts:77-81 | options come out as on the other editor |
| Vimrc.KeepLastUnique | apps/studio/src/lib/editor/vim.ts:207-218 | at most one mapping per key and mode is left |
| Vimrc.DedupeKeepsTheRest | apps/studio/src/lib/editor/vim.ts:195-205 | directives other than mappings all stay, in order |
| Vimrc.LastMappingSurvives | apps/studio/src/lib/editor/vim.ts:195-218 | the last mapping of each key and mode is the one that is left |
| Vimrc.LastTouchDecides | apps/ui-kit/lib/components/text-editor/extensions/vim.ts:59-94 | where a mapping replaces the one before it: the last directive that reaches a slot decides what stands there, and one that none reaches keeps what it had, for every list, editor and reach of modes |
| Vimrc.LastSetDecides | apps/ui-kit/lib/components/text-editor/extensions/vim.ts:77-81 | the last value set for an option is the one it has |
| VimrcParser.ParseVimrc | apps/studio/src/lib/editor/vim.ts:102-192 | the line loop threads the leader, numbers the errors from 1 and dedupes the collected directives |
| VimrcParser.LeaderLine | apps/studio/src/lib/editor/vim.ts:118-122 | a mapleader line, with or without `g:`, spaced at will, sets the leader for the lines below to its unquoted value and says nothing else |
| VimrcParser.LeaderValue | apps/studio/src/lib/editor/vim.ts:72-79 | a value in either kind of quotes stands for what is between them, any other, mixed quotes included, for itself |
| VimrcParser.LeadersReplacedIff | apps/studio/src/lib/editor/vim.ts:133 | every key comes out with the leader in place of each of its placeholders, in any letter case, if and only if the leader holds no `$` followed by `$`, `&`, a back quote or a quote |
| VimrcParser.OptionReadsBack | apps/studio/src/lib/editor/vim.ts:81-96 | a set token written for an option, on, off or with a value, parses to that option |
| VimrcParser.LineReadsBack | apps/studio/src/lib/editor/vim.ts:110-188 | the line written for such a directive is read back as that directive, whatever the leader |
| VimrcParser.WritableIffExpressible | apps/studio/src/lib/editor/vim.ts:110-188 | under the default leader the directives that can be written down are exactly those some line expresses |
| VimrcParser.VimrcRoundTrip | apps/studio/src/lib/editor/vim.ts:102-192 | writing any such list of directives and parsing the lines gives no error and the same keymap and options as the list |
| VimrcParser.BadLineIsHarmless | apps/studio/src/lib/editor/vim.ts:98-101 | a line that only gives errors leaves the directives those of the file without it |
| VimrcLines.LineOfWords | apps/studio/src/lib/editor/vim.ts:110-124 | a line is read as the command of its first word with the others as arguments, whatever white space stands before, between and after them |
| VimrcLines.SetLineSplits | apps/studio/src/lib/editor/vim.ts:172-185 | the directives and errors of a set line with two lists of options are those of a line with the first and a line with the second, in this order, for `set` and `se` |
| VimrcLines.OptionsReadBack | apps/studio/src/lib/editor/vim.ts:172-185 | a line written for any non-empty list of options is read back as that list |
| VimrcLines.NothingIsLost | apps/studio/src/lib/editor/vim.ts:110-189 | a blank line, a comment and a mapleader give nothing, a set line one directive or error for each option, any other line exactly one; only a mapleader changes the leader |
| VimrcLines.ErrorsAreExact | apps/studio/src/lib/editor/vim.ts:126-188 | a line of words gives exactly the errors there is a reason for: too few words, a mapping that contains its own key, too many arguments, a toggle, an unknown command |
| VimrcLines.ErrorsNumbered | apps/studio/src/lib/editor/vim.ts:107-112 | the errors of a file are those of its lines under the leader in force there, each with its line's number from one and its text, in line order |
| VimrcLines.NamesCompose | apps/studio/src/lib/editor/vim.ts:44-66 | every map, unmap and mapclear command is read by the name made of the letter of its mode and what it does |
| VimrcLines.LeaderLinesOnly | apps/studio/src/lib/editor/vim.ts:69 | only lines of the mapleader form set the leader |
| VimrcLines.LastLeaderHolds | apps/studio/src/lib/editor/vim.ts:105-122 | the leader in force is the unquoted value of the last mapleader line so far, or the default |
| VimrcLines.MappedKeyUsesLeader | apps/studio/src/lib/editor/vim.ts:126-147 | a mapped key comes out with the leader in force in place of its placeholders, in any letter case, and the words behind it joined by single spaces |
| VimrcLines.UnmappedKeyUsesLeader | apps/studio/src/lib/editor/vim.ts:150-160 | and so does an unmapped one |
| VimrcLines.LeaderInAnyCase | apps/studio/src/lib/editor/vim.ts:70 | the placeholder is `<leader>`, each letter small or capital, and nothing else |
| VimrcLines.PatternsExpand | apps/studio/src/lib/editor/vim.ts:133 | what the first replacement pattern of a leader does to a key: a dollar sign, the placeholder as written, what stands before it, or what stands behind it, and the rest likewise |
| TransactionTimers.RunKeeps | apps/studio/src-commercial/backend/handlers/connHandlers.ts:664-701 | over every interleaving of handlers, settled or failed driver calls, timers and connection changes: each live timer is its tab's map entry, and every rollback follows a warning and an arming with no clear, arming or rollback in between |
| TransactionTimers.AtMostOneLiveTimerPerTab | apps/studio/src-commercial/backend/handlers/connHandlers.ts:672-700 | no reachable state has two live timers of one tab |
| TransactionTimers.NeverEarlyIffPatient | apps/studio/src-commercial/backend/handlers/connHandlers.ts:681-700 | no run issues a rollback sooner than the configured timeout after the tab's last arming if and only if the two delays, as a timer takes them, add up to the timeout; delays that fit a timer do, even with a window above the timeout |
| TransactionTimers.ImpatientRun | apps/studio/src-commercial/backend/handlers/connHandlers.ts:641-645 | the shortest run from a started transaction issues its rollback exactly after the two delays |
| TransactionTimers.FittingLimitsAreExact | apps/studio/src-commercial/backend/handlers/connHandlers.ts:681-699 | with delays that fit a timer the shortest run warns its window ahead of the timeout and rolls back exactly at it |
| TransactionTimers.DelaysTaken | apps/studio/src-commercial/backend/handlers/connHandlers.ts:681-699 | a timer takes delays that fit 31 bits as they are and every other as a millisecond |
| TransactionTimers.HugeTimeoutIsImpatient | apps/studio/src-commercial/backend/handlers/connHandlers.ts:695-699 | limits under which the rollback comes after a minute instead of a month |
| TransactionTimers.QuietRun | apps/studio/src-commercial/backend/handlers/connHandlers.ts:376-383 | in every run a tab without a timer stays without one, and nothing is warned or rolled back in it, until a transaction starts or a query runs inside one; resets and plain queries do not arm |
| TransactionTimers.ArmingReplaces | apps/studio/src-commercial/backend/handlers/connHandlers.ts:672-700 | arming gives the tab one timer, the warning, at the full first delay, and counts from now |
| TransactionTimers.ResetKeepsAlive | apps/studio/src-commercial/backend/handlers/connHandlers.ts:659-701 | keeping a transaction alive, by the request or by a plain query, starts a tab's count again at the full first delay if it has an entry and there is a connection, leaves it without entry and timer if there is none, and changes nothing for a tab without an entry |
| TransactionTimers.RunLeavesAlone | apps/studio/src-commercial/backend/handlers/connHandlers.ts:635-701 | over every run other tabs, failed calls, calls that begin, time and changes of the connection leave a tab's entry and timers as they are |
| TransactionTimers.LeftAloneRollsBack | apps/studio/src-commercial/backend/handlers/connHandlers.ts:681-700 | over every run that leaves a tab alone its timer stays, fires once due, and then warns and sets the second timer for the full window, or issues the rollback if there is a connection |
| TransactionTimers.CallsBalance | apps/studio/src-commercial/backend/handlers/connHandlers.ts:635-697 | over every run the driver calls that wait are those made, by handlers with a connection and by rollback timers, less those that have come back |
| TransactionTimers.NoRollbackAfterEnding | apps/studio/src-commercial/backend/handlers/connHandlers.ts:635-657 | after a successful commit, rollback or release no run warns of or issues a rollback of the tab before a later arming |
| TransactionTimers.RollbackDisarmsIff | apps/studio/src-commercial/backend/handlers/connHandlers.ts:686-689 | in every run the clear after an awaited automatic rollback takes a live timer away if and only if the tab has been armed since it was last cleared or rolled back |
| TransactionTimers.TimerCanBeLost | apps/studio/src-commercial/backend/handlers/connHandlers.ts:686-689 | a run in which a transaction started during that await is left without a timer |
| TransactionTimers.Session.ClearTransactionTimeout | apps/studio/src-commercial/backend/handlers/connHandlers.ts:664-670 | on the session's fields: deletes the entry and cancels its timer, keeping the invariant |
| TransactionTimers.Session.CreateOrResetTransactionTimeout | apps/studio/src-commercial/backend/handlers/connHandlers.ts:672-701 | on the session's fields: the step of the machine, whose outcome `ArmingReplaces` and `ResetKeepsAlive` give, including the throw without a connection after the old timer is gone |
| TransactionTimers.Session.OnTimer | apps/studio/src-commercial/backend/handlers/connHandlers.ts:681-697 | on the session's fields: a timer callback up to its first await, keeping the invariant |
| TransactionTimers.Session.OnSettled | apps/studio/src-commercial/backend/handlers/connHandlers.ts:635-661 | on the session's fields: the rest of each handler after its driver call, keeping the invariant |
| QueryAudit.HistoryReplays | apps/studio/src/migration/20260526_create_query_audits.js:22-52 | over every run: a write adds one audit if and only if it creates the row or changes title or text, and the latest non-NULL title and text up to that audit's id in the final log are the row as it stood right after the write |
| QueryAudit.CurrentRowReplays | apps/studio/src/migration/20260526_create_query_audits.js:22-69 | after every run the whole log replays to every current row |
| QueryAudit.RunAppendsOnly | apps/studio/src/migration/20260914_fix_query_audit_append_only_trigger.js:8-16 | over every run, updates of the audit table included, an audit that still stands differs at most in its link to the previous one |
| QueryAudit.LinkKeeps | apps/studio/src/migration/20260526_create_query_audits.js:40-44 | under the first trigger every write keeps each audit but a query's first linked to an earlier audit of the query, whichever wins a timestamp tie |
| QueryAudit.FirstTriggerBlocksDelete | apps/studio/src/migration/20260914_fix_query_audit_append_only_trigger.js:4-6 | after any run under the first trigger a query can be deleted if and only if it has at most one audit |
| QueryAudit.RenamedCannotBeDeleted | apps/studio/src/migration/20260914_fix_query_audit_append_only_trigger.js:4-6 | a query saved and renamed under the first trigger, which can then not be deleted |
| QueryAudit.DeleteOutcome | apps/studio/src/migration/20260914_fix_query_audit_append_only_trigger.js:3-16 | after any run a delete goes through if and only if the query is there and either the narrow trigger is in place or it has at most one audit; then the query, its audits and every link to them are gone and all else stands as it was, in order; otherwise nothing changes |
| QueryAudit.AuditingIsInvisible | apps/studio/src/migration/20260914_fix_query_audit_append_only_trigger.js:4-6 | under the narrow trigger, over every run, the queries' table is what it would be without a log |
| QueryAudit.UpdateTakenIff | apps/studio/src/migration/20260914_fix_query_audit_append_only_trigger.js:8-16 | an update of the audit table takes effect as it stands under the narrow trigger for the link alone, and changes nothing otherwise |
| QueryAudit.WriteLogged | apps/studio/src/migration/20260526_create_query_audits.js:22-52 | a write that informs appends one audit with a new id, the query, the write's time stamp, `create` exactly for the query's first, a link to a latest one, and title and text exactly where the log did not replay to them |
| QueryAudit.StandsUnlessDeleted | apps/studio/src/migration/20260526_create_query_audits.js:7-8 | over every run only the deletion of its query makes an audit go |
| QueryAudit.CreationStaysFirst | apps/studio/src/migration/20260526_create_query_audits.js:22-45 | over every run the `create` audits are the first ones of their queries, and those carry title and text both |
| QueryAudit.SnapshotsIffStampsDiffer | apps/studio/src/common/appdb/models/QueryAudit.ts:49-75 | after every run whose timestamps never go back, every audit of a query is shown with its own state if and only if no two of them carry the same timestamp |
| QueryAudit.SnapshotByTime | apps/studio/src/common/appdb/models/QueryAudit.ts:49-75 | what is shown for an audit is the state after the last audit with its timestamp |
| QueryAudit.NewestIsLatest | apps/studio/src/common/appdb/models/QueryAudit.ts:16-71 | the audit a snapshot is resolved by is, of those that qualify, the latest by time stamp and then by id, clocks that go back included |
| QueryAudit.RestoreGoesBack | apps/studio/src/common/appdb/models/QueryAudit.ts:78-102 | after every run whose time stamps never go back and differ, restoring any audit gives the query the title and text it had right after that audit's write, and the log replays to them from then on |
| QueryAudit.RestoresIffStampsDiffer | apps/studio/src/common/appdb/models/QueryAudit.ts:78-102 | after every run whose time stamps never go back, restoring any of a query's audits, whichever text wins a tie, gives it that audit's own state if and only if no two of them carry the same time stamp |
| QueryAudit.RestoreFindsText | apps/studio/src/common/appdb/models/QueryAudit.ts:78-102 | after every run whose time stamps never go back, restoring finds a title and a text for every audit |
| QueryAudit.SameSecondShowsLater | apps/studio/src/common/appdb/models/QueryAudit.ts:49-61 | a query created and renamed in one second, whose first audit shows the later title |
| QueryAudit.InformativeKeeps | apps/studio/src/migration/20260526_create_query_audits.js:34-48 | every write keeps that each audit carries a title or a text, and none that the audits before it already replay to |
| QueryAudit.WritesKeepClock | apps/studio/src/migration/20260526_create_query_audits.js:28-29 | writes stamped no earlier than before keep a query's audit timestamps in order |
| QueryAudit.AuditDatabase.constructor | apps/studio/src/migration/20260526_create_query_audits.js:64-69 | the baseline seed is one `create` audit for every existing row, in order, and replays to every row |
| QueryAudit.AuditDatabase.InsertQuery | apps/studio/src/migration/20260526_create_query_audits.js:22-31 | the insert trigger on the tables: row and create audit, or nothing for a taken id |
| QueryAudit.AuditDatabase.UpdateQuery | apps/studio/src/migration/20260526_create_query_audits.js:33-52 | the update trigger on the tables: row and delta audit |
| QueryAudit.AuditDatabase.Cascade | apps/studio/src/migration/20260526_create_query_audits.js:7-8 | deleting a query's audits one by one, nulling links to each, leaves all other audits with links into them gone; under the first trigger it aborts if and only if the query has a linked audit |
| QueryAudit.AuditDatabase.DeleteQuery | apps/studio/src/migration/20260914_fix_query_audit_append_only_trigger.js:3-16 | a delete takes the query and all its audits, or is taken back whole |
| QueryAudit.AuditDatabase.UpdateAudits | apps/studio/src/migration/20260914_fix_query_audit_append_only_trigger.js:8-16 | an update of the audit table that matches a row goes through if and only if the trigger is the narrow one and the statement sets no column but the link; one that matches none goes through and changes nothing |
| QueryAudit.AuditDatabase.NarrowTrigger | apps/studio/src/migration/20260914_fix_query_audit_append_only_trigger.js:3-16 | exchanging the trigger changes no row and no audit |
| Export.Exporter.WriteRows | apps/studio/src/lib/export/export.ts:189-207 | the inner loop writes the rows' text, carrying over whether the last row still lacks its separator |
| Export.Exporter.ExportData | apps/studio/src/lib/export/export.ts:171-219 | the read loop writes the text of all chunks up to the first empty or interrupting one, with late columns, and counts the rows |
| Export.Exporter.ExportToFile | apps/studio/src/lib/export/export.ts:231-255 | file, status, count and deletion after a run in which nothing throws |
| ExportedText.ExportedFileText | apps/studio/src/lib/export/export.ts:161-229 | a run that is not aborted writes the header once before all rows, the rows with separators, a trailing one exactly when wanted, then the footer, with columns known from the start, from the first read, or never |
| ExportedText.WellFormedIffColumnsInTime | apps/studio/src/lib/export/export.ts:174-185 | the file has that form in every format if and only if the columns are settled by the first read |
| ExportedText.LateColumnsBreakForm | apps/studio/src/lib/export/export.ts:174-185 | two reads, the columns known only from the second, after which the header stands below a row |
| ExportedText.LateColumnsText | apps/studio/src/lib/export/export.ts:171-229 | columns that become known with some read put the header there: after the rows read before, formatted without columns, and before those of that read, with the separators still right |
| ExportedText.ReadsUntilEnd | apps/studio/src/lib/export/export.ts:171-217 | the loop reads up to the first empty chunk or change of status, and no further |
| ExportedText.ChunkingIrrelevant | apps/studio/src/lib/export/export.ts:171-229 | any two ways of cutting the same rows into chunks give the same file and count |
| ExportedText.BodyIsJoin | apps/studio/src/lib/export/export.ts:194-206 | without a final separator the rows are joined by the separator |
| ExportedText.RowsJoined | apps/studio/src/lib/export/export.ts:194-206 | with or without a final separator the rows are joined by the separator, with one more at the end exactly when wanted and there are rows |
| ExportedText.AbortedFileIsPrefix | apps/studio/src/lib/export/export.ts:214-225 | an aborted run leaves a prefix of the file the whole run writes |
| ExportColumns.DedupedColumns | apps/studio/src/lib/export/export.ts:68-80 | the counting loop gives each name its occurrence number from the second one on |
| ExportColumns.DistinctIffNoClash | apps/studio/src/lib/export/export.ts:68-80 | the resulting names are pairwise distinct if and only if no generated name equals an original one |
| ExportColumns.ClashingNames | apps/studio/src/lib/export/export.ts:68-80 | three columns of which two come out with the same name |
| ExportColumns.NumberedByOccurrence | apps/studio/src/lib/export/export.ts:68-80 | a name stays where it stands first, and elsewhere gets the number of earlier columns of that name, plus one |
| ExportColumns.KeepsEveryCellIffNoClash | apps/studio/src/lib/export/export.ts:60-66 | every full-width row keeps every cell under its own name if and only if there is no such clash; rows without columns always do |
| ExportColumns.ObjectHoldsCells | apps/studio/src/lib/export/export.ts:60-66 | a row's object has the column names for keys, each with a cell that stands under that name or with none |
| ExportColumns.UnnamedCells | apps/studio/src/lib/export/export.ts:60-65 | without columns the cells are named `col_1`, `col_2` and so on |
| ConfigProvider.MergedAgreesWithLayers | apps/studio/src/common/bksConfig/BksConfigProvider.ts:303-317 | for shape-compatible, null-free layers the merged tree and the layered lookup agree on every scalar, in both directions |
| ConfigTree.MergeAt | apps/studio/src/common/bksConfig/BksConfigProvider.ts:311-316 | where both trees have something the merged one has the two merged, and of a section and a value the later layer's stands |
| ConfigTree.MergeKeys | apps/studio/src/common/bksConfig/BksConfigProvider.ts:311-316 | a key that only one of two sections has is taken over as it is |
| ConfigTree.ListsMergeByPosition | apps/studio/src/common/bksConfig/BksConfigProvider.ts:311-316 | of two lists the later one takes the positions it has, the earlier one keeps the rest |
| ConfigProvider.OverridableIff | apps/studio/src/common/bksConfig/BksConfigProvider.ts:338-340 | the user can override exactly what the system layer has no value for, members of the layer's own object aside |
| ConfigProvider.ConfigSectionTakesOver | apps/studio/src/common/bksConfig/BksConfigProvider.ts:267-281 | a top-level section named `config` stands for its whole layer in every lookup |
| ConfigProvider.LeafAgreesIffNoLongerList | apps/studio/src/common/bksConfig/BksConfigProvider.ts:303-317 | at any leaf lookup answers with, lists included, the merged tree agrees if and only if no longer list lies below it |
| ConfigProvider.ShorterListDiffers | apps/studio/src/common/bksConfig/BksConfigProvider.ts:303-317 | a list over a longer default list: lookup gives the shorter one, the merged tree one of the longer length |
| ConfigProvider.HasIffSomeLayer | apps/studio/src/common/bksConfig/BksConfigProvider.ts:342-344 | the merged tree has a path if and only if some layer has it |
| ConfigProvider.BksConfigProvider.HasPathIffSomeLayer | apps/studio/src/common/bksConfig/BksConfigProvider.ts:342-344 | the provider has a path if and only if some layer has it |
| ConfigWriter.WriteThenGet | apps/studio/src/config/configWriter.ts:25-38 | after a write the writer accepts and the reload, lookup answers with the written non-nil value if and only if, below `db.default`, sanitizing leaves it as it is, and, in a database section, the defaults have no section with values in its place |
| ConfigWriter.LoadsAfterWriteIff | apps/studio/src/common/bksConfig/mainBksConfig.ts:272-299 | for every value, null included: after a write the layers load again if and only if it left no null in the user layer, that is, it was not an empty string or null below `db.default`, nor a null elsewhere, except in a database section where the defaults have values |
| ConfigWriter.NullGivesDefault | apps/studio/src/config/helpers.ts:29-45 | a null written to an entry of a database section that the defaults have gives that entry the default again |
| ConfigWriter.WriteElsewhere | apps/studio/src/config/helpers.ts:50-62 | a lookup along an unrelated path changes if and only if it is of the same entry of a database section, neither user nor system layer had a value there, and it did not answer with that value already |
| ConfigWriter.WriteReachesSections | apps/studio/src/config/configWriter.ts:25-38 | with no files at all, writing one entry of `db.default` gives a database section that entry |
| ConfigWriter.EmptyStringBreaksLoading | apps/studio/src/config/configWriter.ts:25-38 | with no files at all, an empty string written to an entry of `db.default` is written, and the layers do not load any more |
| ConfigWriter.NullBreaksLoading | apps/studio/src/config/configWriter.ts:25-38 | with no files at all, a null is written, and the layers do not load any more |
| ConfigWriter.SystemValueStays | apps/studio/src/config/configWriter.ts:26-28 | a path the writer refuses is answered by the system layer, whatever the user layer holds |
| ConfigWriter.ConfigHandlers.Write | apps/studio/src/config/configWriter.ts:25-38 | refuses exactly what the system layer holds or when the user file does not load, and otherwise writes back the processed file with the path set |
| ConfigWriter.ConfigHandlers.WriteUserValue | apps/studio/src/handlers/configHandlers.ts:11-18 | write and reload on the files and the provider, for every value: refused, written and loaded, or written and failed to load with the provider as it was; it then answers with a non-nil value exactly when it comes back |
| ConfigWriter.ConfigHandlers.LoadSource | apps/studio/src/common/bksConfig/mainBksConfig.ts:272-299 | the layers as processed, the user layer empty if it cannot be, or an error if and only if another file cannot be processed or the warnings run into a null |
| ConfigProvider.BksConfigProvider.Create | apps/studio/src/common/bksConfig/BksConfigProvider.ts:319-323 | a new provider mirrors the merged top-level keys |
| ConfigProvider.BksConfigProvider.Reload | apps/studio/src/common/bksConfig/BksConfigProvider.ts:325-336 | after any sequence of reloads each merged top-level key is mirrored with its value and every other key ever mirrored is undefined |
| ConfigWarnings.CheckConflicts | apps/studio/src/common/bksConfig/mainBksConfig.ts:74-101 | the recursive walk throws exactly when the user's configuration holds a null, and otherwise reports the user's leaf paths that the system layer has, each once |
| ConfigWarnings.CheckUnrecognized | apps/studio/src/common/bksConfig/mainBksConfig.ts:27-71 | the recursive walk throws exactly when it comes to a null under a recognized key, and otherwise reports, each once, the unrecognized paths around which every section is recognized, custom registries known and plugins skipped |
| ConfigWarnings.CoveredIffUnknown | apps/studio/src/common/bksConfig/mainBksConfig.ts:33-64 | outside the plugins a path is covered by such a warning if and only if it, or a section around it, is unrecognized |
| ConfigWarnings.PluginsAreTheirOwn | apps/studio/src/common/bksConfig/mainBksConfig.ts:39-42 | nothing under `plugins` is ever reported |
| ConfigWarnings.RegistryKeys | apps/studio/src/common/bksConfig/mainBksConfig.ts:46-50 | of a custom registry the section and three keys are known without being listed anywhere, and nothing else |
| ConfigWarnings.CheckDeprecations | apps/studio/src/common/bksConfig/mainBksConfig.ts:103-131 | the deprecated entries that a configuration still has, each once |
| ConfigWarnings.ConflictIffIgnored | apps/studio/src/common/bksConfig/mainBksConfig.ts:84-95 | a user value is reported exactly when layered lookup does not answer with the user layer, wherever the system layer does not hold a null, and nowhere else |
| ConfigWriter.NullMisreported | apps/studio/src/common/bksConfig/mainBksConfig.ts:84-95 | files that load, with a null in the system layer, and a user value reported as a conflict that lookup answers with |
| ConfigDefaults.RawConfig.PopulateDefaults | apps/studio/src/config/helpers.ts:24-48 | the recursive in-place loop turns the section into its filled form, in whatever order keys come, and leaves the defaults as they are |
| ConfigDefaults.RawConfig.ProcessRawConfig | apps/studio/src/config/helpers.ts:50-65 | the whole pass gives the processed configuration, and throws exactly when `db.default` holds no value |
| ConfigDefaults.DefaultsReachEverySection | apps/studio/src/config/helpers.ts:29-61 | at every leaf path of the defaults each database section ends with the value it had, or with the sanitized default where it had none |
| ConfigDefaults.DefaultsSanitized | apps/studio/src/config/helpers.ts:54-57 | `db.default` itself ends with every one of its values sanitized |
| ConfigDefaults.NothingElseAppears | apps/studio/src/config/helpers.ts:29-46 | a database section ends with entries of its own and of the defaults only |
| ConfigDefaults.SanitizedList | apps/studio/src/config/helpers.ts:40-44 | of a list of strings every empty string goes, wherever it stands, and every other string stays in its place |
| ConfigDefaults.SanitizedValue | apps/studio/src/config/helpers.ts:36-44 | a list of one empty string becomes an empty list, an empty string no value, and everything but lists of strings stands for itself |
| ConfigDefaults.SectionPerType | apps/studio/src/config/helpers.ts:58-61 | each database type has its section, `postgresql` under `postgres` |
| ConfigDefaults.SectionValuesKept | apps/studio/src/config/helpers.ts:30-45 | a non-nil value of a section is unchanged if and only if the defaults have no section with values in its place |
| ConfigDefaults.SectionReplacesValue | apps/studio/src/config/helpers.ts:30-33 | a configuration in which a value of a section is replaced by a section of the defaults |
| ConfigDefaults.ProcessTwice | apps/studio/src/config/helpers.ts:50-65 | processing a processed configuration changes nothing |
| ConnectionStore.GuardHolds | apps/studio/src/store/index.ts:561-568 | over every interleaving at most one connect is past the guard, the flag is set exactly while one is, and connected implies a used configuration |
| ConnectionStore.RefusalChangesNothing | apps/studio/src/store/index.ts:565-567 | while a connect is under way another is refused and leaves the store and the flag alone |
| ConnectionTrace.AdmittedIffFree | apps/studio/src/store/index.ts:561-568 | a connect gets past the guard exactly while no other is under way, connected or not, and sets the flag |
| ConnectionStore.FailedConnectEndsClean | apps/studio/src/store/index.ts:584-673 | a connect that throws after the server connection was made ends with the store disconnected, without configuration and with the flag down |
| ConnectionStore.EarlyFailureKeepsConnection | apps/studio/src/store/index.ts:569-578 | one that throws before only takes the flag down |
| ConnectionStore.ReturnedTrueIsConnected | apps/studio/src/store/index.ts:603-648 | a connect that returns true leaves its own configuration connected if and only if no disconnect cleared the store since its commit |
| ConnectionStore.ReturnedTrueDisconnected | apps/studio/src/store/index.ts:561-719 | a run in which a disconnect clears the store while a connect loads, the connect returns true, and the store is disconnected |
| ConnectionTrace.OwnStepsDecide | apps/studio/src/store/index.ts:561-719 | over every interleaving each connect and disconnect stands where its own awaits have brought it, spelled out for every stage and end: how many came back and which one failed; no other process has a say |
| ConnectionTrace.HousekeepingNeverFails | apps/studio/src/store/index.ts:634-648 | over every run a connect has come to its housekeeping if and only if it is at it or has returned true: no failure there ends it otherwise |
| ConnectionTrace.HousekeepingTouchesTheFlag | apps/studio/src/store/index.ts:634-651 | a step of housekeeping changes at most the flag, and that exactly when the connect is done |
| ConnectionTrace.OnlyCommitsAndClears | apps/studio/src/store/index.ts:603-719 | configuration and switch are set by commits and cleared by rollbacks and disconnects, and changed by no other step |
| ConnectionStore.StoreState.Guard | apps/studio/src/store/index.ts:565-568 | on the store's fields: the machine's step, refusing exactly when the flag is up, and keeping the invariant |
| ConnectionStore.StoreState.Commit | apps/studio/src/store/index.ts:603-611 | on the store's fields: configuration before the connected switch, each with a failure after it, as the machine's step and keeping the invariant |
| ConnectionStore.StoreState.OnSettled | apps/studio/src/store/index.ts:561-719 | on the store's fields: each action from one await to the next, the rollback included, as the machine's step and keeping the invariant |
| ArgSplitter.ParseArgs | apps/studio/src/lib/db/BaseCommandClient.ts:76-103 | the character loop computes the scanner's arguments |
| ArgSplitter.QuotedParsesBack | apps/studio/src/lib/db/BaseCommandClient.ts:73-103 | every list of arguments, empty ones included, each in a quote it does not contain and joined by any white space, parses back to itself |
| ArgSplitter.TypedParsesBack | apps/studio/src/lib/db/BaseCommandClient.ts:73-103 | every list of arguments, each of plain and quoted pieces side by side, with any white space between, before and after them, parses to the pieces' texts joined: plain words and `a"b c"d` are special cases |
| Text.SpacesListed | apps/studio/src/lib/db/BaseCommandClient.ts:88 | the white space of a regular expression, character by character |
| ArgSplitter.ParseConcatIff | apps/studio/src/lib/db/BaseCommandClient.ts:81-102 | parsing s, white space, t is both parses one after the other if and only if s leaves no quote open |
| BinaryText.Uint8ArrayToHex | apps/ui-kit/lib/utils/binary.ts:6-13 | the loop gives two hex digits per byte |
| BinaryText.HexDecodeEncode | apps/ui-kit/lib/utils/binary.ts:6-44 | decoding undoes encoding for every byte array |
| BinaryText.HexEncodeDecode | apps/ui-kit/lib/utils/binary.ts:6-44 | encoding undoes decoding up to letter case for every even-length hex string |
| BinaryText.HexToUint8Array | apps/ui-kit/lib/utils/binary.ts:31-44 | without a buffer the whole string is decoded, or rejected exactly for an odd length or a non-hex digit anywhere; with one, what fits is decoded, the rest of the buffer stays, and the same holds of the part it reads; after a bad digit the buffer holds the bytes before it |
| BinaryText.TruncationIsPrefix | apps/studio/src/common/utils.ts:309-327 | a truncated encoding is a prefix of the full one, at most the wished length for base64 and one over for hex, and short of it by less than a group |
| BinaryText.EncodedLength | apps/studio/src/common/utils.ts:334-337 | the announced length is the full encoding's length |
| BinaryText.StringToTypedArrayInverts | apps/studio/src/common/utils.ts:339-348 | decoding a full encoding gives the bytes back, hex and base64 |
| BinaryText.DecodesIffPadded | apps/studio/src/common/utils.ts:339-343 | padded groups of the alphabet decode, and nothing else does |
| BinaryText.AlphabetInOrder | apps/studio/src/common/utils.ts:326 | the six-bit values are written with the alphabet of table 1 of RFC 4648, in its order |
| BinaryText.AlphabetOnly | apps/studio/src/common/utils.ts:341-343 | each character taken is the one its value is written with |
| BinaryText.Base64Vectors | apps/studio/src/common/utils.ts:326 | the test vectors of section 10 of RFC 4648 |
| BinaryText.HexVector | apps/ui-kit/lib/utils/binary.ts:6-13 | the same for hex, in lower case |
| FolderTree.BuildFolderNodes | apps/studio/src/common/utils/folderTree.ts:24-43 | on shared node objects the indexed build gives each node exactly the children a quadratic filter by parent gives, in input order |
| FolderTree.ParentById | apps/studio/src/common/utils/folderTree.ts:32-40 | a folder's parent is the last of the folders with the id it names, unless that is 0 or the folder itself: with distinct ids, the other folder whose id it names |
| FolderTree.OneChildrenList | apps/studio/src/common/utils/folderTree.ts:20-23 | a folder stands in one children list at most, and there once |
| FolderTree.RootsReachAllIffAcyclic | apps/studio/src/common/utils/folderTree.ts:20-43 | the roots reach every folder, each in exactly one way, if and only if parent links are acyclic |
| FolderTree.GetSelfAndAncestors | apps/studio/src/common/utils/folderTree.ts:110-129 | for every list, circles and repeated ids included, the walk ends, goes each time to the first folder not yet visited that has the id sought, and stops when there is none; with distinct ids it starts at the folder asked for, follows parent links, repeats nothing and stops only at an unknown or visited parent |
| FolderTree.WalkUnique | apps/studio/src/common/utils/folderTree.ts:110-129 | those properties leave one list only |

## Left out

- Windows, menus, IPC, the updater, UI components, database drivers, cloud and SSH code: I/O with little logic of its own.
- JSON: `toJSON` calls and dropped properties happen before the model; lone surrogates do not exist in Dafny's characters; a numeric path element is its numeral.
- `getPaths`, `eachPath`: the walk over paths is easy and not modelled.
- Vimrc: CodeMirror itself is not part of this model; `Vimrc` has one mapping per key and mode, `VimrcStack` keeps covered mappings. What its mapclear does to mappings without a mode is left open there.
- Vimrc: a mapping that carries an explicit type "map" is never deduped by the code, and the parser never makes one; messages are kept as reasons, not as text.
- Timers: limits are those read when a tab is armed; a configuration reload between warning and rollback, and the removal of a whole session, are not modelled.
- QueryAudit.HistoryReplays: an audit that a cascade has deleted has no replay to speak of, so the lemma is about audits that still stand; a direct DELETE on the audit table is not a step of the model.
- QueryAudit: columns other than title, text and the timestamps; a change of a query's id; multi-row statements are sequences of single-row steps.
- ExportedText.ExportedFileText: columns that become known only after rows have been written put the header between rows; that is exactly the case it leaves to `Export.Exporter.ExportData`.
- Export: errors thrown while reading or writing, and an abort that lands after the last loop test; a paused run is completed with its footer, as in the code. Progress counters and row formatting are abstract.
- ConfigProvider.MergedAgreesWithLayers: about scalars, since lists merge by position; lists have their own exact condition in `LeafAgreesIffNoLongerList`. Nulls and an object meeting a scalar are kept out of both. An object merged into a list, whose members lodash adds to the list, takes its place in the model.
- Configuration: dotted path strings are sequences of keys, so keys that contain dots, and lodash reading properties of strings and lists, are outside; a top-level section named `config` replaces a layer in the code, which the lemmas exclude; sections named like members of the provider are outside.
- ConfigDefaults.RawConfig.ProcessRawConfig: a `db.default` that is a non-empty string or list, whose characters or items the code hands out under their indices, and a file that already has the scratch key `default_parsed` are outside.
- ConfigWriter.WriteThenGet: writes that make such a file are outside; a `db.default` replaced by another value makes the file fail to load, which the lemma covers.
- ConfigWriter.WriteElsewhere: about paths that part from the written one and are not sections around it or its mirrors; a file that does not load any more loses the whole user layer.
- ConfigWriter.ConfigHandlers.WriteUserValue: the plugin manager and the message to the renderer are left out.
- Configuration: reading and writing ini text is taken as identity. The wording of warnings is left out. That arrays are shared between sections after filling is not modelled.
- Connection store: `window.main.disableConnectionMenuItems` is assumed not to throw; fields other than the flag, the switch and the configuration are left out.
- BinaryText: base64 decoding is of padded text without white space; views other than byte arrays and a negative character limit are outside.
- FolderTree: item nodes and reorder events.
