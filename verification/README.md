# Mailbox recovery and overview: a verified model

Dafny 4.11 models of the parts of the repository whose correctness is least
visible from reading them: fast, bounded plans that must agree with a simple
definition, and recovery tools that must not lose anything when they are
interrupted. `dafny verify dfyconfig.toml` checks the whole project.

## What is modelled

**Keyset-paged query plans against straight oracles.** `Sql` gives a query its
meaning (filter, sort, take a page) over immutable tables, as inside a
savepoint; `Schema` holds the tables. `Paging` and `ExpiryScan` are the cursors:
ascending keys, and the two-mode (expiry, id) cursor. `Counts` collects the
projects with live reservations under budgets (initial pages, gap seeks over an
index, fallback). `Recipients` and `SparseRecipients` count pending recipients,
by one scan or by an unread pass and an acknowledgement walk with seeks.
`Overview` fills the rows of all projects. Page size and budgets are symbolic.

**SQLite pages.** `Bytes`, `Varint`, `Spill` and `RecordPages` say what the bytes
of a database file hold (sections 1.6, 1.7 and 2.1 of the SQLite Database File
Format). `LayoutWalk` is the probe with its page stack and visited set, on any
byte string; `BTree` relates it to the recursive traversal, and `PageFormat` to
tables written down in the file format itself, byte for byte, in both directions;
`TableProbe` puts that together for any file. `LogicalState` is the tagged,
length-framed encoding that compares whole databases.

**Move-only quarantine.** `Artifacts` and `Generations` describe directory
entries and the names of dated backups; `Retention` is the planner, `Manifest`
the independent check. `Quarantine` is the protocol, with an error or a crash
possible at every step. `RecoveryRuns` says what moves conserve over any number
of recorded runs and when one run blocks another; `Histories` is any sequence of
commands and how to undo it; `BackupRuns` is the same with the backup planner
built in. `DatedPair`, `EarlyTime`, `Overtaken` and `Accompanied` are concrete
directories and command sequences.

**Smaller cores.** `SeededRng` (period of the id generator), `ArchiveDiagnostics`
(phase records and saturating totals), `GateRunner` (sequential and two-phase
parallel gates). `Numbers` and `Order` are numerals and orders shared by these.

Code that changes state is a class or a method with the loops of the source,
proved against a specification function; what the source promises is then proved
of that function. What a specification is made of is said a second time in words:
limits as numbers, names as texts, orders by their first difference. Recursive functions over a sequence usually take the last
element, because the loops append.

## Results that differ from what one would expect

- A backup whose modification time is negative, or beyond 64 bits, can be
  previewed, but a plan that has something to move is then refused by the manifest
  check. Without faults an agreed backup preview is applied exactly when it has
  nothing to move, or its manifest is within the byte limit and all candidate times
  fit: `BackupRuns.ApplyBackups`. `EarlyTime.EarlyTimeIsRefused` and
  `BackupRuns.EarlyApply` are about a concrete directory.
- The progress records are matched pairs only if no phase is started explicitly
  while another one is open; the condition is exact for all histories.
- The totals equal the capped sum of the blocks' last values exactly when no
  counter falls within a block or that sum reaches the cap;
  `ArchiveDiagnostics.FallingCounter` is a history where they do not.
- With several recorded runs an artifact restored from one run may be moved by
  another; the first run is then refused until the other gives it back
  (`Overtaken.Sequence`). A run passes inspection exactly when no other run holds
  what it needs and no companion of its backups has appeared
  (`RecoveryRuns.SoundIff`).
- Restoring in the reverse order of last moves undoes everything exactly when, for
  each run that still holds something, no companion of its backups lies in the
  source or in a run that took later (`Histories.RestoreAll`). That always holds for
  one kind of plan, and for every database name that neither begins with the staging
  prefix nor is that prefix without its dash; with any other name a staging directory can be a companion
  (`DatedPair.UnrelatedIff`), and giving it back first blocks the backup's restore
  (`Accompanied.Sequence`).
- A gate that panics ends the sequential runner without a report, while the
  parallel runner reports a failure; the comparison is about runs that return.

## Model

| member | source | states |
|---|---|---|
| Counts.Collector.Counts | scripts/verify_gh274_counts.py:237-259 | whether it ends in the initial pages, by gap seeks or by the restarted scan after an abandoned seek, the projects are exactly the known ones and those with a reservation still held; with every project known, a usable index and few enough projects there is no release lookup, no fallback, and at most INITIAL_PAGES * PAGE candidate rows whatever the history size |
| SparseRecipients.Phase.Run | scripts/verify_gh274_sparse_recipients.py:72-200 | under every strategy the counts are exactly those of the joined reference: a project is listed exactly when one of its counts is not zero, and they are its unread recipients, the unread ones of important messages, and the unacknowledged ones of messages that asked for it more than 1800 seconds ago; at most 2 + (pages with pending groups) seek probes |
| Overview.Collector.Bounded | scripts/verify_gh274_overview.py:142-255 | the paged passes end with exactly the rows of the joined reference, orphan placeholders included, for every page size, release schema and index choice: every project that is registered, used or reserved once, each with its slug and its four counts, ordered by slug and then by the counts, a proper prefix first |
| Overview.ReportIsSorted | scripts/verify_gh274_overview.py:62-82 | the report is in order, and the same in whatever order the dictionary lists its projects |
| BTree.WalkIsInOrder | scripts/materialize_v30_mailbox.py:191-272 | on pages encoding a well-formed b-tree the stack walk succeeds exactly when the in-order rowids strictly increase, and reports that list's counts: neither the cycle check nor the fan-out check can refuse such a tree |
| BTree.WalkAcceptsTrees | scripts/materialize_v30_mailbox.py:191-272 | the walk from a page succeeds exactly when a well-formed b-tree with strictly increasing rowids hangs on it; it accepts nothing else |
| PageFormat.StoredTable | scripts/materialize_v30_mailbox.py:191-279 | a table laid out in the pages of a file as the format says (cell heads, local parts by the numbers of section 1.7, overflow chains, pointer arrays, interior cells), no page used twice, is accepted exactly when its rowids increase, and every row is counted |
| TableProbe.ProbeFindsTables | scripts/materialize_v30_mailbox.py:152-279 | on any bytes the probe succeeds exactly when they are a database file with, at the root page, a table of the format with increasing rowids and as many rows as expected; then the report is that table's: all rows, those with fewer than thirteen fields and the first eight of them, the rows of each width, and all its tree and overflow pages |
| PageFormat.WalkAcceptsTables | scripts/materialize_v30_mailbox.py:191-279 | the walk accepts exactly the pages at which a table of the format with increasing rowids and no page used twice begins |
| LayoutWalk.Walker.PhysicalLayout | scripts/materialize_v30_mailbox.py:191-279 | on every image, cyclic or corrupt, the walk ends, has read each page at most once (table + overflow pages = pages visited <= page count) and reports exactly what the walk from the root accepts |
| Histories.Session | scripts/reclaim_backup_staging.py:673-716 | any sequence of apply, resume, restore and inspect commands is carried out one after the other, each doing all it may when none of its steps fails and otherwise a first part or nothing; at every moment between them each original entry is unchanged in exactly one place and nothing is quarantined without a durable intent |
| Histories.Unwind | scripts/reclaim_backup_staging.py:879-915 | from the state after any history with any number of runs, once faults have ended, repeated restores in the reverse order of last moves give the original directory back, for one kind of plan or a database whose backups' companions cannot be named like staging directories |
| BackupRuns.UndoBackups | scripts/reclaim_backup_staging.py:477-525 | any history of backup quarantines with the project's own planner, its policy chosen anew for each command, is carried out and then undone, with nothing assumed about previews or names |
| BackupRuns.ApplyBackups | scripts/reclaim_backup_staging.py:673-716 | a fresh and agreed backup preview at whose steps nothing fails is applied exactly when it has nothing to move, or its manifest is within the byte limit and every candidate's modification time lies in 0..2^64-1 |
| Histories.Finish | scripts/reclaim_backup_staging.py:879-915 | with one recorded run, after any history, a resume or restore at whose steps nothing fails succeeds: the resume leaves exactly the plan in quarantine, the restore gives the original directory back |
| LogicalState.SameStateSameDatabase | scripts/materialize_v30_mailbox.py:304-353 | two databases have equal logical states exactly when they agree on the schema rows, the header fields, the tables and every table's rows in order |
| Manifest.PlanPassesCheck | scripts/reclaim_backup_staging.py:719-810 | the planner's plan passes the independent manifest check, under a non-decreasing clock, if and only if every candidate's modification time lies in 0..2^64-1 |
| Manifest.AcceptedProtects | scripts/reclaim_backup_staging.py:797-807 | in any accepted manifest each selected backup has at least keep newer recorded ones, does not have both the size and the checksum of the claimed snapshot, and is old enough |
| Manifest.AcceptedMeans | scripts/reclaim_backup_staging.py:719-810 | a record is accepted exactly when it names its operation, carries this mailbox's binding and its own seal, keeps its limits (16384 entries, 1 to 16384 kept, 64-bit sizes), has distinct well-named entries with consistent fingerprints, and under the present claim selects only backups that may go |
| Retention.PlanSelects | scripts/reclaim_backup_staging.py:477-525 | a preview selects exactly the surplus backups, retains exactly the others, and records every entry as it is; no selected one has both the size and the checksum of the claimed snapshot, and a retained one carries that reason exactly when it has both |
| SeededRng.FullPeriod | crates/mcp-agent-mail-cli/src/e2e_artifacts.rs:104-110 | draws i and j of any seed agree exactly when they are a multiple of 2^31 apart |
| SeededRng.IdsDistinct | crates/mcp-agent-mail-cli/src/e2e_artifacts.rs:113-121 | ids of one prefix repeat exactly every 2^31 draws, so any 2^31 consecutive ones are pairwise distinct |
| ArchiveDiagnostics.TotalsAreLastValues | crates/mcp-agent-mail-cli/src/archive_diagnostics.rs:216-238 | a total is the capped sum of each block's last value exactly when no counter falls within a counted block, or that sum reaches the cap anyway |
| ArchiveDiagnostics.Diagnostics.Drop | crates/mcp-agent-mail-cli/src/archive_diagnostics.rs:267-276 | for every history the records are matched started/completed pairs, heartbeats inside them, exactly when no start overlapped an open phase; the drop closes what is open by one final failed record |
| GateRunner.ParallelDecidesAlike | crates/mcp-agent-mail-cli/src/ci.rs:2384-2610 | the parallel results equal the sequential ones exactly when no compile gate fails or there are only compile gates; a failure is found by both or by neither, so the release decision is the same |
| ExpiryScan.CursorEnds | scripts/verify_gh274_counts.py:118-143 | the two-mode cursor ends within 2*floor(n/PAGE)+1 queries and has then visited every unexpired candidate once, in (expiry, id) order, however many share an expiry |
| Paging.AdvanceReads | scripts/verify_gh274_counts.py:128-143 | after any page the rows read are a beginning of the scan up to the new cursor; at the end they are all of it |
| ExpiryScan.NextQuery | scripts/verify_gh274_counts.py:118-137 | each page query returns at most a page of rows that continue the scan in order, so the source's progress checks never fire |
| ExpiryScan.VisitedAreLive | scripts/verify_gh274_counts.py:156-159 | the unreleased projects among visited rows are projects of live reservations |
| ExpiryScan.FullScanIsOracle | scripts/verify_gh274_counts.py:75-85 | the projects found by a complete expiry scan are those of the oracle |
| Counts.Collector.Pages | scripts/verify_gh274_counts.py:118-143 | the page loop visits a beginning of the scan, all of it when it completes, stops early only on the visitor's budget, and needs at most 2*full pages + 1 page queries |
| Counts.Collector.Fetch | scripts/verify_gh274_counts.py:121-127 | one page query: counted, bounded by the page size, and confined to its project |
| Counts.Collector.Visit | scripts/verify_gh274_counts.py:222-229 | each visitor adds exactly the page's unreleased projects and asks to stop exactly at its budgets |
| Counts.Collector.Released | scripts/verify_gh274_counts.py:145-154 | exactly the given ids that are in the ledger, with one query or none |
| Counts.Collector.AddOrphans | scripts/verify_gh274_counts.py:156-159 | adds exactly the projects of unreleased rows, and looks nothing up when all are known |
| Counts.Collector.CountAll | scripts/verify_gh274_counts.py:164-170 | every project's total grows by exactly the page's unreleased reservations of that project |
| Counts.Collector.Count | scripts/verify_gh274_counts.py:108-116 | every query is counted and none exceeds the page size |
| Counts.Collector.Seek | scripts/verify_gh274_counts.py:184-235 | stays within MAX_INDEX_QUERIES + 2 queries, is sound at all times, and equals the oracle when it completes; with all projects known it needs one query a gap |
| Counts.Collector.SeekGap | scripts/verify_gh274_counts.py:193-233 | when it ends without exhausting a budget every live project up to the gap's upper end has been found |
| Counts.GapQueryFinds | scripts/verify_gh274_counts.py:197-219 | a gap query returns the least project strictly inside the gap, or nothing when the gap is empty |
| Counts.EmptyGapSettled | scripts/verify_gh274_counts.py:189-192 | the three gaps that are skipped without a query contain no project |
| Counts.ProbeSettles | scripts/verify_gh274_counts.py:231-233 | after a probe that found the project or completed, nothing live up to that project is missing |
| Counts.Collector.FullCounts | scripts/verify_gh274_counts.py:161-173 | the unconditional tally has the known projects and those with a reservation still held as its keys, and for each the number of its reservations still held |
| Counts.OracleHolds | scripts/verify_gh274_counts.py:75-85 | the straight scan finds the known projects and those with a reservation that expires later, has no positive release time and is in no ledger |
| ExpiryScan.LiveCountIsHeld | scripts/verify_gh274_counts.py:161-173 | summing over the reservations counts those still held, each once |
| Schema.IndexWithPrefix | scripts/verify_gh274_sparse_recipients.py:47-54 | the first index of all rows whose leading columns are the given ones, or none when there is none |
| Sql.SelectIsPage | scripts/verify_gh274_sparse_recipients.py:87-100 | filter, sort and limit give the least matching rows in key order, and all of them when fewer than the limit |
| Sql.LookupIsExact | scripts/verify_gh274_sparse_recipients.py:118-122 | an IN lookup of at most a page of ids returns exactly the rows with those ids |
| Paging.NextPage | scripts/verify_gh274_sparse_recipients.py:87-100 | each keyset page continues the sorted scan where the last one stopped, and a short page is the last |
| Recipients.MetadataJoins | scripts/verify_gh274_sparse_recipients.py:118-128 | for the recipients of a page, looking up the messages is the join |
| SparseRecipients.Phase.TallyPage | scripts/verify_gh274_sparse_recipients.py:116-134 | one page adds exactly its recipients' share to every count |
| SparseRecipients.Phase.RecipientPass | scripts/verify_gh274_sparse_recipients.py:115-136 | the pass tallies exactly the wanted recipients, each once |
| SparseRecipients.WideScanIsTotal | scripts/verify_gh274_sparse_recipients.py:116-134 | scanning the pending recipients loses nothing of the totals over all of them |
| SparseRecipients.Partition | scripts/verify_gh274_sparse_recipients.py:115-197 | every total is the unread pass plus the read-unacknowledged pass: the two split the overdue recipients |
| SparseRecipients.OverdueJoin | scripts/verify_gh274_sparse_recipients.py:161-186 | the read-unacknowledged overdue recipients are exactly those grouped under the overdue messages |
| SparseRecipients.GroupsCount | scripts/verify_gh274_sparse_recipients.py:179-186 | the groups of a page of messages sum to its pending recipients, project by project |
| SparseRecipients.SeekFinds | scripts/verify_gh274_sparse_recipients.py:140-154 | the seek returns the least message id after the given one that has an unacknowledged recipient, or none |
| SparseRecipients.Jump | scripts/verify_gh274_sparse_recipients.py:189-192 | every overdue message that a seek skips has no unacknowledged recipient |
| SparseRecipients.SkippedAddsNothing | scripts/verify_gh274_sparse_recipients.py:189-192 | skipped messages would have contributed nothing to any count |
| SparseRecipients.Phase.NextUnacked | scripts/verify_gh274_sparse_recipients.py:140-154 | one probe finds the next message id that may have pending acknowledgements |
| SparseRecipients.Phase.AckPage | scripts/verify_gh274_sparse_recipients.py:174-186 | a page adds exactly its groups to the overdue counts and changes no other count |
| SparseRecipients.Phase.AckPass | scripts/verify_gh274_sparse_recipients.py:156-197 | adds exactly the overdue read-unacknowledged recipients; at most 2 + (pages with groups) probes, and never more message pages than the walk without seeks, which needs floor(n/PAGE)+1 |
| SparseRecipients.ResultIsReference | scripts/verify_gh274_sparse_recipients.py:198-212 | dropping the all-zero entries leaves exactly the reference's projects |
| SparseRecipients.ThresholdIs | scripts/verify_gh274_sparse_recipients.py:102 | created before the clamped threshold is created more than 1800000000 microseconds before now, for every 64-bit time |
| SparseRecipients.ReferenceCounts | scripts/verify_gh274_sparse_recipients.py:198-212 | the reference lists exactly the projects with something to count, with the numbers of recipients that each column is named for |
| Recipients.TotalsCount | scripts/verify_gh274_overview.py:75-81 | each total is the number of the project's recipients that are unread, unread and urgent or high, or unacknowledged though asked for before the threshold |
| Overview.InventoryPage | scripts/verify_gh274_overview.py:110-139 | a project-group page holds the least remaining projects; what its last group loses at the page end belongs to that same project |
| Overview.InventoryReads | scripts/verify_gh274_overview.py:110-139 | although a seek skips the rest of a cut-off project, every project up to the cursor has been found, and the cursor always advances |
| Overview.Collector.ProjectPass | scripts/verify_gh274_overview.py:211-213 | registers exactly the projects of the table, each with its slug |
| Overview.Collector.InventoryPass | scripts/verify_gh274_overview.py:214-220 | adds exactly the projects of one table, with placeholders for unregistered ones, and changes no count |
| Overview.Collector.AddEntries | scripts/verify_gh274_overview.py:219-220 | adds exactly the page's projects |
| Overview.Collector.RecipientPass | scripts/verify_gh274_overview.py:221-235 | every row holds its counts over exactly the pending recipients |
| Overview.Collector.CountPage | scripts/verify_gh274_overview.py:224-235 | one page adds exactly its recipients' share to every row and no project |
| Overview.Collector.ReservationPass | scripts/verify_gh274_overview.py:237-245 | counts every live reservation once and adds exactly the live projects |
| Overview.Collector.ReservationPage | scripts/verify_gh274_overview.py:238-245 | one page counts exactly its unreleased reservations |
| Overview.ReadIsReference | scripts/verify_gh274_overview.py:62-82 | a dictionary filled from the complete scans is the reference |
| Overview.PendingIsTotal | scripts/verify_gh274_overview.py:221-235 | counting only pending recipients gives the totals of the unrestricted join |
| Overview.ReferenceReports | scripts/verify_gh274_overview.py:62-82 | the sorted reference lists every project once, described by its slug or placeholder and its four counts, in order |
| Overview.RowBeforeIsEarlier | scripts/verify_gh274_overview.py:82 | one row comes before another exactly when the first component in which they differ is smaller |
| Order.LessIsEarlier | scripts/verify_gh274_overview.py:82 | a text is less exactly when it is a proper prefix or has the smaller character at the first difference |
| Numbers.DecimalIs | scripts/verify_gh274_overview.py:66 | the number in a placeholder is its decimal text, without leading zeros and with a minus sign if negative |
| ExpiryScan.ScanCountsLive | scripts/verify_gh274_overview.py:237-245 | the unreleased rows of the expiry scan are the live reservations, with multiplicity |
| Varint.Decode | scripts/materialize_v30_mailbox.py:138-149 | consumes one to nine bytes, never passes the limit, and yields a value below 2^64 |
| Varint.ReadVarint | scripts/materialize_v30_mailbox.py:138-149 | the loop reads exactly the varint of section 1.6 of the SQLite Database File Format, or refuses a truncated one |
| Varint.DecodeEncode | scripts/materialize_v30_mailbox.py:138-149 | decoding inverts the canonical encoding of every value below 2^64, eight-bit ninth byte included, in any surroundings |
| Varint.DecodeIs | scripts/materialize_v30_mailbox.py:138-149 | decoding finds exactly the varints of section 1.6: seven bits of each byte with the high bit set and of the first without, all eight of a ninth |
| Varint.RowidRoundTrip | scripts/materialize_v30_mailbox.py:217-222 | the rowid conversion is the two's-complement bijection onto signed 64-bit values, and every rowid survives its varint |
| Spill.LocalSizeBounds | scripts/materialize_v30_mailbox.py:223-231 | the local part lies between minimum and maximum and is shorter than a spilled payload |
| Spill.LocalSizeIs | scripts/materialize_v30_mailbox.py:223-228 | the local part is the payload up to usable - 35; above that it is the size between (usable-12)*32/255-23 and usable-35 that leaves whole overflow pages, or the lower of these when there is none; and no other size is |
| Spill.PagesForIsCeiling | scripts/materialize_v30_mailbox.py:236-245 | the overflow loop takes exactly ceil(spilled / (usable - 4)) pages |
| Bytes.BigEndianRoundTrip | scripts/materialize_v30_mailbox.py:111-113 | a framed length reads back as itself |
| RecordPages.OpenImage | scripts/materialize_v30_mailbox.py:164-176 | an accepted header gives a page size that divides the file and at least 480 usable bytes |
| RecordPages.PageAt | scripts/materialize_v30_mailbox.py:179-189 | a page in range lies wholly inside the file |
| RecordPages.FollowChain | scripts/materialize_v30_mailbox.py:236-245 | an overflow chain delivers exactly the spilled bytes from exactly the pages the spill formula needs, all inside the file |
| RecordPages.HeadAt | scripts/materialize_v30_mailbox.py:217-234 | an accepted cell head keeps every later read inside the page |
| RecordPages.FrameAt | scripts/materialize_v30_mailbox.py:196-205 | an accepted page header keeps the pointer array before the content and inside the page |
| LayoutWalk.Walker.ReadPage | scripts/materialize_v30_mailbox.py:179-189 | reads exactly the pages in range that were not read before |
| LayoutWalk.Walker.ReadHeader | scripts/materialize_v30_mailbox.py:235-247 | succeeds exactly for a complete, unread, properly ended chain, and has then kept exactly the first header_size bytes of the reassembled payload |
| LayoutWalk.Walker.ReadFields | scripts/materialize_v30_mailbox.py:248-260 | the field count of the header, or a refusal |
| LayoutWalk.Walker.ReadCell | scripts/materialize_v30_mailbox.py:217-266 | takes a cell exactly when it holds a well-formed record with a larger rowid and unread overflow pages |
| LayoutWalk.Walker.ReadLeaf | scripts/materialize_v30_mailbox.py:207-266 | takes a leaf exactly when all its records can be taken in pointer order |
| LayoutWalk.Walker.ReadInterior | scripts/materialize_v30_mailbox.py:207-216 | the children in pointer order |
| LayoutWalk.Walker.constructor | scripts/materialize_v30_mailbox.py:160-163 | starts with nothing visited and nothing counted |
| LayoutWalk.Probe | scripts/materialize_v30_mailbox.py:152-279 | on any byte string: a refusal for a bad header, otherwise exactly the walk's report, within the page count |
| LayoutWalk.WalkStep | scripts/materialize_v30_mailbox.py:192-272 | one turn of the stack loop is one step of the list walk, children first and in order |
| LayoutWalk.PushChildren | scripts/materialize_v30_mailbox.py:272 | pushing the reversed children puts them on top of the stack, left to right |
| BTree.ForestWalk | scripts/materialize_v30_mailbox.py:191-272 | a stack of well-formed subtrees is walked as its concatenated in-order list |
| BTree.WalkedForest | scripts/materialize_v30_mailbox.py:191-272 | behind every successful walk there is a forest of well-formed trees with unshared pages, rooted at the pages to do |
| BTree.LeafAccepts | scripts/materialize_v30_mailbox.py:207-266 | with unshared overflow pages only the rowid order can refuse a leaf |
| BTree.FanOutFits | scripts/materialize_v30_mailbox.py:268-271 | distinct pages in the file: the fan-out check cannot fire on a well-formed tree |
| BTree.CountsMean | scripts/materialize_v30_mailbox.py:261-266 | rows, short rows, widths, the first eight short rowids and overflow pages count what their names say |
| PageFormat.ChainReadsBack | scripts/materialize_v30_mailbox.py:236-245 | an overflow chain written page by page is followed to its end and gives the stored bytes back |
| PageFormat.HeaderReadsBack | scripts/materialize_v30_mailbox.py:248-260 | the field count of a written record header, with its own size counted in, is the number of fields stored |
| PageFormat.CellReadsBack | scripts/materialize_v30_mailbox.py:217-260 | a stored leaf cell, spilled or not, is read as the record of its row |
| PageFormat.CellIsStored | scripts/materialize_v30_mailbox.py:217-260 | behind every leaf cell that is read there is a row stored there as the format says |
| PageFormat.LeafReadsBack | scripts/materialize_v30_mailbox.py:196-209 | a stored leaf page, content start 65536 included, is read as its rows in pointer order |
| PageFormat.InteriorReadsBack | scripts/materialize_v30_mailbox.py:196-216 | a stored interior page is read as its children, the right-most one last |
| PageFormat.LaidOutEncodes | scripts/materialize_v30_mailbox.py:191-272 | a tree laid out in the format is one that the pages encode, with the same rows in order |
| PageFormat.OpensDatabases | scripts/materialize_v30_mailbox.py:164-176 | a file is opened exactly when its header has the magic text, a page size that is a power of two from 512 to 65536 and divides the file, and at least 480 usable bytes |
| PageFormat.SmallTable | scripts/materialize_v30_mailbox.py:152-279 | a literal two-page file meets the format, and the probe counts its one row |
| LogicalState.Utf8Unique | scripts/materialize_v30_mailbox.py:105-106 | different texts have different UTF-8 payloads |
| LogicalState.FieldUnique | scripts/materialize_v30_mailbox.py:97-113 | a field is recovered from any stream it begins; NULL, INTEGER, REAL, TEXT and BLOB are never confused |
| LogicalState.ScalarMeans | scripts/materialize_v30_mailbox.py:105-106 | a scalar is encoded by the table of RFC 3629, section 3 |
| LogicalState.FieldMeans | scripts/materialize_v30_mailbox.py:97-113 | a field is the letter N, I, F, T or B, eight bytes of length, and the value: a number in big-endian two's complement, a text in UTF-8, other bytes as they are |
| LogicalState.RowMeans | scripts/materialize_v30_mailbox.py:347-350 | a row is the letter R, eight bytes for its column count, and its fields |
| LogicalState.RowUnique | scripts/materialize_v30_mailbox.py:347-350 | a framed row, with its column count, is recovered from any stream it begins |
| LogicalState.RowsUnique | scripts/materialize_v30_mailbox.py:345-352 | equal table streams come from equal row sequences |
| LogicalState.SchemaUnique | scripts/materialize_v30_mailbox.py:311-317 | the unframed schema stream is unambiguous because each schema row has four columns |
| LogicalState.Digest.Field | scripts/materialize_v30_mailbox.py:111-113 | feeds the tag, the framed length and the payload |
| LogicalState.Digest.FeedRow | scripts/materialize_v30_mailbox.py:348-350 | feeds the row marker, the column count and the fields in order |
| LogicalState.Digest.FeedSchema | scripts/materialize_v30_mailbox.py:314-317 | feeds every field of every schema row in order |
| LogicalState.HashTable | scripts/materialize_v30_mailbox.py:345-352 | the row count and the stream of all rows |
| LogicalState.LogicalState | scripts/materialize_v30_mailbox.py:304-353 | the state of the database, one fingerprint per table; refused exactly when a table cannot be listed completely |
| LogicalState.CheckTable | scripts/materialize_v30_mailbox.py:319-344 | accepts exactly ordinary tables without hidden columns that have a primary key or a rowid alias no column shadows |
| LogicalState.ListableMeans | scripts/materialize_v30_mailbox.py:327-344 | a table is listable exactly when it is an ordinary one, has no hidden column, and has a primary key if it is without rowid, or else leaves _rowid_, rowid or oid unshadowed |
| Generations.PrintParse | scripts/reclaim_backup_staging.py:176-199 | every accepted name is the canonical print of what it parses to |
| Generations.ParsePrint | scripts/reclaim_backup_staging.py:176-199 | every valid generation is the parse of its print |
| Generations.NameMeans | scripts/reclaim_backup_staging.py:176-199 | a name is parsed exactly when it is the database name, .bak., a calendar second YYYYMMDD_hhmmss, and unless it is zero a dash and the collision number below 2^32 with at least two digits |
| Generations.TimestampMeans | scripts/reclaim_backup_staging.py:190-193 | a timestamp is accepted exactly when its digits are those of a second of the Gregorian calendar, leap years included |
| Generations.NewerMeans | scripts/reclaim_backup_staging.py:503 | newer is the name of a later second, or of the same second with a larger collision number |
| Generations.NamesDiffer | scripts/reclaim_backup_staging.py:503 | different accepted names are never of the same age |
| Generations.OlderIsEarlier | scripts/reclaim_backup_staging.py:503 | the text order of generations is calendar order, then collision number |
| Generations.OlderStrict | scripts/reclaim_backup_staging.py:503 | age is a strict total order on generations |
| Retention.Budget.Visit | scripts/reclaim_backup_staging.py:165-168 | refuses exactly when no entry is left in the budget |
| Retention.Budget.Hash | scripts/reclaim_backup_staging.py:170-173 | refuses exactly sizes that are negative or beyond the budget |
| Retention.RankIsNewer | scripts/reclaim_backup_staging.py:503-509 | a candidate's rank is the number of newer candidates |
| Retention.ReasonsAre | scripts/reclaim_backup_staging.py:506-516 | a candidate has no reason to be retained exactly when it is surplus |
| Retention.ReadCandidates | scripts/reclaim_backup_staging.py:488-502 | reads the whole directory within its budgets, refusing all when any candidate is unreadable |
| Retention.JudgeAll | scripts/reclaim_backup_staging.py:505-516 | splits the ranked candidates by whether they have a reason to stay |
| Retention.BackupPlan | scripts/reclaim_backup_staging.py:477-525 | a plan exactly when the policy is in range, the directory small enough and every candidate a readable single file within the hash budget; then every backup is recorded once, in name order, with exactly the reasons that apply to it, and selected without any |
| Retention.PlanIsMeant | scripts/reclaim_backup_staging.py:505-525 | every plan entry has exactly the reasons that apply to it, by the numbers of newer backups, its age, the claim and its companions |
| Retention.PreviewableMeans | scripts/reclaim_backup_staging.py:477-502 | when a preview is possible, with its limits as numbers |
| Artifacts.CompanionIs | scripts/reclaim_backup_staging.py:305-315 | a companion is there exactly when a file has the backup's name with one of nine suffixes, or that suffix between the database name and the generation |
| Artifacts.TypeBits | scripts/reclaim_backup_staging.py:597-602 | regular file and folder are told by the four type bits of a mode |
| Manifest.CheckStages | scripts/reclaim_backup_staging.py:746-793 | accepts exactly distinct, well-formed, self-consistent entries within the total bounds |
| Manifest.ValidateManifest | scripts/reclaim_backup_staging.py:719-810 | accepts exactly the sealed records of this mailbox whose limits, entries, totals and selected backups are as its rules say, with the limits as numbers and the names as texts |
| Manifest.KeptAreNewest | scripts/reclaim_backup_staging.py:801-807 | the names that must be kept are exactly those with fewer than keep newer ones |
| Manifest.PlanSums | scripts/reclaim_backup_staging.py:771-774 | the planner's lists together hold each candidate once: entries and bytes add up |
| Manifest.AcceptedIgnoresSource | scripts/reclaim_backup_staging.py:719-810 | the manifest check depends on the mailbox, not on what its directory holds |
| Manifest.CompanionUnplanned | scripts/reclaim_backup_staging.py:305-315 | a companion of a backup is never a backup itself, nor named like a staging directory when the database is unrelated |
| DatedPair.UnrelatedIff | scripts/reclaim_backup_staging.py:305-315 | unrelated are exactly the databases of which no backup has a companion that could be a staging directory: the name neither begins with the staging prefix nor is that prefix without its dash |
| EarlyTime.EarlyTimeIsRefused | scripts/reclaim_backup_staging.py:765-767 | with one of two backups dated before 1970 and one to keep, the preview has something to move and its plan is refused by the manifest check |
| Quarantine.SettleMoves | scripts/reclaim_backup_staging.py:624-636 | a move takes the artifact to the other place and leaves every other name alone |
| Quarantine.SettleKeepsReady | scripts/reclaim_backup_staging.py:610-661 | moving one artifact neither spoils nor mends the inspection of the rest |
| Quarantine.AfterKeepsReady | scripts/reclaim_backup_staging.py:610-661 | a run in order stays in order however far it was moved |
| Quarantine.Mailbox.RenameNoReplace | scripts/reclaim_backup_staging.py:528-550 | moves the entry when the target name is free, otherwise changes nothing |
| Quarantine.Mailbox.Publish | scripts/reclaim_backup_staging.py:630-636 | the rename happens only after its intent was logged |
| Quarantine.Mailbox.MoveStage | scripts/reclaim_backup_staging.py:617-653 | whatever fails and wherever, the artifact has not moved or has moved whole; without faults it arrives; holds for any directory contents |
| Quarantine.Mailbox.MovePlan | scripts/reclaim_backup_staging.py:610-661 | some first part of the plan has been settled and the rest is untouched; done means all have arrived |
| Quarantine.Mailbox.InspectStages | scripts/reclaim_backup_staging.py:866-876 | succeeds only when every artifact is in exactly one directory with its recorded type, identity and evidence and the retained backups, claim and companions check out; always then when nothing fails |
| Quarantine.ReadyMeans | scripts/reclaim_backup_staging.py:573-661 | a run is in order exactly when every artifact lies in one of the two directories alone with its recorded type, identity and evidence and, for backups, the claim is the planned one, the retained backups have their stamps, and no selected one is claimed or accompanied |
| Quarantine.Mailbox.Recover | scripts/reclaim_backup_staging.py:879-915 | moves nothing unless offline, agreed, and every artifact lies in exactly one directory with its recorded type, identity and evidence; done means accepted, so recorded and all at the destination; without faults it is done under exactly these conditions and a manifest of at most 8 MiB |
| Quarantine.Mailbox.FinishReceipt | scripts/reclaim_backup_staging.py:664-670 | the final receipt can turn success into failure and never the other way round |
| Quarantine.Mailbox.Apply | scripts/reclaim_backup_staging.py:673-716 | creates a run only for the agreed, accepted plan of a fresh preview, then moves a first part of it; without faults it succeeds for exactly the agreed plans with nothing to move or a manifest within the byte limit that the check accepts |
| Quarantine.Mailbox.FreshInOrder | scripts/reclaim_backup_staging.py:677-697 | a fresh preview passes the inspection |
| RecoveryRuns.SettleConserves | scripts/reclaim_backup_staging.py:624-636 | a move keeps every original entry in exactly one place |
| RecoveryRuns.NewRunConserves | scripts/reclaim_backup_staging.py:699-713 | so does recording a new run |
| RecoveryRuns.PlannedOnce | scripts/reclaim_backup_staging.py:593-607 | each planned artifact is in exactly one directory, with its recorded identity and witness |
| RecoveryRuns.AllAt | scripts/reclaim_backup_staging.py:647-650 | a finished resume holds exactly the plan, a finished restore nothing |
| RecoveryRuns.AllRestored | scripts/reclaim_backup_staging.py:879-915 | when no run holds anything the source is the original directory |
| RecoveryRuns.InOrder | scripts/reclaim_backup_staging.py:866-876 | a run passes inspection exactly when none of its artifacts lies elsewhere and, for backups, claim, keep set and companions check out |
| RecoveryRuns.SoundIff | scripts/reclaim_backup_staging.py:866-876 | a run passes inspection exactly when no other run holds something it needs and no companion of its backups is in the source or among its artifacts |
| RecoveryRuns.SoundIffUnblocked | scripts/reclaim_backup_staging.py:866-876 | a run permitted where all began passes inspection exactly when no other run holds something it needs |
| RecoveryRuns.NewRunUnblocked | scripts/reclaim_backup_staging.py:699-713 | a new run is blocked by none |
| RecoveryRuns.Taking | scripts/reclaim_backup_staging.py:610-661 | a run that takes artifacts is blocked by none, so whoever it blocks took earlier: blocking never goes round |
| RecoveryRuns.LatestIsUnblocked | scripts/reclaim_backup_staging.py:866-876 | the run that took last is blocked by none |
| BackupRuns.BackupPreviewFits | scripts/reclaim_backup_staging.py:477-525 | the backup planner records what it sees and selects nothing claimed or accompanied |
| BackupRuns.PlannerPreviews | scripts/reclaim_backup_staging.py:477-525 | so it meets what the histories assume of a planner, on every directory an operating system can present |
| BackupRuns.ApplicableIff | scripts/reclaim_backup_staging.py:677-697 | its current plan can be applied exactly when it is empty, or its manifest is within the byte limit and all candidate times fit |
| BackupRuns.EarlyApply | scripts/reclaim_backup_staging.py:673-716 | a mailbox at which nothing ever fails, whose preview has something to move and a backup dated before 1970: no apply of it can succeed |
| Histories.Recover | scripts/reclaim_backup_staging.py:879-915 | a recovery keeps the history invariant whatever happens during it; a run that is not agreed or not in order is left as it is, and when no step fails the recovery succeeds exactly on an agreed run in order |
| Histories.Apply | scripts/reclaim_backup_staging.py:673-716 | so does an apply: it leaves everything as it is or creates the agreed run and moves a first part of it, and when no step fails it succeeds exactly if it is applicable |
| Histories.RestoreAll | scripts/reclaim_backup_staging.py:879-915 | restoring in the reverse order of last moves: when no step fails it gives the original directory back exactly if, for every backup run holding something, no companion of its artifacts is in the source or in a run that took later; a failure keeps the invariant and a clear way clear |
| Histories.KeepRestoring | scripts/reclaim_backup_staging.py:879-915 | with finitely many faults and a clear way, repeated restores end with the original directory |
| Histories.HeldClear | scripts/reclaim_backup_staging.py:305-338 | for one kind of plan, or a database whose backups' companions cannot be named like staging directories, the way is always clear |
| Overtaken.Sequence | scripts/reclaim_backup_staging.py:866-876 | the literal commands apply, restore, apply, resume the first run: the resume is refused, for the second run holds its directory; restoring the second run and resuming the first then succeed |
| Accompanied.Sequence | scripts/reclaim_backup_staging.py:305-338 | with a database named like a staging directory, literal commands move a folder that is a backup's companion, move the backup and give the folder back: restoring the backup is then refused, by the companion and not by another run |
| SeededRng.GeometricTwos | crates/mcp-agent-mail-cli/src/e2e_artifacts.rs:104-110 | a power of two divides 1 + a + ... + a^(n-1) exactly when it divides n |
| SeededRng.DrawIsAffine | crates/mcp-agent-mail-cli/src/e2e_artifacts.rs:104-110 | n draws are one affine map modulo 2^31 |
| SeededRng.Returns | crates/mcp-agent-mail-cli/src/e2e_artifacts.rs:104-110 | a state comes back after n draws exactly when 2^31 divides n |
| SeededRng.Hex8RoundTrip | crates/mcp-agent-mail-cli/src/e2e_artifacts.rs:113-116 | the padded hexadecimal text reads back as the number |
| SeededRng.FirstDraws | crates/mcp-agent-mail-cli/src/e2e_artifacts.rs:104-110 | the first three draws of the seed zero are 12345, 1406932606 and 654583775 |
| SeededRng.Hex8Width | crates/mcp-agent-mail-cli/src/e2e_artifacts.rs:113-116 | a 32-bit number is printed with exactly eight of the sixteen lower-case digits |
| SeededRng.FirstId | crates/mcp-agent-mail-cli/src/e2e_artifacts.rs:113-121 | the first id of the seed zero ends in _00003039 |
| SeededRng.Generator.constructor | crates/mcp-agent-mail-cli/src/e2e_artifacts.rs:97-101 | the seed modulo 2^31 |
| SeededRng.Generator.NextU32 | crates/mcp-agent-mail-cli/src/e2e_artifacts.rs:104-110 | one draw; the 64-bit product and sum never wrap |
| SeededRng.Generator.NextHex | crates/mcp-agent-mail-cli/src/e2e_artifacts.rs:113-116 | one draw, printed with eight digits |
| SeededRng.Generator.NextId | crates/mcp-agent-mail-cli/src/e2e_artifacts.rs:119-121 | one draw, printed with its prefix |
| ArchiveDiagnostics.RisenIsLastValues | crates/mcp-agent-mail-cli/src/archive_diagnostics.rs:216-238 | the summed rises are at least the blocks' last values, and equal exactly when no counter falls |
| ArchiveDiagnostics.Observed | crates/mcp-agent-mail-cli/src/archive_diagnostics.rs:216-246 | one event changes the saturating totals exactly as its rise within the block |
| ArchiveDiagnostics.Diagnostics.Start | crates/mcp-agent-mail-cli/src/archive_diagnostics.rs:169-175 | opens a phase with a started record and changes no counter |
| ArchiveDiagnostics.Diagnostics.Finish | crates/mcp-agent-mail-cli/src/archive_diagnostics.rs:177-182 | closes the open phase, if any, with one completed record and changes no counter |
| ArchiveDiagnostics.Diagnostics.Heartbeat | crates/mcp-agent-mail-cli/src/archive_diagnostics.rs:140-147 | adds one running record of a phase that is open, and nothing else |
| ArchiveDiagnostics.Diagnostics.SetArchiveBytes | crates/mcp-agent-mail-cli/src/archive_diagnostics.rs:262-264 | replaces the archive size and nothing else |
| ArchiveDiagnostics.Diagnostics.Tally | crates/mcp-agent-mail-cli/src/archive_diagnostics.rs:216-246 | the totals are those of the extended history; only the inventory adds to the storage totals and only compressing adds to the ZIP totals, each by the gain within its fine phase and up to 2^64-1 |
| ArchiveDiagnostics.Diagnostics.ObserveProgress | crates/mcp-agent-mail-cli/src/archive_diagnostics.rs:187-260 | the exact records, counters and open phase after an event: a coarse transition closes the old phase with the old counters before it opens the new one; the completed publication closes its own; unknown phases change nothing |
| ArchiveDiagnostics.PhaseMeans | crates/mcp-agent-mail-cli/src/archive_diagnostics.rs:188-209 | which coarse phase each of the fine names opens, and that no other name opens one |
| ArchiveDiagnostics.StartInsideStart | crates/mcp-agent-mail-cli/src/archive_diagnostics.rs:169-175 | starting a phase inside another one leaves records that are not matched pairs |
| ArchiveDiagnostics.FallingCounter | crates/mcp-agent-mail-cli/src/archive_diagnostics.rs:216-238 | an inventory that reports five files and then three leaves the total at five |
| ArchiveDiagnostics.ReadingPrefix | crates/mcp-agent-mail-cli/src/archive_diagnostics.rs:169-175 | a well-formed record stream has only well-formed beginnings, so no later call repairs an overlap |
| GateRunner.Summarize | crates/mcp-agent-mail-cli/src/ci.rs:681-694 | pass, fail and skip are the statuses' counts and add up to the total |
| GateRunner.NewReport | crates/mcp-agent-mail-cli/src/ci.rs:938-977 | a release goes ahead exactly for a full run without a failed gate, and the summary counts the results of each status |
| GateRunner.RunGateMeans | crates/mcp-agent-mail-cli/src/ci.rs:2248-2382 | one gate: skipped exactly when a quick run leaves it out, passed exactly when it is run, its command is not empty, succeeds and leaves all artifacts; every other ending is a failure with its own reason, or a panic |
| GateRunner.JoinSnoc | crates/mcp-agent-mail-cli/src/ci.rs:213-215 | a reported command is its words with one space between any two |
| GateRunner.ParallelMeans | crates/mcp-agent-mail-cli/src/ci.rs:2437-2610 | what the two phases must report for each gate, and that a release goes ahead exactly after a full run of good gates |
| GateRunner.RunGates | crates/mcp-agent-mail-cli/src/ci.rs:2384-2408 | one result per gate in input order, or a panic when a gate that is run panics; a gate passes exactly when it is run, its command is not empty, succeeds and leaves all its artifacts, and a release goes ahead exactly after a full run in which every gate does |
| GateRunner.RunPhase | crates/mcp-agent-mail-cli/src/ci.rs:2464-2513 | whatever the finishing order, each worker's result is joined to its own gate, a panic as a failure |
| GateRunner.RunRest | crates/mcp-agent-mail-cli/src/ci.rs:2520-2585 | the other gates all run, or all are skipped when a compile gate failed |
| GateRunner.FillMissing | crates/mcp-agent-mail-cli/src/ci.rs:2587-2603 | keeps every result and adds a failure for exactly the gates without one |
| GateRunner.SortedInOrder | crates/mcp-agent-mail-cli/src/ci.rs:2605-2607 | complete results sorted by index are in input order, one per gate |
| GateRunner.RunGatesParallel | crates/mcp-agent-mail-cli/src/ci.rs:2437-2610 | for every finishing order one result per gate in input order: when formatting, linting or building fails all other gates are skipped, otherwise each is judged by its own ending, a panic being a failure; a release goes ahead exactly after a full run in which every gate is good |

## Left out

- SQL text, query planning and real SQLite: a query is filter, sort and limit over immutable rows with unique ids; ill-typed column values are not modelled, so the type checks of the cursors have no counterpart.
- The test hooks `on_gap`, `on_unread`, `on_ack_seek` and the inventory hooks, and the peak counters that only feed printed reports.
- Release of the savepoint after a failed query, and the error texts of all refusals: a refusal is one value.
- LogicalState.LogicalState: a table arrives as its listed columns and its rows in key order with their identities; the queries that list them are not modelled.
- SHA-256, JSON and file locks: a hash is replaced by what it hashes, so a digest comparison is an equality.
- The inspection of a staging directory tree: its witness is an input, as is the preview of staging directories; the protocol holds for any truthful preview and the backup preview is proved to be one.
- Writers that ignore the lease: the quarantine histories have no foreign writer between two steps of a command, although each command's contract holds for any directory contents it starts from; the check of the open manifest and of the mailbox binding then has nothing to detect and is only a point of failure.
- Retention.BackupPlan: the reading of the snapshot metadata file is not modelled; its resolved claim is an input, and a refused claim would refuse the preview.
- Manifest.ValidateManifest: the JSON shape of the file is not modelled; the record arrives parsed, and the number of bytes it takes is an input.
- The entry and byte budgets of a recovery: a recheck of unchanged evidence reads no more than its preview did.
- Quarantine.Mailbox.Log: records of one attempt are kept in one log per run, and a torn record is not modelled.
- Clocks, elapsed times and the duration fields of records: times are inputs where a decision depends on them.
- Processes, threads, artifact globs and callbacks of the gate runner: what a gate's command does is one input per gate, the same for both runners; stderr classification, category thresholds and the remaining report fields are not modelled.
- Backup names in years below 1000: whether the platform pads the year when printing is a parameter.
- The command line and printed reports; of a receipt only its failure is modelled.
