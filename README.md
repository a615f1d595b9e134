# Cyber Scam Recovery Unit — a verified model of its core

The repository is a fraud-reporting web application. Its one piece of real
engineering is a **row migrator**: it copies six tables (User, Tag, Case,
Evidence, CaseEvent, CaseTag) from a source Postgres database to a target.
It keeps a `migration_mappings` table of `(source_table, source_id) → target_id`
entries, and that table makes re-runs idempotent. It comes in two variants:

- `scripts/row_migration.js` reads every row of each table.
- `scripts/row_migration_resumable.js` reads `LIMIT/OFFSET` pages. It keeps one
  offset per table in a state record, which it writes to `migration_state.json`
  after every page.

The project also models the smaller cores of the front end and the backend:

- the browser case store;
- the admin token;
- HTML escaping and the HTML→text reduction;
- the e-mail templates' brand, subject and greeting rules;
- the hex encoding of a file digest;
- the backend's exception → HTTP status classification (section 15 of RFC 9110);
- the dashboard's status advance;
- the reviewer's filter;
- the report wizard.

## Structure

The migrator is modelled in two layers.

- **A value layer states what happens.**
  - `MigrationSchema` holds the source rows, the target database `Db`, the
    failure oracle and the consistency predicates.
  - `MigrationSpec` says what one row conversion does to the target.
  - `ExhaustiveRun` is the exhaustive run.
  - `ResumableRun` is the chunked, resumable run.
  - `BatchProperties`, `ConversionProperties`, `ExhaustiveRun` and
    `ResumableRun` prove its properties: skip, adopt, all-or-nothing import,
    consistency, idempotency, convergence after a crash, and resumability.
- **An imperative layer mirrors the scripts.**
  - `TargetDatabase.TargetDb` is a class whose methods are the SQL statements
    the scripts issue.
  - `RowMigration` holds the converters and the `for … of` loops.
  - `ResumableMigration` holds the mutable `state` record (the
    `ResumableMigration.Progress` class) and the `while (true)` chunk loops.
  - Every method's postcondition ties the new database (`Snapshot()`) to the
    value layer. Everything proved there therefore holds for the methods.

**Failures.** An oracle (`Site → Fault`) decides what fails:

- `TxFault`: a statement between BEGIN and COMMIT throws. The row is rolled
  back and the loop goes on.
- `FatalFault`: a query outside the transaction throws. These are the mapping
  lookup, the e-mail/name lookup, the adoption insert, the foreign-key lookups,
  the table SELECT and the DDL. The exception reaches `run`'s catch and ends
  the run.

The convergence theorems (`ExhaustiveRun.CrashedRunThenRerunConverges` and
`ResumableRun.ResumedRunConverges`) are stated for crash-only oracles
(`CrashOnly`). Under rollbacks the resumable offset skips the failed rows, so
they are not retried (see below).

## Behaviour of the scripts that the model follows

- **Order of the exhaustive selects.** `row_migration.js` reads each table
  with a SELECT that has no `ORDER BY` (lines 42, 85, 117, 150, 182, 214).
  The database may therefore return the rows in any order, and in a
  different order on each run. The model takes each table's rows as a
  sequence given to the run. `ExhaustiveRun.RerunIsIdempotent` lets the
  second run read the same rows in another order.
- **Where a failure is fatal.** Only the statements between BEGIN and COMMIT
  sit inside the row's `try`. The mapping lookup, the adoption lookup and
  insert, and the foreign-key lookups sit outside it (for example lines
  46-57 and 124-125). An error there propagates to `run`'s catch (lines
  245-246) and ends the whole run (`FatalFault`).
- **Exit status.** `run`'s catch only logs the error. Neither script sets an
  exit status, so the model only records that the run stopped (`halted`).
- **Resuming after failed rows.** The resumable script's header comment
  (`row_migration_resumable.js`:9) says it continues from the last completed
  offset per table. The offset grows by the full page size, and that count
  includes rows whose transaction rolled back and rows that were skipped
  (lines 93, 257). A later run with the saved state therefore starts after
  those rows and never retries them. `ResumableRun.ResumeTableProgress` and
  `ResumableRun.PrefixNeverRead` capture this.
- **CaseTags in the resumable script.** `migrateCaseTags` reads a single page
  per run (lines 238-258), ordered by `case_id` only. It advances the offset
  by that page's size. The model takes the CaseTag rows in the order that
  query returns them.
- **Audit event type.** The header comment of `row_migration.js` (line 8)
  names the event type `migration:import`. The inserts write
  `migration:import:<entity>` (lines 71, 104, 137, 169), and the model
  follows the inserts.

## Model

| member | source | states |
|---|---|---|
| MigrationSchema.Lookup | scripts/row_migration.js:124-125 | a foreign key resolves exactly when it is non-null and mapped, and then to the mapped target id |
| MigrationSchema.FindUserByEmail | scripts/row_migration.js:52-54 | no result exactly when no target user has the email; otherwise the id of a user with that email |
| MigrationSchema.FindTagByName | scripts/row_migration.js:91-93 | no result exactly when no target tag has the name; otherwise the id of a tag with that name |
| MigrationSpec.ConvertUser | scripts/row_migration.js:43-80 | one User row: stop on a query outside the transaction, skip a mapped row, adopt a target user with the same e-mail, otherwise import the user, its mapping and its audit event or roll back (its lemmas are `ConversionProperties.MappedRowIsSkipped`, `ExistingRowIsAdopted`, `ImportIsAllOrNothing` and `ImportedFields`) |
| MigrationSpec.ConvertTag | scripts/row_migration.js:86-112 | one Tag row, with adoption by name; characterised by the same lemmas |
| MigrationSpec.ConvertCase | scripts/row_migration.js:118-145 | one Case row, with the reporter resolved through the mappings before the transaction; characterised by `ImportedFields` and `ResolvedKeyExists` |
| MigrationSpec.ConvertEvidence | scripts/row_migration.js:151-177 | one Evidence row, with its case resolved before the transaction; characterised by `ImportedFields` and `ResolvedKeyExists` |
| MigrationSpec.ConvertCaseEvent | scripts/row_migration.js:183-209 | one CaseEvent row, copied with resolved case and actor and no audit event; characterised by `ImportedFields` |
| MigrationSpec.ConvertCaseTag | scripts/row_migration.js:215-232 | one CaseTag row: skipped unless both ends are mapped, else the pair of target ids inserted; characterised by `ConversionProperties.CaseTagConversion` |
| MigrationSpec.Convert | scripts/row_migration.js:40-233 | a row goes to the converter of its table; `ConversionProperties.ConvertExtends` and `ConvertPreservesConsistent` hold for every row |
| MigrationSpec.ConvertAll | scripts/row_migration.js:43-80 | the `for … of` loop of one table, stopping at the first escaping exception; characterised by the `BatchProperties` lemmas |
| TargetDatabase.TargetDb.CreateMappingsTable | scripts/row_migration.js:25-38 | the mapping table exists afterwards and nothing else changes |
| TargetDatabase.TargetDb.SelectMapping | scripts/row_migration.js:46-47 | returns the mapped target id exactly when the key is mapped |
| TargetDatabase.TargetDb.SelectUserByEmail | scripts/row_migration.js:52 | returns what `FindUserByEmail` gives on the current users |
| TargetDatabase.TargetDb.SelectTagByName | scripts/row_migration.js:91 | returns what `FindTagByName` gives on the current tags |
| TargetDatabase.TargetDb.InsertUser | scripts/row_migration.js:62-66 | appends one user under the next id (RETURNING id) and changes nothing else |
| TargetDatabase.TargetDb.InsertTag | scripts/row_migration.js:100-101 | appends one tag under the next id and changes nothing else |
| TargetDatabase.TargetDb.InsertCase | scripts/row_migration.js:130-134 | appends one case under the next id and changes nothing else |
| TargetDatabase.TargetDb.InsertEvidence | scripts/row_migration.js:162-166 | appends one evidence row under the next id and changes nothing else |
| TargetDatabase.TargetDb.InsertEvent | scripts/row_migration.js:69-72 | appends one CaseEvent under the next id and changes nothing else |
| TargetDatabase.TargetDb.InsertMapping | scripts/row_migration.js:67 | adds the mapping and changes nothing else |
| TargetDatabase.TargetDb.InsertMappingOnConflictDoNothing | scripts/row_migration.js:55 | adds the mapping unless the key is already mapped, in which case nothing changes |
| TargetDatabase.TargetDb.InsertCaseTag | scripts/row_migration.js:228 | adds the pair to the join set (ON CONFLICT DO NOTHING) and changes nothing else |
| TargetDatabase.TargetDb.Rollback | scripts/row_migration.js:74-75 | restores the database as it was at BEGIN |
| RowMigration.MigrateUser | scripts/row_migration.js:43-80 | one turn of `migrateUsers`' loop changes the target exactly as `ConvertUser` says and stops the run exactly when it does |
| RowMigration.MigrateTag | scripts/row_migration.js:86-112 | one turn of `migrateTags`' loop is `ConvertTag` |
| RowMigration.MigrateCase | scripts/row_migration.js:118-145 | one turn of `migrateCases`' loop is `ConvertCase` |
| RowMigration.MigrateEvidence | scripts/row_migration.js:151-177 | one turn of `migrateEvidence`' loop is `ConvertEvidence` |
| RowMigration.MigrateCaseEvent | scripts/row_migration.js:183-209 | one turn of `migrateCaseEvents`' loop is `ConvertCaseEvent` |
| RowMigration.MigrateCaseTag | scripts/row_migration.js:215-232 | one turn of `migrateCaseTags`' loop is `ConvertCaseTag` |
| RowMigration.MigrateRow | scripts/row_migration.js:40-233 | a row goes to the converter of its own table |
| RowMigration.MigrateRows | scripts/row_migration.js:43-80 | the `for … of` loop feeds the rows in order and stops at the first escaping exception, as `ConvertAll` says |
| RowMigration.MigrateTable | scripts/row_migration.js:40-81 | one `migrate*` function is its SELECT (which may throw) followed by the loop |
| RowMigration.Run | scripts/row_migration.js:235-251 | `run` is `ExhaustiveRun.Run`: ensure the mapping table, then the six tables in order, stopping at the first escaping exception |
| RowMigration.ImportEventType | scripts/row_migration.js:71 | the event type the converters write is the one the value layer's audit event carries, `migration:import:<entity>` |
| ConversionProperties.ConvertExtends | scripts/row_migration.js:40-233 | a conversion only adds rows, mappings and pairs; it stops the run exactly when a query outside the transaction fails or the mapping table is missing, and then it wrote nothing |
| ConversionProperties.MappedRowIsSkipped | scripts/row_migration.js:46-49 | a User, Tag, Case, Evidence or CaseEvent row that is already mapped is skipped with no writes (also lines 88-89, 120-121, 153-154, 185-186) |
| ConversionProperties.ExistingRowIsAdopted | scripts/row_migration.js:52-57 | a User whose e-mail (a Tag whose name) exists in the target gets a mapping to that existing id; no entity row and no audit event is written (also lines 91-95) |
| ConversionProperties.ImportIsAllOrNothing | scripts/row_migration.js:59-79 | an import that commits adds exactly one entity row, one mapping `(table, srcId) → newId` and, except for CaseEvents, one audit event; a rollback adds none of them |
| ConversionProperties.ImportedFields | scripts/row_migration.js:59-209 | the imported row carries the source fields with foreign keys resolved through the mappings; the audit event is `migration:import:<entity>` with the user id as actor (User), no case and no actor (Tag), the new case and the resolved reporter (Case) or the resolved case (Evidence); a copied CaseEvent gets no audit event |
| ConversionProperties.ResolvedKeyExists | scripts/row_migration.js:124-125 | in a consistent target a resolved foreign key is null or the id of an existing row of the parent table, never the source id (also lines 156-157, 188-191) |
| ConversionProperties.CaseTagConversion | scripts/row_migration.js:212-233 | a CaseTag whose Case or Tag is unmapped is skipped; otherwise exactly the pair of target ids is added, and adding it again changes nothing |
| ConversionProperties.ConvertPreservesConsistent | scripts/row_migration.js:59-79 | every conversion keeps all ids below the id counter and every mapping pointing at an existing row of its own table |
| BatchProperties.ConvertAllAppend | scripts/row_migration.js:43-80 | feeding `p + q` is feeding `p` and then, unless that stopped the run, `q` |
| BatchProperties.ConvertAllExtends | scripts/row_migration.js:43-80 | a table's loop only adds to the target; without a mapping table the first row stops the run |
| BatchProperties.ConvertAllPreservesConsistent | scripts/row_migration.js:43-80 | a table's loop keeps the target consistent |
| BatchProperties.SettledRowIsNoop | scripts/row_migration.js:46-57 | a row whose conversion has taken effect is not written again, whatever fails |
| BatchProperties.ConvertSettles | scripts/row_migration.js:59-79 | a conversion without failures leaves its row settled (mapped, or its pair present) |
| BatchProperties.SettledBatchIsNoop | scripts/row_migration.js:43-80 | re-feeding settled rows changes nothing and, unless a query throws, does not stop the run |
| BatchProperties.ConvertAllSettles | scripts/row_migration.js:43-80 | a table's loop without failures does not stop and settles every row |
| BatchProperties.Replay | scripts/row_migration.js:46-49 | rows already fed are skipped when fed again, so re-feeding a prefix changes nothing |
| BatchProperties.CrashedBatch | scripts/row_migration.js:43-80 | under crashes only, a loop that stops at row k has done exactly what a loop without failures does on the first k rows |
| ExhaustiveRun.Plan | scripts/row_migration.js:237-243 | the six tables in the order Users, Tags, Cases, Evidence, CaseEvents, CaseTags, each with its own rows, CaseTags last |
| ExhaustiveRun.EnsureMappingsTable | scripts/row_migration.js:25-38 | the mapping table exists afterwards; if it existed, nothing changes (IF NOT EXISTS) |
| ExhaustiveRun.MigrateTable | scripts/row_migration.js:40-81 | one `migrate*` function: a failing SELECT stops the run, otherwise the loop runs over the rows that came back |
| ExhaustiveRun.RunTables | scripts/row_migration.js:237-243 | the tables in order, each only if the one before did not stop the run; characterised by `RunTablesExtends` and `HaltStopsLaterTables` |
| ExhaustiveRun.Run | scripts/row_migration.js:235-251 | `run`: the DDL, then the six tables; characterised by the `ExhaustiveRun` lemmas below |
| ExhaustiveRun.RunTablesExtends | scripts/row_migration.js:237-243 | a run only adds to the target |
| ExhaustiveRun.RunEnsuresMappingTable | scripts/row_migration.js:236-237 | a run whose DDL fails writes nothing; otherwise the mapping table exists afterwards |
| ExhaustiveRun.HaltStopsLaterTables | scripts/row_migration.js:235-246 | an exception that escapes in table k ends the run: the later tables are not touched |
| ExhaustiveRun.RunPreservesConsistent | scripts/row_migration.js:235-251 | a whole run keeps the target consistent |
| ExhaustiveRun.SettledRunIsNoop | scripts/row_migration.js:237-243 | once every source row is settled, a run writes nothing, whatever fails |
| ExhaustiveRun.CleanRunSettles | scripts/row_migration.js:237-243 | a run without failures completes and settles every source row |
| ExhaustiveRun.RerunIsIdempotent | scripts/row_migration.js:235-251 | after a run without failures, a second run leaves the target exactly as it is; the second run may read the same rows of each table in another order and may hit any failures |
| ExhaustiveRun.PlanSettledReordered | scripts/row_migration.js:42 | settledness survives reading the same rows of each table in another order |
| ExhaustiveRun.CrashedRunThenRerunConverges | scripts/row_migration.js:235-251 | a run that crashed anywhere, followed by a run without failures, leaves the same target as one run without failures |
| ResumableRun.InitialOffsets | scripts/row_migration_resumable.js:26-30 | without a state file all six offsets start at 0; otherwise they are the saved record |
| ResumableRun.Page | scripts/row_migration_resumable.js:50 | `LIMIT chunk OFFSET off`: at most `chunk` rows; empty exactly when the chunk is 0 or the offset is at or past the end; otherwise `min(chunk, remaining)` rows |
| ResumableRun.PageContents | scripts/row_migration_resumable.js:50 | the page is the run of rows starting at position `off` |
| ResumableRun.ProcessChunk | scripts/row_migration_resumable.js:49-58 | a failing SELECT escapes with nothing written; otherwise each row of the page is fed to the converter once, in order, and the page size is returned (0 exactly when the page is empty) |
| ResumableRun.ResumeTableStep | scripts/row_migration_resumable.js:90-95 | one turn of a table's loop: process the chunk at the offset; stop on an escape or an empty page, else advance the offset by the page size and go on |
| ResumableRun.ResumeCaseTags | scripts/row_migration_resumable.js:235-259 | `migrateCaseTags` handles a single page and advances its offset by the page's full size, skipped rows included |
| ResumableRun.Loop | scripts/row_migration_resumable.js:90-95 | the `while (true)` chunk loop over any chunk runner; characterised by `LoopProgress` and `LoopConverges` |
| ResumableRun.ResumeTable | scripts/row_migration_resumable.js:60-96 | one table of the chunked script from its stored offset; characterised by `ResumeTableProgress`, `ResumeTableExtends`, `PrefixNeverRead` and `ResumeTableConverges` |
| ResumableRun.ResumeTables | scripts/row_migration_resumable.js:263-269 | the tables in order, each from its own offset, stopping at the first escape |
| ResumableRun.RunResumable | scripts/row_migration_resumable.js:261-277 | the chunked `run` from the loaded state; characterised by `ResumedRunConverges` |
| ResumableRun.LoopProgress | scripts/row_migration_resumable.js:90-95 | the loop's offset never goes down and stays within the row count; the loop ends on the first empty page |
| ResumableRun.LoopConverges | scripts/row_migration_resumable.js:90-95 | a loop that crashed, restarted at the offset it had persisted, ends where a loop without failures ends |
| ResumableRun.ResumeTableProgress | scripts/row_migration_resumable.js:90-95 | the offset rises from its start to at most the row count; a loop that did not stop early ends on an empty page, at the row count when the chunk size is positive; chunk size 0 changes nothing |
| ResumableRun.ResumeTableExtends | scripts/row_migration_resumable.js:90-95 | a table's loop only adds to the target |
| ResumableRun.PrefixNeverRead | scripts/row_migration_resumable.js:91-94 | rows before the stored offset are never read: whatever they are, the loop does the same |
| ResumableRun.CleanChunk | scripts/row_migration_resumable.js:49-58 | a page processed without failures does not stop the run and settles its rows |
| ResumableRun.HaltedChunkReplays | scripts/row_migration_resumable.js:65-66 | re-processing, without failures, a page whose processing crashed ends as processing it without failures would have (re-fed rows are skipped by the mapping check) |
| ResumableRun.CleanResumeTable | scripts/row_migration_resumable.js:90-95 | a table's loop without failures does not stop the run |
| ResumableRun.ResumeTableConverges | scripts/row_migration_resumable.js:90-95 | a table's loop interrupted by a crash anywhere, restarted with its persisted offset, ends exactly where an uninterrupted loop ends |
| ResumableRun.ResumedRunConverges | scripts/row_migration_resumable.js:261-277 | whatever crashed the chunked migrator, re-running it without failures on the target and state file left behind gives the target and state file of one run without failures |
| ResumableMigration.Progress.Load | scripts/row_migration_resumable.js:26-30 | the state is the saved record, or all zeros when there is no file |
| ResumableMigration.Progress.Advance | scripts/row_migration_resumable.js:93-94 | the table's offset rises by the processed count and the file then holds the new state |
| ResumableMigration.ProcessChunkAt | scripts/row_migration_resumable.js:49-58 | the method changes the target exactly as `ProcessChunk` says and returns its row count |
| ResumableMigration.ChunkTurn | scripts/row_migration_resumable.js:90-95 | one loop turn: either the loop ends with the state unchanged, or the table's offset strictly rises (to at most the row count) and the rest of the loop is what remains of `ResumeTable` |
| ResumableMigration.MigrateTableChunked | scripts/row_migration_resumable.js:60-96 | a table's `while (true)` loop leaves the target and the table's offset as `ResumeTable` says; other offsets are unchanged |
| ResumableMigration.MigrateCaseTagsChunk | scripts/row_migration_resumable.js:235-259 | the single CaseTag page leaves the target and offset as `ResumeCaseTags` says |
| ResumableMigration.RunChunked | scripts/row_migration_resumable.js:261-277 | `run` of the chunked script leaves the target and the state file as `RunResumable` says |
| CaseStorage.LoadCases | lib/storage.ts:5-14 | the stored list, or the empty list when nothing is stored or it does not parse |
| CaseStorage.IndexOfId | lib/storage.ts:23 | `findIndex`: -1 exactly when no record has the id, else the first position holding it |
| CaseStorage.FindCase | lib/storage.ts:29-31 | `find … \|\| null`: none exactly when no record has the id, otherwise the record at the first position holding the id |
| CaseStorage.Removed | lib/storage.ts:34 | the filtered list holds only records of other ids, taken from the input |
| CaseStorage.Upserted | lib/storage.ts:22-25 | the list `upsertCase` saves; characterised by `UpsertThenGet`, `UpsertReplacesInPlace`, `UpsertPrependsNew` and `UpsertKeepsIdsDistinct` |
| CaseStorage.LocalCaseStore.GetCase | lib/storage.ts:29-31 | `getCase` is `FindCase` on the loaded list |
| CaseStorage.UpsertThenGet | lib/storage.ts:21-31 | after `upsertCase(r)`, `getCase(r.id)` is `r` |
| CaseStorage.UpsertReplacesInPlace | lib/storage.ts:23-24 | an upsert of a known id puts the record at the first position holding that id; the length and every other position are unchanged |
| CaseStorage.UpsertPrependsNew | lib/storage.ts:25 | an upsert of a new id puts the record in front and the list grows by one |
| CaseStorage.UpsertKeepsIdsDistinct | lib/storage.ts:23-25 | distinct ids stay distinct |
| CaseStorage.RemovedSplits | lib/storage.ts:34 | removal distributes over concatenation, so the order of the kept records is preserved |
| CaseStorage.RemovedKeepsOthers | lib/storage.ts:33-36 | every record of another id survives; none with the id does |
| CaseStorage.RemoveAbsentIsIdentity | lib/storage.ts:34 | removing an absent id changes nothing |
| CaseStorage.LocalCaseStore.UpsertCase | lib/storage.ts:21-27 | the store then holds the upserted list, and the record is found under its id |
| CaseStorage.LocalCaseStore.RemoveCase | lib/storage.ts:33-36 | the store then holds the filtered list, and `getCase(id)` is null |
| AdminAuth.AdminSession.LoginAdmin | lib/auth.ts:10-17 | succeeds exactly when both configured credentials are non-empty and both match; success stores `ok`, so `isAdminAuthed` holds; failure leaves the token unchanged |
| AdminAuth.AdminSession.IsAdminAuthed | lib/auth.ts:5-8 | the stored token is exactly `ok` |
| AdminAuth.AdminSession.LogoutAdmin | lib/auth.ts:19-22 | the token is removed and `isAdminAuthed` is false |
| AdminAuth.UnconfiguredLoginFails | lib/auth.ts:11 | when the configured e-mail or the configured password is empty, no login succeeds, whatever is typed |
| HexDigest.ByteToHex | lib/hash.ts:5 | each byte becomes exactly two lowercase hex digits |
| HexDigest.ToHex | lib/hash.ts:4-5 | twice as many characters as bytes, all from `[0-9a-f]` (base16, section 8 of RFC 4648, lowercase) |
| HexDigest.ByteRoundTrip | lib/hash.ts:5 | the two digits are the high and the low nibble, zero-padded |
| HexDigest.HexRoundTrip | lib/hash.ts:4-5 | decoding the output two digits at a time gives the bytes back |
| HexDigest.Sha256HexLength | lib/hash.ts:1-6 | a 32-byte SHA-256 digest gives 64 characters |
| ExceptionFilter.Classify | backend/src/filters/all-exceptions.filter.ts:22-42 | HttpException keeps its status and message; Prisma P2002 gives 409 "Unique constraint violation", P2025 404 "Record not found", any other code 400 "Database error"; anything else 500 "Internal server error" |
| ExceptionFilter.Catch | backend/src/filters/all-exceptions.filter.ts:44-55 | the body's statusCode is the status replied with; the message is the classified one; timestamp and path are passed through |
| ExceptionFilter.DatabaseErrorsAreClientErrors | backend/src/filters/all-exceptions.filter.ts:28-41 | every Prisma known-request error maps to a 4xx status |
| EmailBase.EscapeChar | lib/email/base.ts:101-108 | the reference escape: a special character becomes an entity starting with `&`; any other character stays |
| EmailBase.EscapeHtml | lib/email/base.ts:101-108 | the five-replace chain, `&` first; characterised by `EscapeHtmlIsPerChar`, `EscapedHasNoMarkup` and `EscapeRoundTrip` |
| EmailBase.StripHtml | lib/email/base.ts:97-99 | `replace(/<[^>]*>/g, '')`; characterised by `StripIsSubsequence`, `StripLeavesNoTags` and `StripIdempotent` |
| EmailBase.ReplaceAll | lib/email/base.ts:88-91 | a global regex replace of one of the tag patterns; characterised by `ReplaceAllPlain`, `ReplaceAllAfterPlain`, `ReplaceAllAtTag` and `ReplaceAllKeepsOtherTag` |
| EmailBase.CollapseNewlines | lib/email/base.ts:93 | `replace(/\n{3,}/g, '\n\n')`; characterised by `CollapseHasNoTriple` |
| EmailBase.HtmlToText | lib/email/base.ts:86-95 | the whole reduction; characterised by `HtmlToTextShape`, `HtmlToTextOfPlainText`, `HtmlToTextBreak` and `HtmlToTextListItem` |
| EmailBase.EscapeHtmlAppend | lib/email/base.ts:101-108 | escaping distributes over concatenation |
| EmailBase.EscapeHtmlIsPerChar | lib/email/base.ts:101-108 | because `&` is replaced first, the five-replace chain escapes each character on its own, as `EscapeChar` says |
| EmailBase.EscapedHasNoMarkup | lib/email/base.ts:101-108 | the output contains no `<`, `>`, `"` or `'` |
| EmailBase.AmpersandsStartEntities | lib/email/base.ts:101-108 | every `&` of the output begins one of the five entities |
| EmailBase.EscapePlainIsIdentity | lib/email/base.ts:101-108 | a string with none of `& < > " '` is its own escape |
| EmailBase.EscapeRoundTrip | lib/email/base.ts:101-108 | decoding the five entities gives the original string back |
| EmailBase.StripIsSubsequence | lib/email/base.ts:97-99 | the stripped text is the input with characters deleted |
| EmailBase.StripLeavesNoTags | lib/email/base.ts:97-99 | no `<` of the output has a `>` after it |
| EmailBase.StripWithoutTagsIsIdentity | lib/email/base.ts:97-99 | a text without a tag is left alone |
| EmailBase.StripIdempotent | lib/email/base.ts:97-99 | stripping twice is stripping once |
| EmailBase.MatchLength | lib/email/base.ts:88-91 | the case-insensitive patterns `<br\s*/>`, the closing p/div/h1/h2/h3/li tags and `<li>` match only at a `<`, and a match never runs past the text; which strings match is stated by `MatchLengthIsTag` |
| EmailBase.BrMatch | lib/email/base.ts:89 | `<br\s*\/>` with the `i` flag matches a prefix exactly when it is `<br` in any ASCII case, then only white space, then `/>` |
| EmailBase.ClosingMatch | lib/email/base.ts:90 | `<\/(p\|div\|h1\|h2\|h3\|li)>` with the `i` flag matches a prefix exactly when it is `</`, one of the six names in any ASCII case, then `>` |
| EmailBase.LiMatch | lib/email/base.ts:91 | `<li>` with the `i` flag matches a prefix exactly when it is `<li>` in any ASCII case |
| EmailBase.MatchLengthIsTag | lib/email/base.ts:88-91 | for every pattern, a match of length `n` is found exactly when the first `n` characters are a tag of that pattern (`IsTag`) |
| EmailBase.BareBreakMisses | lib/email/base.ts:89 | `<br>` without the slash is not a break: the first pattern does not match it |
| EmailBase.TagShape | lib/email/base.ts:88-91 | every matched tag opens with `<` and holds no other `<` |
| EmailBase.OtherPatternMisses | lib/email/base.ts:88-91 | a tag of one pattern is matched by neither of the other two, so the three rewrites do not interfere |
| EmailBase.ReplaceAllAfterPlain | lib/email/base.ts:88-91 | a rewrite leaves a `<`-free prefix alone and goes on after it |
| EmailBase.ReplaceAllAtTag | lib/email/base.ts:88-91 | after a `<`-free prefix, a tag of the pattern is replaced by the replacement text and the rewrite goes on after the tag |
| EmailBase.ReplaceAllSkipsTag | lib/email/base.ts:88-91 | a tag the pattern does not match, followed by `<`-free text, is left unchanged |
| EmailBase.ReplaceAllKeepsOtherTag | lib/email/base.ts:88-91 | a rewrite leaves a tag of another pattern between `<`-free texts unchanged |
| EmailBase.BreakRewritten | lib/email/base.ts:89-90 | the first two rewrites turn a break or closing block tag between `<`-free texts into one `\n` |
| EmailBase.HtmlToTextOfMarked | lib/email/base.ts:86-95 | when the three rewrites leave no `<`, the result is that text collapsed and trimmed |
| EmailBase.HtmlToTextBreak | lib/email/base.ts:86-95 | `a`, a break or closing block tag in any ASCII case, then `b` (no `<` in `a` or `b`) gives `a`, `\n`, `b`, collapsed and trimmed |
| EmailBase.HtmlToTextListItem | lib/email/base.ts:86-95 | `a`, `<li>` in any ASCII case, then `b` gives `a`, the bullet `• `, `b`, collapsed and trimmed |
| EmailBase.UpperCaseBreakExample | lib/email/base.ts:86-95 | `a<BR />b` becomes `a`, a line break, `b` |
| EmailBase.ReplaceAllPlain | lib/email/base.ts:88-91 | a text without `<` is unchanged by those rewrites |
| EmailBase.CollapseHasNoTriple | lib/email/base.ts:93 | after `replace(/\n{3,}/g, '\n\n')` no three newlines follow each other |
| EmailBase.HtmlToTextShape | lib/email/base.ts:86-95 | the plain text has no leading or trailing white space and no three consecutive newlines |
| EmailBase.HtmlToTextOfPlainText | lib/email/base.ts:86-95 | a text without `<` is only collapsed and trimmed |
| EmailBase.OrDefault | lib/email/base.ts:19-20 | `value \|\| fallback`: an absent or empty value gives the fallback |
| EmailBase.RenderEmail | lib/email/base.ts:18-83 | the subject is passed through; the text is `htmlToText(heading + "\n\n" + stripHtml(contentHtml))`, trimmed and without triple newlines; the colours default to `#0b1e3a` and `#14b87a` |
| EmailTemplates.Override | lib/email/templates.ts:14 | a field given by the caller's partial brand wins over the default |
| EmailTemplates.MergeBrand | lib/email/templates.ts:14 | the application name is `params.appName` when non-empty, else the brand's, else "Cyber Scam Recovery Unit"; every other field is the caller's or the default |
| EmailTemplates.PurposeText | lib/email/templates.ts:15-16 | "login" → "to sign in", "confirm_action" → "to confirm your action", anything else (including none) → "to verify your email" |
| EmailTemplates.Escape | lib/email/templates.ts:91-98 | the templates' `escape` is the base `escapeHtml` chain, escapes character by character and can be decoded back |
| EmailTemplates.EscapeAttr | lib/email/templates.ts:100-102 | `escapeAttr` is `escape`, so its output holds no markup character but `&` |
| EmailTemplates.Greeting | lib/email/templates.ts:20 | "Hi," when the name is absent or empty, otherwise "Hi " + escape(name) + ","; no markup character but `&` |
| EmailTemplates.OtpInput | lib/email/templates.ts:13-30 | the merged brand, the subject `<app>: <code> is your one-time code` and the heading passed to `renderEmail` |
| EmailTemplates.OtpEmail | lib/email/templates.ts:13-31 | the one-time-code mail is `renderEmail` of that input; without a brand its colours are the defaults |
| EmailTemplates.PasswordResetInput | lib/email/templates.ts:33-50 | the merged brand, the subject `<app>: Password reset link` and the heading |
| EmailTemplates.PasswordResetEmail | lib/email/templates.ts:33-51 | the password-reset mail is `renderEmail` of that input |
| EmailTemplates.VerifyEmailInput | lib/email/templates.ts:53-69 | the merged brand, the subject `<app>: Confirm your email` and the heading |
| EmailTemplates.VerifyEmailEmail | lib/email/templates.ts:53-70 | the address-confirmation mail is `renderEmail` of that input |
| EmailTemplates.CaseUpdateInput | lib/email/templates.ts:72-88 | the subject `<app>: Case #<id> is now <status>` and the heading `Case #<id> status update` |
| EmailTemplates.CaseUpdateEmail | lib/email/templates.ts:72-89 | the status-update mail is `renderEmail` of that input |
| EmailTemplates.OtpSubjectNamesApplication | lib/email/templates.ts:18 | the one-time-code subject opens with the application name and a colon |
| EmailTemplates.PasswordResetSubjectNamesApplication | lib/email/templates.ts:36 | the password-reset subject opens with the application name and a colon |
| EmailTemplates.VerifyEmailSubjectNamesApplication | lib/email/templates.ts:56 | the confirmation subject opens with the application name and a colon |
| EmailTemplates.CaseUpdateSubjectNamesApplication | lib/email/templates.ts:75 | the status-update subject opens with the application name and a colon |
| EmailTemplates.OtpSubjectCarriesCode | lib/email/templates.ts:18 | the one-time-code subject contains the code, unescaped |
| EmailTemplates.GreetingIsInert | lib/email/templates.ts:20 | whatever the user name holds, the greeting contains no `<`, `>`, `"` or `'` |
| EmailTemplates.EmptyAppNameFallsBack | lib/email/templates.ts:14 | an empty `appName` parameter counts as none |
| TextUtil.Trim | lib/email/base.ts:94 | `trim` removes exactly the leading and the trailing JavaScript white space |
| TextUtil.Lower | app/reviewer/page.tsx:16 | `toLowerCase` character by character, same length |
| Dashboard.IndexOf | app/dashboard/page.tsx:31 | `indexOf`: -1 exactly when absent, else the first position holding the value |
| Dashboard.NextStatus | app/dashboard/page.tsx:30-31 | intake → under_review → action_recommended, which stays; a status outside the order becomes intake |
| Dashboard.NextStatusNeverGoesBack | app/dashboard/page.tsx:31 | the order index never drops, and stays the same only at action_recommended |
| Dashboard.TwoAdvancesReachTheEnd | app/dashboard/page.tsx:30-31 | two advances reach action_recommended from any status of the order |
| Dashboard.Advanced | app/dashboard/page.tsx:32 | only the status changes; the id is kept |
| Dashboard.BadgeLabel | app/dashboard/page.tsx:15 | `replace('_', ' ')` turns exactly the first underscore into a space and keeps every other character |
| Dashboard.BadgeLabelOfSplit | app/dashboard/page.tsx:15 | later underscores stay |
| Dashboard.UnderReviewLabel | app/dashboard/page.tsx:15 | the review badge reads "under review" |
| Dashboard.AdvanceStatus | app/dashboard/page.tsx:29-35 | the advanced case is upserted under its id, found there afterwards, and the reloaded list is returned |
| Reviewer.Filtered | app/reviewer/page.tsx:13-17 | every case returned matches the status filter, the type filter and the query, and comes from the loaded list; every matching case is returned |
| Reviewer.Matches | app/reviewer/page.tsx:14-16 | the status and type filters (`all` passes everything) and the query, matched case-insensitively in the description or literally in the id |
| Reviewer.FilteredAppend | app/reviewer/page.tsx:13 | filtering distributes over concatenation, so the result keeps the loaded order |
| Reviewer.NoFilterKeepsAll | app/reviewer/page.tsx:13-17 | with status "all", type "all" and an empty query every case is returned, in order |
| Reviewer.NoMatchDropsAll | app/reviewer/page.tsx:13-17 | when no case matches, nothing is returned |
| Reviewer.SearchByIdFindsCase | app/reviewer/page.tsx:16 | searching for a case's own id finds it |
| ReportWizard.NextStep | app/report/page.tsx:48 | `next` moves one step forward and never past the last step (index 4) |
| ReportWizard.PrevStep | app/report/page.tsx:49 | `prev` moves one step back and never below 0 |
| ReportWizard.WalkStaysOnSteps | app/report/page.tsx:11-17 | whatever the button presses, the cursor stays on one of the five steps |
| ReportWizard.Walk | app/report/page.tsx:48-49 | the step after a sequence of Next and Back presses; characterised by `WalkStaysOnSteps` and `ForwardPresses` |
| ReportWizard.ForwardPresses | app/report/page.tsx:48 | n presses of Next move min(n, remaining) steps |
| ReportWizard.SplitOnNewlineRuns | app/report/page.tsx:157 | `split(/\n+/)` yields at least one piece and no piece holds a newline |
| ReportWizard.SplitRejoins | app/report/page.tsx:157 | the pieces joined with single newlines give the text with every run of newlines cut to one (`replace(/\n+/g, '\n')`); being free of newlines, they are exactly the text's pieces between its newline runs |
| ReportWizard.TrimmedNonEmpty | app/report/page.tsx:157 | `.map(trim).filter(Boolean)` keeps at most one entry per piece, each non-empty and trimmed, and on one line when the pieces were; the trim of every non-blank piece is kept, and every entry is the trim of some piece (order: `TrimmedNonEmptyAppend`) |
| ReportWizard.TrimmedNonEmptyAppend | app/report/page.tsx:157 | the filter distributes over concatenation, so entries keep the order of their pieces |
| ReportWizard.ParseLines | app/report/page.tsx:157 | every parsed hash or reference is non-empty, trimmed and on one line; `OneLine` and `LinesConcatenate` fix the result on every text |
| ReportWizard.OneLine | app/report/page.tsx:157 | a single line parses to itself trimmed, or to nothing when blank |
| ReportWizard.LinesConcatenate | app/report/page.tsx:157 | a line followed by a newline and any rest (which may start with more newlines) parses to the line's entry followed by the rest's entries; with `OneLine` this fixes `ParseLines` on every text |
| ReportWizard.SplitAfterLine | app/report/page.tsx:157 | the whole run of newlines after a line ends that line's piece, and splitting goes on after the run |
| ReportWizard.LeadingNewlinesAreDropped | app/report/page.tsx:157 | newlines at the start of a text give only a blank piece, which the filter drops |
| ReportWizard.EvidenceOf | app/report/page.tsx:63 | one evidence item per file, in order, with the hash at the same index (none when there is no hash yet) |
| ReportWizard.SubmittedRecord | app/report/page.tsx:53-69 | the record has status intake, no classification, the entered e-mail, exactly one system message, one evidence item per file with its hash, and the parsed hashes and references |
| ReportWizard.OnlyDigits | app/report/page.tsx:233 | `replace(/[^0-9]/g, '')` keeps only digits and is the identity on digit strings |
| ReportWizard.OnlyDigitsIdempotent | app/report/page.tsx:233 | filtering twice is filtering once |
| ReportWizard.OnlyDigitsAppend | app/report/page.tsx:233 | the filter keeps the digits in order |
| ReportWizard.VerifyNeedsSixDigits | app/report/page.tsx:233-234 | Verify is enabled only for exactly six digits and never while verifying |
| ReportWizard.VerifyEnabled | app/report/page.tsx:234 | `disabled={otp.length !== 6 \|\| verifying}` negated |
| ReportWizard.ReportWizard.constructor | app/report/page.tsx:20-35 | the `useState` initial values |
| ReportWizard.ReportWizard.Next | app/report/page.tsx:48 | the step becomes `NextStep` of the old one; nothing else changes |
| ReportWizard.ReportWizard.Prev | app/report/page.tsx:49 | the step becomes `PrevStep` of the old one; nothing else changes |
| ReportWizard.ReportWizard.EnterTxHashes | app/report/page.tsx:157 | the hashes become the parsed lines; nothing else changes |
| ReportWizard.ReportWizard.EnterBankRefs | app/report/page.tsx:163 | the references become the parsed lines; nothing else changes |
| ReportWizard.ReportWizard.SelectFiles | app/report/page.tsx:40-43 | the selected files are stored; the digests are not yet updated |
| ReportWizard.ReportWizard.DigestsReady | app/report/page.tsx:44-45 | the digests arrive and are stored |
| ReportWizard.ReportWizard.Submit | app/report/page.tsx:51-94 | the submitted record is upserted into the case store and found under its id; the new case id is set and the verification dialog opens whatever the external submission did |
| ReportWizard.ReportWizard.EnterOtp | app/report/page.tsx:233 | the code field keeps only the digits typed |
| ReportWizard.ReportWizard.PressVerify | app/report/page.tsx:234 | pressing an enabled Verify starts verifying |

## Left out

- **Infrastructure.** The pg pools and clients, connection setup and teardown,
  `process.argv` and the usage exit are not modelled. The chunk size is a
  parameter. The source tables are fixed sequences. The target is the `Db`
  value or the `TargetDb` object.
- **SQL semantics.** SQL text and the `UNIQUE` index are not modelled.
  Concurrency between two migrator invocations is not modelled either: the
  code runs one statement at a time.
- **Row ids.**
  - The target hands out ids from one counter shared by all tables.
  - A rolled-back insert consumes no id in the model. Postgres sequences do
    consume one.
- **Opaque values.** Timestamps (`created_at`, `migrated_at`, `new Date()`,
  `Date.now`) are not modelled. `crypto.randomUUID` values and the
  `JSON.stringify` contents of audit payloads are modelled only as the fields
  they carry.
- **State file.** `migration_state.json` is the persisted copy of the offsets
  in `ResumableMigration.Progress`. A failing `writeFileSync` is
  not modelled; it would escape like a fatal fault. The model also assumes a
  well-formed state file holding all six offsets as numbers. Line 29 takes
  whatever `JSON.parse` returns. A malformed or partial file, such as `{}`,
  is not modelled: a missing key leaves that offset `undefined`, which the
  chunk query receives as the offset and which `+=` at line 93 (and its
  siblings) turns into `NaN`.
- **Logging.** All logging (`console.*`, the Nest `Logger`) and the "Migration
  complete" message are left out.
- **Exit status.** `run` sets no exit status, so nothing is claimed about one.
- **File digests.** SHA-256 (`crypto.subtle.digest`), `File.arrayBuffer` and
  `Promise.all` are foreign asynchronous calls. The digest bytes and the
  per-file hex strings are parameters.
- **Browser storage.** `localStorage`, the `window` checks and JSON
  parsing/serialising are modelled as an abstract stored value: nothing, text
  `JSON.parse` rejects, or a list of records. The auth module models its token
  cell the same way. The configured admin credentials are constructor
  parameters.
- **`CaseStorage.LoadCases`:** `loadCases` returns whatever `JSON.parse`
  yields, with an unchecked cast (lib/storage.ts:10). Stored text that parses
  to something other than an array, such as `null`, `{}` or a number, is
  returned as it is. `findIndex`, `find` or `filter` would then throw in
  `upsertCase`, `getCase` and `removeCase`. The model has no such stored
  value, so this error path, and arrays of malformed records, are not
  modelled.
- **Rendering.** React rendering, styling and routing are not modelled. So are
  framer-motion, Radix and Tailwind, the progress bar percentage, the
  `setTimeout` that ends verification, and the `toLocaleString` and `toFixed`
  displays.
- **E-mail markup.** The HTML markup of `renderEmail`, its `previewText` block
  and the footer year are left out. The model keeps the subject, the text part
  and the two colours. Each template's content markup is built as a string.
- **Regex and case mapping.** The tag regexes are case-insensitive over ASCII
  letters, and `toLowerCase` is modelled on ASCII letters only. Other Unicode
  case mappings are not modelled.
- **Number parsing.** `Number(...) || 0` for the amount is not modelled. The
  amount is a `real` entered as it is.
- **`EmailTemplates.CaseUpdateInput`:** a numeric `caseId` is modelled as the
  string `String(caseId)` gives.
- **`EmailTemplates.OtpInput`:** `expiresMinutes` is a natural number, so
  fractional or negative minutes are not modelled. The same holds for
  `EmailTemplates.PasswordResetInput`.
- **`EmailTemplates.MergeBrand`:** an explicit `undefined` inside the caller's
  partial brand is treated as an absent field. The object spread would copy
  the `undefined`.
- **`SplitOnNewlineRuns`:** its own contract gives only the shape of the
  pieces. That they are exactly the text's pieces between its newline runs is
  stated by the lemma `ReportWizard.SplitRejoins`.
- **`ReportWizard.ReportWizard.EnterOtp`:** the input's `maxLength={6}` is not
  modelled, so longer digit strings are possible and Verify stays disabled for
  them.
- **`ReportWizard.ReportWizard.Submit`:**
  - The React setters run before the store call, not after it; both only set
    page state, so the end state is the same.
  - The external submission (`lib/formsfree.ts`) is an outcome parameter that
    is only logged.
- **`ResumableRun.ResumedRunConverges`:** convergence is proved for crash-only
  failures. With rollbacks, a rolled-back row's page is still counted, so a
  resumed run never retries it. This is the code's behaviour, not a gap in the
  proof. The lemma also assumes that both runs page through the same row
  order. `ORDER BY id` fixes that order for five tables. For CaseTag rows that
  tie on `case_id`, the database may order them differently in the second run.
- **`ExhaustiveRun.CrashedRunThenRerunConverges`:** this too is proved for
  crash-only failures. After a run with rollbacks, only the settledness results
  apply (`ExhaustiveRun.RerunIsIdempotent` holds after any complete clean run).
  The lemma also assumes that the crashed run and the rerun read each table in
  the same order, which the unordered SELECTs do not promise. With another
  order only the set of settled rows is the same: target ids are handed out
  in reading order, so the resulting ids differ.
- **`MigrationSchema.FindUserByEmail`:** with several matching target rows,
  `existing.rows[0]` is unspecified in SQL. The model names only a row with
  that e-mail (or name), not which one.
- **Pages with duplicate keys.** CaseTag pages are ordered by `case_id` only,
  so rows with the same case id may come back in any order. The model fixes
  one order per run.
- **Other parts of the repository.** The backend bootstrap, modules,
  controllers and Prisma service are not modelled. Neither are the Next API
  routes, the diagnostics, admin and chat pages with their `BroadcastChannel`
  messaging, the prisma_connect scripts or the smoke test. They are wiring and
  I/O.
