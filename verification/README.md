# Verified models of robothor

Robothor runs a fleet of agents around an engine, a small CRM in PostgreSQL, a Redis bus and a set of
ingestion and maintenance scripts. This project models the parts whose correctness spans many calls and
proves what they keep, in Dafny. `dafny verify dfyconfig.toml` checks everything.

| files | part of the system |
|---|---|
| `FactLines`, `Conversation`, `Compaction` | the four-pass context compaction, its fact-line printer and parser, its split search |
| `CompactionStructure`, `CompactionFacts`, `CompactionPairing` | what compaction keeps: call/result pairs, the recent tail, token accounting; facts and pairs over whole runs |
| `CompactionAnswers`, `FactLineAnswers` | what one compaction does to every message, and what any line is printed or read as |
| `Tasks`, `TaskLaws` | the CRM task table with its append-only history, and the laws of every call sequence |
| `TaskAnswers` | the whole answer of each task call, column by column |
| `Routines` | the routine trigger loop on top of that table, as a protocol that may die between its two transactions |
| `People`, `PeopleLaws`, `PeopleAnswers` | identity merges and contact resolution: runs, and every row after one call |
| `OwnerBootstrap` | linking the owner row to the operator's person on every daemon start |
| `MemoryBlocks` | the shared working-state blocks |
| `MergeScript`, `MergeScriptLaws`, `MergeScriptAnswers` | the operator merge script, its two transactions, the states it can end in and the exit of every call |
| `DreamLock` | the autoDream Redis lock with expiry and a two-command release |
| `Migrations` | the migration runner with failures at any point |
| `Segmenter` | the meeting-transcript segmenter |
| `Anomalies`, `AnomalyAnswers` | the statistical anomaly detector, over exact reals |
| `Text`, `Sequences` | Python string primitives and sequence lemmas the models share |

Code that changes state is modelled as classes and loops. Each such method is proved equal to a value-level
specification (`…Spec`, `Compacted`, `Apply`, `Cleanup`, `Next`), and the laws are lemmas about that
specification, over all inputs or all runs. The `…Answer` lemmas describe the whole result of one call on its own terms:
rows, columns, positions and literals of the code instead of the specification's functions. Where a promise of the code's documentation is false in some
case, the lemma gives the exact condition (`…Iff`) and a further lemma exhibits the failure.

What the models show that the code or its comments do not say:

- A fact's text survives compaction exactly when it is non-empty, on one line and without trailing blanks, and the
  line it is printed on starts, after any blanks, with `- [` and a category part containing no `) ` and no `(p` of
  its own unless that spells a number. Without a line break in the category that part is the category; otherwise
  it is what its last line leaves (`FactLines.LastLineRoundTrip`). This is the message's and the compaction's exact
  condition as well, as long as no earlier line of a category itself reads as a fact (`FactLines.TextsSurviveIff`,
  `CompactionFacts.NoTextLostIff`). Any other text is lost, although `robothor/engine/compaction.py:10-11` promises
  survival: a two-line text, the category `a) b`, or a category of two lines `x` and `y`
  (`FactLines.BrokenCategoryLosesText`); the category comes unchecked from the model (line 162).
- Compaction can orphan a tool result when the marker occurs in a message with tool calls
  (`CompactionStructure.PairingKeptIff`), since the retained filter ignores roles.
- In the merge script a failing insert into `audit_log` is called non-fatal but aborts the PostgreSQL
  transaction; the following COMMIT silently rolls back. Against the `audit_log` columns of
  `infra/migrations/001_init.sql:177-189` that insert always fails, so the script never changes the database
  and can still report success (`MergeScriptLaws.WithoutAuditTableNothingChanges`,
  `MergeScriptLaws.LostMergeReportsSuccess`). If only the last merge's insert fails, the deletes are kept without
  the merges, a fourth final state (`MergeScriptLaws.DeletesWithoutMerges`).
- The script's overlap guard compares spellings while PostgreSQL compares UUIDs: the canonical id in another
  spelling passes it and is merged into itself (`MergeScriptLaws.CanonicalMergedIntoItself`).
- Of two migration files sharing a version, the second is run as well if both are pending and is never run
  afterwards (`Migrations.CommitsOnceIffVersionsDistinct`, `Migrations.RecordedNeverRunsAgain`). A file that
  commits for itself, as most files of `crm/migrations` do, can be committed without being recorded, and one
  that backfills records, as `crm/migrations/018_migration_tracking.sql:13-32` does, records versions that have
  not run when it is picked by its version before them (`Migrations.PickedBackfillGetsOutOfStep`); applied with
  the files before it, it does no harm (`Migrations.RecordedIsCommittedOnce`).
- Resolving a contact again after its upsert failed creates a second person for every name that is more than one
  bare word, since the search looks for the whole name in each of the two name columns (`PeopleLaws.TriesCreate`,
  `PeopleLaws.SpacedNameTwice`). Migration 033 (`crm/migrations/033_memory_multi_tenancy.sql:91-95`) replaces the
  constraint on (channel, identifier) that the upsert names in `robothor/crm/dal.py:2581`; with no constraint to match
  PostgreSQL rejects every such upsert, so on that schema each try for such a name leaves one more person.
- `max_entries=0` never trims a memory block, and a negative limit cuts from the wrong end
  (`MemoryBlocks.TrimBoundsIff`).
- A CRM task created directly in REVIEW or DONE has no start time (`TaskLaws.BirthDecides`).
- A merge that fills in the keeper's missing e-mail also lists it among the additional ones
  (`PeopleLaws.FilledPrimaryIsListedToo`); a self-merge leaves mappings on a deleted person
  (`PeopleLaws.MergeKeepsMappingsLiveIff`).

## Model

| member | source | states |
|---|---|---|
| FactLines.LineRoundTrip | robothor/engine/compaction.py:228-236 | a printed fact line parses back to the same fact if and only if the fact is `Readable`: a condition on its category and the two ends of its text; brackets, `(p` and `) ` inside the text never matter |
| FactLines.MessageRoundTrip | robothor/engine/compaction.py:354-369 | a whole retained message parses back to the given facts, stably sorted by descending priority, if and only if every fact is `Durable` |
| FactLines.SortOrders | robothor/engine/compaction.py:232-235 | the printed order is by descending priority |
| FactLines.SortKeepsElements | robothor/engine/compaction.py:232-235 | the sort neither loses nor repeats a fact |
| FactLines.SortIsStable | robothor/engine/compaction.py:232-235 | facts of equal priority keep their given order |
| FactLines.StableSortIsUnique | robothor/engine/compaction.py:232-235 | these properties determine the order completely |
| FactLines.TextSurvivesIffCarriable | robothor/engine/compaction.py:354-369 | the texts that some message content can yield at all are exactly the non-empty one-line texts without trailing blank |
| FactLines.TextRoundTrip | robothor/engine/compaction.py:228-236 | a printed fact line yields the fact's text if and only if the fact is `TextReadable`: a condition on the text's end and on `) ` and `(p` in the category; otherwise it yields a longer text or none |
| FactLines.LastLineRoundTrip | robothor/engine/compaction.py:228-236 | the same for every category, line breaks included: the last line of a printed fact yields the fact's text if and only if what stands on it begins with the marker `- [` and is a `TextReadable` fact's line |
| FactLines.BrokenCategoryLosesText | robothor/engine/compaction.py:357-361 | a category of two lines whose second brings no marker loses every text |
| FactLines.CategoryCanLoseText | robothor/engine/compaction.py:364-367 | the category `a) b` loses a text that any message could carry |
| FactLines.ReadBackStaysReadable | robothor/engine/compaction.py:363-367 | a fact read back with its text keeps it in every later printing, whatever became of its category |
| FactLines.TextsSurviveIff | robothor/engine/compaction.py:228-236 | a message gives back all the texts it was printed from if and only if every fact is `TextKept`, and then no other text |
| FactLines.SettledContentParses | robothor/engine/compaction.py:354-369 | a message of facts that are `TextKept`, and whose categories bring in only such facts, gives back their texts in facts of the same kind |
| FactLines.PlainFactIsDurable | robothor/engine/compaction.py:54-60 | a carriable text under a category without brackets or line break is always durable |
| FactLines.DedupKeepsTexts | robothor/engine/compaction.py:371-378 | deduplication keeps every text, each once |
| FactLines.DedupKeepsFirst | robothor/engine/compaction.py:371-378 | what is kept for a text is its first fact |
| Text.LinesThenUnlines | robothor/engine/compaction.py:357 | splitting at newlines and joining again is the identity on every string |
| Text.UnlinesThenLines | robothor/crm/dal.py:2244 | joining newline-free lines and splitting again is the identity |
| Conversation.FindSafeSplitIndex | robothor/engine/compaction.py:245-267 | the backward walk computes `SafeSplit` |
| Conversation.SafeSplitIsLastBoundary | robothor/engine/compaction.py:245-267 | the split is the last position at or before the target that is neither a tool result nor a tool call, or 0 |
| Conversation.NoOrphansSuffix | robothor/engine/compaction.py:340-348 | a cut in front of a message that is no tool result orphans nothing behind it |
| Conversation.RemovalOrphansNothingIff | robothor/engine/compaction.py:336-338 | removing messages orphans no tool result exactly when no kept result loses its call (call ids used once) |
| Conversation.RemovalKeepsAnswers | robothor/engine/compaction.py:336-338 | removing messages that are no tool results leaves each kept call answered |
| Compaction.ThinToolResults | robothor/engine/compaction.py:313-321 | the thinning loop rewrites exactly the long tool results that have KEEP_RECENT tool results after them |
| Compaction.MergeRetainedFacts | robothor/engine/compaction.py:350-369 | the nested parsing loops append, in order, what the parser reads in every retained message |
| Compaction.DeduplicateFacts | robothor/engine/compaction.py:371-378 | the seen-set loop computes `Dedup` |
| Compaction.Segments | robothor/engine/compaction.py:396-399 | the slices are the chunks of SEGMENT_SIZE, in order, nothing lost |
| Compaction.Prune | robothor/engine/compaction.py:439-454 | the pruning loop terminates with the list and estimate `Pruned` describes |
| Compaction.CompressHistory | robothor/engine/compaction.py:333-463 | passes 2 to 4 compute `Compressed` on every return path |
| Compaction.Compact | robothor/engine/compaction.py:270-463 | the whole function computes `Compacted` on every return path |
| CompactionStructure.PairingKept | robothor/engine/compaction.py:333-424 | on every return path, for every extractor, summariser and budget, each tool result still sits in a block right after its call, provided no unmarked result answers a marked call |
| CompactionStructure.PairingKeptIff | robothor/engine/compaction.py:336-348 | that proviso is the exact condition: pairing is kept under all helpers and settings if and only if it holds |
| CompactionStructure.TornPairIsOrphaned | robothor/engine/compaction.py:337-338 | a marked call with an unmarked result is torn apart, whatever the model calls return |
| CompactionStructure.AnswersKept | robothor/engine/compaction.py:336-424 | every call left in the result keeps its block of results |
| CompactionStructure.RecentTailVerbatim | robothor/engine/compaction.py:314-348 | on every return path the last KEEP_RECENT unmarked messages end the unmarked part of the output, verbatim |
| CompactionStructure.PrunedDropsFewest | robothor/engine/compaction.py:439-454 | pass 4 drops the fewest oldest summaries that bring the estimate under `drain_to`, or all but one |
| CompactionStructure.CompactedIsSettled | robothor/engine/compaction.py:294-463 | `tokens_after` is the estimate of the returned messages on every path; passes 1 and 3 end under `drain_to`; a result under `drain_to` <= `threshold` is left alone by the next call |
| CompactionFacts.FactsAfterCompression | robothor/engine/compaction.py:350-378 | after pass 2 or later the texts are exactly the old retained ones and the newly extracted ones, each once, and the parser recovers the surviving facts, sorted, if and only if all are durable |
| CompactionFacts.CompactionStep | robothor/engine/compaction.py:333-463 | one compaction loses no recoverable text and makes the extracted texts recoverable |
| CompactionFacts.NoTextLostIff | robothor/engine/compaction.py:350-378 | a compaction that reaches pass 2 loses no text, retained or newly extracted, if and only if every surviving fact is `TextKept` |
| CompactionFacts.FactsSurviveEveryRun | robothor/engine/compaction.py:10-11 | over any clean run of appends and compactions, every text recoverable at any point of the run is recoverable at its end |
| CompactionFacts.TwoLineFactIsLost | robothor/engine/compaction.py:10-11 | the promise fails for every extracted text that is not carriable: it is reported as extracted and recovered by nothing |
| CompactionAnswers.CompactAnswer | robothor/engine/compaction.py:270-463 | a whole compaction: where it ends, which contents are thinned, and, from pass 2 on, that the unmarked messages are cut at the last safe cut leaving KEEP_RECENT of them into old ones, given to the extractor and summarised in blocks of 20, and recent ones that end the result verbatim; which facts and which summaries it holds, and in what message |
| CompactionAnswers.TextsAnswer | robothor/engine/compaction.py:344-378 | the fact texts of the result are exactly those extracted from all the old messages and the retained ones |
| CompactionAnswers.ThinnedIs | robothor/engine/compaction.py:313-321 | thinning rewrites exactly the tool results over 500 characters with KEEP_RECENT tool results behind them |
| CompactionAnswers.DedupIs | robothor/engine/compaction.py:371-378 | deduplication yields, in order, the facts that are the first with their text |
| CompactionAnswers.ChunksAre | robothor/engine/compaction.py:396-399 | the blocks concatenate to the old messages, and all but the last have the full size |
| CompactionAnswers.MarkedIff | robothor/engine/compaction.py:239-242 | a message is retained exactly when its content is a string with the marker somewhere in it |
| FactLineAnswers.ContentAnswer | robothor/engine/compaction.py:228-236 | a retained message is the marker line and one line per fact, stably sorted by falling priority |
| FactLineAnswers.ParseIff | robothor/engine/compaction.py:357-369 | any line, printed or not, is read as a fact exactly when its stripped form has the marker, the priority mark, and category, number and text behind the first `[`, `(p` and `) ` |
| FactLineAnswers.IntAnswer | robothor/engine/compaction.py:364 | what `int` accepts, and its value |
| FactLineAnswers.StripAnswer | robothor/engine/compaction.py:358 | what `strip` takes off |
| CompactionPairing.AnsweredIff | robothor/engine/compaction.py:245-267 | a tool result appended now sits right after its call exactly when the last message that is no result makes that call |
| CompactionPairing.CompactionKeepsOpenCall | robothor/engine/compaction.py:333-424 | on every return path an unmarked call still waiting for results is still the last message they can answer |
| CompactionPairing.PairingSurvivesEveryRun | robothor/engine/compaction.py:270-463 | over any run, with compactions anywhere, also between a call and its results, no tool result is ever orphaned, if the appends alone would orphan none and no call carries the marker |
| Tasks.TaskBoard.CreateTask | robothor/crm/dal.py:979-1075 | table and history after a creation, a violated constraint or a failed write |
| Tasks.TaskBoard.UpdateTask | robothor/crm/dal.py:1143-1245 | each outcome of an update: refusal, rejected transition, plain update, recorded transition, subtask warning, rollback |
| Tasks.TaskBoard.ResolveTask | robothor/crm/dal.py:1313-1418 | guards, the new row and the history record, or nothing |
| Tasks.TaskBoard.ApproveTask | robothor/crm/dal.py:1421-1477 | the three guards, the new row and the history record, or nothing |
| Tasks.TaskBoard.RejectTask | robothor/crm/dal.py:1480-1558 | the task goes back to IN_PROGRESS with a record and one TODO subtask per request, or nothing at all happens |
| Tasks.TaskBoard.DeleteTask | robothor/crm/dal.py:1248-1266 | soft deletion of a visible row, nothing else |
| TaskAnswers.CreateAnswer | robothor/crm/dal.py:979-1075 | when a creation goes through, each column of the row, its record, and that nothing else changes |
| TaskAnswers.UpdateAnswer | robothor/crm/dal.py:1143-1245 | when an update is refused, an error, or done; every column asked for is set and every other kept; the record and the warning |
| TaskAnswers.ResolveAnswer | robothor/crm/dal.py:1313-1418 | a resolution goes through exactly under its guards, and what it leaves |
| TaskAnswers.ApproveAnswer | robothor/crm/dal.py:1421-1477 | the same for an approval |
| TaskAnswers.RejectAnswer | robothor/crm/dal.py:1480-1558 | a rejection of a task in REVIEW with a reason moves it to IN_PROGRESS with one record and adds exactly one task per change request, with all its columns; a clashing id refuses it whole |
| TaskAnswers.SubtasksAnswer | robothor/crm/dal.py:1522-1541 | the subtasks are added exactly when their ids are unused and distinct, and then exactly these |
| TaskAnswers.DeleteAnswer | robothor/crm/dal.py:1248-1266 | a deletion stamps a visible row and changes nothing else |
| TaskLaws.HistoriesAreChains | robothor/crm/dal.py:838-868 | in every reachable state each task's history is a chain of allowed transitions ending in its status; a task without a record is a subtask in TODO |
| TaskLaws.StepOnTask | robothor/crm/dal.py:1194-1236 | any single call leaves a task's status and history alone or moves it along one recorded, allowed edge, with the start-time rule |
| TaskLaws.StepOnNewTask | robothor/crm/dal.py:997-1036 | a task that appears is a recorded creation or an unrecorded TODO subtask of a rejection |
| TaskLaws.HiddenTaskUnchanged | robothor/crm/dal.py:1199-1220 | no call touches a deleted task or one of another tenant |
| TaskLaws.DeletedTaskNeverChanges | robothor/crm/dal.py:1248-1266 | over any run a soft-deleted task and its history stay as they are |
| TaskLaws.PastTodoHasStarted | robothor/crm/dal.py:1206-1214 | in every reachable state a task born in TODO or IN_PROGRESS that is past TODO has a start time and an IN_PROGRESS entry after its last TODO |
| TaskLaws.BirthDecides | robothor/crm/dal.py:997 | a fresh task meets that rule if and only if it was created in TODO or IN_PROGRESS |
| TaskLaws.StartTimeNeverChanges | robothor/crm/dal.py:1214 | once set, the start time never changes over any run, reopening included |
| TaskLaws.ChainsOutsideTodoWorked | robothor/crm/dal.py:838-843 | along any chain born in TODO or IN_PROGRESS, leaving TODO means an IN_PROGRESS entry since |
| TaskLaws.FinishedExactlyWhenAllowed | robothor/crm/dal.py:1313-1477 | a call finishes an unfinished task exactly when it is one of the three ways into DONE and its guard holds |
| Routines.NeverTwoOpenTasks | crm/bridge/bridge_service.py:66-98 | over any run, wherever the loop dies and whatever respectful writers do in between, no title has two open triggered tasks |
| Routines.NeverTwoOpenTasksFromTheStart | crm/bridge/bridge_service.py:66-98 | the same in every state reachable from an empty task table |
| Routines.HandledRoutineIsNotDue | robothor/crm/dal.py:1873-1909 | a routine whose task was created is not due even if it was never advanced; an advanced one is not due before its next run, whatever becomes of the task |
| Routines.RespectfulOpensNothing | robothor/crm/dal.py:1878-1884 | a call of a respectful writer brings no open triggered task into being |
| Routines.ReopeningIff | robothor/crm/dal.py:1878-1884 | reopening a finished triggered task is safe exactly when its title has no open task by then |
| Routines.SharedTitleGivesTwo | crm/bridge/bridge_service.py:69-83 | two due routines that share their title, and nothing else, both get a task in one pass |
| Routines.RoutineTable.TriggerOne | crm/bridge/bridge_service.py:70-83 | the loop body, complete or stopped between its two transactions, takes the tables where the protocol's one or two steps do |
| Routines.RoutineTable.TriggerDue | crm/bridge/bridge_service.py:69-83 | the loop, stopped after any number of steps, leaves both tables where the protocol's steps take them |
| Routines.PassIsRun | crm/bridge/bridge_service.py:69-83 | a pass is a run of the protocol, so the laws of runs apply to it |
| Routines.PassAnswer | crm/bridge/bridge_service.py:69-83 | after a complete pass every due routine whose creation did not raise has its task, with all its columns, one record and its next run; the others have nothing, and no other row changes |
| Routines.DueIff | robothor/crm/dal.py:1873-1909 | which routines are due, in the words of the query |
| People.CrmTables.CreatePerson | robothor/crm/dal.py:112-140 | the table after a creation, or after a blocked or failed one |
| People.CrmTables.FillFields | robothor/crm/dal.py:281-303 | the loop over the fillable columns computes the merged columns |
| People.CrmTables.Collect | robothor/crm/dal.py:306-323 | the collecting loops compute `Collected` |
| People.CrmTables.MergePeople | robothor/crm/dal.py:251-390 | all five tables after a merge, or unchanged tables |
| People.CrmTables.ResolveContact | robothor/crm/dal.py:2512-2605 | mapping, owner, search hit, creation, upsert, and the two ways to raise |
| PeopleLaws.MergeKeepsMappingsLiveIff | robothor/crm/dal.py:341-362 | a merge keeps every mapping on a live person exactly when it is no self-merge, or nothing maps to the person merged into itself |
| PeopleLaws.RunKeepsMappingsLive | robothor/crm/dal.py:2532-2590 | over any interleaving of merges and resolutions every identifier mapping points to a live person |
| PeopleLaws.MappingFollowsMerges | robothor/crm/dal.py:341-344 | over any interleaving a mapping ends exactly where the merges since take its person |
| PeopleLaws.CreatedIsFoundIff | robothor/crm/dal.py:2567-2574 | the person created for a non-blank name is found by a search for that name exactly when the name is one bare word |
| PeopleLaws.TriesCreate | robothor/crm/dal.py:2559-2590 | a contact nobody matches, resolved n times with the upsert failing, leaves one person if its name is one bare word and n people otherwise |
| PeopleLaws.SpacedNameTwice | robothor/crm/dal.py:2559-2590 | two such tries for a name with a blank in it leave two people with the same values |
| PeopleLaws.ResolvedOnceCreatesNobody | robothor/crm/dal.py:2532-2590 | once a resolution answered with a person, no later one of that contact creates anybody, whatever merges and resolutions lie between |
| PeopleLaws.MergeNeverOverwrites | robothor/crm/dal.py:281-303 | a non-blank keeper field is never overwritten, a blank one takes the loser's value if that has ink |
| PeopleLaws.CollectedGains | robothor/crm/dal.py:306-323 | an additional list keeps its entries in place and gains exactly the missing candidates, each once |
| PeopleLaws.MergePoolsAddresses | robothor/crm/dal.py:306-330 | the keeper ends with exactly the non-blank addresses of the two people |
| PeopleLaws.MergeConservesAddresses | robothor/crm/dal.py:305-362 | the e-mails and phones held by live people are the same before and after a merge |
| PeopleLaws.MergeAddsNoDuplicate | robothor/crm/dal.py:309-323 | duplicate-free additional lists stay duplicate-free |
| PeopleLaws.FilledPrimaryIsListedToo | robothor/crm/dal.py:309-312 | an e-mail taken over as primary is also listed as additional |
| PeopleLaws.MergeRepointsRows | robothor/crm/dal.py:340-356 | no mapping and no live note or task refers to the loser any more, every conversation follows the merge, and rows of third people are untouched |
| PeopleAnswers.MergeAnswer | robothor/crm/dal.py:251-390 | when a merge goes through; every row of the four referring tables after it, deleted notes and tasks untouched, and the one new note |
| PeopleAnswers.PeopleOfMerge | robothor/crm/dal.py:281-362 | every person after a merge: the keeper's columns, the deleted loser, third people as before |
| PeopleAnswers.ListsOfMerge | robothor/crm/dal.py:305-323 | the keeper's lists are its old ones followed by the loser's joining addresses, in order |
| PeopleAnswers.CreateAnswer | robothor/crm/dal.py:112-140 | which inputs create a person, and each column of its row |
| PeopleAnswers.ResolveAnswer | robothor/crm/dal.py:2512-2605 | whom a contact resolves to, mapping before owner before search hit; who is created otherwise; the mapping written and all other rows kept |
| PeopleAnswers.NameSplits | robothor/crm/dal.py:2567-2569 | a name is blanks, its first word, blanks, and the remainder |
| OwnerBootstrap.InstallTables.BootstrapOwnerPersonLinks | robothor/crm/dal.py:2412-2506 | people and user rows after a run, including one that stops after the person is committed or breaks the unique index |
| OwnerBootstrap.LoadedConfigIsNormal | robothor/owner_config.py:132-138 | every loaded configuration carries a stripped, lower-cased e-mail |
| OwnerBootstrap.CreatedPersonIsFoundIff | robothor/crm/dal.py:2458-2480 | the created row is found by the next look-up exactly when the configured e-mail is in the stored form |
| OwnerBootstrap.AtMostOnePersonCreated | robothor/crm/dal.py:2457-2485 | over any number of runs, each dying wherever, at most one person is created, and none once one exists |
| OwnerBootstrap.LinkNeverChanges | robothor/crm/dal.py:2452-2496 | at most one owner row is ever linked and a link never changes |
| OwnerBootstrap.RetryLinksTheOperator | robothor/crm/dal.py:2471-2498 | a run that died between the two commits is repaired by the next complete one, without a second person |
| OwnerBootstrap.BootAnswer | robothor/crm/dal.py:2412-2506 | one run: when it does nothing, whom it links, whom it creates and from which names, and that no other row changes |
| OwnerBootstrap.LoadAnswer | robothor/owner_config.py:132-138 | when a configuration loads, and its fields |
| MemoryBlocks.BlockTable.AppendToBlock | robothor/crm/dal.py:2217-2259 | the upserted row after an append, and an unchanged table after a failed one |
| MemoryBlocks.TrimBoundsIff | robothor/crm/dal.py:2240-2242 | the limit is met if and only if it is at least 1; zero never trims |
| MemoryBlocks.StoredLinesReadBackIff | robothor/crm/dal.py:2234-2244 | stored lines read back as they were joined exactly when neither end of the text is blank |
| MemoryBlocks.AppendIsBoundedPush | robothor/crm/dal.py:2234-2244 | on tidy lines one append pushes onto a queue of the last `max_entries` lines |
| MemoryBlocks.BlockRefinesQueue | robothor/crm/dal.py:2224-2253 | any sequence of tidy appends refines that bounded queue |
| MemoryBlocks.PushAllKeepsLast | robothor/crm/dal.py:2240-2242 | the bounded queue holds the last entries of everything pushed |
| MemoryBlocks.FreshBlockHoldsLastEntries | robothor/crm/dal.py:2224-2253 | a block started empty holds the last `max_entries` of all stamped entries ever appended, the entries being one line each and not ending in a blank |
| MemoryBlocks.AppendAnswer | robothor/crm/dal.py:2217-2259 | an append gives one block a line and a write, for every integer limit, and leaves every other block alone |
| Segmenter.SegmentTranscript | brain/memory_system/continuous_ingest.py:776-808 | the result is a segmentation of the lines: nothing lost, later segments start at speaker lines, every break was forced, inner speaker lines end within the limit; nothing for blank input |
| Segmenter.SegmentLines | brain/memory_system/continuous_ingest.py:785-808 | the accumulating loop, its running length included, yields the groups of `Remaining` |
| Segmenter.SegmentsJoinBack | brain/memory_system/continuous_ingest.py:798-806 | joining any segmentation with newlines gives the transcript back |
| Segmenter.SegmentationIsUnique | brain/memory_system/continuous_ingest.py:790-806 | there is only one segmentation, so these properties pin the output down |
| Segmenter.SpeakerLineIff | brain/memory_system/continuous_ingest.py:794 | which lines the speaker pattern matches |
| Segmenter.SegmentStarts | brain/memory_system/continuous_ingest.py:790-803 | a segment starts with a speaker's line that would have made the text before longer than the limit |
| Segmenter.SegmentFits | brain/memory_system/continuous_ingest.py:790-803 | inside a segment the text up to any speaker's line is within the limit |
| MergeScript.Connection.RunScript | scripts/merge_operator_duplicates.py:141-228 | the committed tables and the exit of every run, for every argument and every point of failure; ids are compared as spellings by the guard and as what they denote by the statements |
| MergeScript.Connection.RunPhases | scripts/merge_operator_duplicates.py:187-228 | the two loops with their commits and rollbacks compute `Phases` |
| MergeScript.Connection.RepointFks | scripts/merge_operator_duplicates.py:83-91 | the five updates repoint every row of the loser and no other |
| MergeScript.Connection.CountRefs | scripts/merge_operator_duplicates.py:94-103 | the summed counts are positive exactly when some row of the five tables refers to the id |
| MergeScript.Connection.Commit | scripts/merge_operator_duplicates.py:198-200 | a commit keeps the work, or discards it silently when a swallowed error aborted the transaction |
| MergeScriptLaws.MergePhase | scripts/merge_operator_duplicates.py:187-193 | the merge loop in closed form: all rows of all losers on the canonical person, all losers soft-deleted |
| MergeScriptLaws.DeletePhase | scripts/merge_operator_duplicates.py:202-219 | the delete loop in closed form, and outside a dry run no target was referred to |
| MergeScriptLaws.MergeFromIff | scripts/merge_operator_duplicates.py:187-193 | the merge loop runs through if and only if every id exists, no statement raises and only the last audit insert fails |
| MergeScriptLaws.DeleteFromIff | scripts/merge_operator_duplicates.py:202-219 | the delete loop runs through if and only if the same holds and the ids are distinct and, outside a dry run, not referred to |
| MergeScriptLaws.EndOfCall | scripts/merge_operator_duplicates.py:187-228 | both phases succeed exactly under conditions visible before the call (`Succeeds`), and the exact final state for each exit |
| MergeScriptLaws.DryRunChangesNothing | scripts/merge_operator_duplicates.py:221-223 | a dry run leaves the database unchanged, whatever happens |
| MergeScriptLaws.ThreeStatesIff | scripts/merge_operator_duplicates.py:33-35 | the database ends unchanged, with all merges, or with all merges and deletes, except exactly when a call that will succeed loses its merges to the last audit insert, these mattered, and it keeps deletes; every part of the condition is about the call's inputs |
| MergeScriptLaws.MergesMatterIff | scripts/merge_operator_duplicates.py:83-115 | the merges change what the deletes leave exactly when they repoint a row or soft-delete a live person not deleted anyway |
| MergeScriptLaws.DeletesWithoutMerges | scripts/merge_operator_duplicates.py:187-228 | the fourth state is reached, with exit 0, by one loser whose audit insert fails and one unreferenced target |
| MergeScriptLaws.RowsAreConserved | scripts/merge_operator_duplicates.py:53-59 | no call creates or removes a row of the five tables |
| MergeScriptLaws.SuccessLeavesNoReferenceIff | scripts/merge_operator_duplicates.py:187-228 | after a success no row refers to a merged or deleted id, except exactly when a merged id was referred to and the merges were lost or include the canonical id in another spelling |
| MergeScriptLaws.SuccessIsComplete | scripts/merge_operator_duplicates.py:187-228 | after a success with working audit inserts the losers' rows are the canonical person's, the deleted people are gone, the merged ones soft-deleted, and all else is as before |
| MergeScriptLaws.CanonicalMergedIntoItself | scripts/merge_operator_duplicates.py:159-164 | the canonical id in a second spelling passes the overlap guard, is soft-deleted with exit 0, and keeps its rows |
| MergeScriptLaws.WithoutAuditTableNothingChanges | scripts/merge_operator_duplicates.py:123-138 | if no audit insert works the script never changes the database |
| MergeScriptLaws.LostMergeReportsSuccess | scripts/merge_operator_duplicates.py:137-138 | and a single merge then still exits 0 |
| MergeScriptAnswers.Refusals | scripts/merge_operator_duplicates.py:150-185 | each refusal before the first write, with its exit and an unchanged database |
| MergeScriptAnswers.RefusalsIff | scripts/merge_operator_duplicates.py:150-185 | exit 1 means exactly an unconfirmed well-formed call, exit 2 exactly nothing asked, a spelling in two roles, or a deleted canonical person |
| MergeScriptAnswers.EndAnswer | scripts/merge_operator_duplicates.py:187-228 | exit and final tables of every call that passes its guards, for every point of failure, exit 3 included |
| DreamLock.TryAcquireLock | robothor/engine/autodream.py:94-112 | SET NX EX when the command is answered; the run is let through when there is no server, when the command does not reach it, and when it takes effect but its reply is lost |
| DreamLock.ReleaseLock | robothor/engine/autodream.py:115-127 | undisturbed, the release removes the key exactly when the run owns it |
| DreamLock.OneRunAtATime | robothor/engine/autodream.py:94-127 | if every run deletes within its time to live and none is let through without the key, at most one run is between acquire and delete and no release removes another run's key, over every interleaving with waits and deaths |
| DreamLock.OneRunAtATimeFromTheStart | robothor/engine/autodream.py:94-127 | the same for every run from the server without a key |
| DreamLock.StepHolds | robothor/engine/autodream.py:94-127 | each step keeps each active run's own entry, with its own expiry, on the server |
| DreamLock.OverlapsExactlyWhenOverstayed | robothor/engine/autodream.py:97-98 | one more acquire makes two runs active exactly when an active one has overstayed |
| DreamLock.LockFreesItself | robothor/engine/autodream.py:97-98 | with no assumption at all, the key is gone once COOLDOWN_SECONDS have passed since the last acquire, and the next run gets the lock |
| DreamLock.DeleteIsForeignIff | robothor/engine/autodream.py:123-125 | the delete misses its own key exactly when the run is late |
| DreamLock.LateDeleteLetsTwoIn | robothor/engine/autodream.py:123-125 | a late delete removes the next run's key and lets two punctual runs in together |
| DreamLock.LateDeleteIsReachable | robothor/engine/autodream.py:123-125 | one run that is slow between its two commands reaches that state |
| DreamLock.OfflineAcquireOverlaps | robothor/engine/autodream.py:103-112 | failing open beside an active run breaks exclusion |
| DreamLock.UnheardHoldsIff | robothor/engine/autodream.py:107-112 | an acquire whose reply is lost keeps the lock's invariant exactly when the key was free (for a key that belongs to a run) |
| DreamLock.AcquireAnswer | robothor/engine/autodream.py:94-112 | when an answered acquire takes the key, and what it leaves |
| DreamLock.ReleaseIsCheckThenDelete | robothor/engine/autodream.py:115-127 | the protocol's two release commands, undisturbed, do what the release does |
| Migrations.Store.ApplyPending | robothor/db/migrate.py:103-154 | the selecting and the executing loop compute `Apply` on tables and reply |
| Migrations.Store.Status | robothor/db/migrate.py:70-100 | one row per file, with its state |
| Migrations.ApplyAnswer | robothor/db/migrate.py:111-154 | a call runs, in file order and up to the first failure, exactly the unrecorded files of the asked version (all if none is asked), and its reply says so |
| Migrations.OnlyTheVersionRuns | robothor/db/migrate.py:119-120 | asked for one version, a call runs no file of another |
| Migrations.DryRunAnswer | robothor/db/migrate.py:130-133 | a dry run lists these files and changes nothing |
| Migrations.ExecuteAnswer | robothor/db/migrate.py:137-152 | what one file leaves, for each way it can fail: its run, the rows it adds and their contents |
| Migrations.StatusAnswer | robothor/db/migrate.py:78-90 | a file drifted exactly when its row has a checksum and that is another one |
| Migrations.FailureCommitsExactlyThePrefix | robothor/db/migrate.py:127-152 | a run failing at item k names it and commits exactly the items before it, in order (and item k only if it commits for itself or fails after its record took effect) |
| Migrations.RecordedIsCommittedOnceIff | robothor/db/migrate.py:111-154 | over any sequence of runs with any filters and failures, after every run the recorded versions are those whose SQL committed, each once, if and only if each pass backfills only versions recorded or executed and commits files only with their records |
| Migrations.RecordedIsCommittedOnce | robothor/db/migrate.py:111-154 | that holds in every state for files of distinct versions that backfill only themselves and earlier files, no self-committing file failing between its commit and its record |
| Migrations.PassKeepsStepIff | robothor/db/migrate.py:127-152 | the exact condition for one pass, read off its files and their outcomes |
| Migrations.PickedBackfillGetsOutOfStep | robothor/db/migrate.py:116-121 | picking a backfilling file by its version records versions that have not run |
| Migrations.ExecuteKeepsStepIff | robothor/db/migrate.py:137-146 | the exact condition on one file for records and commits to stay in step |
| Migrations.CommitsOnceIffVersionsDistinct | robothor/db/migrate.py:141-145 | a pass that goes well commits each version once exactly when its pending versions are distinct |
| Migrations.RecordedNeverRunsAgain | robothor/db/migrate.py:115-121 | once a version is recorded no file of that version ever runs again, with no assumption |
| Migrations.RecordsNeverChange | robothor/db/migrate.py:141-145 | no later call changes a record or undoes a committed file |
| Migrations.DriftIff | robothor/db/migrate.py:78-90 | after any later calls a file shows DRIFT exactly when its checksum is not the one it was applied with |
| Migrations.NothingPendingAfterSuccess | robothor/db/migrate.py:115-125 | after a call that returned, the same call applies nothing and the status table shows nothing pending |
| Migrations.DryRunForetells | robothor/db/migrate.py:130-133 | a dry run changes nothing and announces exactly what a run that goes well applies |
| Anomalies.DetectAnomalies | robothor/engine/analytics.py:398-444 | the loop reports, metric by metric and in order, exactly the verdicts of the test |
| Anomalies.ReportIsTrue | robothor/engine/analytics.py:408-444 | the reported direction is that of the recent value from the mean, and the deviation is missing exactly for a constant baseline |
| AnomalyAnswers.ReadingAnswer | robothor/engine/analytics.py:398-403 | the column each metric reads |
| AnomalyAnswers.VerdictIff | robothor/engine/analytics.py:408-434 | a metric is reported exactly if a constant baseline is missed by more than a tenth, or any other exceeded by more than sigma deviations; never from fewer than two days |
| AnomalyAnswers.ReportAnswer | robothor/engine/analytics.py:419-443 | the metric, its moments, the recent value and its deviation as reported |
| AnomalyAnswers.DetectAnswer | robothor/engine/analytics.py:396-444 | the four metrics in their order, each at most once |
| Anomalies.FlagIgnoresOrder | robothor/engine/analytics.py:412-414 | permuting the baseline changes neither mean, variance nor verdict |
| Anomalies.FlagIgnoresScale | robothor/engine/analytics.py:412-431 | scaling all values by c > 0 scales the standard deviation and changes no verdict |
| Anomalies.ZeroBranchIff | robothor/engine/analytics.py:414-416 | the zero-variance branch is taken exactly when all baseline values are equal |
| Anomalies.ValueNearMean | robothor/engine/analytics.py:412-413 | a baseline value's squared distance from the mean is at most (n - 1) times the variance |
| Anomalies.FlagInsideRangeNeedsManyDays | robothor/engine/analytics.py:431-434 | a recent value no larger than some baseline value is flagged only if n - 1 > sigma_threshold squared |
| Anomalies.BoundIsSharp | robothor/engine/analytics.py:431-434 | that bound is exact: for every n a baseline exists whose largest value is flagged if and only if n - 1 > sigma_threshold squared |

## Left out

- Model calls, embeddings, HTTP, Telegram, Redis clients and psycopg2: arbitrary functions, parameters or abstract state. `extract_facts`, `summarize_segment`, `estimate_tokens` and `extract_tool_summary` are arbitrary functions, so nothing says that thinning shrinks a message.
- CompactionStructure.PairingKept: assumes that the first message is a system message and that thinning adds the marker to no message and removes it from none.
- CompactionStructure.AnswersKept: assumes that no tool result carries the marker, before or after thinning.
- CompactionStructure.RecentTailVerbatim: makes the same assumption; a tool result whose thinned form lost or gained the marker would change sides.
- CompactionFacts.FactsSurviveEveryRun: assumes clean runs: no marked tool results, and every fact appended, extracted or written into a summary is `Settled`, that is `TextKept` and without an earlier category line that reads as a fact that is not; `NoTextLostIff` shows that a fact that is not kept loses a text.
- CompactionFacts.NoTextLostIff: assumes that no line of a category before its last reads as a fact (such a line can stand in for a lost text), and summaries without the marker.
- FactLines.TextsSurviveIff: makes the same assumption on categories, and distinct texts, as deduplication leaves them.
- CompactionPairing.PairingSurvivesEveryRun: assumes that no call carries the marker; `CompactionStructure.TornPairIsOrphaned` shows what happens otherwise.
- Python's `int()`, `lower()` and the class `[A-Z]` are modelled on ASCII digits and letters; `int()` with its blanks, sign and underscores.
- Columns no law speaks of: due date, person, company, tags, service-level deadline, metadata of history records; CRM audit calls, events and notifications, which run after the commit.
- A failed write is a parameter (`fails`, `raised`, `upsertRaises`, faults); interleavings below one transaction are not modelled, as the code takes no row locks.
- Timestamps are values handed in; cron arithmetic and time zones are the `nextRun` a step supplies.
- PERSON_BLOCKLIST is a parameter; `search_people`, owner-name matching and owner look-up are answers handed in, assumed to name live people of the tenant.
- NULL and the empty string are one value in `People`; the upsert of `resolve_contact` follows the conflict target in the code, (channel, identifier); on the schema after migration 033 it always raises.
- PeopleLaws.TriesCreate: assumes that the name is not the owner's and that only these tries change the people; ILIKE is substring search on ASCII lower case, for names without `%`, `_` and backslash.
- Routines.NeverTwoOpenTasks: assumes distinct titles and writers that do not sign as the trigger, rename triggered tasks or reopen finished ones; `ReopeningIff` and `SharedTitleGivesTwo` show what happens otherwise. One trigger loop; the table of routines changes only by its own advances.
- Routines.PassAnswer: assumes that generated task ids are unused and distinct, and that a look-up lists a routine once.
- OwnerBootstrap.AtMostOnePersonCreated: assumes that between runs the operator's row is neither deleted nor given another e-mail, and runs do not overlap.
- Additional owner e-mails and the deprecated environment variables of the owner configuration.
- MergeScript: a malformed id denotes no existing person; statements of one id are one step that succeeds, raises, or fails in its audit insert only; foreign-key errors of a dry run's hard delete are such raises; counts printed to the operator are not kept.
- DreamLock.OneRunAtATime: a run's work between acquire and release, the last-run key and the cooldown test are not modelled; COOLDOWN_SECONDS is any positive number.
- Migrations: file discovery (sorting by name, the name pattern) is the list handed in, hashing is a checksum field, and a self-committing file either commits all of its SQL or none.
- Rounding in the detector's report, SQL aggregation and floating point: `Anomalies` uses exact reals and takes the square root as a parameter; the laws ask that it be the non-negative root.
- `merge_companies`, list and search queries, plain CRUD, `crm/bridge/crm_dal.py` (a deprecated duplicate), `robothor/api/mcp.py`: field mapping, or the same shape again.
- `acquire_lock` of `brain/memory_system/continuous_ingest.py`: unlinking a stale file lets two processes lock two inodes, so there is no exclusion to prove.
