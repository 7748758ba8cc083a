# Incident AI backend: a Dafny model of its hard parts

This project models the behaviour of the Incident AI backend that is easiest to get wrong and proves what its
documentation and its tests promise about it: alert ingestion under concurrent deliveries, exports and postmortem
revisions under row locks, durable analysis jobs under crashes and redelivery, the two rate limiters, the Markdown to
ADF to Confluence storage pipeline, the prompt budget, ranked search, and the smaller greedy and retrying loops.

`dafny verify dfyconfig.toml` checks the whole project.

## How the model is laid out

| files | what they model |
|---|---|
| `Ingestion.dfy`, `IngestionSafety.dfy`, `IngestionSerial.dfy`, `IngestionAborts.dfy`, `IngestionDeadlocks.dfy`, `IngestionRows.dfy`, `IngestionEndpoint.dfy` | webhook batches racing on the unique key (source, external_id); the handler for a lone writer |
| `Exports.dfy`, `ExportSafety.dfy`, `PostmortemHandlers.dfy` | export, edit and generate requests of one incident under PostgreSQL row locks; the handlers themselves |
| `Jobs.dfy`, `JobHandler.dfy` | attempts at one analysis job; the handler itself |
| `RateLimit.dfy`, `FixedWindow.dfy` | the in-memory sliding window and the Redis counter |
| `Markdown.dfy`, `MarkdownNormalForm.dfy`, `Storage.dfy`, `Documents.dfy` | the ADF parser, its normal form, the storage printer and the round trip; whole documents |
| `Context.dfy` | the bounded prompt context |
| `Search.dfy` | cosine and word ranking |
| `Drafts.dfy`, `Http.dfy`, `Lifecycle.dfy` | the timeline and log budgets, the retry loop, the incident row |
| `Options.dfy`, `Integers.dfy` | optional values, the lesser of two integers |

The three protocols are transition systems: a state, a datatype of actions, `Enabled`, `Apply`, and runs as sequences
of actions. Theorems about them speak of every feasible run. Database statements follow PostgreSQL at READ COMMITTED:
a statement sees the committed rows and its own transaction's writes, a unique index makes an insert wait for an open
transaction that holds the key, and a row lock lasts until its transaction ends. Code that works by assignment is a
class or a method with loops, proved against functions that the lemmas then speak about.

## What the proofs found out about the code

- Without deletes, concurrent ingestion is serialisable in commit order, and of all committed deliveries of a new key
  exactly one is answered "not a duplicate" (`ExactlyOneCreation`). The re-raise for a row that has vanished is
  unreachable without deletes (`StoppedOnlyByHeldKey`).
- Two batches with the same new keys in opposite orders can block each other for good under PostgreSQL
  (`OppositeOrdersDeadlock`); the database then has to abort one. If every batch lists its new keys in one common order this cannot happen
  (`NoDeadlock`); the handler does not sort its batches.
- A webhook request can be answered with an error although its batch is stored: the analyses are queued after the
  commit (`Database.Ingest`).
- A succeeded job is not final. `SuccessCanBeOverwritten` and `UnheardSuccessIsOverwritten` give runs;
  `LeavesSucceededExactly` says when a success lasts: exactly until the failure report of an attempt that had not loaded
  "failed", or a failing enqueue.
- The truncation flag of the prompt is honest about values but not about keys: a key longer than 80 characters is cut
  without raising it. `HonestTruncation` says exactly on which inputs the flag stays down, and what is then shown. In
  the other direction `MarkerTextIsFlagged` is an input that is written out unchanged with the flag up.
- The docstring of `_bounded_context` says the newest context is retained first; the code keeps a prefix, oldest
  first, of the newest hundred items of a list. `NewestIsDropped` is an input whose newest item is dropped while eight
  older ones are kept, and `NewestIsKeptExactly` says when the newest item survives: if and only if the budget exceeds
  the cost of the items before it. The model follows the code.
- The omission line of a postmortem timeline covers the fetched events only. `SilentOmissionExactly` says when events
  are missing without it; `ShortNotesGoMissing` shows that an incident with 1000 or more operator notes of at most 22
  characters gets there, and `LongerNotesAreAnnounced` that one character more per note brings the line back.

## Model

| member | source | states |
|---|---|---|
| IngestionEndpoint.BatchAlone | app/domain/incidents.py:75-123 | the reference: a batch alone fails exactly on a new alert with too many logs, a duplicate is exactly a key stored before or earlier in the batch, and the stored keys grow by those of the batch |
| IngestionSafety.RunsStaySafe | app/domain/incidents.py:96-123 | over every run, with aborts and deletes: one alert per key, every alert with its incident, each webhook-created incident with exactly its own alert, created event and logs, no key held by two open transactions |
| IngestionSafety.AnyDatabaseIsSafe | app/repository/models.py:81-89 | any rows that respect the unique index and the foreign key are a start, manual incidents and earlier alerts included |
| IngestionSafety.StepSafe | app/domain/incidents.py:98-123 | each statement of the protocol keeps that invariant; a losing savepoint leaves no orphan |
| IngestionRows.StoredRowsAreDelivered | app/domain/incidents.py:85-114 | over every run: the incident of each committed answer that is not a duplicate, while stored, has the title, service, severity, description and logs of its alert, its created event and the logs event exactly if there are logs, and one alert row with the fields of the alert; no other incident appears |
| IngestionRows.UndeletedStays | app/repository/models.py:86-89 | committed rows stay as they are until their own incident is deleted |
| IngestionAborts.AbortedBatchLeavesNoTrace | app/api/routes.py:86-110 | a batch that does not commit might as well not have been sent: the run without its steps is possible and ends with the same rows and answers |
| IngestionSerial.SequentialStable | app/domain/incidents.py:78-123 | what a batch did so far is what it would do alone on the rows after another batch has committed |
| IngestionSerial.SerialisableInCommitOrder | app/api/routes.py:95-106 | after any delete-free run the rows are those of replaying the committed batches, each alone, in commit order |
| IngestionSerial.EachBatchAnswersAlone | app/api/routes.py:95-106 | each committed batch has its commit in the run, and answered and wrote exactly what it would have alone on the rows committed just before |
| IngestionSerial.ExactlyOneCreation | app/repository/models.py:84-86 | of all committed occurrences of a key exactly one is not a duplicate if the key is new and stored in the end, none otherwise |
| IngestionSerial.SameIncidentForSameKey | app/domain/incidents.py:83-84 | all committed deliveries of one key name the same, stored incident |
| IngestionSerial.StoppedOnlyByHeldKey | app/domain/incidents.py:115-123 | without deletes an open transaction is stopped exactly by a held key or by too many logs; the re-raise is unreachable |
| IngestionDeadlocks.NoDeadlock | app/api/routes.py:97-105 | if the open batches list their new keys in one common order, some batch can run its next statement, or fails on its own |
| IngestionDeadlocks.OppositeOrdersDeadlock | app/api/routes.py:97-105 | a run in which two batches with the same two new keys in opposite orders wait for each other |
| IngestionEndpoint.Database.IngestAlert | app/domain/incidents.py:75-123 | one alert in its savepoint: an error exactly on a dangling row or too many logs of a new alert, a duplicate exactly if its key is stored, and otherwise exactly one incident and one alert row with the fields of the alert |
| IngestionEndpoint.Database.StoreAll | app/api/routes.py:95-106 | the loop over the batch stores all of it as the reference does, or rolls everything back exactly when the reference fails |
| IngestionEndpoint.Database.Ingest | app/api/routes.py:78-120 | the whole request: a rejected batch leaves the store as it was, any other is stored and stays so; an error is answered if and only if the batch was rejected or one of its new incidents could not be queued for analysis, and then nobody is notified |
| IngestionEndpoint.JobQueue.QueueAll | app/api/routes.py:520-543 | one job row per new incident up to the first that cannot be queued, marked failed if its publication failed |
| Exports.FindReceipt | app/api/routes.py:411-416 | finds a receipt of the destination exactly when there is one |
| ExportSafety.RunsStayGood | app/api/routes.py:407-445 | over every run: one receipt per destination, links equal receipts, versions count revisions, and what was read under the locks is still true |
| ExportSafety.AtMostOnceExport | app/api/routes.py:411-445 | at most one receipt per destination, and the remote artifacts made in the run are at most one more than those of requests that failed or died after creating one |
| ExportSafety.ReceiptsOnlyImprove | app/api/routes.py:417-432 | receipts are never removed, a real one never changes, a demo one can only become real |
| ExportSafety.NoLostRevision | app/api/routes.py:363-375 | the version equals the number of committed edits and drafts of the run, and the links are the receipts |
| ExportSafety.StoredReceipt | app/repository/models.py:159-161 | storing a receipt keeps one per destination and leaves the other destination alone |
| ExportSafety.CommitExportLinked | app/api/routes.py:433-437 | after an export the link fields are those of the stored receipts |
| ExportSafety.SomeoneCanStep | app/domain/postmortems.py:24 | with the incident row taken first, some unfinished request can always take a regular step that brings it closer to its end |
| PostmortemHandlers.IncidentRecord.Export | app/api/routes.py:399-445 | the export handler: from the settings and the stored receipt, when the exporter is called and when the answer is an error; what is stored on success, field by field, and that an error changes nothing |
| PostmortemHandlers.IncidentRecord.Edit | app/api/routes.py:360-375 | an error without a postmortem, otherwise the new text and the next version |
| PostmortemHandlers.IncidentRecord.Generate | app/domain/postmortems.py:96-105 | version one, or the next version with the links kept |
| PostmortemHandlers.ChoosesExactly | app/integrations/exporters/__init__.py:282-292 | which exporter a request in the protocol gets: real if configured, demo in demo mode without a stored receipt, none otherwise |
| PostmortemHandlers.ReadsExactly | app/domain/postmortems.py:12-19 | without a postmortem an export or edit ends, otherwise it goes on with the row locked |
| PostmortemHandlers.ReturnsExactly | app/integrations/exporters/__init__.py:20-25 | the receipt to be stored is what the exporter answered |
| PostmortemHandlers.CommitActsAlone | app/domain/postmortems.py:96-113 | in every interleaving each commit does to the current rows what its handler alone would do |
| Jobs.JobProtocol | app/domain/jobs.py:22-50 | running is never visible, the job is queued exactly until the first success or recorded failure, the analysis rows are as many as the success commits of the run, one per attempt, successes exceed recorded failures by at most one, and an error once recorded stays |
| Jobs.StepGood | app/domain/jobs.py:27-41 | each step of an attempt keeps the job invariant |
| Jobs.SuccessCanBeOverwritten | app/domain/jobs.py:44-50 | a run in which a success is overwritten by another attempt's failure report |
| Jobs.UnheardSuccessIsOverwritten | app/domain/jobs.py:41-50 | a run of one delivery alone: its commit goes through, it sees an error and overwrites its own success |
| Jobs.LeavesSucceededExactly | app/domain/jobs.py:44-50 | a success lasts over the rest of a run if and only if no later step is such a failure report or a failing enqueue |
| Jobs.UntroubledSuccessIsFinal | app/api/routes.py:520-543 | if no attempt raises or sees its commit fail and no enqueue fails, success is final and there is at most one analysis |
| JobHandler.JobTable.Execute | app/domain/jobs.py:16-50 | the handler alone: nothing on a succeeded job, succeeded with a result and one analysis on success, failed with an error otherwise |
| JobHandler.HandlerFollowsProtocol | app/domain/analysis.py:115-146 | the handler run alone is a run of the protocol with the same row and analyses |
| RateLimit.MemoryRateLimiter.Exceeded | app/core/middleware.py:136-154 | limited if and only if at least `limit` admissions of the key, of all ever made, lie in the last minute; an admission is made exactly when it is not |
| RateLimit.MemoryRateLimiter.Cleanup | app/core/middleware.py:138-147 | the periodic cleanup loses nothing that can matter |
| RateLimit.MemoryRateLimiter.Prune | app/core/middleware.py:148-150 | pruning keeps exactly the recent end of the window |
| RateLimit.CleanupRemembers | app/core/middleware.py:139-146 | dropping a key whose newest admission is old does not change what is remembered |
| RateLimit.PrunedCounts | app/core/middleware.py:149-151 | after pruning, the window length is the number of admissions of the last minute |
| RateLimit.SlidingBound | app/core/middleware.py:148-154 | every window (t - 60, t] at any real t holds at most the limit of admissions per key |
| RateLimit.Serve | app/core/middleware.py:136-154 | a new limiter over any call sequence: naive answers, the bound on every window at every real t, deques within the limit, and an admission of the last 120 seconds for every stored key |
| FixedWindow.RateKey.Limited | app/core/middleware.py:15-19 | the script: one more on a live counter, one and a minute to live on an absent or expired one, limited if and only if the count exceeds the limit |
| FixedWindow.OneLifetimeBound | app/core/middleware.py:77-78 | at most the limit passes during one lifetime of the counter |
| FixedWindow.FixedWindowBound | app/core/middleware.py:15-19 | any closed interval of a minute sees at most twice the limit, for every request sequence |
| Markdown.HeadingIsGreedyMatch | app/integrations/exporters/__init__.py:54 | the heading function finds the greedy match of the pattern and misses none |
| Markdown.LinePatterns | app/integrations/exporters/__init__.py:37-63 | what makes a line a fence or a bullet |
| Documents.MarkdownToAdf | app/integrations/exporters/__init__.py:32-92 | the one-pass loop: the document it returns, printed, is the tidied lines; its blocks are normal, and without a visible line it is one empty paragraph |
| MarkdownNormalForm.ParsedIsNormal | app/integrations/exporters/__init__.py:63-76 | only well-formed blocks, and never two lists in a row |
| MarkdownNormalForm.PrintedBlocksComeBack | app/integrations/exporters/__init__.py:34-92 | every list of normal blocks is what its printout parses to |
| MarkdownNormalForm.NormalFormIsStable | app/integrations/exporters/__init__.py:34-92 | parsing, printing and parsing again changes nothing, unclosed fences and empty code included |
| MarkdownNormalForm.PrintedIsTidied | app/integrations/exporters/__init__.py:36-87 | line by line what parsing keeps: info strings, blank lines and extra white space go, all other text stays |
| Storage.EscapeIsCharwise | app/integrations/exporters/__init__.py:101 | the five replacements of the escape are one pass over the characters |
| Storage.EscapeRoundTrip | app/integrations/exporters/__init__.py:101 | escaping is invertible |
| Storage.EscapeIsSafe | app/integrations/exporters/__init__.py:101 | character data has no raw '<', and '&' only starts a reference (section 2.4 of XML 1.0) |
| Storage.NodesRoundTrip | app/integrations/exporters/__init__.py:98-111 | a parser for the emitted tags recovers any forest without adjacent texts, less empty texts |
| Storage.DocumentRoundTrip | app/integrations/exporters/__init__.py:98-111 | the rendered document is one balanced element that gives its tree back |
| Storage.MarkdownStorageRoundTrip | app/integrations/exporters/__init__.py:95-113 | the same for the document of any lines |
| Documents.StorageTells | app/integrations/exporters/__init__.py:95-113 | the storage XML, read back and printed, is the tidied lines |
| Context.Compactor.Walk | app/ai/client.py:74-98 | the walk over the shared budget and flag keeps exactly the cut form of the value, leaves the budget less its cost, and raises the flag exactly if the value is not whole |
| Context.Compactor.WalkEntries | app/ai/client.py:84-89 | the dict comprehension with its budget guard and overwriting keys |
| Context.Compactor.WalkItems | app/ai/client.py:92-93 | the list comprehension over the last hundred items with its budget guard |
| Context.BudgetConserved | app/ai/client.py:71-83 | the budget never goes negative and kept characters plus what remains never exceed it; the flag never falls back |
| Context.BudgetSpent | app/ai/client.py:74-98 | the walk spends exactly the cost of the value, or the whole budget when that is less |
| Context.KeepsCutForm | app/ai/client.py:76-98 | what is kept of every value: the beginning of a text up to its limit and the budget, the first of the newest hundred items and the first forty entries while there is budget, cut keys with the last of equal ones, scalars as they are |
| Context.UnflaggedIsWhole | app/ai/client.py:74-98 | with the flag down every entry, item and character is shown |
| Context.HonestTruncation | app/ai/client.py:74-98 | the flag stays down exactly on inputs within the limits of depth, length, count and budget whose cut keys do not collide; then the whole value is shown, and the output equals the input if and only if no key exceeds 80 characters and all values are JSON |
| Context.MarkerTextIsFlagged | app/ai/client.py:76-78 | a false alarm: nine lists around the text of the marker come back unchanged with the flag up |
| Context.LongKeyIsCutSilently | app/ai/client.py:86 | the input that shows it: an 81-character key |
| Context.MarkerMeansTooDeep | app/ai/client.py:76-78 | while budget is left at the start, a marker arises only from nesting deeper than eight |
| Context.ListKeepsPrefix | app/ai/client.py:92-95 | a kept list is the compacted prefix of the newest hundred items, and an item is in it if and only if the budget exceeds the cost of the items before it |
| Context.NewestIsKeptExactly | app/ai/client.py:93 | when the newest item of a list survives, against the docstring at line 70 |
| Context.NewestIsDropped | app/ai/client.py:93 | nine messages of full length: the eight oldest are kept, the newest is dropped |
| Search.SortBestFirst | app/domain/search.py:81 | the in-place sort ranks, permutes, and keeps the order of hits that rank alike |
| Search.TakeBest | app/domain/search.py:81-90 | ranked, of the right length, no left-out candidate beats a returned one, and ties go to the earlier candidates |
| Search.CauchySchwarz | app/domain/search.py:68-78 | the inequality for vectors of any equal length, the zero vector included |
| Search.CosineRange | app/domain/search.py:68-78 | the score lies in [-1, 1] and is 1 against itself |
| Search.CosineTimesLengths | app/domain/search.py:68-78 | the score times the two lengths is the dot product, sign included |
| Search.DotUnit | app/domain/search.py:71-77 | the product with a unit vector is the component |
| Search.DotLinear | app/domain/search.py:71-77 | the product is linear |
| Search.SearchByVector | app/domain/search.py:56-91 | the loop returns the best of the comparable rows |
| Search.SemanticRanking | app/domain/search.py:60-91 | ranked, never the excluded row, each with its cosine, the candidates are the rows of equal length with no zero vector, and nothing better is left out |
| Search.PrefilterAgrees | app/domain/search.py:103-116 | the prefilter drops exactly the rows of score zero |
| Search.WordScoreIsShare | app/domain/search.py:115-116 | the score is the share of the tokens that the text contains |
| Search.SearchByWords | app/domain/search.py:100-127 | the prefiltered loop returns the best of all rows with a positive score |
| Search.LexicalRanking | app/domain/search.py:113-127 | by score and date, scores in (0, 1], nothing better left out |
| Search.Distinct | app/domain/search.py:100 | the words once each, in the order of their first occurrence |
| Search.DistinctOrder | app/domain/search.py:100 | a word comes before another exactly when it occurs first |
| Search.SearchIncidents | app/domain/search.py:17-127 | the vector ranking is used exactly when it has a candidate, the word ranking otherwise |
| Drafts.TimelineLines | app/domain/postmortems.py:39-49 | exactly the longest prefix of the fetched lines that fits, and the omission line if and only if one was dropped |
| Drafts.JoinedLengthIsLength | app/domain/postmortems.py:42-49 | the length that is budgeted is that of the joined text |
| Drafts.SilentOmissionExactly | app/domain/postmortems.py:29-49 | exactly when events are missing from the section without an omission line |
| Drafts.ShortNotesGoMissing | app/domain/postmortems.py:29-49 | a created event followed by 1000 or more operator notes of at most 22 characters: the section is the first 1000 events, with no omission line |
| Drafts.LongerNotesAreAnnounced | app/domain/postmortems.py:29-49 | with notes of 23 characters or more, at instants with microseconds, the omission line is there |
| Drafts.LongerEventsAreAnnounced | app/domain/postmortems.py:39-49 | with lines of 60 characters or more, as automatic events have unless their instant falls on a whole second, the omission line is there |
| Drafts.LogContext | app/domain/analysis.py:72-89 | the kept messages are capped prefixes, shown oldest first, and cost exactly the lesser of the demand and the budget |
| Http.RequestJson | app/integrations/http.py:13-80 | the first attempt that is neither unreachable nor transient, among clamp(retries, 0, 3) + 1, decides, by its status class and body; otherwise the last one does; at most nine seconds are slept, and the last line is never reached |
| Http.BackoffIsCapped | app/integrations/http.py:25 | the delay doubles from a quarter second up to two seconds |
| Http.BodyTooLong | app/integrations/http.py:53-60 | the chunked read stops exactly when the body exceeds the limit |
| Lifecycle.Incident.constructor | app/domain/incidents.py:36-48 | a new incident is open, unacknowledged, with its created event |
| Lifecycle.Incident.Patch | app/api/routes.py:189-219 | the whole new row: supplied fields, the event, the instants of the history, the stale vector |
| Lifecycle.Incident.Move | app/api/routes.py:198-214 | the status change with its instants and its event |
| Lifecycle.AfterTells | app/api/routes.py:196-210 | after every update the columns are those its event history tells; the first acknowledgement is kept |
| Lifecycle.HistoryIsConsistent | app/api/routes.py:198-204 | over all histories: resolved exactly with a resolution instant, and never acknowledged after it |

## Left out

- Redaction: every string in the model is taken after redaction; its patterns are not modelled.
- Row details: identifiers are naturals drawn fresh, as UUIDs are; created and received timestamps of alerts, logs and events are not kept in the ingestion and export models.
- Ingestion beside other writers: manual incidents, log and note requests, and the jobs queued after the commit are not part of the ingestion runs; deletes are steps of the safety theorem only.
- Deadlock detection: a deadlock victim is an `Abort` step, which is possible at any time; which transaction the database picks, and when, is not modelled.
- What a client hears of a commit: in the ingestion and export models a commit that succeeded but was reported as an error is the same step as any other commit.
- Payload normalisation: a batch arrives as normalised alerts; a validation error in the middle of a batch is an `Abort` step, the limit of 1000 logs is modelled.
- SQLite in the export protocol: it ignores row locks, so the theorems are about PostgreSQL; the per-process export lock is not needed for them and is left out.
- The export, edit, generate and job handlers under interleaving are transition systems over values; aliasing of session objects is not modelled. The classes beside them are the handlers run without interference.
- Incident deletion in the export and job protocols, and concurrent updates of embeddings.
- `_bounded_context` after the walk: the flag key it adds, and the re-encoding of an output above 40000 characters, which may exceed that length again.
- The string form of non-string dict keys and of foreign values is given to the model, not computed.
- Line splitting and tokenising: the model starts from lines and from the matched words; lower-casing is taken to agree between SQL and Python.
- Floating point: scores and times are reals, scores are not rounded, and Retry-After is missing, not a number, or a finite number of seconds.
- The pgvector branch of the search, whose ranking runs in the database.
- Jira and Confluence request bodies, demo identifiers, notifications, archival, authentication, telemetry and the dashboard.
