# DeepReader fetch → classify → enrich → persist → notify, in Dafny

This project models the core of DeepReader's Python back end:

- the `Paper` record, an immutable value changed only by copy-with-overrides (`Papers`);
- the SQLite store behind `DatabaseManager`: the `papers` table keyed by arXiv id, the `authors` registry with an auto-increment id per unique name, and the `paper_authors` link table (`Storage`);
- `run_daily_cycle`, which looks up each fetched candidate, summarises new papers and backfills stored ones with an empty summary, saves every candidate, and sends one digest of the new ones (`Reconcile`);
- the in-memory job registry with `create_job`, `get_job` and `update_job` (`Jobs`).

Every operation is a pure function over immutable state. The store is a record of three tables: a map from id to row, a sequence of author names where the name at position `i` has id `i + 1`, and a set of `(paper id, author id)` links. The reconciliation loop is a fold over the fetched list. It takes three abstract collaborators:

- the fetched list, as an input;
- the summariser, as an oracle that gives its `n`-th answer as a text or a failure;
- the notifier, recorded as a trace of digests.

Summariser calls are also recorded, in a trace of `Call(arxivId, abstract)`. The clock and `uuid4` become parameters of `CreateJob`.

The store carries a `Schema`. `Original` is the `papers` table as declared, which has no `llm_summary` or `key_insights` column. `WithIntelligence` is the corrected store: the table has both columns, `save_paper` writes them and `get_paper` reads them back into the record. The reconciliation loop works unchanged over either. See Findings.

## Model

| member | source | states |
|---|---|---|
| `Papers.NewPaper` | src/deep_reader/models.py:9-21 | the eight mandatory fields take the given values; `pdf_url`, `llm_summary` and `key_insights` default to absent |
| `Papers.ModelCopy` | src/deep_reader/models.py:23 | a copy takes the new value for every field the update names and keeps the old value for every other field; the original is a separate, unchanged value |
| `Papers.CopiesCompose` | src/deep_reader/models.py:23 | two successive copies equal one copy whose update lets the later value win on each field |
| `Papers.CopyWithNoUpdateIsIdentity` | src/deep_reader/models.py:23 | a copy with an empty update is the same record |
| `Papers.CopyIsIdempotent` | src/deep_reader/models.py:23 | repeating a copy with the same update changes nothing further |
| `Papers.IntelligenceCopyKeepsCatalogFields` | src/deep_reader/core_loop.py:47-60 | an update that names only `llm_summary`/`key_insights` leaves every catalogue field as it was |
| `Storage.InitDb` | src/deep_reader/storage/db_manager.py:18-55 | a fresh database has three empty tables and satisfies the table invariants |
| `Storage.InsertAuthor` | src/deep_reader/storage/db_manager.py:84 | INSERT OR IGNORE on a UNIQUE name: the registry only grows by at most that name, existing names keep their position (first write wins), and names stay unique |
| `Storage.AuthorId` | src/deep_reader/storage/db_manager.py:86-88 | the id looked up for a registered name is in range and names that author, and no earlier author has that name |
| `Storage.SaveKeepsAuthorIds` | src/deep_reader/storage/db_manager.py:82-88 | a save never changes the id of an author already registered |
| `Storage.LinkAuthor` | src/deep_reader/storage/db_manager.py:82-92 | one author-loop step registers the name, links it to the paper, and adds no link for any other paper |
| `Storage.RowOf` | src/deep_reader/storage/db_manager.py:66-79 | the row written for `p` carries every catalogue column of `p`; the intelligence cells carry `p`'s values only when the table has those columns, and are absent under the declared table |
| `Storage.SavePaper` | src/deep_reader/storage/db_manager.py:57-94 | the row of `p`'s id is replaced and every other row is kept; the author registry and the link set only grow |
| `Storage.LinkedAuthors` | src/deep_reader/storage/db_manager.py:112-118 | the names the author query returns are registered names, at most one per author, with no repeats when names are unique |
| `Storage.LinkedAuthorsElems` | src/deep_reader/storage/db_manager.py:112-118 | the author query returns exactly the names linked to the paper |
| `Storage.GetPaper` | src/deep_reader/storage/db_manager.py:96-130 | absent exactly for an unknown id; otherwise the id is the requested one, the authors have no repeats, and under the declared table `llm_summary` and `key_insights` are both absent |
| `Storage.SaveLinksAuthors` | src/deep_reader/storage/db_manager.py:82-92 | after a save the table invariants still hold, the saved id's author set gains exactly `p.authors`, and no other id's author set changes |
| `Storage.SaveThenGet` | src/deep_reader/storage/db_manager.py:66-130 | right after `save_paper(p)`, `get_paper(p.arxiv_id)` is present with `p`'s id, title, abstract, dates, categories and pdf link; its authors are the earlier links plus `p.authors`; the intelligence fields come back only if the table has columns for them |
| `Storage.SaveLeavesOtherPapers` | src/deep_reader/storage/db_manager.py:66-92 | a save changes what `get_paper` returns for no other id |
| `Storage.FreshSaveReturnsSameAuthors` | tests/test_storage.py:26-38 | a paper saved under a new id is read back with the same author list up to order |
| `Storage.CountPapers` | src/deep_reader/storage/db_manager.py:132-136 | the count is the number of distinct stored ids, and is zero exactly when the table is empty |
| `Storage.SaveCount` | src/deep_reader/storage/db_manager.py:132-136 | `count_papers` grows by one exactly when the saved id was not stored |
| `Storage.UpsertReplaces` | src/deep_reader/storage/db_manager.py:66-79 | saving twice under one id leaves one record whose column values are those of the second save, with the authors of both saves |
| `Storage.SaveAllSpec` | src/deep_reader/storage/db_manager.py:57-94 | a run of saves stores exactly the earlier ids plus the saved ones, keeps the invariants, and links each id to the union of the author lists of all its saves |
| `Storage.CountIsDistinctIdsSaved` | src/deep_reader/storage/db_manager.py:132-136 | from fresh tables, `count_papers` is the number of distinct ids ever saved |
| `Storage.RetrievedAuthorsAreUnion` | src/deep_reader/storage/db_manager.py:82-118 | from fresh tables, the author set read back for an id is the union of its author lists over all saves, stale ones included |
| `Reconcile.NeedsSummaryIff` | src/deep_reader/core_loop.py:27-52 | a summary is asked for exactly when the id is not stored, or the table has no summary column, or the stored summary is absent or empty |
| `Reconcile.Step` | src/deep_reader/core_loop.py:26-61 | each candidate is saved exactly once, with its catalogue fields intact; it joins the new list exactly when its id is not stored at lookup time; the summariser is called exactly when the id is unknown or the stored summary is empty or absent |
| `Reconcile.StepRecord` | src/deep_reader/core_loop.py:29-60 | a new candidate is saved with the summariser's text, or unchanged if the summariser fails; an existing one gets the stored `llm_summary` and `key_insights`, unless a backfill succeeds |
| `Reconcile.Process` | src/deep_reader/core_loop.py:25-61 | the loop saves one record per candidate, in fetch order, each agreeing with its candidate on every catalogue field, and keeps the table layout |
| `Reconcile.ProcessSavesAll` | src/deep_reader/core_loop.py:25-61 | the store after the loop is the saves of the built records applied in fetch order |
| `Reconcile.RunDailyCycle` | src/deep_reader/core_loop.py:17-70 | an empty fetch writes nothing, calls nothing and notifies nobody; otherwise every candidate is saved once in order, and the notifier is called at most once, with the full new list, exactly when that list is non-empty |
| `Reconcile.ProcessStore` | src/deep_reader/core_loop.py:26-61 | after the loop the store holds exactly the ids stored before plus the fetched ones, and is well formed |
| `Reconcile.FirstSeenIffUnknown` | src/deep_reader/core_loop.py:27-29 | a candidate's id is absent at lookup time exactly when it was not stored before the cycle and no earlier candidate had it |
| `Reconcile.NewPapersAreFirstSightings` | src/deep_reader/core_loop.py:26-40 | the new list is exactly the saved form of the candidates whose id was absent at lookup time, in fetch order; a repeat later in the batch counts as existing |
| `Reconcile.NoFirstSightingsWhenAllKnown` | src/deep_reader/core_loop.py:29 | when every fetched id is already stored, no candidate is new |
| `Reconcile.OriginalSummarisesEveryCandidate` | src/deep_reader/core_loop.py:52-58 | with the declared table every re-seen paper takes the backfill branch, so the summariser is called once per candidate, in order |
| `Reconcile.RerunResummarises` | src/deep_reader/core_loop.py:47-61 | with the declared table, re-running a batch finds nothing new and sends no digest, but calls the summariser again for every candidate |
| `Reconcile.StepPreservesSummary` | src/deep_reader/core_loop.py:47-61 | with the intelligence columns, one step keeps a stored truthy summary and its insights, and makes no summariser call for that id |
| `Reconcile.SummaryPreserved` | src/deep_reader/core_loop.py:47-61 | with the intelligence columns, a stored non-empty summary and its insights survive any batch unchanged in the store, and the summariser is never called for that id |
| `Reconcile.SavedSummaryPreserved` | src/deep_reader/core_loop.py:47-61 | with the intelligence columns, every record the loop saves for a paper with a stored non-empty summary carries that summary and its insights, whatever the catalogue now reports |
| `Reconcile.StepKeepsSummarised` | src/deep_reader/core_loop.py:29-61 | with the intelligence columns, one step keeps every summarised id summarised, makes no call for one, and summarises its own candidate when the summariser answers with text |
| `Reconcile.RunSummarisesAll` | src/deep_reader/core_loop.py:29-61 | with the intelligence columns and a summariser that always answers with non-empty text, one run leaves every fetched id with a truthy stored summary |
| `Reconcile.SummarisedRunMakesNoCalls` | src/deep_reader/core_loop.py:52-61 | with the intelligence columns, a batch whose ids all have stored summaries makes no summariser call |
| `Reconcile.RerunMakesNoCalls` | src/deep_reader/core_loop.py:47-61 | with the intelligence columns, re-running a fully summarised batch finds nothing new, sends no digest and makes no summariser call |
| `Jobs.ApplyUpdate` | src/deep_reader/server/job_store.py:41-46 | the overlay replaces exactly the named fields and keeps all others; `job_id` cannot be named, so the job keeps its id |
| `Jobs.CreateJob` | src/deep_reader/server/job_store.py:24-33 | the new job is `pending` with processed = 0, new = 0 and no total, error or finish time; it is stored under its own id; other jobs are unchanged; the registry grows by one for a fresh id |
| `Jobs.GetJob` | src/deep_reader/server/job_store.py:36-38 | the stored job for a known id, absent for an unknown one |
| `Jobs.UpdateJob` | src/deep_reader/server/job_store.py:41-48 | an unknown id gives absent and no change; a known id gets the overlaid job, stored and returned under the same key, and the job keeps its own id; other jobs and the key set are unchanged |
| `Jobs.CreateThenGet` | src/deep_reader/server/job_store.py:24-38 | a created job is found under its id |
| `Jobs.UpdatesCompose` | src/deep_reader/server/job_store.py:41-48 | two updates of one job equal one update where the later values win |
| `Jobs.EmptyUpdateChangesNothing` | src/deep_reader/server/job_store.py:46-47 | an update naming no field leaves the registry as it was |
| `Jobs.StatusIsUnconstrained` | src/deep_reader/server/job_store.py:11 | no lifecycle is enforced: any status, and any processed count, can be set on any job |
| `Jobs.KeysMatchIdsPreserved` | src/deep_reader/server/job_store.py:25-47 | creating and updating both keep every job stored under its own id |
| `Jobs.RunKeepsKeysMatchIds` | src/deep_reader/server/job_store.py:20-48 | after any sequence of calls every job is still stored under its own id |
| `Jobs.KeysOnlyGrow` | src/deep_reader/server/job_store.py:20-48 | nothing removes a job: after any sequence of calls the registry holds exactly the earlier jobs plus the created ones |

## Left out

- Fetching (`collector.get_recent_papers`, src/deep_reader/core_loop.py:17): the fetched list is an input. That method is not defined in src/deep_reader/collector/arxiv_client.py, and the arXiv query building is not part of this model.
- The language-model client: an oracle that answers each call with a text or a failure. Provider selection, prompts and SDK calls are not modelled.
- The e-mail notifier: its argument lists are recorded in `digests`. SMTP and HTML rendering are not modelled.
- `Reconcile.RunDailyCycle`: console output, and the construction of the four collaborators, are not modelled.
- `Reconcile.RunDailyCycle`: storage failures are not modelled. Any SQLite error ends the cycle in the source.
- Job progress reporting: `run_daily_cycle` takes no job id and never calls `create_job` or `update_job`, so the registry is modelled on its own.
- `Jobs.UpdateJob`: only the fields of `JobStatus` other than `job_id` can be named. A `job_id` keyword makes Python raise `TypeError` before the call runs, and a name that is no field of `JobStatus` is not modelled.
- The threading lock in `job_store.py` and SQLite concurrency: calls are sequential state transitions.
- Timestamps are opaque integers. The JSON encoding of `categories` is taken to round-trip exactly.
- `Storage.GetPaper`: the SQLite TIMESTAMP round trip is not modelled, and `GetPaper` always succeeds. With declared-type parsing on (src/deep_reader/storage/db_manager.py:16), a time-zone-aware datetime is stored as `isoformat(" ")`. Reading back one with whole seconds, such as `2024-01-15 18:59:59+00:00`, makes the default converter raise `ValueError` at the fetch (db_manager.py:101-102). Values with a fractional second come back as naive datetimes and lose their time zone. arXiv times are whole-second UTC, so with real catalogue data the lookup of an existing paper (src/deep_reader/core_loop.py:27) would raise rather than return the row.
- `Storage.GetPaper`: SQL gives no order for the author query. The model returns names in ascending author id, and every stated property holds for any order: the set of names, and no repeats.
- `Storage.InsertAuthor`: AUTOINCREMENT ids are modelled as consecutive from 1. Only uniqueness and stability of ids are relied on.
- `Jobs.CreateJob`: `uuid4().hex` and `datetime.now` are parameters. A colliding id overwrites, as in the source.
- The HTTP layer (src/deep_reader/server/app.py), the CLI and scheduler (src/deep_reader/main.py), and the web front end are not part of this model. So are the listing, search, statistics and category queries, which have no code in `db_manager.py`.

## Findings

| source | as written | input that shows it | evidently intended | confidence | as-written member | corrected member |
|---|---|---|---|---|---|---|
| src/deep_reader/storage/db_manager.py:24-35 | the `papers` table has no `llm_summary` or `key_insights` column, the INSERT column list (db_manager.py:67-68) omits both, and the record rebuilt by `get_paper` (db_manager.py:120-130) never sets them; the loop's "preserve existing intelligence" branch (src/deep_reader/core_loop.py:47-52) never sees a stored summary | run the cycle twice on the same non-empty batch whose timestamps carry a fractional second (a whole-second time-zone-aware timestamp makes the lookup raise instead; see `Storage.GetPaper` under Left out): the second run finds no new paper, yet calls the summariser again for every candidate, and the generated summaries are never stored | the table has both columns, `save_paper` writes them and `get_paper` reads them back, so a stored non-empty summary is preserved and a re-run makes no summariser call | medium, not executed | `Reconcile.RerunResummarises` | `Reconcile.RerunMakesNoCalls` |

Both halves are stated over the same `SavePaper`, `GetPaper` and `RunDailyCycle`. The store's `Schema` selects the declared table (`Original`) or the corrected one (`WithIntelligence`). `Reconcile.SummaryPreserved` and `Reconcile.SavedSummaryPreserved` prove the intended preservation property for the corrected table.
