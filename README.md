# Ingestion benchmark and project-management helpers, in Dafny

This project models two TypeScript services and proves properties of the models.

**nest-ingest** is a benchmark that writes rows into PostgreSQL, MySQL, MariaDB
or SQL Server. `IngestController.ingest` validates the query string and fills in
defaults. `IngestService.performIngestion` then does the following:

- it splits `rows` into per-worker partitions of `ceil(rows / concurrency)` rows;
- each partition is written either as one-row inserts or as bulk writes of
  `batchSize` rows each, shaped for the chosen engine;
- around the writes, it keeps Prometheus-style metrics: an in-flight gauge, a
  rows counter, a latency histogram and a failures counter.

**project-management-api** contributes small helpers:

- the paginator (`calculateOffset`, `mapper`);
- the OR-filter builder `retrieveOrOptions`;
- the existence and uniqueness guards of `GenericRepository`, over an abstract table;
- the role guard `UserRoleGuard.canActivate`;
- the database-error classifier `ErrorHandlerService`.

The Dafny modules follow the source files:

| module | file | models |
|---|---|---|
| `Wrappers` | wrappers.dfy | `Option` and `Result` |
| `Arith` | arith.dfy | `Math.ceil(n / d)`, and cutting `[0, total)` into slices of a fixed width; shared by the partitioner, the chunker and the paginator |
| `JsText` | js_text.dfy | `parseInt(s, 10)`, `String(n)`, `repeat`, `Array(n).fill`, `join` |
| `HttpErrors` | http_errors.dfy | the NestJS exceptions and the `CUSTOM_MESSAGES` entries used |
| `IngestService` | ingest_service.dfy | the service, as a class with a `Database` (an abstract write log) and four metric maps |
| `IngestController` | ingest_controller.dfy | request validation and the hand-off to the service |
| `Paginator` | paginator.dfy | `PaginatorUtil` |
| `Filter` | filter.dfy | `FilterUtil.retrieveOrOptions`, with its loop |
| `GenericRepository` | generic_repository.dfy | the repository, as a class over a table of records plus the events it emitted |
| `UserRoleGuard` | user_role_guard.dfy | the guard's decision |
| `ErrorHandler` | error_handler.dfy | both handlers, as functions from their arguments to the exception thrown |

The service's write path is specified by plan functions. Each loop method is
proved against these plan functions, and the plan functions are then proved to
meet what the service promises:

- `SingleIngestPlan`, `BatchIngestPlan` and `IngestPlan` give the exact
  sequence of writes that a request sends.
- `Run` sends such a sequence to a database that rejects given attempt
  numbers, stopping at the first rejection.
- Each loop method (`PerformSingleRowInserts`, `PerformBatchInserts`,
  `InsertSingleRows`, `InsertBatchRows`) ends in the database state and the
  error that `Run` gives for its plan.
- The lemmas then show what the plans contain: the partitions tile
  `[0, rows)`, there is one insert per row, the chunks have the stated sizes,
  each write has as many placeholders as parameters, and the rows add up to
  `rows`.

Some behaviours of the code are not what one might expect, and the model keeps them:

- The number of partitions is `ceil(rows / ceil(rows / concurrency))`, not
  `min(concurrency, rows)`. Ten rows over six workers give five partitions of
  two rows.
- The latency label `batch` is `String(batchSize)` on the single-row path too.
- With `concurrency < 1`, or an unknown engine name reaching the service,
  nothing is written and success is still reported (`IngestPlan`).
- In `mapper`, a `page` of 0, absent or NaN gives `currentPage` 0.
- An empty role list still counts as role metadata, so it admits nobody.
- In `handleDatabaseErrors`, an empty description falls back to the whole
  `serverError` object, not to its description text.
- With uniqueness checking on, data without the unique column is refused as a
  duplicate as soon as the table is non-empty. An undefined value in a
  `where` puts no condition on its column (`MissingUniqueValueMatchesAll`).

## Model

| member | source | states |
|---|---|---|
| Arith.CeilDiv | nest-ingest/src/ingest.service.ts:153 | `Math.ceil(n / d)` for `d > 0` is the least `q` with `n <= q * d`: `(q - 1) * d < n <= q * d` |
| Arith.CeilDivUnique | nest-ingest/src/ingest.service.ts:153 | those bounds have exactly one solution, so they characterise the ceiling |
| Arith.SliceNonEmpty | nest-ingest/src/ingest.service.ts:156-160 | slice `j` of width `w` is non-empty exactly when `j < ceil(total / w)`, and holds at most `w` rows |
| Arith.SliceAdjacent | nest-ingest/src/ingest.service.ts:156-157 | while the next slice is in range, slice `j` ends where slice `j + 1` starts and is full |
| Arith.SliceLast | nest-ingest/src/ingest.service.ts:208-210 | the last slice ends at `total` and holds the non-zero remainder `total - (m - 1) * w` |
| Arith.SlicesTile | nest-ingest/src/ingest.service.ts:155-163 | the `ceil(total / w)` slices tile `[0, total)`: non-empty, consecutive, from 0 to `total` |
| Arith.TilesSum | nest-ingest/src/ingest.service.ts:155-163 | the sizes of a tiling of `[lo, hi)` add up to `hi - lo` |
| Arith.TilesOrdered | nest-ingest/src/ingest.service.ts:155-163 | an earlier piece of a tiling ends no later than a later one starts, so the pieces are disjoint |
| Arith.TilesLocate | nest-ingest/src/ingest.service.ts:155-163 | every point of `[lo, hi)` lies in exactly one piece of a tiling |
| JsText.TrimStart | nest-ingest/src/ingest.controller.ts:30 | what `parseInt` strips is a prefix of JavaScript white space, and what remains starts with something else |
| JsText.DigitPrefix | nest-ingest/src/ingest.controller.ts:30 | the longest prefix of decimal digits: all digits, and the next character is not one |
| JsText.ParseInt | nest-ingest/src/ingest.controller.ts:30-34 | `parseInt(s, 10)` is NaN exactly when no digit follows the white space and the optional sign |
| JsText.NatToString | nest-ingest/src/ingest.service.ts:118 | `String(n)` of a natural number is a non-empty string of digits with no leading zero |
| JsText.NatToStringValue | nest-ingest/src/ingest.service.ts:118 | the digits of `String(n)` have the value `n` |
| JsText.ParseSignedDigits | nest-ingest/src/ingest.controller.ts:30-34 | an optional `-` followed by digits parses to the signed value of the digits |
| JsText.ParseIntToString | nest-ingest/src/ingest.service.ts:118 | `parseInt(String(n), 10) == n` for every integer `n` of the model (unbounded; see Left out for JavaScript's 2^53 and `1e21` limits) |
| JsText.IntToStringInjective | nest-ingest/src/ingest.service.ts:118 | different `batchSize` values give different latency labels, for the model's unbounded integers |
| JsText.Fill | nest-ingest/src/ingest.service.ts:214 | `Array(n).fill(v)` has `n` elements, all `v` |
| JsText.Repeat | nest-ingest/src/ingest.service.ts:115 | `'x'.repeat(n)` has length `n`, so the payload is `payloadBytes` long |
| JsText.RepeatChar | nest-ingest/src/ingest.service.ts:115 | repeating a one-character string `n` times gives `n` copies of that character |
| JsText.JoinFillCount | nest-ingest/src/ingest.service.ts:221 | `n` copies of `(?)` joined by `,` have `4n - 1` characters and `n` question marks |
| IngestService.EngineOf | nest-ingest/src/ingest.service.ts:187-200 | the switch picks an engine exactly for `postgres`, `mysql`, `mariadb` and `mssql` |
| IngestService.RunAppend | nest-ingest/src/ingest.service.ts:165 | sending `a + b` sends `a`, and then `b` only if `a` raised no error |
| IngestService.Run | nest-ingest/src/ingest.service.ts:155-165 | the writes of a plan go out one at a time, each logged when its attempt is accepted; the first rejected one ends the run with its error and nothing after it is sent. It carries no `ensures` of its own: `RunAppend`, `RunPrefix` and `FailedPrefixDecides` state these properties |
| IngestService.RunPrefix | nest-ingest/src/ingest.service.ts:165 | a run logs a prefix of its plan; it fails exactly when a write is rejected, and it stops at that write |
| IngestService.FailedPrefixDecides | nest-ingest/src/ingest.service.ts:165 | once a prefix of the plan fails, the rest of the plan changes nothing |
| IngestService.Database.Submit | nest-ingest/src/ingest.service.ts:189 | one statement sent to a pool: logged if its attempt is accepted, an error otherwise |
| IngestService.SingleRowWrites | nest-ingest/src/ingest.service.ts:185-202 | one partition on the single-row path: for an engine `db` names, `max(rows, 0)` writes, each a one-row insert to that engine carrying just the payload; for any other `db` the `switch` matches nothing and no write is sent |
| IngestService.ChunkWrite | nest-ingest/src/ingest.service.ts:212-235 | the bulk write each engine issues for a chunk: an `unnest` array for PostgreSQL, a `(?)` list with as many parameters for MySQL and MariaDB, a bulk `Table` for SQL Server. It carries no `ensures` of its own: `ChunkWriteRows` and `PlaceholdersMatchParams` state what each write holds |
| IngestService.BuildChunk | nest-ingest/src/ingest.service.ts:212-235 | the chunk write built with the source's own steps (`Array(n).fill`, the `(?)` list joined by commas, the `table.rows.add` loop) is exactly `ChunkWrite` |
| IngestService.ChunkWrites | nest-ingest/src/ingest.service.ts:207-237 | for an engine `db` names, the first `k` iterations of the chunk loop send `k` writes; for any other `db` they send none |
| IngestService.Chunk | nest-ingest/src/ingest.service.ts:207-236 | iteration `j` of the chunk loop sends the bulk write of slice `j` of width `batchSize`, and nothing for an unknown `db`. It carries no `ensures` of its own: `ChunkWritesAt` and `ChunkWritesStep` state it |
| IngestService.BatchRowWrites | nest-ingest/src/ingest.service.ts:204-238 | one partition on the batch path sends nothing for an unknown engine, or for a negative `batchSize`, whose `Math.ceil` leaves the chunk loop no iteration |
| IngestService.ChunkCount | nest-ingest/src/ingest.service.ts:205 | a partition gets `ceil(rows / batchSize)` chunks, and none when `batchSize` is negative |
| IngestService.Dispatched | nest-ingest/src/ingest.service.ts:155-162 | the first `n` workers dispatch at most `n` partitions |
| IngestService.Partitions | nest-ingest/src/ingest.service.ts:153-162 | no partition when `concurrency < 1`, as the loop never runs, and never more than `concurrency` |
| IngestService.PartitionCount | nest-ingest/src/ingest.service.ts:153-162 | `ceil(rows / ceil(rows / concurrency))` partitions are at most `concurrency`, and there are none exactly when `rows == 0` |
| IngestService.DispatchedSlices | nest-ingest/src/ingest.service.ts:155-162 | the first `n` workers dispatch exactly the first `min(n, ceil(rows / rpt))` slices |
| IngestService.PartitionsTile | nest-ingest/src/ingest.service.ts:151-183 | for `rows >= 0` and `concurrency >= 1`: partition `i` is `[i*rpt, min(i*rpt + rpt, rows))`; there are `ceil(rows / rpt)` partitions, at most `concurrency`, and none exactly when `rows == 0`; they tile `[0, rows)` and their sizes sum to `rows` |
| IngestService.SomeRowsPartitions | nest-ingest/src/ingest.service.ts:153-162 | with rows, the partitions are the `ceil(rows / rpt)` slices of width `rpt`, at most `concurrency` of them |
| IngestService.NoRowsNoPartitions | nest-ingest/src/ingest.service.ts:153-162 | with no rows, the width is 0 and no worker dispatches anything |
| IngestService.TenRowsSixWorkers | nest-ingest/src/ingest.service.ts:153-162 | 10 rows over 6 workers dispatch 5 partitions of 2 rows, not 6 |
| IngestService.TenRowsTwoWorkers | nest-ingest/src/ingest.service.ts:153-162 | 10 rows over 2 workers dispatch `[0, 5)` and `[5, 10)` |
| IngestService.PartitionsOfWidth | nest-ingest/src/ingest.service.ts:153-162 | when `width = ceil(rows / concurrency)` and `count = ceil(rows / width)`, the partitions are the first `count` slices of that width |
| IngestService.DispatchedNonEmpty | nest-ingest/src/ingest.service.ts:160 | only partitions with `taskRows > 0` are dispatched |
| IngestService.DispatchedGrows | nest-ingest/src/ingest.service.ts:155-162 | more workers extend the list of dispatched partitions and never reorder it |
| IngestService.SinglePlanAppend | nest-ingest/src/ingest.service.ts:155-165 | the single-row plan of two partition lists is the first plan followed by the second |
| IngestService.BatchPlanAppend | nest-ingest/src/ingest.service.ts:172-182 | the batch plan of two partition lists is the first plan followed by the second |
| IngestService.SinglePlanIsOneInsertPerRow | nest-ingest/src/ingest.service.ts:151-201 | the single-row path sends exactly `rows` one-row inserts of the payload to the chosen engine, and nothing for an unknown one |
| IngestService.SinglePlanFill | nest-ingest/src/ingest.service.ts:185-201 | the single-row plan of non-empty partitions is one insert per row of all of them |
| IngestService.ChunkWriteRows | nest-ingest/src/ingest.service.ts:213-235 | every engine's bulk write for `n` rows targets that engine and carries `n` copies of the payload |
| IngestService.PlaceholdersMatchParams | nest-ingest/src/ingest.service.ts:218-224 | a MySQL/MariaDB bulk statement for `n` rows has `4n - 1` characters after its prefix, `n` placeholders and `n` parameters |
| IngestService.ChunkWritesAt | nest-ingest/src/ingest.service.ts:207-237 | chunk write `i` is the engine's bulk write for the `i`-th slice of width `batchSize` |
| IngestService.ChunkWritesTotal | nest-ingest/src/ingest.service.ts:207-237 | the first `k` chunks insert as many rows as the first `k` slices hold |
| IngestService.ChunksOfPartition | nest-ingest/src/ingest.service.ts:204-237 | a partition of `rows > 0` rows gives `ceil(rows / batchSize)` chunks: all but the last hold `batchSize` rows, the last holds the non-zero remainder, and the sizes sum to `rows`; each is a write of the payload to the chosen engine |
| IngestService.TwoHundredFiftyRowsInBatchesOfHundred | nest-ingest/src/ingest.service.ts:204-237 | 250 rows in batches of 100 give chunks of 100, 100 and 50 rows |
| IngestService.ChunkedAppend | nest-ingest/src/ingest.service.ts:172-182 | two lists of well-formed chunk writes make a list of well-formed chunk writes |
| IngestService.BatchPlanRows | nest-ingest/src/ingest.service.ts:168-237 | the batch plan of non-empty partitions inserts the sum of their sizes, in chunks of 1 to `batchSize` rows of the payload |
| IngestService.SingleWorkersPlan | nest-ingest/src/ingest.service.ts:155-163 | what the first `n` single-path workers send is the single-row plan of the partitions they dispatch |
| IngestService.BatchWorkersPlan | nest-ingest/src/ingest.service.ts:172-180 | what the first `n` batch-path workers send is the batch plan of the partitions they dispatch |
| IngestService.SingleWorkersGrow | nest-ingest/src/ingest.service.ts:155-163 | the writes of fewer single-path workers are a prefix of the writes of more |
| IngestService.BatchWorkersGrow | nest-ingest/src/ingest.service.ts:172-180 | the writes of fewer batch-path workers are a prefix of the writes of more |
| IngestService.SingleWorkers | nest-ingest/src/ingest.service.ts:155-163 | for an unknown engine no single-path worker sends anything |
| IngestService.BatchWorkers | nest-ingest/src/ingest.service.ts:172-180 | for an unknown engine or a negative `batchSize` no batch-path worker sends anything |
| IngestService.SingleIngestPlan | nest-ingest/src/ingest.service.ts:151-166 | the single-row path sends nothing for an unknown engine or for `concurrency < 1` |
| IngestService.BatchIngestPlan | nest-ingest/src/ingest.service.ts:168-183 | the batch path sends nothing for an unknown engine, a negative `batchSize` or `concurrency < 1` |
| IngestService.BatchIngestPlanNoRows | nest-ingest/src/ingest.service.ts:168-183 | with `rows <= 0` the batch path dispatches no partition and sends nothing, whatever `batchSize` is |
| IngestService.SingleIngestPlanPartitions | nest-ingest/src/ingest.service.ts:151-166 | the single path sends the one-row inserts of each dispatched partition, partition after partition |
| IngestService.BatchIngestPlanPartitions | nest-ingest/src/ingest.service.ts:168-183 | the batch path sends the bulk writes of each dispatched partition, partition after partition |
| IngestService.SingleWorkersStep | nest-ingest/src/ingest.service.ts:155-162 | one more single-path worker sends its slice's inserts when the slice has rows, and nothing otherwise |
| IngestService.BatchWorkersStep | nest-ingest/src/ingest.service.ts:172-179 | one more batch-path worker sends its slice's bulk writes when the slice has rows, and nothing otherwise |
| IngestService.SingleWorkersFailure | nest-ingest/src/ingest.service.ts:165 | once a worker's write fails, the request's outcome is that failure |
| IngestService.BatchWorkersFailure | nest-ingest/src/ingest.service.ts:182 | once a worker's bulk write fails, the request's outcome is that failure |
| IngestService.BatchTaskOutcome | nest-ingest/src/ingest.service.ts:172-182 | after worker `i`'s bulk writes, success continues the run of the first `i + 1` workers, and a failure is the outcome of the whole request |
| IngestService.TotalRowsOfInserts | nest-ingest/src/ingest.service.ts:186-201 | `n` one-row inserts insert `n` rows |
| IngestService.SingleIngestPlanRows | nest-ingest/src/ingest.service.ts:151-201 | for a known engine, the single path is exactly `rows` inserts of the payload, `rows` rows in total |
| IngestService.BatchIngestPlanRows | nest-ingest/src/ingest.service.ts:168-237 | for a known engine and `batchSize > 0`, the batch path inserts exactly `rows` rows, in chunks of at most `batchSize` |
| IngestService.IngestPlanRows | nest-ingest/src/ingest.service.ts:125-129 | `method === 'single'` selects one insert per row and any other method selects chunked bulk writes; either way `rows` rows are written |
| IngestService.IngestPlan | nest-ingest/src/ingest.service.ts:125-129 | `method === 'single'` picks the single-row path, anything else the batch path; nothing at all is written for an unknown engine, for `concurrency < 1`, or for a negative `batchSize` on the batch path |
| IngestService.Admissible | nest-ingest/src/ingest.service.ts:113-149 | the requests the model covers: integer numbers, `rows >= 0`, and `batchSize != 0` when a batch partition is dispatched. It is a precondition and carries no `ensures` |
| IngestService.BatchWorkersNone | nest-ingest/src/ingest.service.ts:172-180 | with a partition width below one (as `ceil(rows / concurrency)` is for `rows <= 0`), no slice holds a row and no batch worker sends anything |
| IngestService.AddValue | nest-ingest/src/ingest.service.ts:133 | `inc(labels, delta)` moves only the series of those labels, by `delta` |
| IngestService.AddUndo | nest-ingest/src/ingest.service.ts:121-147 | `inc` then `dec` by the same amount restores the value of every gauge series |
| IngestService.ObserveAppends | nest-ingest/src/ingest.service.ts:132 | `observe` appends the sample to the series of its labels and to no other |
| IngestService.IngestService.constructor | nest-ingest/src/ingest.service.ts:28-31 | every metric starts empty |
| IngestService.IngestService.PerformIngestion | nest-ingest/src/ingest.service.ts:113-149 | a negative `payloadBytes` throws before the `try` and changes nothing. Otherwise the database ends as `Run` of the plan leaves it, and the in-flight gauge ends at its old value. On success: rows counter `+rows`, one latency sample labelled `String(batchSize)`, and the result object echoing the request, with `batchSize` 1 unless the method is `batch`. On a failed write: only the failures counter moves, by 1, and the write's own error is rethrown |
| IngestService.IngestService.PerformSingleRowInserts | nest-ingest/src/ingest.service.ts:151-166 | the partition loop ends in the database state and error that the single-row plan of all dispatched partitions gives |
| IngestService.IngestService.PerformBatchInserts | nest-ingest/src/ingest.service.ts:168-183 | the partition loop ends in the database state and error that the batch plan of all dispatched partitions gives |
| IngestService.IngestService.InsertSingleRows | nest-ingest/src/ingest.service.ts:185-202 | the row loop sends one insert per row, stopping at the first failure |
| IngestService.IngestService.InsertBatchRows | nest-ingest/src/ingest.service.ts:204-238 | the chunk loop sends one bulk write per chunk, stopping at the first failure |
| IngestService.ChunkWritesStep | nest-ingest/src/ingest.service.ts:207-211 | iteration `k` of the chunk loop appends the write for the non-empty slice `k` |
| IngestService.SingleRowFailureStops | nest-ingest/src/ingest.service.ts:186-201 | a failed insert decides the outcome of the whole row loop |
| IngestService.ChunkWritesGrow | nest-ingest/src/ingest.service.ts:207-237 | the writes of fewer chunk iterations are a prefix of the writes of more |
| IngestService.ChunkFailureStops | nest-ingest/src/ingest.service.ts:207-237 | a failed chunk write decides the outcome of the whole chunk loop |
| IngestController.Validate | nest-ingest/src/ingest.controller.ts:9-35 | success exactly when `db` is one of the four engines and `method` (default `single`) is `single` or `batch`. A missing or invalid `db` is reported first, then the method. The numbers are `parseInt` of the value or of its default, and `db` and `method` pass unchanged |
| IngestController.DbMessage | nest-ingest/src/ingest.controller.ts:17-22 | the `db` error lists `postgres, mysql, mariadb, mssql` |
| IngestController.MethodMessage | nest-ingest/src/ingest.controller.ts:18-26 | the `method` error lists `single, batch` |
| IngestController.ValidDbsHaveEngines | nest-ingest/src/ingest.controller.ts:17-22 | a `db` passes validation exactly when the service has an engine for it |
| IngestController.Defaults | nest-ingest/src/ingest.controller.ts:11-15 | a request with only a `db` asks for 100 rows of 256 bytes, concurrency 1, method `single`, batch size 100 |
| IngestController.DefaultNumbers | nest-ingest/src/ingest.controller.ts:11-15 | the default strings parse to 100, 256 and 1 |
| IngestController.QueryRoundTrip | nest-ingest/src/ingest.controller.ts:28-35 | any integer parameters, zero and negative included, written in decimal, validate back to themselves: nothing is range-checked (for the model's unbounded integers; in JavaScript only below 2^53 in magnitude) |
| IngestController.Ingest | nest-ingest/src/ingest.controller.ts:9-39 | a request that fails validation is refused with BadRequest before the service runs, and nothing changes. Otherwise the service's result or error is returned unchanged. A negative `payloadBytes` throws before the `try` and changes neither database nor metrics. Any other request leaves the in-flight gauge at its old value; on success it adds `rows` to the rows counter and one latency sample labelled `String(batchSize)`; on a failure it adds 1 to the failures counter only |
| Paginator.CalculateOffset | project-management-api/src/contexts/shared/application/utils/paginator.utils.ts:4-9 | `skip = page * limit` and `take = limit` |
| Paginator.Window | project-management-api/src/contexts/shared/application/utils/paginator.utils.ts:4-9 | the rows an offset selects start at `skip` and end at `skip + take` or at `count`, whichever comes first |
| Paginator.TotalPages | project-management-api/src/contexts/shared/application/utils/paginator.utils.ts:19 | `Math.ceil(count / limit)` by its bounds, for a positive or a negative `limit` |
| Paginator.CurrentPage | project-management-api/src/contexts/shared/application/utils/paginator.utils.ts:18 | the page when it is a number, 0 when it is absent or NaN |
| Paginator.Mapper | project-management-api/src/contexts/shared/application/utils/paginator.utils.ts:11-25 | `total` and `items` pass through; `currentPage` as above; for `limit > 0`, `(totalPages - 1) * limit < count <= totalPages * limit`, and `totalPages == 0` when `count == 0` |
| Paginator.PagesTile | project-management-api/src/contexts/shared/application/utils/paginator.utils.ts:4-19 | for `limit > 0`, the windows of pages `0 .. totalPages - 1` tile `[0, count)`, and every later page is empty |
| Paginator.PageOfRow | project-management-api/src/contexts/shared/application/utils/paginator.utils.ts:4-19 | each row is on exactly one page, and that page is below `totalPages` |
| Paginator.PagesAdjacent | project-management-api/src/contexts/shared/application/utils/paginator.utils.ts:4-9 | page `p + 1` starts where page `p` ends |
| Filter.LikePattern | project-management-api/src/contexts/shared/application/utils/filter.utils.ts:17 | the pattern is the search text between two `%` |
| Filter.OrConditions | project-management-api/src/contexts/shared/application/utils/filter.utils.ts:15-19 | one condition per field: condition `i` puts the search pattern on field `i` |
| Filter.RetrieveOrOptions | project-management-api/src/contexts/shared/application/utils/filter.utils.ts:8-30 | the loop builds one condition per field, in order, each the pattern of the search (default `''`) on that field; `relations` passes through with default `[]`; the order is `createdAt DESC` |
| Filter.OrConditionsFields | project-management-api/src/contexts/shared/application/utils/filter.utils.ts:15-19 | the conditions name exactly the given fields, in order; each carries the pattern; no fields gives no conditions |
| GenericRepository.FindOne | project-management-api/src/contexts/shared/application/repositories/generic.repository.ts:61-63 | a record is found exactly when one matches, and what is found is a matching record of the table |
| GenericRepository.Options | project-management-api/src/contexts/shared/application/repositories/generic.repository.ts:37-41 | the `where` names the unique column alone, with `data`'s value for it, or undefined |
| GenericRepository.IdOptions | project-management-api/src/contexts/shared/application/repositories/generic.repository.ts:43-47 | the `where` matches exactly the records with that `id` |
| GenericRepository.RecordExistence | project-management-api/src/contexts/shared/application/repositories/generic.repository.ts:120-128 | `existence` holds exactly when a record is returned, which is exactly when some record matches |
| GenericRepository.UpdateWhere | project-management-api/src/contexts/shared/application/repositories/generic.repository.ts:90 | each record with that `id` gets `data`'s columns over its own, and the others are untouched |
| GenericRepository.RemoveWhere | project-management-api/src/contexts/shared/application/repositories/generic.repository.ts:102 | the records left are exactly those with another `id` |
| GenericRepository.Filtered | project-management-api/src/contexts/shared/application/repositories/generic.repository.ts:54-57 | the selection holds exactly the records the options select |
| GenericRepository.Page | project-management-api/src/contexts/shared/application/repositories/generic.repository.ts:54-57 | a page is the part of the selection that falls in the window `calculateOffset` gives |
| GenericRepository.RecordOnOnePage | project-management-api/src/contexts/shared/application/repositories/generic.repository.ts:49-59 | every selected record is on one page below `totalPages`, at its offset within the page, and on no other page |
| GenericRepository.CountIdUnique | project-management-api/src/contexts/shared/application/repositories/generic.repository.ts:90 | with unique ids, an update by `id` touches exactly one record when the record exists |
| GenericRepository.Repository.RecordIsUnique | project-management-api/src/contexts/shared/application/repositories/generic.repository.ts:105-118 | a duplicate error, with its message, exactly when the check is on and a record matches `options(data)` |
| GenericRepository.Repository.CreateEntity | project-management-api/src/contexts/shared/application/repositories/generic.repository.ts:65-70 | a duplicate is refused with BadRequest and the table is unchanged; otherwise exactly one record, with the new `id`, is appended and returned |
| GenericRepository.Repository.UpdateEntity | project-management-api/src/contexts/shared/application/repositories/generic.repository.ts:72-92 | a missing `id` is NotFound and nothing changes. Otherwise an event named by a non-empty `beforeUpdatedEvent` is emitted with the record as it was before the update; then the record gets `data`'s columns, and one row is affected |
| GenericRepository.Repository.DeleteEntity | project-management-api/src/contexts/shared/application/repositories/generic.repository.ts:94-103 | a missing `id` is NotFound and nothing changes; otherwise that record is removed and returned |
| GenericRepository.Repository.GetEntities | project-management-api/src/contexts/shared/application/repositories/generic.repository.ts:49-59 | the items are the window `[page*limit, page*limit + limit)` of the selection; `total` is the size of the whole selection; `totalPages` has the ceiling bounds and `currentPage` is `page` |
| GenericRepository.UpdateKeepsIds | project-management-api/src/contexts/shared/application/repositories/generic.repository.ts:90 | an update keeps the ids unique |
| GenericRepository.RemoveKeepsIds | project-management-api/src/contexts/shared/application/repositories/generic.repository.ts:102 | a removal keeps the ids unique |
| GenericRepository.CreateThenFind | project-management-api/src/contexts/shared/application/repositories/generic.repository.ts:65-70 | a created record is what looking up its `id` finds next |
| GenericRepository.CreateKeepsUnique | project-management-api/src/contexts/shared/application/repositories/generic.repository.ts:105-118 | with the check on, creation keeps the values of the unique column unique |
| GenericRepository.MissingUniqueValueMatchesAll | project-management-api/src/contexts/shared/application/repositories/generic.repository.ts:37-41 | data without the unique column matches every record, so it is a duplicate in any non-empty table |
| GenericRepository.UpdateThenFind | project-management-api/src/contexts/shared/application/repositories/generic.repository.ts:72-92 | after an update, looking up the `id` finds the old columns overwritten by `data` |
| GenericRepository.RemoveOne | project-management-api/src/contexts/shared/application/repositories/generic.repository.ts:94-103 | with unique ids, a delete removes exactly one record, and its `id` is found no more |
| UserRoleGuard.Includes | project-management-api/src/contexts/auth/infrastructure/guards/user-role.guard.ts:34 | `includes` holds exactly for members of the list |
| UserRoleGuard.CanActivate | project-management-api/src/contexts/auth/infrastructure/guards/user-role.guard.ts:18-35 | no metadata admits the request; metadata without a user is BadRequest with the `notFoundUser` text; with a user, the guard admits exactly the roles in the list, so an empty list admits nobody |
| UserRoleGuard.MoreRolesAdmitMore | project-management-api/src/contexts/auth/infrastructure/guards/user-role.guard.ts:34 | allowing more roles never turns away a user who was admitted |
| UserRoleGuard.NoMetadataIgnoresUser | project-management-api/src/contexts/auth/infrastructure/guards/user-role.guard.ts:26 | without metadata the decision does not depend on the user |
| ErrorHandler.HandleDatabaseErrors | project-management-api/src/contexts/shared/infrastructure/services/error-handler.service.ts:10-19 | status 400 exactly for error number 547, with the foreign-key text whatever the description. Otherwise 500 with the description when it is truthy, and with the whole `serverError` entry when it is not |
| ErrorHandler.HandleGenericErrors | project-management-api/src/contexts/shared/infrastructure/services/error-handler.service.ts:21-23 | always BadRequest with the given text |
| ErrorHandler.DescriptionPreserved | project-management-api/src/contexts/shared/infrastructure/services/error-handler.service.ts:16-18 | a non-empty description reaches the caller unchanged, and different descriptions give different exceptions |
| ErrorHandler.EmptyDescriptionFallsBack | project-management-api/src/contexts/shared/infrastructure/services/error-handler.service.ts:16-18 | an empty description counts as none |

## Left out

- **Connections and configuration.** Pool construction, environment reads and the SQL Server connect handshake (`initializeDatabases`) are left out. The four pools are one `Database` object that logs accepted writes and rejects the attempt numbers in `rejects`.
- **Drivers and SQL.** The driver and SQL semantics are left out. A write is recorded with its engine, its statement text and its payloads. The SQL Server `Table` is a list of rows; its `nvarchar(4000)` column width is not checked.
- **Concurrency.** `Promise.all` is modelled as partitions running one after the other, stopping at the first failure. The model says nothing about interleaving, or about writes of sibling partitions that continue after a failure.
- **prom-client.** Metric registration, histogram buckets and the exposition endpoint are left out. Each metric is a map from label tuples to a value, or to the list of samples observed.
- **Time.** `Date.now()` is not modelled; the duration is a parameter of `PerformIngestion` and `Ingest`.
- **Admissible requests.** `IngestService.IngestService.PerformIngestion` requires an admissible request:
  - every number is an integer, not NaN;
  - `rows >= 0`, since prom-client refuses a negative increment;
  - a batch request that dispatches a partition has `batchSize != 0`.

  NaN, `rows < 0` and `batchSize == 0` are therefore not modelled. With `batchSize == 0` the source's chunk loop never ends.
- **`IngestController.Ingest`: non-admissible parameters.** `Ingest` requires that validated parameters be admissible in the sense above. So NaN, a negative `rows` or a zero `batchSize` from the query string is not modelled past validation.
- **`Paginator.Mapper`: zero `limit`.** `Mapper` requires `limit != 0`. A zero `limit` gives Infinity or NaN pages in JavaScript.
- **`Paginator.Mapper`: the catch branch.** The `catch` branch of `mapper` is not modelled, because nothing in the `try` block can throw.
- **`Filter.LikePattern`: LIKE matching.** The pattern is modelled as the string `%` + search + `%`. TypeORM's `Like` operator and SQL LIKE matching are left out.
- **TypeORM behaviour.**
  - `findOne` is the first record in table order that satisfies every defined condition of its `where`, and an undefined value puts no condition on its column.
  - `findAndCount` with a window is `Filtered` followed by `Page`, with the find options given as a predicate on records.
- **`GenericRepository.Repository.CreateEntity`: ids.** The `id` the database assigns is a parameter. It is required to be fresh.
- **`GenericRepository.Repository.GetEntities`: page and limit.** `GetEntities` requires a `nat` page and `limit > 0`. It does not model the driver's treatment of negative `skip` or `take`.
- **JavaScript numbers and strings.** Numbers are unbounded integers and strings have no maximum length. So these are not modelled:
  - `parseInt` rounding to the nearest double beyond 2^53;
  - `String(n)` switching to exponent form from `1e21`, which changes the `batch` label;
  - `'x'.repeat(n)` throwing a RangeError, before the `try`, when the result would pass the engine's maximum string length.
- `JsText.ParseIntToString`, `JsText.IntToStringInjective` and `IngestController.QueryRoundTrip` hold for the model's unbounded integers; in JavaScript they hold only below 2^53 in magnitude (and, for `String`, below `1e21`).
- `IngestService.IngestService.PerformIngestion` throws `InvalidRepeatCount` only for a negative `payloadBytes`; the RangeError of a `payloadBytes` past the maximum string length is not modelled, since that maximum depends on the JavaScript engine.
- `GenericRepository.Repository.GetEntities` takes the page in table order; the `order: {createdAt: 'DESC'}` option is not modelled, and `relations` are not loaded.
- `GenericRepository.Repository.CreateEntity` always appends a new record. TypeORM's `save` updates the existing row instead when `data` carries an `id` already in the table; that upsert is not modelled.
- `ErrorHandler.HandleDatabaseErrors` takes an error record. A `null` or `undefined` `error` makes the source throw a TypeError when it reads `error.number`; that is not modelled.
- `IngestController.Validate` takes each query parameter as one optional string. A parameter repeated in the query string arrives as an array; that case is not modelled.
- **The event emitter.** The `EventEmitter2` listeners are left out; an emitted event is recorded in `events`.
