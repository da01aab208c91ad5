# Verified model of the wine-api CSV product import

The import service reads a CSV feed of wine listings. The rows go through
three stages:

- a batching stage (`BatchTransform`) that groups them into batches of 100;
- a sink (`AsyncTransform`) that persists every row of a batch and waits for
  all of them before it asks for the next batch;
- a per-row import (`importProduct`) that stores one producer and then one
  product linked to it.

This project models those stages in Dafny and proves what they promise.

- `Results`: the shared value types (`Option`, how the source ended, the fault,
  the terminal outcome `Completed` / `Failed`).
- `Rows`: the thirteen-column `ProductRow`, the column order, and the mapping from
  a row to a `Producer` (empty country or region becomes absent) and a `Product`.
- `Store`: the two collections as a class `Catalog` with `seq` fields. A record's
  id is its position, so every insert gets a fresh id. `ImportProduct` is the
  per-row import.
- `Batching`: `Chunks`, the reference batching of a record sequence, and the
  class `Batcher`. Its `buffer` field is updated by `Accept` (the `_transform`
  step) and read by `Finish` (the `_flush` step).
- `Sink`: `WriteBatch` (the `_write` step: every row persisted once, failure
  reported if any call failed) and `Consume` (a loop over batches that stops
  after the first batch with a failure). `WriteBatch` is proved against
  `Succeeds` and `FailsIn`, which say whether every record of one batch persists
  and which record failed. `Consume` is proved against `FailingBatch` and
  `Invoked`, which say which batches are started and which calls are made.
- `Pipeline`: `Import`, the driver. Records go through a `Batcher`, and each
  emitted batch is written at once. The source ends normally or with a fetch or
  parse error. `Delivered` specifies which batches reach the sink. The lemmas
  cover three scenarios: 250 records, a failure at record #57, and a source
  error before the first full batch.

Persistence is the parameter `persist: T -> bool`: for each row it says
whether `importProduct` succeeds. Batches are values (`seq`), so an emitted
batch is a snapshot: resetting the buffer afterwards cannot change it, and
the batching stage never looks inside a record (it is generic in `T`).

Two consequences of the code are worth stating:

- Every non-final batch has 100 records. The final flush carries 1 to 99
  records, because `_transform` empties the buffer as soon as it reaches 100
  (src/services/ProductService.ts:179-181); `Batcher.Finish` states this. A
  last batch of exactly 100 records is emitted by `Accept`.
- The code's failure is the persistence error itself, which `importProducts`
  catches and logs (src/services/ProductService.ts:125-128). The model's
  `Outcome` names a failing row instead.

## Model

| member | source | states |
|---|---|---|
| `Rows.Fields` | src/services/ProductService.ts:106-120 | a row yields exactly the thirteen configured columns |
| `Rows.RowOf` | src/services/ProductService.ts:104-121 | a CSV record names into a row exactly when it has thirteen fields, and the row's fields in column order are the record's fields |
| `Rows.RowOfFields` | src/services/ProductService.ts:146-160 | naming the columns of a row's fields gives the row back |
| `Rows.NonEmpty` | src/services/ProductService.ts:135-136 | an optional text is absent exactly when the column is empty, and reading it back with "" as default gives the column |
| `Rows.ToProducer` | src/services/ProductService.ts:133-137 | the producer's name is the Producer column; country (and region) is absent exactly when its column is empty and otherwise equals it |
| `Rows.ToProduct` | src/services/ProductService.ts:138-142 | the product's name is the Product Name column, its vintage the Vintage column, its producerId the given producer id |
| `Rows.ProducerDeterminedByColumns` | src/services/ProductService.ts:133-137 | the country and region columns are recovered from the producer, and two rows give the same producer exactly when producer, country and region agree |
| `Store.Catalog.AddProducer` | src/services/ProductService.ts:26-29 | appends the producer, returns a fresh id under which it is read back, leaves products unchanged |
| `Store.Catalog.AddProduct` | src/services/ProductService.ts:47-50 | appends the product, returns a fresh id under which it is read back, leaves producers unchanged |
| `Store.Catalog.ImportProduct` | src/services/ProductService.ts:131-143 | adds exactly one producer and one product built from the row, the product linked to that producer; nothing else changes and every product keeps a stored producer |
| `Batching.ChunksFlatten` | src/services/ProductService.ts:177-192 | concatenating the reference batches in order gives back the input exactly |
| `Batching.ChunksSizes` | src/services/ProductService.ts:179-190 | no batch is empty or larger than 100, and every batch but the last has exactly 100 records |
| `Batching.ChunksCount` | src/services/ProductService.ts:177-192 | N records make ceil(N / 100) batches, zero when N = 0 |
| `Batching.ChunksAfterFull` | src/services/ProductService.ts:177-182 | full batches in front of the rest are batched as they stand, followed by the batching of the rest |
| `Batching.Batcher.constructor` | src/services/ProductService.ts:166-170 | a new batcher has an empty buffer and has accepted and emitted nothing |
| `Batching.Batcher.Accept` | src/services/ProductService.ts:172-185 | appends the record; emits a batch exactly when the buffer reaches 100, that batch being the buffer's 100 records, and then the buffer is empty; keeps the invariant that the buffer holds fewer than 100 records and emitted batches plus buffer equal the input |
| `Batching.Batcher.Finish` | src/services/ProductService.ts:187-192 | emits nothing exactly when the buffer is empty, otherwise 1 to 99 records; the emitted batches plus this one are the reference batching of all accepted records |
| `Sink.FailingBatch` | src/services/ProductService.ts:208-213 | the index of the first batch holding a failing record lies within the batches |
| `Sink.FailingBatchIsFirst` | src/services/ProductService.ts:208-213 | every batch before the failing index persists fully and the batch at it does not |
| `Sink.StopsAt` | src/services/ProductService.ts:208-213 | when only the last of the started batches fails, the run stops there and the calls are exactly those batches' records |
| `Sink.CompletesIffAllSucceed` | src/services/ProductService.ts:208-210 | no batch fails exactly when every record of every batch persists, and then every record is invoked |
| `Sink.NothingAfterFailure` | src/services/ProductService.ts:208-213 | after a failing batch the remaining records are exactly those of the later batches: none of them is invoked |
| `Sink.WriteBatch` | src/services/ProductService.ts:203-214 | invokes persistence on every record of the batch exactly once; reports no failure exactly when all succeed, otherwise a record of the batch that failed |
| `Sink.Consume` | src/services/ProductService.ts:195-215 | the calls are the records of the batches up to and including the first failing one; completed exactly when no batch fails; otherwise fails with a failing record of that batch |
| `Pipeline.DeliveredPrefix` | src/services/ProductService.ts:177-182 | full batches emitted for a prefix of the records are the first batches delivered, whether the source ends normally or fails |
| `Pipeline.SourceFailureDelivers` | src/services/ProductService.ts:101-124 | when the source fails, the delivered batches are exactly the full batches already emitted; the buffered remainder is dropped |
| `Pipeline.Import` | src/services/ProductService.ts:93-129 | the calls are those of the sink over the delivered batches; a failing batch makes the outcome a persistence failure naming a failing record of it; otherwise the run completes on a normal end and fails with the source's error otherwise |
| `Pipeline.DeliveredBounded` | src/services/ProductService.ts:179-190 | every delivered batch has 1 to 100 records, so at most 100 persistence calls run at once |
| `Pipeline.AllSucceedPersistsEverything` | src/services/ProductService.ts:203-210 | when every record persists, no batch fails, every record is invoked once and in order, over ceil(N / 100) batches |
| `Pipeline.TwoHundredFiftyRecords` | src/services/ProductService.ts:177-210 | 250 succeeding records give batches of 100, 100 and 50, no failure and exactly 250 calls |
| `Pipeline.FailureInFirstBatch` | src/services/ProductService.ts:208-213 | when only record #57 fails, the first batch fails, the failure can only name that record, and the calls are exactly records #1 to #100 |
| `Pipeline.EarlySourceErrorPersistsNothing` | src/services/ProductService.ts:177-192 | a source that fails before 100 records delivers no batch and makes no persistence call |

## Left out

- The HTTP fetch of the feed (src/services/ProductService.ts:95-100) is network I/O. The source is a finite record sequence plus how it ended (`SourceEnd`).
- CSV parsing is done by a foreign library. Only its column naming is modelled (`Rows.RowOf`). A malformed feed is the `ParseError` end of the source.
- Stream plumbing (`pipeline`, `promisify`, `emit('error')`, `Promise.all` scheduling) is modelled as one sequential loop. Each emitted batch is written before the next record is read. In the running system the stream library can buffer several emitted batches ahead of the sink. After a source error, such queued batches may be dropped, while the model writes every batch emitted before the error.
- Pipeline.Import: which failing record is reported when several fail in one batch depends on completion order. The contract only promises some failing record of the first failing batch. The model picks the first in batch order.
- Sink.WriteBatch: the calls within a batch run concurrently in the source. The model records them in batch order; only "each record exactly once" is meant.
- Logging and the catch in `importProducts` (src/services/ProductService.ts:125-128) only report. The model returns the outcome instead.
- The persistence outcome per row is the parameter `persist`, not `Store.Catalog.ImportProduct`. A database failure comes from code outside the model. `Catalog` inserts always succeed.
- The read-backs after insert (`requireProducerById`, `requireProductById`) always succeed in the in-memory store, so their "missing" error path is not modelled. The other database wrappers (`getProducerById`, `getProductById`, `getProductsByProducerId`, `updateProductById`, `removeProduct`) are thin calls into the database client and are not part of this model.
- The GraphQL resolvers, server bootstrap and configuration are API glue and I/O, and are not part of this model.
