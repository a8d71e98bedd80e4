# aol_stalker_2025 in Dafny: embedding pipeline, search endpoint, CSV importer

This project models three parts of aol_stalker_2025, a tool that loads the 2006 AOL query log into PostgreSQL, embeds every query text with a VoyageAI model, and serves search over the result.

1. **The embedding script** (`get_voyageai_embeddings.py`). It is modelled imperatively:
   - `Pipeline.Embedder` is a class that holds the text-to-embedding cache as a mutable `map` field.
   - `Pipeline.Provider` is the embedding API: an oracle with a call counter and a call log.
   - `Pipeline.Target` is the embeddings table, with a log of its multi-row inserts.
   - `GetBatches`, `EmbedBatch` and `ProcessBatches` are loops with invariants.

   Each method is proved against a function that states the same computation on values:
   - `RowSource.GetRows` is the row selection;
   - `Batching.Chunks` is the batching;
   - `Embedding.EmbedOne`, `Embedding.EmbedRows` and `Embedding.RunBatches` cover one row, one batch and the whole run.

   The lemmas about those functions are in `Batching`, `Dedup`, `Embedding` and `RunProperties`. They cover:
   - the batch shape and the round trip back to the rows;
   - cache hits and misses;
   - one provider call per distinct uncached text;
   - one insert per batch, in order, holding every selected row with its text's embedding;
   - on failure, which row failed and what was saved before it.
2. **The `/search` endpoint** (`http/app.py`). It is pure and is modelled as a function over the rows of the queries table, in `SearchEndpoint`. The full-text match is an abstract predicate.
3. **The CSV importer** (`import_data_to_postgres.py`). It is mixed:
   - `RowConversion` has record conversion, the per-file reader and the specification of the import, as functions and lemmas.
   - `ImportRun` has the import loop, as a method over a `Connection` object that receives one COPY per file.

Shared pieces:
- `Wrappers` holds `Option` and `Result`.
- `Sequences` holds flattening, `Take` and distinct elements.
- `Ordering` holds `WHERE`, `ORDER BY key ASC` as an insertion sort, and the fact that a strictly ascending order determines the result.

Abstractions:
- The embedding provider is `reply: (nat, seq<string>) -> Option<seq<E>>`: its answer to the n-th call of the run, or `None` when the client raises. Two calls with the same text may therefore get different answers, which is why the cache matters.
- Embeddings have an opaque type `E`.
- The timestamp type is a parameter.
- Python's `int()` and `datetime.fromisoformat` are partial parsers, passed in as `Parsers`.
- PostgreSQL's `to_tsvector(...).match(literal)` is the `matches` parameter of the search.

Behaviour of the code that the model keeps:
- The row selection resumes after the hard-coded id 130700 (`RowSource.StartAfterId`).
- Python truthiness decides whether `max_rows` applies, so `None` and `0` both mean "no limit".
- A negative `max_rows` or `limit` becomes a PostgreSQL error. It is modelled as `Err`.
- `DataRow`'s field annotations say `str` and `int`, but `convert` stores an `int` anon_id, a timestamp, and an optional rank and URL. The model follows `convert`.
- The importer stops at the first file that cannot be read. The files before it stay copied.

## Model

| member | source | states |
|---|---|---|
| RowSource.GetRows | src/aol_stalker_2025/scripts/get_voyageai_embeddings.py:66-69 | fails exactly when max_rows is negative; otherwise the rows are in ascending id order, all come from the source table with id > 130700, and there are at most max_rows of them when max_rows is positive |
| RowSource.OrderedRows | src/aol_stalker_2025/scripts/get_voyageai_embeddings.py:67 | the uncapped selection is ascending by id and holds only source rows with id > 130700 |
| RowSource.GetRowsExact | src/aol_stalker_2025/scripts/get_voyageai_embeddings.py:67-69 | with unique ids and no cap, the selection holds exactly the source rows with id > 130700, ids strictly ascending |
| RowSource.GetRowsCharacterised | src/aol_stalker_2025/scripts/get_voyageai_embeddings.py:67-69 | every strictly ascending listing of the source rows after 130700 is what get_rows yields for max_rows None and 0; for a positive max_rows it yields that listing's first max_rows rows |
| Batching.FlattenChunks | src/aol_stalker_2025/scripts/get_voyageai_embeddings.py:83-90 | concatenating the batches in order gives back the rows exactly |
| Batching.ChunksNonEmpty | src/aol_stalker_2025/scripts/get_voyageai_embeddings.py:84-90 | no batch is empty, and there are no batches exactly when there are no rows |
| Batching.ChunkSizes | src/aol_stalker_2025/scripts/get_voyageai_embeddings.py:84-90 | for batch_size >= 1: every batch but the last has exactly batch_size rows, the last has between 1 and batch_size rows, and there are ceil(rows / batch_size) batches |
| Batching.NonPositiveSizeSingleBatch | src/aol_stalker_2025/scripts/get_voyageai_embeddings.py:86-90 | for batch_size <= 0, a non-empty input comes out as a single batch |
| Batching.ChunksFull | src/aol_stalker_2025/scripts/get_voyageai_embeddings.py:85-88 | a batch that reaches batch_size is the next batch, and the batches of the remaining rows follow it |
| Batching.ChunksRest | src/aol_stalker_2025/scripts/get_voyageai_embeddings.py:89-90 | fewer than batch_size rows left form the last batch, and no rows left form none |
| Pipeline.Embedder.GetBatches | src/aol_stalker_2025/scripts/get_voyageai_embeddings.py:80-90 | the append-and-reset loop yields exactly Chunks(rows, batch_size) |
| Dedup.NewTextsMembers | src/aol_stalker_2025/scripts/get_voyageai_embeddings.py:93-103 | the texts sent to the provider are exactly the texts of the rows that were not cached, each once |
| Dedup.NewTextsAppend | src/aol_stalker_2025/scripts/get_voyageai_embeddings.py:93-103 | after texts a, texts b send only what is new relative to the cache plus a |
| Dedup.CallCount | src/aol_stalker_2025/scripts/get_voyageai_embeddings.py:93-103 | the number of provider calls is the number of distinct texts not already cached |
| Dedup.LogSnoc | src/aol_stalker_2025/scripts/get_voyageai_embeddings.py:93-98 | one more row adds one single-text call to the log on a miss, and none on a hit |
| Embedding.EmbedOneCases | src/aol_stalker_2025/scripts/get_voyageai_embeddings.py:92-104 | the id is kept; a hit returns the cached embedding with the cache unchanged; a miss succeeds exactly when the provider's answer has an embedding, then caches its first embedding for that text and changes no other entry |
| Embedding.LearnedCompose | src/aol_stalker_2025/scripts/get_voyageai_embeddings.py:93-103 | what the cache learns from a and then from b is what it learns from a + b |
| Embedding.EmbedRowsSticky | src/aol_stalker_2025/scripts/get_voyageai_embeddings.py:132 | once a row of the comprehension raises, the later rows change nothing |
| Embedding.EmbedRowsExtends | src/aol_stalker_2025/scripts/get_voyageai_embeddings.py:93-103 | embedding never drops or changes a cache entry |
| Embedding.FlattenMapPairs | src/aol_stalker_2025/scripts/get_voyageai_embeddings.py:114-117 | the inserts of all batches, concatenated, are the (id, embedding) pairs of all their rows, in order |
| Embedding.RunBatchesSticky | src/aol_stalker_2025/scripts/get_voyageai_embeddings.py:129-135 | once a batch has failed, the later batches change nothing |
| RunProperties.EmbedRowsOk | src/aol_stalker_2025/scripts/get_voyageai_embeddings.py:132 | a batch that embeds successfully sent each new text once, in first-occurrence order; the cache learned the answers; each row got its own id with its text's cached embedding |
| RunProperties.EmbedRowsErr | src/aol_stalker_2025/scripts/get_voyageai_embeddings.py:98-104 | a failed batch failed at one row: its text was uncached, the provider call for it raised or returned no embedding, and nothing was cached for it |
| RunProperties.RunBatchesOk | src/aol_stalker_2025/scripts/get_voyageai_embeddings.py:129-135 | a successful run made one insert per batch, in batch order, each holding that batch's rows with their cached embeddings; the provider was called once per new text over the whole run |
| RunProperties.RunBatchesErr | src/aol_stalker_2025/scripts/get_voyageai_embeddings.py:129-135 | a failed run stopped at the batch whose position is the number of inserts made: every batch before it went through and was saved, in order, one insert each; that batch failed while being embedded, the run's error is its error, and nothing of it or of any later batch was saved |
| RunProperties.RunBatchesStops | src/aol_stalker_2025/scripts/get_voyageai_embeddings.py:129-135 | a failed run stopped at one batch: the batches before it ran without error, that batch's embedding failed, and the run ends in the state that failure leaves |
| RunProperties.StoppedRow | src/aol_stalker_2025/scripts/get_voyageai_embeddings.py:98-104 | the batch a run stopped at has a row whose text was uncached and whose provider call raised or returned no embedding |
| RunProperties.RunAllRows | src/aol_stalker_2025/scripts/get_voyageai_embeddings.py:120-137 | on success the target receives every selected row once, in order, with its own id and its text's embedding; rows with equal texts get equal embeddings; the provider is called once per distinct uncached text |
| Pipeline.Provider.Embed | src/aol_stalker_2025/scripts/get_voyageai_embeddings.py:98-101 | a provider call answers as the oracle does for its call number and is logged |
| Pipeline.Target.InsertMany | src/aol_stalker_2025/scripts/get_voyageai_embeddings.py:111-118 | one multi-row insert appends its pairs to the table and is logged as one write |
| Pipeline.Embedder.Embed | src/aol_stalker_2025/scripts/get_voyageai_embeddings.py:92-104 | the result and the new cache are EmbedOne's; the call log grows by [query] on a miss and not at all on a hit |
| Pipeline.Embedder.EmbedNext | src/aol_stalker_2025/scripts/get_voyageai_embeddings.py:132 | embedding row i of a batch moves the comprehension's state from EmbedRows of the first i rows to EmbedRows of the first i + 1 |
| Pipeline.Embedder.EmbedBatch | src/aol_stalker_2025/scripts/get_voyageai_embeddings.py:132 | the comprehension's result, the cache and the call log are those of EmbedRows over the batch |
| Pipeline.Embedder.SaveEmbeddings | src/aol_stalker_2025/scripts/get_voyageai_embeddings.py:106-118 | one insert of the (id, embedding) pairs, in order |
| Pipeline.Embedder.ProcessBatch | src/aol_stalker_2025/scripts/get_voyageai_embeddings.py:132-135 | a batch is embedded in full and then saved with one insert; a failed batch saves nothing |
| Pipeline.Embedder.ProcessBatches | src/aol_stalker_2025/scripts/get_voyageai_embeddings.py:129-135 | the loop leaves the result, cache, call log and inserts of RunBatches over the batches |
| Pipeline.Embedder.Run | src/aol_stalker_2025/scripts/get_voyageai_embeddings.py:120-137 | a rejected selection changes nothing; otherwise main is RunBatches over Chunks(GetRows(...), batch_size) |
| SearchEndpoint.Search | src/aol_stalker_2025/http/app.py:34 | fails exactly when limit is negative; otherwise there are at most limit results |
| SearchEndpoint.SearchFilters | src/aol_stalker_2025/http/app.py:27-34 | every result is a table row with id >= offset, matching the literal when it is non-empty, with the anon_id when it is non-zero, and with id == query_id when that is non-zero |
| SearchEndpoint.SearchOrdered | src/aol_stalker_2025/http/app.py:34 | with id as the primary key, the results are in strictly ascending id order |
| SearchEndpoint.SearchById | src/aol_stalker_2025/http/app.py:32-33 | a non-zero query_id yields at most one result |
| SearchEndpoint.SearchFirst | src/aol_stalker_2025/http/app.py:27-35 | a matching row left out of the response has a larger id than every result, and a row is left out only when limit results came back |
| SearchEndpoint.SearchCharacterised | src/aol_stalker_2025/http/app.py:27-35 | the response is the first limit rows, by ascending id, of exactly the rows that pass every active filter and id >= offset |
| SearchEndpoint.FalsyParamsIgnored | src/aol_stalker_2025/http/app.py:28-33 | an empty literal, anon_id 0 and query_id 0 give the same response as leaving those parameters out |
| SearchEndpoint.FilterSame | src/aol_stalker_2025/http/app.py:27-34 | two requests whose WHERE clauses admit the same rows select the same rows |
| SearchEndpoint.SearchDefaults | src/aol_stalker_2025/http/app.py:18-36 | a request with no parameters does no full-text matching, succeeds, and returns at most 100 rows of the table, all with id >= 0 |
| RowConversion.ConvertSucceeds | src/aol_stalker_2025/scripts/import_data_to_postgres.py:28-35 | a record converts exactly when it has at least five fields, anon_id and query_time parse, and a non-empty item_rank parses |
| RowConversion.ConvertFields | src/aol_stalker_2025/scripts/import_data_to_postgres.py:30-34 | anon_id is the parse of field 0; query is field 1 unchanged; query_time is the parse of field 2; item_rank is None exactly when field 3 is empty and is otherwise its parse; click_url is None exactly when field 4 is empty and is otherwise field 4 verbatim |
| RowConversion.ConvertShort | src/aol_stalker_2025/scripts/import_data_to_postgres.py:29-35 | a record with fewer than five fields never converts, and the missing field reported is the first absent one |
| RowConversion.ConvertIgnoresExtra | src/aol_stalker_2025/scripts/import_data_to_postgres.py:29-35 | fields after the fifth play no part |
| RowConversion.ConvertRender | src/aol_stalker_2025/scripts/import_data_to_postgres.py:28-35 | round trip: a data row written with printers that the parsers undo converts back to itself |
| RowConversion.GetReaders | src/aol_stalker_2025/scripts/import_data_to_postgres.py:82-86 | one reader per file |
| RowConversion.ConvertFromOk | src/aol_stalker_2025/scripts/import_data_to_postgres.py:80 | converting the records from a position on succeeds exactly when each of them converts, and then yields one row per record, in order |
| RowConversion.ConvertFromErr | src/aol_stalker_2025/scripts/import_data_to_postgres.py:80 | a failed conversion names the first record that does not convert |
| RowConversion.GetReaderRows | src/aol_stalker_2025/scripts/import_data_to_postgres.py:77-80 | a file reads exactly when it has a header and every later record converts; it then yields one row per record after the header, in file order, each that record's conversion |
| RowConversion.GetReaderFails | src/aol_stalker_2025/scripts/import_data_to_postgres.py:77-80 | a failing file has no header record, or has a first bad record after the header, and every record before that one converts |
| RowConversion.HeaderIgnored | src/aol_stalker_2025/scripts/import_data_to_postgres.py:79 | the header record is never converted: replacing it changes nothing |
| RowConversion.ConvertFromSame | src/aol_stalker_2025/scripts/import_data_to_postgres.py:80 | records that agree from a position on convert the same from there |
| RowConversion.ImportNext | src/aol_stalker_2025/scripts/import_data_to_postgres.py:108-110 | importing one more file steps the state of the shorter import by that file's reader |
| RowConversion.ImportSticky | src/aol_stalker_2025/scripts/import_data_to_postgres.py:108-110 | after a file has failed, the later files change nothing |
| RowConversion.ImportOk | src/aol_stalker_2025/scripts/import_data_to_postgres.py:106-111 | the import succeeds exactly when every file reads, and then holds one copy per file, in file order, each that file's converted rows |
| RowConversion.ImportFails | src/aol_stalker_2025/scripts/import_data_to_postgres.py:106-111 | a failed import names the first file that does not read; the files before it were copied in order, and nothing from it or after it |
| RowConversion.ImportedRowsConverted | src/aol_stalker_2025/scripts/import_data_to_postgres.py:106-111 | every row the table receives is the conversion of a non-header record of some file |
| ImportRun.Connection.CopyRecords | src/aol_stalker_2025/scripts/import_data_to_postgres.py:94-104 | one COPY appends its records to the table and is logged as one copy |
| ImportRun.Importer.CopyBatch | src/aol_stalker_2025/scripts/import_data_to_postgres.py:88-104 | a reader that reads is copied as one batch; a failing reader aborts the copy and leaves the connection unchanged |
| ImportRun.Importer.ImportFile | src/aol_stalker_2025/scripts/import_data_to_postgres.py:108-110 | one pass of the loop moves the connection from one import state to the next |
| ImportRun.Importer.ImportData | src/aol_stalker_2025/scripts/import_data_to_postgres.py:106-111 | the loop's result, the copies it makes and the table it leaves are those of Import over the files |

## Left out

- Database connections, cursors, the server-side cursor's fetch size, and the transaction-isolation and `statement_timeout` statements of the row selection. The source table is a sequence of rows, and the target table is a log of inserts.
- The `%s` placeholder used for the source table name, and the insert into a fixed embeddings table that ignores the target-table setting. These are SQL-level details: the model has one source table and one target table.
- A failing insert or COPY at the database, for example a duplicate key on a re-run. The code does not handle it, and the run ends. The model's target accepts every insert.
- The numeric content of embeddings, and the fact that multi-item provider requests answer differently. Embeddings are an opaque type, and every request carries one text.
- The VoyageAI client, its model setting and its credentials. The settings hold a hardcoded API key, which this model does not reproduce. The provider is the `reply` oracle.
- PostgreSQL full-text matching (`to_tsvector`), CSV tokenisation with its delimiter, Python's `int()`, and `datetime.fromisoformat`. These are library behaviour; they are abstract parameters.
- `get_files` and its glob: a file's directory listing is I/O, so the files are a given sequence in the order the glob yields them. Opening a file that cannot be read is also left out.
- The laziness of the generators. `get_rows`, `get_batches`, `get_reader` and `get_readers` are modelled as the sequences they yield. The interleaving of reading with embedding and copying is not observable in the model.
- `asyncio`, the async signatures, `print` and logging progress output, pydantic-settings parsing of the environment and command line, FastAPI routing and sessions, and the response models.
- `scripts/query_database.py`, `config.py`, `db/engine.py` and `util.py`, which are not part of this model.
- RowConversion.ImportFails: COPY is taken to be one atomic statement, so a file whose records fail part-way adds no rows. The rows streamed before the failure are not modelled.

