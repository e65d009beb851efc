# hotelbeds-static-data: the incremental synchronisation loop

This project models the core of the `get_static_data.py` job, which mirrors
the Hotelbeds content API into a relational database. The job has four parts:

- **The pager** (`fetch_data_generator`).
  - It turns a page counter into a 1-based inclusive `from`/`to` item window.
  - It picks the response key: the endpoint's last path segment, remapped by a
    six-entry camelCase alias table.
  - It yields each non-empty page of records.
  - It stops on an empty page, a short page, or `to >= total`.
  - It raises when a reply is malformed.
- **The loader** (`insert_data_chunk`).
  - It turns a batch into a data frame: nested values become JSON text,
    all-null columns are dropped, and column names are lower-cased with
    spaces turned into underscores.
  - It prefixes the table name with `hotelbeds_` when the prefix is missing.
  - It creates the table when it is absent.
  - It adds every missing column and appends the rows.
- **The watermark store** (`hotelbeds_last_updated_time`). It is a map from
  table name to day, with three operations:
  - `load_last_update_times` reads it;
  - `update_last_updated_time` upserts one entry;
  - `save_last_update_times` upserts a whole map.
- **The orchestrator** (`update_all_endpoints` and `main`).
  - It walks a fixed catalogue of 22 endpoints in order.
  - It opens each pager from the table's watermark.
  - It loads every batch and counts the records.
  - When an entity brought records, it sets its in-memory watermark to today
    and upserts the UTC date into the store.
  - At the end it saves the in-memory map.

The modules follow that structure:

- `Wrappers`, `Json` and `Text` hold the Python values and string operations
  the job relies on.
- `Watermarks` holds days and the clock.
- `Pager` holds the generator: a pure page step, a run specification, and an
  imperative `while` loop proved against it.
- `Loader` is the pure data-frame half of `insert_data_chunk`, together with
  the table it produces.
- `Storage` holds the class `Database`, whose methods change its tables and
  its watermark table in place.
- `Sync` holds the catalogue loop as methods, a specification of a whole run
  (`UpdateAll`), and the lemmas about that specification.

The upstream is a pure function from a request to a reply, so one HTTP call
is one application of it. The JSON encoder `json.dumps` is a parameter.
Today's local date and today's UTC date are inputs (`Clock`).

Some behaviour is followed as the code has it:

- **An exception anywhere aborts the whole run.** A failing fetch, a
  malformed reply, or a bad `to`/`total` all end it. Nothing isolates one
  entity's failure from the next. The batches already inserted stay. The
  watermark upserts already made stay. The final save is skipped.
  `RunOutcome` and `UpdateAllWatermarks` state this for the outcome and the
  watermarks. `UpdateAllTables` and `UpdateAllTableContents` state it for the
  tables: each table touched holds its batches loaded in order.
- **A column that is null in every record of a batch is dropped.** Such a
  column never becomes a table column (`KeptFields`, `ColumnsCoverFields`).
  So "every field becomes a column" holds only for fields that have a
  non-null value somewhere in the batch.
- **Loading the watermarks does not create their table.** When the table is
  missing, the run raises before anything is fetched. `main` creates it first.
- **The final save can overwrite upserts.** It writes the local date over the
  UTC date that the per-entity upsert stored. After a complete run, an
  entity's watermark is the local date. After an aborted run, it is the UTC
  date (`UpdateAllWatermarks`).

## Model

| member | source | states |
|---|---|---|
| Wrappers.Get | get_static_data.py:193 | `dict.get`: a value is found exactly when the key is present, and it is the stored one |
| Json.Truthy | get_static_data.py:123-125 | a value is falsy exactly when it is null, false, zero, the empty string, the empty list or the empty object |
| Json.Lookup | get_static_data.py:123-124 | a value found under a key is a member carrying that key |
| Json.LookupFinds | get_static_data.py:123-124 | `key in d` holds exactly when some member carries the key; `d[key]` is the value of the last such member |
| Json.Records | get_static_data.py:71 | the records of a list of objects, one per element, in order |
| Json.NumberOf | get_static_data.py:129 | the operands of `>=`: an integer is itself, `False` and `True` are 0 and 1, and anything else has no number |
| Text.LowerChar | get_static_data.py:73 | the lower-cased character is never a capital and equals the input exactly when the input is not a capital; a capital becomes the small letter at the same position in the alphabet |
| Text.Lower | get_static_data.py:73 | `str.lower` keeps the length and lower-cases each character |
| Text.LowerIdempotent | get_static_data.py:73 | lower-casing twice is lower-casing once |
| Text.ReplaceChar | get_static_data.py:73 | `replace(' ', '_')` keeps the length and replaces exactly the matching characters |
| Text.LastSegment | get_static_data.py:104 | `split('/')[-1]` is a suffix without a slash, preceded by a slash unless it is the whole string |
| Text.StartsWith | get_static_data.py:75 | `s.startswith(p)` holds exactly when `s` is `p` followed by some string |
| Pager.ItemOnOnePage | get_static_data.py:115-121 | consecutive windows are contiguous, each is `batch_size` wide, and every item lies in exactly one window, that of page `(item - 1) / batch_size + 1` |
| Pager.Window | get_static_data.py:118-119 | a page's window is `batch_size` items wide, and the first page's starts at item 1 |
| Pager.RequestAt | get_static_data.py:115-121 | a page request asks for every field, in the feed's language, since the feed's watermark, for the page's window |
| Pager.LastSegmentOfPath | get_static_data.py:104 | the key of `dir/name` is `name` when `name` has no slash |
| Pager.ResponseKeyIsSegment | get_static_data.py:104-112 | the key equals the last segment exactly when the segment is not in the alias table |
| Pager.AliasesRecase | get_static_data.py:105-112 | every alias differs from its segment and lower-cases to it |
| Pager.RecaseAt | get_static_data.py:105-112 | each of the six aliases is a re-cased spelling of its segment |
| Pager.ResponseKey | get_static_data.py:104-112 | the key is the alias table's entry for the last path segment when there is one, and the segment itself otherwise; either way it lower-cases to the segment lower-cased |
| Pager.AliasedKeyExample | get_static_data.py:104-112 | `types/boardgroups` reads its records under `boardGroups` |
| Pager.PlainKeyExample | get_static_data.py:104-112 | `locations/countries` reads its records under `countries` |
| Pager.PageStep | get_static_data.py:122-135 | one loop pass on a reply: a failed fetch raises the upstream error; a falsy, non-object or keyless reply raises the shape error; an empty payload stops with no batch and no error; a payload of records is yielded as those records; after a short page the loop stops without reading `to`/`total`; after a full page it stops, goes on or raises as `CounterVerdict` says |
| Pager.CounterVerdict | get_static_data.py:129 | the loop asks for the next page exactly when `to` and `total` are numbers and `to < total`; it stops when `to >= total`, and it raises when either is missing or not a number |
| Pager.Generate | get_static_data.py:114-135 | the `while True` loop yields exactly the batches of the run's specification, and ends with its error |
| Pager.FetchAll | get_static_data.py:102-136 | the generator, run to the end, yields the feed's run: its batches in order and the exception that ends it |
| Pager.TraceCharacterised | get_static_data.py:114-135 | a run fits the replies page by page (batch `i` comes from page `1 + i`, each page before the last asks for more, the end matches the last page) exactly when it is the generator's run |
| Pager.RunEndsAtFirstEndingPage | get_static_data.py:123-132 | the first page that ends the run decides it: the batches of the earlier pages, that page's batch if it has one, and that page's exception |
| Pager.FeedEndsAt | get_static_data.py:114-135 | the same, stated on a feed's replies: the run is the batches of the pages before the first ending page, then that page's batch if it has one, and that page's exception |
| Pager.EmptyFirstPage | get_static_data.py:123-132 | a first reply with an empty payload: the generator yields nothing and returns without an exception |
| Pager.ShortFirstPage | get_static_data.py:123-132 | a first reply with fewer records than a page: those records are the only batch, and the generator returns without an exception |
| Pager.FullThenEmptyPage | get_static_data.py:114-132 | a full first page with `to < total` and then an empty payload: page 2 is requested, the first page's records are the only batch, and the generator returns without an exception |
| Pager.FeedBatchesNonEmpty | get_static_data.py:125-130 | every yielded batch holds a record, and every batch but the last holds a full page |
| Pager.TraceFromAnyBound | get_static_data.py:114-135 | the run does not depend on which ending page is used to bound it |
| Loader.Prefixed | get_static_data.py:75 | the table name carries the prefix; it is the argument exactly when the argument already carries it, and otherwise the prefixed argument |
| Loader.PrefixedIdempotent | get_static_data.py:75 | prefixing twice is prefixing once |
| Loader.Serialize | get_static_data.py:71 | a dict or a list becomes the string `json.dumps` gives for it; any other value is kept as it is; a cell is never a dict or a list |
| Loader.SerializeKeepsCells | get_static_data.py:71 | serialising a cell again leaves it as it is |
| Loader.NormalizeName | get_static_data.py:73 | `lower().replace(' ', '_')`: each character of the column name is the field name's character lower-cased, or `_` for a space; the result has no capital and no space |
| Loader.NormalizeNameFixes | get_static_data.py:73 | a name is unchanged exactly when it has no capital and no space; normalising twice is normalising once |
| Loader.Cell | get_static_data.py:71 | a field the record lacks gives null; a field it has gives that value serialised; the cell is null exactly when the record has no non-null value for the field |
| Loader.KeysOf | get_static_data.py:71 | the keys of a batch are exactly the keys some record has |
| Loader.FieldNames | get_static_data.py:71 | the frame's columns are each key of the batch, once |
| Loader.KeepValued | get_static_data.py:72 | `dropna(axis=1, how='all')` keeps exactly the columns with a non-null value, and no duplicates |
| Loader.KeptFields | get_static_data.py:71-72 | the frame's columns after `dropna` are exactly the fields with a non-null value somewhere in the batch, once each |
| Loader.ColumnSet | get_static_data.py:71-73 | the columns a batch needs are the normalised kept fields; a batch with no non-null value needs none |
| Loader.ColumnsCoverFields | get_static_data.py:71-73 | a batch needs a column exactly when some record has a non-null value for a field with that normalised name |
| Loader.RowOf | get_static_data.py:73 | a row has exactly the normalised names of the kept fields |
| Loader.LastNamed | get_static_data.py:73 | the last field carrying a normalised name, or none when no field does |
| Loader.RowOfCell | get_static_data.py:89 | a row has a column exactly when some field normalises to it, and the cell comes from the last such field |
| Loader.Rows | get_static_data.py:71-89 | one row per record, in order: row `i` is record `i` over the batch's kept fields |
| Loader.RowsCell | get_static_data.py:71-73 | the cell of row `i` under a batch column is record `i`'s value for the last kept field of that name: a dict or a list as its JSON text, any other value as it is, null when the record lacks the field |
| Loader.RowsColumns | get_static_data.py:89 | every row of a batch has exactly the batch's columns |
| Loader.Distinct | get_static_data.py:71 | the keys without repetitions: the same keys, none twice |
| Loader.Load | get_static_data.py:75-89 | after `insert_data_chunk` the prefixed table exists and its row count grows by one per record (`LoadEffect` gives the rows themselves) |
| Loader.LoadEffect | get_static_data.py:75-89 | loading touches only the prefixed table. The table keeps its columns and rows, gains exactly the batch's columns it lacked, and has the batch's rows appended. A new table has exactly the batch's columns |
| Loader.LoadSameSchema | get_static_data.py:80-84 | a batch whose columns are already there adds no column, so loading the same columns again never widens the table |
| Storage.Database.CreateLastUpdatedTimeTable | get_static_data.py:138-146 | afterwards the watermark table exists; an existing one keeps its rows, and one it creates has none |
| Storage.Database.LoadLastUpdateTimes | get_static_data.py:148-151 | every watermark row is returned, or an error when the table is missing |
| Storage.Database.UpdateLastUpdatedTime | get_static_data.py:93-100 | an upsert of one entry; it fails and changes nothing when the table is missing |
| Storage.Database.Upsert | get_static_data.py:96-97 | `INSERT ... ON CONFLICT DO UPDATE` sets one entry and keeps the others |
| Storage.Database.SaveLastUpdateTimes | get_static_data.py:153-161 | the table becomes the old table overridden by the map; it fails and changes nothing when the table is missing |
| Storage.Database.UpsertAll | get_static_data.py:155-160 | upserting each entry in turn leaves the old table overridden by the map |
| Storage.Database.InsertDataChunk | get_static_data.py:70-91 | `insert_data_chunk` leaves exactly the tables that `Load` describes |
| Storage.Database.CreateTable | get_static_data.py:77-78 | a new table with the frame's columns and no rows |
| Storage.Database.AddColumns | get_static_data.py:80-84 | the `ALTER TABLE` loop widens the table by exactly the missing columns and keeps its rows |
| Storage.Database.InsertRows | get_static_data.py:86-89 | the rows are appended and the columns kept |
| Sync.CatalogWellFormed | get_static_data.py:164-187 | no two catalogue entries share a table, and no table name already carries the prefix |
| Sync.CatalogTablesUnprefixed | get_static_data.py:192 | the orchestrator's watermark key `hotelbeds_<table>` is the table the loader writes to |
| Sync.KeysDistinct | get_static_data.py:192 | no two catalogue entries share a watermark key |
| Sync.TotalItems | get_static_data.py:197-201 | `total_items` is zero exactly when every batch is empty |
| Sync.InsertAll | get_static_data.py:199-200 | after the consumer loop the entry's table exists exactly when it existed before or there was a batch |
| Sync.InsertAllRowCount | get_static_data.py:197-201 | the consumer loop appends `total_items` rows to the entry's table |
| Sync.InsertAllEffect | get_static_data.py:199-200 | the consumer loop touches only the entry's table, and the table is added exactly when there was a batch |
| Sync.InsertAllLocal | get_static_data.py:75-89 | what the consumer loop leaves in the entity's table depends only on what that table held before, not on the other tables |
| Sync.TableLoaderLoadsOwnTable | get_static_data.py:199-200 | `insert_data_chunk` on each batch in turn touches only its own table and creates it only when there is a batch |
| Sync.UpstreamRunsOf | get_static_data.py:196 | each catalogue entry's run is its pager's run from its watermark |
| Sync.FirstFailure | get_static_data.py:191-208 | the first entry whose pager raises, with every earlier entry's run ending without an exception |
| Sync.NextTimes | get_static_data.py:203-205 | the in-memory map changes at most the entry's key, which gets today's local date exactly when the entry brought records and its pager did not raise |
| Sync.NextMarks | get_static_data.py:203-206 | the watermark table changes at most the entry's row, which gets today's UTC date exactly when the entry brought records and its pager did not raise |
| Sync.RunMarks | get_static_data.py:191-210 | the loop only aborts on a pager exception, and it never loses a watermark row |
| Sync.RunTables | get_static_data.py:191-201 | with a loader that touches only its own table, the loop never loses a table |
| Sync.UpdateAll | get_static_data.py:189-210 | the run aborts for the missing watermark table exactly when the table is missing, and then changes nothing; it never loses a watermark row |
| Sync.RunOutcome | get_static_data.py:191-211 | the run completes exactly when no pager raises, and otherwise aborts with the first exception |
| Sync.RunOtherKeys | get_static_data.py:191-210 | the loop leaves every key outside the catalogue as the final save, or the abort, leaves it |
| Sync.RunEntryKeys | get_static_data.py:191-210 | an entry's watermark after the loop is today's local date after a complete run, or today's UTC date after a later abort, when the entry brought records before the first exception; otherwise it is the loaded watermark |
| Sync.UpdateAllWatermarks | get_static_data.py:189-210 | the whole run on the watermarks: the outcome, each entry's watermark, and every other watermark as loaded |
| Sync.RunTablesKeys | get_static_data.py:191-201 | the loop creates exactly the tables of the entries, up to and including the first that raises, whose pager yielded a batch |
| Sync.RunTablesKept | get_static_data.py:191-201 | the loop leaves unchanged every table but those of the entries up to and including the first that raises |
| Sync.UpdateAllTables | get_static_data.py:189-201 | the whole run on the tables: which tables are created and which are untouched |
| Sync.RunTablesEntry | get_static_data.py:191-201 | for each entry up to and including the first that raises, the loop leaves its table as its own turn loaded it: later turns do not touch it, and earlier turns do not change what it loads into |
| Sync.UpdateAllTableContents | get_static_data.py:189-201 | after a whole run, the table of every entry up to and including the first that raises is its table before the run with `insert_data_chunk` applied to each batch its pager yielded, in order |
| Sync.QuietRun | get_static_data.py:189-210 | when no feed yields or raises, the run completes and leaves the database as it was |
| Sync.UpstreamBringsRecords | get_static_data.py:197-206 | on the content API `total_items > 0` holds for an entry exactly when its pager yielded a batch (the watermark advances only if the pager also did not raise) |
| Sync.UpdateAllEndpoints | get_static_data.py:163-211 | `update_all_endpoints` leaves the database, and reports the outcome, as the run specification `UpdateAll` says |
| Sync.RunCatalog | get_static_data.py:191-210 | the catalogue loop and the save: the tables and watermarks end as the loop's specification says |
| Sync.VisitEntry | get_static_data.py:192-208 | one loop turn: the exception is the pager's, the batches are loaded, and the watermark advances exactly when the entry brought records and its pager did not raise |
| Sync.FetchEntry | get_static_data.py:192-196 | the watermark lookup and the generator give the entry's run |
| Sync.InsertBatches | get_static_data.py:197-201 | the consumer loop loads every batch in order, and `total_items` is their total size |
| Sync.AdvanceWatermark | get_static_data.py:203-206 | an entry that brought records and whose pager did not raise gets today in memory and the UTC date in the store; any other leaves both unchanged |
| Sync.RunJob | get_static_data.py:213-222 | `main` ensures the watermark table, runs the job in `ENG` from the stored watermarks (none when the table was just created), and exits with 1 exactly when the run aborts |

## Left out

- HTTP transport, request signing and `raise_for_status` (`fetch_data`,
  `generate_signature`). They are the abstract upstream function, with one
  failure reply for every exception `fetch_data` raises.
- The `time.sleep(0.25)` throttle, logging and the colour formatter, and `.env`
  loading. They have no effect on the data.
- `app.py`. It is a read-only HTTP front end with no logic of its own.
- Transactions and connections. Each statement takes effect at once. The
  `ALTER TABLE` connection at lines 82-84 is never committed in the source. It
  is modelled as if it took effect.
- Database failures, SQL identifier validity, and pandas type inference.
  Columns have no types, and every insert succeeds.
- Dates are days. `utcnow()` is the UTC day, and the `strftime`/`strptime`
  round trip is the identity on days. The time of day stored by the per-entity
  upsert is not modelled.
- `json.dumps` is the parameter `dumps`. Its serialisation format is not
  modelled.
- Floating-point JSON numbers are not modelled, and `str.lower` is modelled on
  ASCII letters only.
- Pager.PageStep: a `to` or `total` that is not an integer or a bool is
  treated as raising. Python would compare two strings or two lists
  lexicographically instead of raising.
- Pager.PageStep: a truthy payload that is not a list of objects stops the
  pager with an error and no batch. In the source it is yielded, and
  `insert_data_chunk` raises on it before touching the database. The effect on
  the run is the same.
- Generator laziness. The model collects the whole run of a pager and then
  inserts its batches. Because the upstream is a function and inserts do not
  fail, this leaves the same database and outcome as the interleaved loop.
- Termination of the pager is not proved for every upstream. Every feed of the
  catalogue is required to reach a page that ends it (`UpstreamFinite`).
- `save_last_update_times` iterates a dict in insertion order. The model
  upserts the entries in any order, which gives the same final table because
  the keys are distinct.
- Two fields of one batch that normalise to the same column name are not
  rejected. The later field's cell wins in the row (`RowOfCell`).
- The process exit goes through `sys.exit(1)` in an exception handler. It is
  modelled as the status that `RunJob` returns.
