/** `update_all_endpoints` and `main`: the job that walks the catalogue of
    content endpoints, pages through each one since its watermark, loads every
    batch into the entity's table, and advances the watermarks of the
    entities that brought new records. Any exception ends the whole run: the
    batches already loaded and the watermark upserts already made stay, and the
    final save of the in-memory watermarks is skipped. */
module Sync {
  import opened Wrappers
  import opened Json
  import opened Text
  import opened Watermarks
  import opened Pager
  import opened Loader
  import opened Storage

  /** An endpoint of the content API and the table it feeds. */
  datatype Entry = Entry(endpoint: string, table: string)

  /** The catalogue, in the order the job visits it. */
  const Catalog: seq<Entry> := [
    Entry("locations/countries", "countries"),
    Entry("locations/destinations", "destinations"),
    Entry("types/rooms", "rooms"),
    Entry("types/boards", "boards"),
    Entry("types/boardgroups", "boardgroups"),
    Entry("types/accommodations", "accommodations"),
    Entry("types/categories", "categories"),
    Entry("types/chains", "chains"),
    Entry("types/classifications", "classifications"),
    Entry("types/facilities", "facilities"),
    Entry("types/facilitygroups", "facilitygroups"),
    Entry("types/facilitytypologies", "facilitytypologies"),
    Entry("types/groupcategories", "groupcategories"),
    Entry("types/issues", "issues"),
    Entry("types/languages", "languages"),
    Entry("types/promotions", "promotions"),
    Entry("types/segments", "segments"),
    Entry("types/imagetypes", "imagetypes"),
    Entry("types/currencies", "currencies"),
    Entry("types/terminals", "terminals"),
    Entry("types/ratecomments", "ratecomments"),
    Entry("hotels", "hotels")
  ]

  /** The page size of every feed the job opens. */
  const BatchSize: nat := 1000

  /** The language `main` synchronises. */
  const DefaultLanguage: string := "ENG"

  /** What the job runs against besides the database: the content API, the
      JSON encoder used for nested values, and today's date (local and UTC). */
  datatype Env = Env(api: Request -> Reply, dumps: Value -> string, clock: Clock)

  /** Why a run ended early. */
  datatype Failure = Fetch(error: Error) | NoWatermarkTable

  datatype Outcome = Completed | Aborted(failure: Failure)

  /** The database contents the job changes. */
  datatype State = State(tables: map<string, Table>, marks: map<string, Day>)

  /** The watermark key of an entity's table. */
  function FullName(table: string): string {
    TablePrefix + table
  }

  /** The feed opened for an entity, given its watermark. */
  function FeedFor(env: Env, language: string, e: Entry, since: Option<Day>): Feed {
    Feed(env.api, e.endpoint, language, BatchSize, since)
  }

  /** Every feed the job can open ends: the content API eventually answers
      every catalogue endpoint with a page that stops the pager. */
  ghost predicate UpstreamFinite(cat: seq<Entry>, api: Request -> Reply, language: string) {
    forall i: nat, since: Option<Day> | i < |cat| ::
      Finite(Feed(api, cat[i].endpoint, language, BatchSize, since))
  }

  /** The rows a table holds, none when it does not exist. */
  function RowCount(tables: map<string, Table>, table: string): nat {
    if table in tables then |tables[table].rows| else 0
  }

  /** The tables after `insert_data_chunk` on each batch in turn: the
      entity's table exists afterwards exactly when it existed before or
      there was a batch. */
  function InsertAll(tables: map<string, Table>, batches: seq<seq<Record>>, name: string, dumps: Value -> string): (after: map<string, Table>)
    ensures Prefixed(name) in after <==> Prefixed(name) in tables || batches != []
  {
    if batches == [] then tables
    else Load(InsertAll(tables, batches[..|batches| - 1], name, dumps), batches[|batches| - 1], name, dumps)
  }

  /** Loading batches touches only their table, which exists afterwards
      when there was a batch. */
  lemma {:induction false} InsertAllEffect(tables: map<string, Table>, batches: seq<seq<Record>>, name: string, dumps: Value -> string)
    ensures var after := InsertAll(tables, batches, name, dumps);
      && after.Keys == tables.Keys + (if batches == [] then {} else {Prefixed(name)})
      && forall t | t in tables && t != Prefixed(name) :: after[t] == tables[t]
  {
    if batches != [] {
      var front := batches[..|batches| - 1];
      InsertAllEffect(tables, front, name, dumps);
      LoadEffect(InsertAll(tables, front, name, dumps), batches[|batches| - 1], name, dumps);
    }
  }

  /** The consumer loop appends one row per record to the entity's table:
      `total_items` rows in all. */
  lemma {:induction false} InsertAllRowCount(tables: map<string, Table>, batches: seq<seq<Record>>, name: string, dumps: Value -> string)
    ensures RowCount(InsertAll(tables, batches, name, dumps), Prefixed(name)) == RowCount(tables, Prefixed(name)) + TotalItems(batches)
  {
    if batches != [] {
      InsertAllRowCount(tables, batches[..|batches| - 1], name, dumps);
    }
  }

  /** How a loop turn loads an entry's batches into the tables. */
  type TableLoad = (map<string, Table>, seq<seq<Record>>, string) -> map<string, Table>

  /** `insert_data_chunk` on each batch in turn, with `dumps` encoding the
      nested values. */
  function TableLoader(dumps: Value -> string): TableLoad {
    (tables: map<string, Table>, batches: seq<seq<Record>>, name: string) => InsertAll(tables, batches, name, dumps)
  }

  /** A batch loader that touches only the named table, creates it when
      there is a batch, and does nothing when there is none. */
  ghost predicate LoadsOwnTable(load: TableLoad) {
    forall tables: map<string, Table>, batches: seq<seq<Record>>, name: string {:trigger load(tables, batches, name)} ::
      && (batches == [] ==> load(tables, batches, name) == tables)
      && load(tables, batches, name).Keys == tables.Keys + (if batches == [] then {} else {Prefixed(name)})
      && forall t | t in tables && t != Prefixed(name) :: load(tables, batches, name)[t] == tables[t]
  }

  /** `insert_data_chunk` touches only the table it loads into. */
  lemma TableLoaderLoadsOwnTable(dumps: Value -> string)
    ensures LoadsOwnTable(TableLoader(dumps))
  {
    forall tables: map<string, Table>, batches: seq<seq<Record>>, name: string {
      InsertAllEffect(tables, batches, name, dumps);
    }
  }

  /** A batch loader whose effect on the named table depends on that table
      alone, and not on the other tables. */
  ghost predicate LoadsLocally(load: TableLoad) {
    forall t1: map<string, Table>, t2: map<string, Table>, batches: seq<seq<Record>>, name: string
      {:trigger load(t1, batches, name), load(t2, batches, name)} ::
      Get(t1, Prefixed(name)) == Get(t2, Prefixed(name)) ==>
        Get(load(t1, batches, name), Prefixed(name)) == Get(load(t2, batches, name), Prefixed(name))
  }

  /** What `insert_data_chunk` on each batch in turn leaves in the entity's
      table depends only on what that table held before. */
  lemma {:induction false} InsertAllLocal(t1: map<string, Table>, t2: map<string, Table>, batches: seq<seq<Record>>,
                                          name: string, dumps: Value -> string)
    requires Get(t1, Prefixed(name)) == Get(t2, Prefixed(name))
    ensures Get(InsertAll(t1, batches, name, dumps), Prefixed(name)) == Get(InsertAll(t2, batches, name, dumps), Prefixed(name))
  {
    if batches != [] {
      InsertAllLocal(t1, t2, batches[..|batches| - 1], name, dumps);
    }
  }

  lemma TableLoaderLoadsLocally(dumps: Value -> string)
    ensures LoadsLocally(TableLoader(dumps))
  {
    forall t1: map<string, Table>, t2: map<string, Table>, batches: seq<seq<Record>>, name: string
      | Get(t1, Prefixed(name)) == Get(t2, Prefixed(name))
      ensures Get(InsertAll(t1, batches, name, dumps), Prefixed(name)) == Get(InsertAll(t2, batches, name, dumps), Prefixed(name))
    {
      InsertAllLocal(t1, t2, batches, name, dumps);
    }
  }

  /** `total_items` after the consumer loop: the records of all batches. */
  function TotalItems(batches: seq<seq<Record>>): (total: nat)
    ensures total == 0 <==> forall i | 0 <= i < |batches| :: batches[i] == []
  {
    if batches == [] then 0 else TotalItems(batches[..|batches| - 1]) + |batches[|batches| - 1]|
  }

  /** The pager runs of the catalogue: `runs(i, since)` is what the feed of
      entry `i` yields when opened with watermark `since`. */
  type Runs = (nat, Option<Day>) -> Run

  /** The runs of the catalogue on a content API whose feeds all end. */
  ghost function UpstreamRuns(cat: seq<Entry>, env: Env, language: string): Runs
    requires UpstreamFinite(cat, env.api, language)
  {
    (i: nat, since: Option<Day>) =>
      if i < |cat| then Trace(FeedFor(env, language, cat[i], since)) else Run([], None)
  }

  /** `runs` gives the pager runs of every catalogue feed; stated one feed
      at a time, as the loop opens them. */
  ghost predicate RunsOf(cat: seq<Entry>, runs: Runs, env: Env, language: string) {
    && UpstreamFinite(cat, env.api, language)
    && forall i: nat, since: Option<Day> {:trigger Trace(FeedFor(env, language, cat[i], since))} | i < |cat| ::
         runs(i, since) == Trace(FeedFor(env, language, cat[i], since))
  }

  /** The upstream's runs are the runs of its feeds. */
  lemma UpstreamRunsOf(cat: seq<Entry>, env: Env, language: string) returns (runs: Runs)
    requires UpstreamFinite(cat, env.api, language)
    ensures runs == UpstreamRuns(cat, env, language) && RunsOf(cat, runs, env, language)
  {
    runs := UpstreamRuns(cat, env, language);
  }

  /** The feed of an entry brought records and did not raise: the entry's
      watermark advances. */
  function Advanced(run: Run): bool {
    run.failure.None? && TotalItems(run.batches) > 0
  }

  /** The in-memory watermarks after entry `i`'s turn: today's local date
      for an entry that brought records and whose feed did not raise. */
  function NextTimes(cat: seq<Entry>, env: Env, i: nat, run: Run, times: map<string, Day>): (next: map<string, Day>)
    requires i < |cat|
    ensures next.Keys == times.Keys + (if Advanced(run) then {Key(cat, i)} else {})
    ensures next - {Key(cat, i)} == times - {Key(cat, i)}
    ensures Key(cat, i) in next ==> next[Key(cat, i)] == if Advanced(run) then env.clock.today else times[Key(cat, i)]
  {
    if Advanced(run) then times[Key(cat, i) := env.clock.today] else times
  }

  /** The watermark table after entry `i`'s turn: the `utcnow` day upserted
      for an entry that brought records and whose feed did not raise. */
  function NextMarks(cat: seq<Entry>, env: Env, i: nat, run: Run, marks: map<string, Day>): (next: map<string, Day>)
    requires i < |cat|
    ensures next.Keys == marks.Keys + (if Advanced(run) then {Key(cat, i)} else {})
    ensures next - {Key(cat, i)} == marks - {Key(cat, i)}
    ensures Key(cat, i) in next ==> next[Key(cat, i)] == if Advanced(run) then env.clock.utcToday else marks[Key(cat, i)]
  {
    if Advanced(run) then marks[Key(cat, i) := env.clock.utcToday] else marks
  }

  /** The watermark table and the outcome of the catalogue loop from entry
      `i` on: an entry's feed is opened from its in-memory watermark; a feed
      that raises ends the run with the table as it is, and after the last
      entry the in-memory watermarks are saved over the table. */
  ghost function RunMarks(cat: seq<Entry>, runs: Runs, env: Env, i: nat, marks: map<string, Day>, times: map<string, Day>): (r: (map<string, Day>, Outcome))
    requires i <= |cat|
    ensures r.1.Aborted? ==> r.1.failure.Fetch?
    ensures marks.Keys <= r.0.Keys
    decreases |cat| - i
  {
    if i == |cat| then (marks + times, Completed)
    else
      var run := runs(i, Get(times, Key(cat, i)));
      if run.failure.Some? then (marks, Aborted(Fetch(run.failure.value)))
      else RunMarks(cat, runs, env, i + 1, NextMarks(cat, env, i, run, marks), NextTimes(cat, env, i, run, times))
  }

  /** The tables after the catalogue loop from entry `i` on: every batch an
      entry's feed yields is loaded, those of a feed that raises included. */
  ghost function RunTables(cat: seq<Entry>, runs: Runs, env: Env, load: TableLoad, i: nat, tables: map<string, Table>, times: map<string, Day>): (after: map<string, Table>)
    requires i <= |cat|
    ensures LoadsOwnTable(load) ==> tables.Keys <= after.Keys
    decreases |cat| - i
  {
    if i == |cat| then tables
    else
      var run := runs(i, Get(times, Key(cat, i)));
      var loaded := load(tables, run.batches, cat[i].table);
      if run.failure.Some? then loaded
      else RunTables(cat, runs, env, load, i + 1, loaded, NextTimes(cat, env, i, run, times))
  }

  /** `update_all_endpoints(language)` on a database with the given tables
      and watermark table: a missing watermark table raises before anything
      is fetched. */
  ghost function UpdateAll(cat: seq<Entry>, runs: Runs, env: Env, tables: map<string, Table>,
                           marksTable: bool, marks: map<string, Day>): (r: (State, Outcome))
    ensures r.1 == Aborted(NoWatermarkTable) <==> !marksTable
    ensures !marksTable ==> r.0 == State(tables, marks)
    ensures marks.Keys <= r.0.marks.Keys
  {
    if !marksTable then (State(tables, marks), Aborted(NoWatermarkTable))
    else
      var r := RunMarks(cat, runs, env, 0, marks, marks);
      (State(RunTables(cat, runs, env, TableLoader(env.dumps), 0, tables, marks), r.0), r.1)
  }

  /** `update_all_endpoints(language)`. */
  method UpdateAllEndpoints(db: Database, env: Env, language: string) returns (outcome: Outcome)
    requires UpstreamFinite(Catalog, env.api, language)
    modifies db
    ensures db.marksTable == old(db.marksTable)
    ensures (State(db.tables, db.marks), outcome)
         == UpdateAll(Catalog, UpstreamRuns(Catalog, env, language), env, old(db.tables), old(db.marksTable), old(db.marks))
  {
    ghost var runs := UpstreamRunsOf(Catalog, env, language);
    var loaded := db.LoadLastUpdateTimes();
    if loaded.None? {
      return Aborted(NoWatermarkTable);
    }
    outcome := RunCatalog(Catalog, db, env, language, loaded.value, runs);
  }

  /** The catalogue loop and the final save, with the watermarks `times`
      loaded into memory. */
  method RunCatalog(cat: seq<Entry>, db: Database, env: Env, language: string, times: map<string, Day>, ghost runs: Runs)
    returns (outcome: Outcome)
    requires db.marksTable && RunsOf(cat, runs, env, language)
    modifies db
    ensures db.marksTable
    ensures db.tables == RunTables(cat, runs, env, TableLoader(env.dumps), 0, old(db.tables), times)
    ensures (db.marks, outcome) == RunMarks(cat, runs, env, 0, old(db.marks), times)
  {
    ghost var goalTables := RunTables(cat, runs, env, TableLoader(env.dumps), 0, db.tables, times);
    ghost var goalMarks := RunMarks(cat, runs, env, 0, db.marks, times);
    var memo := times;
    var i := 0;
    while i < |cat|
      invariant 0 <= i <= |cat|
      invariant db.marksTable
      invariant RunTables(cat, runs, env, TableLoader(env.dumps), i, db.tables, memo) == goalTables
      invariant RunMarks(cat, runs, env, i, db.marks, memo) == goalMarks
    {
      ghost var (tables, marks, before) := (db.tables, db.marks, memo);
      var failure;
      memo, failure := VisitEntry(cat, db, env, language, i, memo, runs);
      LoopStep(cat, runs, env, i, tables, marks, before);
      if failure.Some? {
        return Aborted(Fetch(failure.value));
      }
      i := i + 1;
    }
    var _ := db.SaveLastUpdateTimes(memo);
    return Completed;
  }

  /** One turn of the catalogue loop, on the tables and on the watermarks. */
  lemma LoopStep(cat: seq<Entry>, runs: Runs, env: Env, i: nat,
                 tables: map<string, Table>, marks: map<string, Day>, times: map<string, Day>)
    requires i < |cat|
    ensures var run := runs(i, Get(times, Key(cat, i)));
      var loaded := TableLoader(env.dumps)(tables, run.batches, cat[i].table);
      var times' := NextTimes(cat, env, i, run, times);
      && RunTables(cat, runs, env, TableLoader(env.dumps), i, tables, times)
         == (if run.failure.Some? then loaded else RunTables(cat, runs, env, TableLoader(env.dumps), i + 1, loaded, times'))
      && RunMarks(cat, runs, env, i, marks, times)
         == (if run.failure.Some? then (marks, Aborted(Fetch(run.failure.value)))
             else RunMarks(cat, runs, env, i + 1, NextMarks(cat, env, i, run, marks), times'))
  {
  }

  /** The body of the catalogue loop for entry `i`: the watermark lookup,
      the generator and the consumer loop, and, when the entry brought
      records, the in-memory watermark and the watermark upsert. */
  method VisitEntry(cat: seq<Entry>, db: Database, env: Env, language: string, i: nat, times: map<string, Day>, ghost runs: Runs)
    returns (times': map<string, Day>, failure: Option<Error>)
    requires i < |cat| && db.marksTable && RunsOf(cat, runs, env, language)
    modifies db
    ensures db.marksTable
    ensures var run := runs(i, Get(times, Key(cat, i)));
      && failure == run.failure
      && db.tables == TableLoader(env.dumps)(old(db.tables), run.batches, cat[i].table)
      && db.marks == NextMarks(cat, env, i, run, old(db.marks))
      && times' == NextTimes(cat, env, i, run, times)
  {
    var batches;
    batches, failure := FetchEntry(cat, env, language, i, times, runs);
    var total := InsertBatches(db, batches, cat[i].table, env.dumps);
    times' := AdvanceWatermark(cat, db, env, i, Run(batches, failure), total, times);
  }

  /** The watermark lookup and the generator of entry `i`'s turn. */
  method FetchEntry(cat: seq<Entry>, env: Env, language: string, i: nat, times: map<string, Day>, ghost runs: Runs)
    returns (batches: seq<seq<Record>>, failure: Option<Error>)
    requires i < |cat| && RunsOf(cat, runs, env, language)
    ensures Run(batches, failure) == runs(i, Get(times, Key(cat, i)))
  {
    var entry := cat[i];
    var feed := FeedFor(env, language, entry, Get(times, FullName(entry.table)));
    batches, failure := FetchAll(feed);
    assert runs(i, Get(times, Key(cat, i))) == Trace(feed);
  }

  /** The end of entry `i`'s turn: when its feed brought records and did
      not raise, today's date goes into memory and the UTC date into the
      watermark table. */
  method AdvanceWatermark(cat: seq<Entry>, db: Database, env: Env, i: nat, run: Run, total: nat, times: map<string, Day>)
    returns (times': map<string, Day>)
    requires i < |cat| && db.marksTable && total == TotalItems(run.batches)
    modifies db`marks
    ensures db.marksTable
    ensures db.marks == NextMarks(cat, env, i, run, old(db.marks))
    ensures times' == NextTimes(cat, env, i, run, times)
  {
    var full := FullName(cat[i].table);
    times' := times;
    if run.failure.None? && total > 0 {
      times' := times[full := env.clock.today];
      var _ := db.UpdateLastUpdatedTime(full, env.clock.utcToday);
    }
  }

  /** The consumer loop: `insert_data_chunk` on each batch, counting the
      records. */
  method InsertBatches(db: Database, batches: seq<seq<Record>>, name: string, dumps: Value -> string) returns (total: nat)
    modifies db`tables
    ensures db.tables == InsertAll(old(db.tables), batches, name, dumps)
    ensures total == TotalItems(batches)
  {
    ghost var start := db.tables;
    total := 0;
    var j := 0;
    while j < |batches|
      invariant 0 <= j <= |batches|
      invariant db.tables == InsertAll(start, batches[..j], name, dumps)
      invariant total == TotalItems(batches[..j])
    {
      InsertAllSnoc(start, batches, j, name, dumps);
      db.InsertDataChunk(batches[j], name, dumps);
      total := total + |batches[j]|;
      j := j + 1;
    }
    WholePrefix(batches);
  }

  /** Consuming one more batch: its records are counted and it is loaded
      after the ones before it. */
  lemma InsertAllSnoc(tables: map<string, Table>, batches: seq<seq<Record>>, j: nat, name: string, dumps: Value -> string)
    requires j < |batches|
    ensures InsertAll(tables, batches[..j + 1], name, dumps) == Load(InsertAll(tables, batches[..j], name, dumps), batches[j], name, dumps)
    ensures TotalItems(batches[..j + 1]) == TotalItems(batches[..j]) + |batches[j]|
  {
    assert batches[..j + 1][..j] == batches[..j];
  }

  lemma WholePrefix(batches: seq<seq<Record>>)
    ensures batches[..|batches|] == batches
  {
  }

  /** `main()` under the script's exception handler: the watermark table is
      ensured, the job runs in the default language, and an exception ends
      the process with exit status 1. */
  method RunJob(db: Database, env: Env) returns (outcome: Outcome, status: int)
    requires UpstreamFinite(Catalog, env.api, DefaultLanguage)
    modifies db
    ensures db.marksTable
    ensures (State(db.tables, db.marks), outcome)
         == UpdateAll(Catalog, UpstreamRuns(Catalog, env, DefaultLanguage), env, old(db.tables), true,
                      if old(db.marksTable) then old(db.marks) else map[])
    ensures status == if outcome.Completed? then 0 else 1
  {
    db.CreateLastUpdatedTimeTable();
    outcome := UpdateAllEndpoints(db, env, DefaultLanguage);
    status := if outcome.Completed? then 0 else 1;
  }

  /** The watermark key of catalogue entry `j`. */
  function Key(cat: seq<Entry>, j: nat): string
    requires j < |cat|
  {
    FullName(cat[j].table)
  }

  /** A catalogue the job can run: no two entries share a table, and no
      table name already carries the table prefix. */
  predicate WellFormed(cat: seq<Entry>) {
    && (forall i, j | 0 <= i < j < |cat| :: cat[i].table != cat[j].table)
    && (forall j | 0 <= j < |cat| :: !StartsWith(cat[j].table, TablePrefix))
  }

  /** The script's catalogue is well formed. */
  lemma CatalogWellFormed()
    ensures WellFormed(Catalog)
  {
    CatalogTablesDistinct();
    forall j | 0 <= j < |Catalog|
      ensures !StartsWith(Catalog[j].table, TablePrefix)
    {
      Unprefixed(Catalog[j].table);
    }
  }

  /** No two entries of the script's catalogue share a table. */
  lemma CatalogTablesDistinct()
    ensures forall i, j | 0 <= i < j < |Catalog| :: Catalog[i].table != Catalog[j].table
  {
  }

  /** A name shorter than the prefix, or not starting as it does, is not
      prefixed. */
  lemma Unprefixed(name: string)
    requires |name| < |TablePrefix| || name[0] != TablePrefix[0]
    ensures !StartsWith(name, TablePrefix)
  {
    if |TablePrefix| <= |name| {
      assert name[..|TablePrefix|][0] == name[0];
    }
  }

  /** No two catalogue entries share a watermark key. */
  lemma KeysDistinct(cat: seq<Entry>, i: nat, j: nat)
    requires WellFormed(cat)
    requires i < |cat| && j < |cat| && i != j
    ensures Key(cat, i) != Key(cat, j)
  {
    assert cat[i].table == Key(cat, i)[|TablePrefix|..] && cat[j].table == Key(cat, j)[|TablePrefix|..];
  }

  /** The watermark keys of the entries from `i` on. */
  function KeysFrom(cat: seq<Entry>, i: nat): set<string> {
    set j: nat | i <= j < |cat| :: Key(cat, j)
  }

  /** The watermark entry `j` is opened with: the one loaded at the start. */
  function Since(cat: seq<Entry>, m0: map<string, Day>, j: nat): Option<Day>
    requires j < |cat|
  {
    Get(m0, Key(cat, j))
  }

  /** The first entry from `i` on whose feed raises, or `|cat|` when
      none does. */
  ghost function FirstFailure(cat: seq<Entry>, runs: Runs, m0: map<string, Day>, i: nat): (k: nat)
    requires i <= |cat|
    ensures i <= k <= |cat|
    ensures k < |cat| ==> runs(k, Since(cat, m0, k)).failure.Some?
    ensures forall j | i <= j < k :: runs(j, Since(cat, m0, j)).failure.None?
    decreases |cat| - i
  {
    if i == |cat| then i
    else if runs(i, Since(cat, m0, i)).failure.Some? then i
    else FirstFailure(cat, runs, m0, i + 1)
  }

  /** Entry `j` brought records: `total_items > 0` after its consumer loop,
      whether or not its feed raised afterwards. */
  ghost predicate BroughtRecords(cat: seq<Entry>, runs: Runs, m0: map<string, Day>, j: nat)
    requires j < |cat|
  {
    TotalItems(runs(j, Since(cat, m0, j)).batches) > 0
  }

  /** Entry `i`'s key is not among the later entries' keys. */
  lemma KeyNotLater(cat: seq<Entry>, i: nat)
    requires WellFormed(cat)
    requires i < |cat|
    ensures Key(cat, i) !in KeysFrom(cat, i + 1)
  {
    forall j: nat | i + 1 <= j < |cat| ensures Key(cat, j) != Key(cat, i) {
      KeysDistinct(cat, i, j);
    }
  }

  /** The memory still holds the loaded watermarks `m0` for the entries
      from `i` on. */
  predicate AgreeFrom(cat: seq<Entry>, i: nat, times: map<string, Day>, m0: map<string, Day>) {
    forall j | i <= j < |cat| :: Get(times, Key(cat, j)) == Since(cat, m0, j)
  }

  /** A turn changes only its own entry's key. */
  lemma {:induction false} TurnKeepsLater(cat: seq<Entry>, env: Env, i: nat, run: Run, times: map<string, Day>, m0: map<string, Day>)
    requires WellFormed(cat)
    requires i < |cat| && AgreeFrom(cat, i, times, m0)
    ensures AgreeFrom(cat, i + 1, NextTimes(cat, env, i, run, times), m0)
    ensures AgreeFrom(cat, i + 1, NextMarks(cat, env, i, run, times), m0)
  {
    forall j | i + 1 <= j < |cat| ensures Key(cat, j) != Key(cat, i) {
      KeysDistinct(cat, i, j);
    }
  }

  /** Entry `i`'s turn of the loop on the watermarks when its feed does not
      raise: the loop goes on from the next entry with the watermarks this
      turn leaves, and the memory still holds the loaded watermarks of the
      entries left. */
  lemma MarksTurn(cat: seq<Entry>, runs: Runs, env: Env, m0: map<string, Day>, i: nat,
                  marks: map<string, Day>, times: map<string, Day>)
    returns (marks': map<string, Day>, times': map<string, Day>)
    requires WellFormed(cat)
    requires i < |cat| && AgreeFrom(cat, i, times, m0)
    requires runs(i, Since(cat, m0, i)).failure.None?
    ensures var run := runs(i, Since(cat, m0, i));
      && marks' == NextMarks(cat, env, i, run, marks)
      && times' == NextTimes(cat, env, i, run, times)
      && RunMarks(cat, runs, env, i, marks, times) == RunMarks(cat, runs, env, i + 1, marks', times')
      && FirstFailure(cat, runs, m0, i) == FirstFailure(cat, runs, m0, i + 1)
      && AgreeFrom(cat, i + 1, times', m0)
  {
    var run := runs(i, Since(cat, m0, i));
    assert Get(times, Key(cat, i)) == Since(cat, m0, i);
    marks', times' := NextMarks(cat, env, i, run, marks), NextTimes(cat, env, i, run, times);
    TurnKeepsLater(cat, env, i, run, times, m0);
  }

  /** The catalogue loop from entry `i` on, when the memory still holds the
      loaded watermarks for the entries left: the run completes exactly when
      no feed raises, and otherwise ends with the first exception. */
  lemma {:induction false} RunOutcome(cat: seq<Entry>, runs: Runs, env: Env, m0: map<string, Day>, i: nat,
                                      marks: map<string, Day>, times: map<string, Day>)
    requires WellFormed(cat)
    requires i <= |cat| && AgreeFrom(cat, i, times, m0)
    ensures var r := RunMarks(cat, runs, env, i, marks, times);
      var k := FirstFailure(cat, runs, m0, i);
      && (r.1 == Completed <==> k == |cat|)
      && (k < |cat| ==> r.1 == Aborted(Fetch(runs(k, Since(cat, m0, k)).failure.value)))
    decreases |cat| - i
  {
    if i < |cat| {
      assert Get(times, Key(cat, i)) == Since(cat, m0, i);
      if runs(i, Since(cat, m0, i)).failure.None? {
        var marks', times' := MarksTurn(cat, runs, env, m0, i, marks, times);
        RunOutcome(cat, runs, env, m0, i + 1, marks', times');
      }
    }
  }

  /** Keys other than those of the entries from `i` on end as the saved
      memory leaves them, or as the table left them when the run aborts. */
  lemma {:induction false} RunOtherKeys(cat: seq<Entry>, runs: Runs, env: Env, m0: map<string, Day>, i: nat,
                                        marks: map<string, Day>, times: map<string, Day>)
    requires WellFormed(cat)
    requires i <= |cat| && AgreeFrom(cat, i, times, m0)
    ensures var r := RunMarks(cat, runs, env, i, marks, times);
      forall t | t !in KeysFrom(cat, i) :: Get(r.0, t) == if r.1.Completed? then Get(marks + times, t) else Get(marks, t)
    decreases |cat| - i, 1
  {
    if i < |cat| {
      assert Get(times, Key(cat, i)) == Since(cat, m0, i);
      if runs(i, Since(cat, m0, i)).failure.None? {
        OtherKeysTurn(cat, runs, env, m0, i, marks, times);
      }
    }
  }

  /** `RunOtherKeys` for an entry whose feed does not raise: its turn
      changes only its own key. */
  lemma {:induction false} OtherKeysTurn(cat: seq<Entry>, runs: Runs, env: Env, m0: map<string, Day>, i: nat,
                                         marks: map<string, Day>, times: map<string, Day>)
    requires WellFormed(cat)
    requires i < |cat| && AgreeFrom(cat, i, times, m0)
    requires runs(i, Since(cat, m0, i)).failure.None?
    ensures var r := RunMarks(cat, runs, env, i, marks, times);
      forall t | t !in KeysFrom(cat, i) :: Get(r.0, t) == if r.1.Completed? then Get(marks + times, t) else Get(marks, t)
    decreases |cat| - i, 0
  {
    var marks', times' := MarksTurn(cat, runs, env, m0, i, marks, times);
    RunOtherKeys(cat, runs, env, m0, i + 1, marks', times');
    var r := RunMarks(cat, runs, env, i + 1, marks', times');
    forall t | t !in KeysFrom(cat, i)
      ensures Get(r.0, t) == if r.1.Completed? then Get(marks + times, t) else Get(marks, t)
    {
      assert t !in KeysFrom(cat, i + 1);
      assert Get(marks' + times', t) == Get(marks + times, t) && Get(marks', t) == Get(marks, t) by {
        assert t != Key(cat, i);
      }
    }
  }

  /** The watermark entry `j` holds after the loop from entry `i` on: the
      local date when the run completes and the entry brought records before
      the first exception, the UTC date of its upsert when the run aborts
      later, and otherwise the loaded watermark. */
  lemma {:induction false} RunEntryKeys(cat: seq<Entry>, runs: Runs, env: Env, m0: map<string, Day>, i: nat,
                                        marks: map<string, Day>, times: map<string, Day>, j: nat)
    requires WellFormed(cat)
    requires i <= j < |cat| && AgreeFrom(cat, i, times, m0) && AgreeFrom(cat, i, marks, m0)
    ensures var r := RunMarks(cat, runs, env, i, marks, times);
      Get(r.0, Key(cat, j)) ==
        if j < FirstFailure(cat, runs, m0, i) && BroughtRecords(cat, runs, m0, j)
        then Some(if r.1.Completed? then env.clock.today else env.clock.utcToday)
        else Since(cat, m0, j)
    decreases |cat| - i, 1
  {
    if runs(i, Since(cat, m0, i)).failure.Some? {
      assert Get(times, Key(cat, i)) == Since(cat, m0, i);
      assert Get(marks, Key(cat, j)) == Since(cat, m0, j);
    } else if j == i {
      var marks', times' := MarksTurn(cat, runs, env, m0, i, marks, times);
      OwnTurnKey(cat, runs, env, m0, i, marks, times);
    } else {
      EntryKeysTurn(cat, runs, env, m0, i, marks, times, j);
    }
  }

  /** `RunEntryKeys` for a later entry `j` when entry `i`'s feed does not
      raise: entry `i`'s turn leaves `j`'s watermark alone. */
  lemma {:induction false} EntryKeysTurn(cat: seq<Entry>, runs: Runs, env: Env, m0: map<string, Day>, i: nat,
                                         marks: map<string, Day>, times: map<string, Day>, j: nat)
    requires WellFormed(cat)
    requires i < j < |cat| && AgreeFrom(cat, i, times, m0) && AgreeFrom(cat, i, marks, m0)
    requires runs(i, Since(cat, m0, i)).failure.None?
    ensures var r := RunMarks(cat, runs, env, i, marks, times);
      Get(r.0, Key(cat, j)) ==
        if j < FirstFailure(cat, runs, m0, i) && BroughtRecords(cat, runs, m0, j)
        then Some(if r.1.Completed? then env.clock.today else env.clock.utcToday)
        else Since(cat, m0, j)
    decreases |cat| - i, 0
  {
    var marks', times' := MarksTurn(cat, runs, env, m0, i, marks, times);
    TurnKeepsLater(cat, env, i, runs(i, Since(cat, m0, i)), marks, m0);
    RunEntryKeys(cat, runs, env, m0, i + 1, marks', times', j);
  }

  /** Entry `i`'s own watermark when its feed does not raise: its later
      turns leave it as its turn set it. */
  lemma OwnTurnKey(cat: seq<Entry>, runs: Runs, env: Env, m0: map<string, Day>, i: nat,
                   marks: map<string, Day>, times: map<string, Day>)
    requires WellFormed(cat)
    requires i < |cat| && AgreeFrom(cat, i, times, m0) && AgreeFrom(cat, i, marks, m0)
    requires runs(i, Since(cat, m0, i)).failure.None?
    ensures var run := runs(i, Since(cat, m0, i));
      var r := RunMarks(cat, runs, env, i + 1, NextMarks(cat, env, i, run, marks), NextTimes(cat, env, i, run, times));
      Get(r.0, Key(cat, i)) ==
        if BroughtRecords(cat, runs, m0, i)
        then Some(if r.1.Completed? then env.clock.today else env.clock.utcToday)
        else Since(cat, m0, i)
  {
    var run := runs(i, Since(cat, m0, i));
    var marks', times' := NextMarks(cat, env, i, run, marks), NextTimes(cat, env, i, run, times);
    KeyNotLater(cat, i);
    TurnKeepsLater(cat, env, i, run, times, m0);
    RunOtherKeys(cat, runs, env, m0, i + 1, marks', times');
    assert Get(marks, Key(cat, i)) == Since(cat, m0, i) && Get(times, Key(cat, i)) == Since(cat, m0, i);
  }

  /** The watermarks after a whole run on a database with a watermark
      table holding `m0`: the run completes exactly when no feed raises and
      otherwise reports the first exception; an entry that brought records
      before the first exception holds today's local date after a complete
      run and the UTC date of its upsert after an aborted one; every other
      watermark is as loaded. */
  lemma UpdateAllWatermarks(cat: seq<Entry>, runs: Runs, env: Env, tables: map<string, Table>, m0: map<string, Day>)
    requires WellFormed(cat)
    ensures var (st, outcome) := UpdateAll(cat, runs, env, tables, true, m0);
      var k := FirstFailure(cat, runs, m0, 0);
      && (outcome == Completed <==> k == |cat|)
      && (k < |cat| ==> outcome == Aborted(Fetch(runs(k, Since(cat, m0, k)).failure.value)))
      && (forall j | 0 <= j < |cat| :: Get(st.marks, Key(cat, j)) ==
            if j < k && BroughtRecords(cat, runs, m0, j)
            then Some(if outcome.Completed? then env.clock.today else env.clock.utcToday)
            else Since(cat, m0, j))
      && (forall t | t !in KeysFrom(cat, 0) :: Get(st.marks, t) == Get(m0, t))
  {
    var r := RunMarks(cat, runs, env, 0, m0, m0);
    assert UpdateAll(cat, runs, env, tables, true, m0).0.marks == r.0;
    assert UpdateAll(cat, runs, env, tables, true, m0).1 == r.1;
    LoopWatermarks(cat, runs, env, m0);
  }

  /** The catalogue loop and the save on the loaded watermarks `m0`. */
  lemma LoopWatermarks(cat: seq<Entry>, runs: Runs, env: Env, m0: map<string, Day>)
    requires WellFormed(cat)
    ensures var (marks, outcome) := RunMarks(cat, runs, env, 0, m0, m0);
      var k := FirstFailure(cat, runs, m0, 0);
      && (outcome == Completed <==> k == |cat|)
      && (k < |cat| ==> outcome == Aborted(Fetch(runs(k, Since(cat, m0, k)).failure.value)))
      && (forall j | 0 <= j < |cat| :: Get(marks, Key(cat, j)) ==
            if j < k && BroughtRecords(cat, runs, m0, j)
            then Some(if outcome.Completed? then env.clock.today else env.clock.utcToday)
            else Since(cat, m0, j))
      && (forall t | t !in KeysFrom(cat, 0) :: Get(marks, t) == Get(m0, t))
  {
    var (marks, outcome) := RunMarks(cat, runs, env, 0, m0, m0);
    var k := FirstFailure(cat, runs, m0, 0);
    RunOutcome(cat, runs, env, m0, 0, m0, m0);
    assert forall t | t !in KeysFrom(cat, 0) :: Get(marks, t) == Get(m0, t) by {
      RunOtherKeys(cat, runs, env, m0, 0, m0, m0);
      assert m0 + m0 == m0;
    }
    forall j | 0 <= j < |cat|
      ensures Get(marks, Key(cat, j)) ==
        if j < k && BroughtRecords(cat, runs, m0, j)
        then Some(if outcome.Completed? then env.clock.today else env.clock.utcToday)
        else Since(cat, m0, j)
    {
      RunEntryKeys(cat, runs, env, m0, 0, m0, m0, j);
    }
  }

  /** The catalogue tables carry no prefix yet: each entry loads into the
      table its watermark is keyed by. */
  lemma CatalogTablesUnprefixed(cat: seq<Entry>, j: nat)
    requires WellFormed(cat)
    requires j < |cat|
    ensures Prefixed(cat[j].table) == Key(cat, j)
  {
  }

  /** The watermark keys of the entries `i` to `k`. */
  function KeysBetween(cat: seq<Entry>, i: nat, k: nat): (keys: set<string>)
    ensures forall j | i <= j <= k && j < |cat| :: Key(cat, j) in keys
    decreases |cat| - i
  {
    if k < i || |cat| <= i then {} else {Key(cat, i)} + KeysBetween(cat, i + 1, k)
  }

  /** The tables created among the entries `i` to `k`: those whose feed
      yielded a batch. */
  ghost function Created(cat: seq<Entry>, runs: Runs, m0: map<string, Day>, i: nat, k: nat): (created: set<string>)
    ensures created <= KeysBetween(cat, i, k)
    ensures forall j | i <= j <= k && j < |cat| :: Key(cat, j) in created <== runs(j, Since(cat, m0, j)).batches != []
    decreases |cat| - i
  {
    if k < i || |cat| <= i then {}
    else (if runs(i, Since(cat, m0, i)).batches == [] then {} else {Key(cat, i)}) + Created(cat, runs, m0, i + 1, k)
  }

  /** The keys of the entries `i` to `k` are among those from `i` on. */
  lemma {:induction false} KeysBetweenFrom(cat: seq<Entry>, i: nat, k: nat)
    ensures KeysBetween(cat, i, k) <= KeysFrom(cat, i)
    decreases |cat| - i
  {
    if !(k < i || |cat| <= i) {
      KeysBetweenFrom(cat, i + 1, k);
      assert KeysFrom(cat, i + 1) <= KeysFrom(cat, i);
    }
  }

  /** Entry `i`'s turn of the loop on the tables: its batches are loaded
      into its own table, which exists afterwards when there was one, and
      the loop goes on from the next entry unless its feed raised. */
  lemma TablesTurn(cat: seq<Entry>, runs: Runs, env: Env, load: TableLoad, m0: map<string, Day>, i: nat,
                   tables: map<string, Table>, times: map<string, Day>)
    returns (loaded: map<string, Table>, times': map<string, Day>)
    requires WellFormed(cat)
    requires i < |cat| && AgreeFrom(cat, i, times, m0) && LoadsOwnTable(load)
    ensures var run := runs(i, Since(cat, m0, i));
      && loaded == load(tables, run.batches, cat[i].table)
      && loaded.Keys == tables.Keys + (if run.batches == [] then {} else {Key(cat, i)})
      && (forall t | t in tables && t != Key(cat, i) :: loaded[t] == tables[t])
      && (run.failure.Some? ==> RunTables(cat, runs, env, load, i, tables, times) == loaded)
      && (run.failure.None? ==> RunTables(cat, runs, env, load, i, tables, times) == RunTables(cat, runs, env, load, i + 1, loaded, times')
                                && AgreeFrom(cat, i + 1, times', m0))
  {
    var run := runs(i, Since(cat, m0, i));
    assert Get(times, Key(cat, i)) == Since(cat, m0, i);
    loaded := load(tables, run.batches, cat[i].table);
    CatalogTablesUnprefixed(cat, i);
    times' := NextTimes(cat, env, i, run, times);
    TurnKeepsLater(cat, env, i, run, times, m0);
  }

  /** A turn whose feed raises ends the loop with that entry's batches
      loaded. */
  lemma FailedTurnTables(cat: seq<Entry>, runs: Runs, env: Env, load: TableLoad, m0: map<string, Day>, i: nat,
                         tables: map<string, Table>, times: map<string, Day>)
    requires WellFormed(cat)
    requires i < |cat| && AgreeFrom(cat, i, times, m0) && LoadsOwnTable(load)
    requires runs(i, Since(cat, m0, i)).failure.Some?
    ensures var after := RunTables(cat, runs, env, load, i, tables, times);
      && FirstFailure(cat, runs, m0, i) == i
      && after.Keys == tables.Keys + Created(cat, runs, m0, i, i)
      && forall t | t in tables && t !in KeysBetween(cat, i, i) :: t in after && after[t] == tables[t]
  {
    var loaded, times' := TablesTurn(cat, runs, env, load, m0, i, tables, times);
    assert Created(cat, runs, m0, i + 1, i) == {} && KeysBetween(cat, i + 1, i) == {};
  }

  /** The tables that exist after the loop from entry `i` on: a table is
      created for each entry up to the first exception, that one included,
      whose feed yielded a batch. */
  lemma {:induction false} RunTablesKeys(cat: seq<Entry>, runs: Runs, env: Env, load: TableLoad, m0: map<string, Day>, i: nat,
                                         tables: map<string, Table>, times: map<string, Day>)
    requires WellFormed(cat)
    requires i <= |cat| && AgreeFrom(cat, i, times, m0) && LoadsOwnTable(load)
    ensures RunTables(cat, runs, env, load, i, tables, times).Keys == tables.Keys + Created(cat, runs, m0, i, FirstFailure(cat, runs, m0, i))
    decreases |cat| - i, 1
  {
    if i == |cat| {
      assert Created(cat, runs, m0, i, i) == {};
    } else if runs(i, Since(cat, m0, i)).failure.Some? {
      FailedTurnTables(cat, runs, env, load, m0, i, tables, times);
    } else {
      KeysTurn(cat, runs, env, load, m0, i, tables, times);
    }
  }

  /** `RunTablesKeys` for an entry whose feed does not raise: its own table
      and those created by the rest of the loop. */
  lemma {:induction false} KeysTurn(cat: seq<Entry>, runs: Runs, env: Env, load: TableLoad, m0: map<string, Day>, i: nat,
                                    tables: map<string, Table>, times: map<string, Day>)
    requires WellFormed(cat)
    requires i < |cat| && AgreeFrom(cat, i, times, m0) && LoadsOwnTable(load)
    requires runs(i, Since(cat, m0, i)).failure.None?
    ensures RunTables(cat, runs, env, load, i, tables, times).Keys == tables.Keys + Created(cat, runs, m0, i, FirstFailure(cat, runs, m0, i))
    decreases |cat| - i, 0
  {
    var loaded, times' := TablesTurn(cat, runs, env, load, m0, i, tables, times);
    RunTablesKeys(cat, runs, env, load, m0, i + 1, loaded, times');
    CreatedStep(cat, runs, m0, i);
    KeysStep(tables.Keys, loaded.Keys, RunTables(cat, runs, env, load, i + 1, loaded, times').Keys,
             if runs(i, Since(cat, m0, i)).batches == [] then {} else {Key(cat, i)},
             Created(cat, runs, m0, i + 1, FirstFailure(cat, runs, m0, i + 1)));
  }

  /** The key sets of one turn and of the rest of the loop add up. */
  lemma KeysStep(before: set<string>, loaded: set<string>, after: set<string>, own: set<string>, later: set<string>)
    requires loaded == before + own && after == loaded + later
    ensures after == before + (own + later)
  {
  }

  /** An entry whose feed does not raise adds its own table, if it
      yielded a batch, to those created after it. */
  lemma CreatedStep(cat: seq<Entry>, runs: Runs, m0: map<string, Day>, i: nat)
    requires i < |cat| && runs(i, Since(cat, m0, i)).failure.None?
    ensures FirstFailure(cat, runs, m0, i) == FirstFailure(cat, runs, m0, i + 1)
    ensures Created(cat, runs, m0, i, FirstFailure(cat, runs, m0, i))
         == (if runs(i, Since(cat, m0, i)).batches == [] then {} else {Key(cat, i)})
            + Created(cat, runs, m0, i + 1, FirstFailure(cat, runs, m0, i + 1))
  {
  }

  /** The loop from entry `i` on touches only the tables of the entries up
      to the first exception, that one included. */
  lemma {:induction false} RunTablesKept(cat: seq<Entry>, runs: Runs, env: Env, load: TableLoad, m0: map<string, Day>, i: nat,
                                         tables: map<string, Table>, times: map<string, Day>)
    requires WellFormed(cat)
    requires i <= |cat| && AgreeFrom(cat, i, times, m0) && LoadsOwnTable(load)
    ensures var after := RunTables(cat, runs, env, load, i, tables, times);
      forall t | t in tables && t !in KeysBetween(cat, i, FirstFailure(cat, runs, m0, i)) :: t in after && after[t] == tables[t]
    decreases |cat| - i, 1
  {
    if i < |cat| {
      if runs(i, Since(cat, m0, i)).failure.Some? {
        FailedTurnTables(cat, runs, env, load, m0, i, tables, times);
      } else {
        KeptTurn(cat, runs, env, load, m0, i, tables, times);
      }
    }
  }

  /** `RunTablesKept` for an entry whose feed does not raise. */
  lemma {:induction false} KeptTurn(cat: seq<Entry>, runs: Runs, env: Env, load: TableLoad, m0: map<string, Day>, i: nat,
                                    tables: map<string, Table>, times: map<string, Day>)
    requires WellFormed(cat)
    requires i < |cat| && AgreeFrom(cat, i, times, m0) && LoadsOwnTable(load)
    requires runs(i, Since(cat, m0, i)).failure.None?
    ensures var after := RunTables(cat, runs, env, load, i, tables, times);
      forall t | t in tables && t !in KeysBetween(cat, i, FirstFailure(cat, runs, m0, i)) :: t in after && after[t] == tables[t]
    decreases |cat| - i, 0
  {
    var loaded, times' := TablesTurn(cat, runs, env, load, m0, i, tables, times);
    assert FirstFailure(cat, runs, m0, i) == FirstFailure(cat, runs, m0, i + 1);
    RunTablesKept(cat, runs, env, load, m0, i + 1, loaded, times');
  }

  /** The tables after a whole run: only the tables of the entries up to
      the first exception change, and only those of them whose feed yielded
      a batch are created. */
  lemma UpdateAllTables(cat: seq<Entry>, runs: Runs, env: Env, tables: map<string, Table>, m0: map<string, Day>)
    requires WellFormed(cat)
    ensures var st := UpdateAll(cat, runs, env, tables, true, m0).0;
      var k := FirstFailure(cat, runs, m0, 0);
      && st.tables.Keys == tables.Keys + Created(cat, runs, m0, 0, k)
      && forall t | t in tables && t !in KeysBetween(cat, 0, k) :: st.tables[t] == tables[t]
  {
    TableLoaderLoadsOwnTable(env.dumps);
    RunTablesKeys(cat, runs, env, TableLoader(env.dumps), m0, 0, tables, m0);
    RunTablesKept(cat, runs, env, TableLoader(env.dumps), m0, 0, tables, m0);
  }

  /** What the loop from entry `i` on leaves in the table of entry `j`, up
      to the first exception: the loader's result on that entry's batches,
      from the table as it was when the loop reached entry `i`. */
  lemma {:induction false} RunTablesEntry(cat: seq<Entry>, runs: Runs, env: Env, load: TableLoad, m0: map<string, Day>, i: nat,
                                          tables: map<string, Table>, times: map<string, Day>, j: nat)
    requires WellFormed(cat) && LoadsOwnTable(load) && LoadsLocally(load)
    requires i <= j < |cat| && j <= FirstFailure(cat, runs, m0, i) && AgreeFrom(cat, i, times, m0)
    ensures Get(RunTables(cat, runs, env, load, i, tables, times), Key(cat, j))
         == Get(load(tables, runs(j, Since(cat, m0, j)).batches, cat[j].table), Key(cat, j))
    decreases |cat| - i, 1
  {
    if i == j {
      OwnEntryTable(cat, runs, env, load, m0, i, tables, times);
    } else {
      LaterEntryTable(cat, runs, env, load, m0, i, tables, times, j);
    }
  }

  /** `RunTablesEntry` for entry `i` itself: the later turns leave its
      table as its own turn loaded it. */
  lemma OwnEntryTable(cat: seq<Entry>, runs: Runs, env: Env, load: TableLoad, m0: map<string, Day>, i: nat,
                      tables: map<string, Table>, times: map<string, Day>)
    requires WellFormed(cat) && LoadsOwnTable(load)
    requires i < |cat| && AgreeFrom(cat, i, times, m0)
    ensures Get(RunTables(cat, runs, env, load, i, tables, times), Key(cat, i))
         == Get(load(tables, runs(i, Since(cat, m0, i)).batches, cat[i].table), Key(cat, i))
  {
    var loaded, times' := TablesTurn(cat, runs, env, load, m0, i, tables, times);
    if runs(i, Since(cat, m0, i)).failure.None? {
      var k := FirstFailure(cat, runs, m0, i + 1);
      var after := RunTables(cat, runs, env, load, i + 1, loaded, times');
      RunTablesKeys(cat, runs, env, load, m0, i + 1, loaded, times');
      RunTablesKept(cat, runs, env, load, m0, i + 1, loaded, times');
      KeyNotLater(cat, i);
      KeysBetweenFrom(cat, i + 1, k);
      assert Key(cat, i) !in Created(cat, runs, m0, i + 1, k);
      assert Get(after, Key(cat, i)) == Get(loaded, Key(cat, i));
    }
  }

  /** `RunTablesEntry` for a later entry `j`: entry `i`'s turn leaves
      entry `j`'s table as it was. */
  lemma {:induction false} LaterEntryTable(cat: seq<Entry>, runs: Runs, env: Env, load: TableLoad, m0: map<string, Day>, i: nat,
                                           tables: map<string, Table>, times: map<string, Day>, j: nat)
    requires WellFormed(cat) && LoadsOwnTable(load) && LoadsLocally(load)
    requires i < j < |cat| && j <= FirstFailure(cat, runs, m0, i) && AgreeFrom(cat, i, times, m0)
    ensures Get(RunTables(cat, runs, env, load, i, tables, times), Key(cat, j))
         == Get(load(tables, runs(j, Since(cat, m0, j)).batches, cat[j].table), Key(cat, j))
    decreases |cat| - i, 0
  {
    var loaded, times' := TablesTurn(cat, runs, env, load, m0, i, tables, times);
    assert runs(i, Since(cat, m0, i)).failure.None?;
    assert FirstFailure(cat, runs, m0, i) == FirstFailure(cat, runs, m0, i + 1);
    RunTablesEntry(cat, runs, env, load, m0, i + 1, loaded, times', j);
    KeysDistinct(cat, i, j);
    CatalogTablesUnprefixed(cat, j);
    OtherTableKept(tables, loaded, Key(cat, i), Key(cat, j));
    var batches := runs(j, Since(cat, m0, j)).batches;
    LoadSameTable(load, loaded, tables, batches, cat[j].table);
    assert RunTables(cat, runs, env, load, i, tables, times) == RunTables(cat, runs, env, load, i + 1, loaded, times');
    calc {
      Get(RunTables(cat, runs, env, load, i + 1, loaded, times'), Key(cat, j));
      Get(load(loaded, batches, cat[j].table), Key(cat, j));
      Get(load(tables, batches, cat[j].table), Key(cat, j));
    }
  }

  /** A turn that changes only table `own` leaves table `t` as it was. */
  lemma OtherTableKept(tables: map<string, Table>, loaded: map<string, Table>, own: string, t: string)
    requires t != own
    requires tables.Keys <= loaded.Keys <= tables.Keys + {own}
    requires forall u | u in tables && u != own :: loaded[u] == tables[u]
    ensures Get(loaded, t) == Get(tables, t)
  {
  }

  lemma LoadSameTable(load: TableLoad, t1: map<string, Table>, t2: map<string, Table>, batches: seq<seq<Record>>, name: string)
    requires LoadsLocally(load) && Get(t1, Prefixed(name)) == Get(t2, Prefixed(name))
    ensures Get(load(t1, batches, name), Prefixed(name)) == Get(load(t2, batches, name), Prefixed(name))
  {
  }

  /** The table of every entry up to and including the first that raises,
      after a whole run: the table as it was before the run, with
      `insert_data_chunk` applied to each batch the entry's feed yielded, in
      order. `UpdateAllTables` says every other table is untouched. */
  lemma UpdateAllTableContents(cat: seq<Entry>, runs: Runs, env: Env, tables: map<string, Table>, m0: map<string, Day>, j: nat)
    requires WellFormed(cat) && j < |cat| && j <= FirstFailure(cat, runs, m0, 0)
    ensures Get(UpdateAll(cat, runs, env, tables, true, m0).0.tables, Key(cat, j))
         == Get(InsertAll(tables, runs(j, Since(cat, m0, j)).batches, cat[j].table, env.dumps), Key(cat, j))
  {
    TableLoaderLoadsOwnTable(env.dumps);
    TableLoaderLoadsLocally(env.dumps);
    RunTablesEntry(cat, runs, env, TableLoader(env.dumps), m0, 0, tables, m0, j);
  }

  /** No feed from entry `i` on yields anything or raises. */
  ghost predicate QuietFrom(cat: seq<Entry>, runs: Runs, m0: map<string, Day>, i: nat) {
    forall j | i <= j < |cat| :: runs(j, Since(cat, m0, j)) == Run([], None)
  }

  /** A quiet loop changes nothing before the save. */
  lemma {:induction false} QuietLoop(cat: seq<Entry>, runs: Runs, env: Env, load: TableLoad, m0: map<string, Day>, i: nat,
                                     tables: map<string, Table>, marks: map<string, Day>, times: map<string, Day>)
    requires i <= |cat| && AgreeFrom(cat, i, times, m0) && QuietFrom(cat, runs, m0, i) && LoadsOwnTable(load)
    ensures RunTables(cat, runs, env, load, i, tables, times) == tables
    ensures RunMarks(cat, runs, env, i, marks, times) == (marks + times, Completed)
    decreases |cat| - i
  {
    if i < |cat| {
      assert Get(times, Key(cat, i)) == Since(cat, m0, i);
      var run := runs(i, Since(cat, m0, i));
      assert run == Run([], None);
      assert load(tables, run.batches, cat[i].table) == tables;
      assert NextTimes(cat, env, i, run, times) == times && NextMarks(cat, env, i, run, marks) == marks;
      QuietLoop(cat, runs, env, load, m0, i + 1, tables, marks, times);
    }
  }

  /** When no feed yields anything or raises, the run completes and leaves
      the database as it was. */
  lemma QuietRun(cat: seq<Entry>, runs: Runs, env: Env, tables: map<string, Table>, m0: map<string, Day>)
    requires QuietFrom(cat, runs, m0, 0)
    ensures UpdateAll(cat, runs, env, tables, true, m0) == (State(tables, m0), Completed)
  {
    TableLoaderLoadsOwnTable(env.dumps);
    QuietLoop(cat, runs, env, TableLoader(env.dumps), m0, 0, tables, m0, m0);
    assert m0 + m0 == m0;
  }

  /** On the content API, `total_items > 0` holds for an entry exactly when
      its feed yields a batch: the pager never yields an empty one. Whether
      the watermark then advances also depends on the feed not raising
      (`Advanced`). */
  lemma UpstreamBringsRecords(cat: seq<Entry>, env: Env, language: string, m0: map<string, Day>, j: nat)
    requires UpstreamFinite(cat, env.api, language) && j < |cat|
    ensures var runs := UpstreamRuns(cat, env, language);
      BroughtRecords(cat, runs, m0, j) <==> runs(j, Since(cat, m0, j)).batches != []
  {
    var feed := FeedFor(env, language, cat[j], Since(cat, m0, j));
    assert Finite(feed);
    FeedBatchesNonEmpty(feed);
    var batches := Trace(feed).batches;
    assert UpstreamRuns(cat, env, language)(j, Since(cat, m0, j)) == Trace(feed);
    if batches != [] {
      assert batches[0] != [];
    }
  }
}
