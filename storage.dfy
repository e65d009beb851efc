/** The database the job writes to: the synchronised tables and the
    watermark table `hotelbeds_last_updated_time`, one row per table with the
    day it was last updated. Each method is one of the functions of the job
    that talks to the database. */
module Storage {
  import opened Wrappers
  import opened Json
  import opened Watermarks
  import opened Loader

  class Database {
    /** The synchronised tables, by name. */
    var tables: map<string, Table>
    /** Whether `hotelbeds_last_updated_time` exists. */
    var marksTable: bool
    /** Its rows: table name to the day of the table's last update. */
    var marks: map<string, Day>

    constructor (tables: map<string, Table>)
      ensures this.tables == tables && !marksTable && marks == map[]
    {
      this.tables := tables;
      marksTable := false;
      marks := map[];
    }

    /** `create_last_updated_time_table`: `CREATE TABLE IF NOT EXISTS`, so an
        existing table keeps its rows and a new one has none. */
    method CreateLastUpdatedTimeTable()
      modifies this`marksTable, this`marks
      ensures marksTable
      ensures marks == if old(marksTable) then old(marks) else map[]
    {
      if !marksTable {
        marksTable := true;
        marks := map[];
      }
    }

    /** `load_last_update_times`: every watermark row, or the error the
        query raises when the table is missing. */
    method LoadLastUpdateTimes() returns (times: Option<map<string, Day>>)
      ensures times.Some? <==> marksTable
      ensures times.Some? ==> times.value == marks
    {
      if marksTable {
        times := Some(marks);
      } else {
        times := None;
      }
    }

    /** `update_last_updated_time(table_name)`: an upsert of `(table, day)`;
        it fails, changing nothing, when the watermark table is missing. */
    method UpdateLastUpdatedTime(table: string, day: Day) returns (ok: bool)
      modifies this`marks
      ensures ok == marksTable
      ensures marks == if ok then old(marks)[table := day] else old(marks)
    {
      ok := marksTable;
      if ok {
        Upsert(table, day);
      }
    }

    /** The `INSERT ... ON CONFLICT (table_name) DO UPDATE` statement both
        writers of the watermark table run. */
    method Upsert(table: string, day: Day)
      requires marksTable
      modifies this`marks
      ensures marks == old(marks)[table := day]
    {
      marks := marks[table := day];
    }

    /** `save_last_update_times(last_update_times)`: one upsert per entry,
        all in one transaction; it fails, changing nothing, when the
        watermark table is missing. */
    method SaveLastUpdateTimes(times: map<string, Day>) returns (ok: bool)
      modifies this`marks
      ensures ok == marksTable
      ensures marks == if ok then old(marks) + times else old(marks)
    {
      ok := marksTable;
      if !ok {
        return;
      }
      UpsertAll(times);
    }

    /** The upsert loop of the save. */
    method UpsertAll(times: map<string, Day>)
      requires marksTable
      modifies this`marks
      ensures marks == old(marks) + times
    {
      ghost var start := marks;
      var pending := times.Keys;
      ghost var done: set<string> := {};
      while pending != {}
        invariant pending + done == times.Keys && pending !! done
        invariant SavedSoFar(start, times, done, marks)
        decreases pending
      {
        var t :| t in pending;
        SaveOne(start, times, done, marks, t);
        Upsert(t, times[t]);
        done := done + {t};
        pending := pending - {t};
      }
      SavedAll(start, times, marks);
    }

    /** `insert_data_chunk(chunk, table_name)`: the frame is built, the
        table created from the frame's columns when it does not exist, each
        column of the frame the table lacks added, and the rows inserted. */
    method InsertDataChunk(chunk: seq<Record>, name: string, dumps: Value -> string)
      modifies this`tables
      ensures tables == Load(old(tables), chunk, name, dumps)
    {
      var columns := ColumnSet(chunk);
      var rows := Rows(chunk, dumps);
      var table := Prefixed(name);
      ghost var before := tables;
      ghost var current := if table in tables then tables[table] else Table(columns, []);
      if table !in tables {
        CreateTable(table, columns);
      }
      AddColumns(table, columns);
      UpdateTwice(before, table, current, Table(current.columns + columns, current.rows));
      assert tables == before[table := Table(current.columns + columns, current.rows)];
      InsertRows(table, rows);
      UpdateTwice(before, table, Table(current.columns + columns, current.rows), Table(current.columns + columns, current.rows + rows));
      assert tables == Extend(before, table, columns, rows);
    }

    /** `df.head(0).to_sql(table, ...)`: a new table with the frame's
        columns and no rows. */
    method CreateTable(table: string, columns: set<string>)
      requires table !in tables
      modifies this`tables
      ensures tables == old(tables)[table := Table(columns, [])]
    {
      tables := tables[table := Table(columns, [])];
    }

    /** The `ALTER TABLE ... ADD COLUMN` loop over the frame's columns the
        table lacks. */
    method AddColumns(table: string, columns: set<string>)
      requires table in tables
      modifies this`tables
      ensures tables == old(tables)[table := Table(old(tables)[table].columns + columns, old(tables)[table].rows)]
    {
      var missing := columns - tables[table].columns;
      ghost var before := tables;
      while missing != {}
        invariant table in tables && missing <= columns - before[table].columns
        invariant tables == before[table := tables[table]]
        invariant tables[table] == Table(before[table].columns + (columns - missing), before[table].rows)
        decreases missing
      {
        var column :| column in missing;
        UpdateTwice(before, table, tables[table], Table(tables[table].columns + {column}, tables[table].rows));
        ghost var widened := before[table].columns + (columns - (missing - {column}));
        assert tables[table].columns + {column} == widened;
        tables := tables[table := Table(tables[table].columns + {column}, tables[table].rows)];
        missing := missing - {column};
      }
      assert tables[table].columns == before[table].columns + columns;
    }

    /** `connection.execute(insert(table), records)`: the rows appended. */
    method InsertRows(table: string, rows: seq<Row>)
      requires table in tables
      modifies this`tables
      ensures tables == old(tables)[table := Table(old(tables)[table].columns, old(tables)[table].rows + rows)]
    {
      tables := tables[table := Table(tables[table].columns, tables[table].rows + rows)];
    }
  }

  lemma UpdateTwice<K, V>(m: map<K, V>, k: K, v: V, w: V)
    ensures m[k := v][k := w] == m[k := w]
  {
  }

  /** After upserting the watermarks of `done`, the table holds those of
      `times` for them and the old ones elsewhere. */
  ghost predicate SavedSoFar(start: map<string, Day>, times: map<string, Day>, done: set<string>, marks: map<string, Day>) {
    && done <= times.Keys
    && marks.Keys == start.Keys + done
    && forall t | t in marks :: marks[t] == if t in done then times[t] else start[t]
  }

  /** One more upsert of the save loop. */
  lemma SaveOne(start: map<string, Day>, times: map<string, Day>, done: set<string>, marks: map<string, Day>, t: string)
    requires SavedSoFar(start, times, done, marks) && t in times
    ensures SavedSoFar(start, times, done + {t}, marks[t := times[t]])
  {
  }

  /** Once every watermark of `times` is upserted, the table is the old one
      overridden by `times`. */
  lemma SavedAll(start: map<string, Day>, times: map<string, Day>, marks: map<string, Day>)
    requires SavedSoFar(start, times, times.Keys, marks)
    ensures marks == start + times
  {
    assert marks.Keys == (start + times).Keys;
  }
}
