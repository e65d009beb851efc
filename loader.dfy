/** The data-frame half of `insert_data_chunk`: how a batch of records
    becomes rows (nested values serialised as JSON text, columns without a
    single non-null value dropped, column names lower-cased with spaces as
    underscores), which table the rows go to, and what that table holds once
    the batch is loaded. The database calls themselves are in `Storage`. */
module Loader {
  import opened Wrappers
  import opened Json
  import opened Text

  /** The prefix every synchronised table name carries. */
  const TablePrefix: string := "hotelbeds_"

  /** The table a batch for `name` goes to: `name` itself when it already
      carries the prefix, the prefixed name otherwise. */
  function Prefixed(name: string): (table: string)
    ensures StartsWith(table, TablePrefix)
    ensures table == name <==> StartsWith(name, TablePrefix)
    ensures table == name || table == TablePrefix + name
  {
    if StartsWith(name, TablePrefix) then name
    else
      assert (TablePrefix + name)[..|TablePrefix|] == TablePrefix;
      TablePrefix + name
  }

  /** Prefixing a table name a second time changes nothing. */
  lemma PrefixedIdempotent(name: string)
    ensures Prefixed(Prefixed(name)) == Prefixed(name)
  {
  }

  /** A cell value: a dict or a list becomes its JSON text, anything else is
      kept as it is. */
  function Serialize(v: Value, dumps: Value -> string): (c: Value)
    ensures !IsNested(c)
    ensures c == v <==> !IsNested(v)
    ensures IsNested(v) ==> c == Str(dumps(v))
  {
    if IsNested(v) then Str(dumps(v)) else v
  }

  /** A cell needs no second serialisation: serialising it again keeps it. */
  lemma SerializeKeepsCells(v: Value, dumps: Value -> string)
    ensures Serialize(Serialize(v, dumps), dumps) == Serialize(v, dumps)
  {
  }

  /** A column name as the table sees it: lower-cased, spaces replaced by
      underscores. */
  function NormalizeName(name: string): (column: string)
    ensures |column| == |name|
    ensures forall i | 0 <= i < |name| :: column[i] == if name[i] == ' ' then '_' else LowerChar(name[i])
    ensures ' ' !in column
    ensures forall i | 0 <= i < |column| :: !('A' <= column[i] <= 'Z')
  {
    ReplaceChar(Lower(name), ' ', '_')
  }

  /** A name is left as it is exactly when it has no capital and no space;
      so normalising twice is normalising once. */
  lemma {:induction false} NormalizeNameFixes(name: string)
    ensures NormalizeName(name) == name <==> ' ' !in name && forall i | 0 <= i < |name| :: !('A' <= name[i] <= 'Z')
    ensures NormalizeName(NormalizeName(name)) == NormalizeName(name)
  {
    var column := NormalizeName(name);
    if ' ' !in name && forall i | 0 <= i < |name| :: !('A' <= name[i] <= 'Z') {
      forall i | 0 <= i < |name| ensures column[i] == name[i] {
        assert Lower(name)[i] == LowerChar(name[i]) == name[i];
      }
    }
    forall i | 0 <= i < |column| ensures NormalizeName(column)[i] == column[i] {
      assert Lower(column)[i] == LowerChar(column[i]) == column[i];
    }
  }

  /** A member that holds a value other than null. */
  predicate Present(r: Record, k: string) {
    Lookup(r, k).Some? && !Lookup(r, k).value.Null?
  }

  /** The cell of column `k` in the frame row of record `r`: missing or
      null is null, a value is serialised. */
  function Cell(r: Record, k: string, dumps: Value -> string): (c: Value)
    ensures !IsNested(c)
    ensures c.Null? <==> !Present(r, k)
    ensures Lookup(r, k).None? ==> c == Null
    ensures Lookup(r, k).Some? ==> c == Serialize(Lookup(r, k).value, dumps)
  {
    match Lookup(r, k)
    case None => Null
    case Some(v) => Serialize(v, dumps)
  }

  /** The keys of the records, in order, each as often as it occurs. */
  function KeysOf(chunk: seq<Record>): (keys: seq<string>)
    ensures forall k :: k in keys <==> exists i | 0 <= i < |chunk| :: Lookup(chunk[i], k).Some?
  {
    if chunk == [] then []
    else
      var front := chunk[..|chunk| - 1];
      var last := chunk[|chunk| - 1];
      var own := seq(|last|, j requires 0 <= j < |last| => last[j].0);
      var keys := KeysOf(front) + own;
      assert forall k :: k in keys <==> exists i | 0 <= i < |chunk| :: Lookup(chunk[i], k).Some? by {
        forall k ensures k in keys <==> exists i | 0 <= i < |chunk| :: Lookup(chunk[i], k).Some? {
          LookupFinds(last, k);
          if Lookup(last, k).Some? {
            var j :| 0 <= j < |last| && last[j].0 == k;
            assert own[j] == k;
          }
          assert k in own <==> Lookup(last, k).Some?;
          assert (exists i | 0 <= i < |front| :: Lookup(front[i], k).Some?) <==>
                 (exists i | 0 <= i < |chunk| - 1 :: Lookup(chunk[i], k).Some?) by {
            assert forall i | 0 <= i < |front| :: front[i] == chunk[i];
          }
        }
      }
      keys
  }

  /** No name occurs twice. */
  predicate Unique(names: seq<string>) {
    forall i, j | 0 <= i < j < |names| :: names[i] != names[j]
  }

  /** `keys` without repetitions, each kept where it first occurs. */
  function Distinct(keys: seq<string>): (names: seq<string>)
    ensures Unique(names)
    ensures forall k :: k in names <==> k in keys
  {
    if keys == [] then []
    else
      var names := Distinct(keys[..|keys| - 1]);
      assert forall k :: k in keys <==> k in keys[..|keys| - 1] || k == keys[|keys| - 1];
      if keys[|keys| - 1] in names then names else names + [keys[|keys| - 1]]
  }

  /** The data frame's columns before `dropna`: every key of the batch, once,
      in order of first appearance. */
  function FieldNames(chunk: seq<Record>): (names: seq<string>)
    ensures Unique(names)
    ensures forall k :: k in names <==> exists i | 0 <= i < |chunk| :: Lookup(chunk[i], k).Some?
  {
    Distinct(KeysOf(chunk))
  }

  /** Some record of the batch has a non-null value for `k`. */
  predicate Valued(chunk: seq<Record>, k: string) {
    exists i | 0 <= i < |chunk| :: Present(chunk[i], k)
  }

  /** The names among `names` that `dropna(axis=1, how='all')` keeps, in order. */
  function KeepValued(chunk: seq<Record>, names: seq<string>): (kept: seq<string>)
    ensures forall k :: k in kept <==> k in names && Valued(chunk, k)
    ensures Unique(names) ==> Unique(kept)
  {
    if names == [] then []
    else
      var last := names[|names| - 1];
      var front := names[..|names| - 1];
      var kept := KeepValued(chunk, front);
      assert forall k :: k in names <==> k in front || k == last;
      assert Unique(names) ==> Unique(front) && last !in front by {
        if Unique(names) {
          forall i, j | 0 <= i < j < |front| ensures front[i] != front[j] {
            assert front[i] == names[i] && front[j] == names[j];
          }
          forall i | 0 <= i < |front| ensures front[i] != last {
            assert front[i] == names[i];
          }
        }
      }
      if Valued(chunk, last) then kept + [last] else kept
  }

  /** The frame's columns after `dropna`, under their original names. */
  function KeptFields(chunk: seq<Record>): (fields: seq<string>)
    ensures Unique(fields)
    ensures forall k :: k in fields <==> Valued(chunk, k)
  {
    var names := FieldNames(chunk);
    assert forall k :: Valued(chunk, k) ==> k in names by {
      forall k | Valued(chunk, k) ensures k in names {
        var i :| 0 <= i < |chunk| && Present(chunk[i], k);
        assert Lookup(chunk[i], k).Some?;
      }
    }
    KeepValued(chunk, names)
  }

  /** The set of table columns a batch needs, one per kept field under its
      normalised name; a batch without a single non-null value needs none. */
  function ColumnSet(chunk: seq<Record>): (columns: set<string>)
    ensures columns == {} <==> KeptFields(chunk) == []
  {
    var fields := KeptFields(chunk);
    var columns := set k | k in fields :: NormalizeName(k);
    assert fields != [] ==> NormalizeName(fields[0]) in columns;
    columns
  }

  /** A row as `to_dict(orient='records')` gives it: each kept field under
      its normalised name; when two fields share a normalised name, the
      later column wins. */
  type Row = map<string, Value>

  function RowOf(r: Record, fields: seq<string>, dumps: Value -> string): (row: Row)
    ensures row.Keys == set k | k in fields :: NormalizeName(k)
    decreases |fields|
  {
    if fields == [] then map[]
    else
      var last := fields[|fields| - 1];
      var front := fields[..|fields| - 1];
      assert forall k :: k in fields <==> k in front || k == last;
      RowOf(r, front, dumps)[NormalizeName(last) := Cell(r, last, dumps)]
  }

  /** The position of the last field whose normalised name is `column`,
      or -1 when there is none. */
  function LastNamed(fields: seq<string>, column: string): (j: int)
    ensures -1 <= j < |fields|
    ensures j >= 0 ==> NormalizeName(fields[j]) == column
    ensures forall j' | j < j' < |fields| :: NormalizeName(fields[j']) != column
    decreases |fields|
  {
    if fields == [] then -1
    else if NormalizeName(fields[|fields| - 1]) == column then |fields| - 1
    else LastNamed(fields[..|fields| - 1], column)
  }

  /** A row has a column exactly when some field has that normalised name,
      and the cell comes from the last such field. */
  lemma {:induction false} RowOfCell(r: Record, fields: seq<string>, dumps: Value -> string, column: string)
    ensures column in RowOf(r, fields, dumps) <==> LastNamed(fields, column) >= 0
    ensures column in RowOf(r, fields, dumps) ==>
      RowOf(r, fields, dumps)[column] == Cell(r, fields[LastNamed(fields, column)], dumps)
    decreases |fields|
  {
    if fields != [] {
      var front := fields[..|fields| - 1];
      if NormalizeName(fields[|fields| - 1]) != column {
        RowOfCell(r, front, dumps, column);
        var j := LastNamed(front, column);
        if j >= 0 {
          assert fields[j] == front[j];
        }
      }
    }
  }

  /** The rows the batch inserts, one per record, in order. */
  function Rows(chunk: seq<Record>, dumps: Value -> string): (rows: seq<Row>)
    ensures |rows| == |chunk|
    ensures forall i | 0 <= i < |chunk| :: rows[i] == RowOf(chunk[i], KeptFields(chunk), dumps)
  {
    var fields := KeptFields(chunk);
    seq(|chunk|, i requires 0 <= i < |chunk| => RowOf(chunk[i], fields, dumps))
  }

  /** Row `i` of a batch holds, under each of the batch's columns, the
      value that record `i` has for the last kept field of that name: a dict
      or a list as its JSON text, any other value as it is, and null when
      the record lacks the field. */
  lemma RowsCell(chunk: seq<Record>, dumps: Value -> string, i: int, column: string)
    requires 0 <= i < |chunk| && column in ColumnSet(chunk)
    ensures var fields := KeptFields(chunk);
      var j := LastNamed(fields, column);
      && 0 <= j < |fields|
      && column in Rows(chunk, dumps)[i]
      && Rows(chunk, dumps)[i][column] ==
           match Lookup(chunk[i], fields[j])
           case None => Null
           case Some(v) => if IsNested(v) then Str(dumps(v)) else v
  {
    var fields := KeptFields(chunk);
    var k :| k in fields && NormalizeName(k) == column;
    RowOfCell(chunk[i], fields, dumps, column);
  }

  /** Every row of a batch has exactly the batch's columns. */
  lemma RowsColumns(chunk: seq<Record>, dumps: Value -> string)
    ensures forall i | 0 <= i < |chunk| :: Rows(chunk, dumps)[i].Keys == ColumnSet(chunk)
  {
  }

  /** A table: its column names and its rows in insertion order. A row
      leaves out the columns its batch did not have; they read as null. */
  datatype Table = Table(columns: set<string>, rows: seq<Row>)

  /** The tables after `insert_data_chunk(chunk, name)`: the table is created
      with the batch's columns when it does not exist, gains the batch's
      columns it lacks, and has the batch's rows appended. */
  function Load(tables: map<string, Table>, chunk: seq<Record>, name: string, dumps: Value -> string): (after: map<string, Table>)
    ensures Prefixed(name) in after
    ensures |after[Prefixed(name)].rows| ==
              (if Prefixed(name) in tables then |tables[Prefixed(name)].rows| else 0) + |chunk|
  {
    Extend(tables, Prefixed(name), ColumnSet(chunk), Rows(chunk, dumps))
  }

  /** `table` created with `columns` when missing, widened by `columns`, and
      with `rows` appended. */
  function Extend(tables: map<string, Table>, table: string, columns: set<string>, rows: seq<Row>): map<string, Table> {
    var current := if table in tables then tables[table] else Table(columns, []);
    tables[table := Table(current.columns + columns, current.rows + rows)]
  }

  /** `LoadEffect` for any columns and rows. */
  lemma ExtendEffect(tables: map<string, Table>, table: string, columns: set<string>, rows: seq<Row>)
    ensures var after := Extend(tables, table, columns, rows);
      && after.Keys == tables.Keys + {table}
      && (forall t | t in tables && t != table :: after[t] == tables[t])
      && columns <= after[table].columns
      && (table in tables ==>
            && after[table].columns - tables[table].columns == columns - tables[table].columns
            && tables[table].columns <= after[table].columns
            && after[table].rows[..|tables[table].rows|] == tables[table].rows
            && after[table].rows[|tables[table].rows|..] == rows)
      && (table !in tables ==> after[table] == Table(columns, rows))
  {
    var current := if table in tables then tables[table] else Table(columns, []);
    assert (current.rows + rows)[..|current.rows|] == current.rows;
    assert (current.rows + rows)[|current.rows|..] == rows;
    assert table !in tables ==> current.rows + rows == rows;
  }

  /** Every field with a non-null value in the batch has a column, and every
      column the batch adds comes from such a field. */
  lemma ColumnsCoverFields(chunk: seq<Record>, column: string)
    ensures column in ColumnSet(chunk) <==>
      exists i, k | 0 <= i < |chunk| && Present(chunk[i], k) :: NormalizeName(k) == column
  {
    if column in ColumnSet(chunk) {
      var k :| k in KeptFields(chunk) && NormalizeName(k) == column;
      var i :| 0 <= i < |chunk| && Present(chunk[i], k);
    }
    if exists i, k | 0 <= i < |chunk| && Present(chunk[i], k) :: NormalizeName(k) == column {
      var i, k :| 0 <= i < |chunk| && Present(chunk[i], k) && NormalizeName(k) == column;
      assert Valued(chunk, k);
    }
  }

  /** Loading a batch touches only its own table; that table keeps its
      columns and rows, gains exactly the batch's columns it lacked, and has
      one row per record appended. A table that did not exist has exactly the
      batch's columns. */
  lemma LoadEffect(tables: map<string, Table>, chunk: seq<Record>, name: string, dumps: Value -> string)
    ensures var after := Load(tables, chunk, name, dumps);
      var table := Prefixed(name);
      && after.Keys == tables.Keys + {table}
      && (forall t | t in tables && t != table :: after[t] == tables[t])
      && ColumnSet(chunk) <= after[table].columns
      && (table in tables ==>
            && after[table].columns - tables[table].columns == ColumnSet(chunk) - tables[table].columns
            && tables[table].columns <= after[table].columns
            && after[table].rows[..|tables[table].rows|] == tables[table].rows
            && after[table].rows[|tables[table].rows|..] == Rows(chunk, dumps))
      && (table !in tables ==> after[table] == Table(ColumnSet(chunk), Rows(chunk, dumps)))
  {
    ExtendEffect(tables, Prefixed(name), ColumnSet(chunk), Rows(chunk, dumps));
  }

  /** A batch whose columns are all there already adds no column; in
      particular loading a batch again never widens its table a second time. */
  lemma LoadSameSchema(tables: map<string, Table>, chunk: seq<Record>, again: seq<Record>, name: string, dumps: Value -> string)
    requires ColumnSet(again) <= ColumnSet(chunk)
    ensures var once := Load(tables, chunk, name, dumps);
      Load(once, again, name, dumps)[Prefixed(name)].columns == once[Prefixed(name)].columns
  {
  }
}
