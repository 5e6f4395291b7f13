// DuckDBDataSource of impl/db/datasource.py, reduced to the state its methods
// change: whether the connection is live, the file_log table and the tables
// the loads fill. The engine itself is not modelled: the contents of the data
// files are an oracle (`files`), reading a file projects its records onto the
// requested columns, and the wall clock (`datetime.now()`) is a parameter.

module DataSource {
  import opened Wrappers
  import opened Seqs

  datatype Cell = Null | Value(text: string)

  /** One record of a data file, by column name. */
  type Record = map<string, Cell>

  /** A Parquet or CSV file as the engine reads it. */
  datatype DataFile = DataFile(columns: seq<string>, records: seq<Record>)

  /** A table: column names and positional rows. */
  datatype Table = Table(columns: seq<string>, rows: seq<seq<Cell>>)

  /** A row of file_log: file_name is its primary key. */
  datatype LogEntry = LogEntry(fileName: string, insertedAt: int)

  datatype Database = Database(log: seq<LogEntry>, tables: map<string, Table>)

  /** A fresh in-memory database (DUCKDB_PATH is ':memory:'), with an empty file_log. */
  const EmptyDatabase: Database := Database([], map[])

  function LoggedNames(log: seq<LogEntry>): (r: seq<string>)
    ensures |r| == |log| && forall i :: 0 <= i < |log| ==> r[i] == log[i].fileName
  {
    seq(|log|, i requires 0 <= i < |log| => log[i].fileName)
  }

  /** `_has_file_been_inserted`: the log holds an entry for this path. */
  predicate Logged(db: Database, path: string)
  {
    path in LoggedNames(db.log)
  }

  /** The primary key of file_log: no file name twice. */
  predicate ValidLog(db: Database)
  {
    NoDup(LoggedNames(db.log))
  }

  /** `", ".join(columns) if columns else "*"`: None and [] both select every column. */
  function SelectedColumns(columns: Option<seq<string>>, f: DataFile): seq<string>
  {
    if columns.Some? && columns.value != [] then columns.value else f.columns
  }

  function Project(r: Record, cols: seq<string>): (row: seq<Cell>)
    ensures |row| == |cols|
    ensures forall k :: 0 <= k < |cols| ==> row[k] == (if cols[k] in r then r[cols[k]] else Null)
  {
    seq(|cols|, k requires 0 <= k < |cols| => if cols[k] in r then r[cols[k]] else Null)
  }

  function ProjectAll(f: DataFile, cols: seq<string>): (t: Table)
    ensures t.columns == cols && |t.rows| == |f.records|
    ensures forall i :: 0 <= i < |f.records| ==> t.rows[i] == Project(f.records[i], cols)
  {
    Table(cols, seq(|f.records|, i requires 0 <= i < |f.records| => Project(f.records[i], cols)))
  }

  /** `read_parquet(path)` / `read_csv_auto(path)` with a column list: a missing file or column is an engine error. */
  function ReadFile(files: map<string, DataFile>, path: string, columns: Option<seq<string>>): (r: Result<Table>)
    ensures r.Ok? <==> path in files && forall c :: c in SelectedColumns(columns, files[path]) ==> c in files[path].columns
    ensures r.Ok? ==> r.value == ProjectAll(files[path], SelectedColumns(columns, files[path]))
  {
    if path !in files then Err(EngineError("IO Error: No files found that match the pattern"))
    else
      var cols := SelectedColumns(columns, files[path]);
      if forall c :: c in cols ==> c in files[path].columns then Ok(ProjectAll(files[path], cols))
      else Err(EngineError("Binder Error: Referenced column not found"))
  }

  const NoTable: PyError := EngineError("Catalog Error: Table does not exist")

  /** CREATE OR REPLACE TABLE t AS SELECT ..., or INSERT INTO t SELECT ... */
  datatype Mode = CreateOrReplace | InsertInto

  function Apply(tables: map<string, Table>, name: string, t: Table, mode: Mode): (r: Result<map<string, Table>>)
    ensures r.Ok? ==> name in r.value && forall n :: n != name ==> (n in r.value <==> n in tables) && (n in tables ==> r.value[n] == tables[n])
    ensures mode == CreateOrReplace ==> r == Ok(tables[name := t])
    ensures mode == InsertInto ==>
              (r.Ok? <==> name in tables && |tables[name].columns| == |t.columns|)
              && (r.Ok? ==> r.value[name] == Table(tables[name].columns, tables[name].rows + t.rows))
  {
    match mode
    case CreateOrReplace => Ok(tables[name := t])
    case InsertInto =>
      if name !in tables then Err(NoTable)
      else if |tables[name].columns| != |t.columns| then Err(EngineError("Binder Error: column count mismatch"))
      else Ok(tables[name := Table(tables[name].columns, tables[name].rows + t.rows)])
  }

  /** The database after a load, and the result: Ok(true) when the file was read, Ok(false) when the log skipped it. */
  datatype Outcome = Outcome(db: Database, result: Result<bool>)

  /**
   * `_skip_load` followed by `_load_data`: a path already in the log is
   * skipped whatever the target table; otherwise the statement runs and the
   * path is logged with the current time. A failing statement changes nothing.
   */
  function Load(db: Database, files: map<string, DataFile>, path: string, table: string,
                columns: Option<seq<string>>, mode: Mode, now: int): (o: Outcome)
    ensures Logged(db, path) ==> o == Outcome(db, Ok(false))
    ensures o.result.Err? ==> o.db == db
    ensures o.result.Ok? && !o.result.value ==> o.db == db
    ensures o.result == Ok(true) ==>
              !Logged(db, path) && path in files
              && o.db.log == db.log + [LogEntry(path, now)]
              && Apply(db.tables, table, ProjectAll(files[path], SelectedColumns(columns, files[path])), mode) == Ok(o.db.tables)
    ensures (!Logged(db, path) && ReadFile(files, path, columns).Ok?
             && Apply(db.tables, table, ReadFile(files, path, columns).value, mode).Ok?) ==> o.result == Ok(true)
  {
    if Logged(db, path) then Outcome(db, Ok(false))
    else
      match ReadFile(files, path, columns)
      case Err(e) => Outcome(db, Err(e))
      case Ok(t) =>
        match Apply(db.tables, table, t, mode)
        case Err(e) => Outcome(db, Err(e))
        case Ok(tables) => Outcome(Database(db.log + [LogEntry(path, now)], tables), Ok(true))
  }

  /** Loading keeps file_name unique: a logged path is never logged again. */
  lemma LoadKeepsLogValid(db: Database, files: map<string, DataFile>, path: string, table: string,
                          columns: Option<seq<string>>, mode: Mode, now: int)
    requires ValidLog(db)
    ensures ValidLog(Load(db, files, path, table, columns, mode, now).db)
  {
    var o := Load(db, files, path, table, columns, mode, now);
    if o.result == Ok(true) {
      var names := LoggedNames(db.log);
      assert LoggedNames(o.db.log) == names + [path];
      forall i, j | 0 <= i < j < |names + [path]| ensures (names + [path])[i] != (names + [path])[j] {
        if j == |names| {
          assert (names + [path])[i] == names[i];
        } else {
          assert (names + [path])[i] == names[i] && (names + [path])[j] == names[j];
        }
      }
    }
  }

  /** The log only grows: what was logged stays logged, in the same order. */
  lemma LoadExtendsLog(db: Database, files: map<string, DataFile>, path: string, table: string,
                       columns: Option<seq<string>>, mode: Mode, now: int)
    ensures db.log <= Load(db, files, path, table, columns, mode, now).db.log
    ensures forall p :: Logged(db, p) ==> Logged(Load(db, files, path, table, columns, mode, now).db, p)
  {
    var o := Load(db, files, path, table, columns, mode, now);
    if o.result == Ok(true) {
      assert LoggedNames(o.db.log) == LoggedNames(db.log) + [path];
    }
  }

  /**
   * The log is keyed by path only: once a path has been loaded into one
   * table, loading it again into any table, in any mode, changes nothing.
   */
  lemma SecondLoadSkipped(db: Database, files: map<string, DataFile>, path: string,
                          table1: string, columns1: Option<seq<string>>, mode1: Mode, now1: int,
                          table2: string, columns2: Option<seq<string>>, mode2: Mode, now2: int)
    requires Load(db, files, path, table1, columns1, mode1, now1).result.Ok?
    ensures var o1 := Load(db, files, path, table1, columns1, mode1, now1);
            Load(o1.db, files, path, table2, columns2, mode2, now2) == Outcome(o1.db, Ok(false))
  {
    var o1 := Load(db, files, path, table1, columns1, mode1, now1);
    if o1.result == Ok(true) {
      assert LoggedNames(o1.db.log) == LoggedNames(db.log) + [path];
      assert Logged(o1.db, path);
    }
  }

  /** CREATE TABLE IF NOT EXISTS: an existing table is kept as it is. */
  function CreateIfNotExists(db: Database, name: string, columns: seq<string>): (r: Database)
    ensures name in r.tables && r.log == db.log
    ensures name in db.tables ==> r == db
    ensures name !in db.tables ==> r.tables[name] == Table(columns, [])
    ensures forall n :: n != name ==> (n in r.tables <==> n in db.tables) && (n in db.tables ==> r.tables[n] == db.tables[n])
  {
    if name in db.tables then db else db.(tables := db.tables[name := Table(columns, [])])
  }

  lemma CreateIfNotExistsIdempotent(db: Database, name: string, columns: seq<string>, columns': seq<string>)
    ensures CreateIfNotExists(CreateIfNotExists(db, name, columns), name, columns') == CreateIfNotExists(db, name, columns)
  {
  }

  /** `self.conn`: a live connection, or None after `close`. */
  datatype Connection = Open | Closed

  const NoConnection: PyError := AttributeError("'NoneType' object has no attribute 'execute'")

  class DuckDBDataSource {
    var conn: Connection
    var db: Database

    /**
     * The first construction: the fresh instance has no `conn` attribute, so
     * it connects; `persisted` is what the database path holds
     * (`EmptyDatabase` for ':memory:'), and file_log is created if missing.
     */
    constructor (persisted: Database)
      ensures conn == Open && db == persisted
    {
      conn := Open;
      db := persisted;
    }

    /**
     * `__init__` run again on the shared instance. The guard is `hasattr`, and
     * `close` sets the attribute to None rather than deleting it, so only
     * `bypass_singleton` reconnects: a closed source stays closed.
     */
    method Init(bypassSingleton: bool, persisted: Database)
      modifies this
      ensures bypassSingleton ==> conn == Open && db == persisted
      ensures !bypassSingleton ==> conn == old(conn) && db == old(db)
    {
      if bypassSingleton {
        conn := Open;
        db := persisted;
      }
    }

    /** `_has_file_been_inserted`, and `_skip_load`, which only adds a log line. */
    method HasFileBeenInserted(path: string) returns (r: Result<bool>)
      ensures conn == Closed ==> r == Err(NoConnection)
      ensures conn == Open ==> r == Ok(Logged(db, path))
    {
      if conn == Closed {
        return Err(NoConnection);
      }
      return Ok(path in LoggedNames(db.log));
    }

    /** `_log_file_insertion`: a second entry for the same name violates the primary key. */
    method LogFileInsertion(path: string, now: int) returns (r: Result<bool>)
      modifies this`db
      ensures old(conn) == Closed ==> r == Err(NoConnection) && db == old(db)
      ensures conn == Open && Logged(old(db), path) ==> r.Err? && db == old(db)
      ensures conn == Open && !Logged(old(db), path) ==> r == Ok(true) && db == old(db).(log := old(db).log + [LogEntry(path, now)])
    {
      if conn == Closed {
        return Err(NoConnection);
      }
      if path in LoggedNames(db.log) {
        return Err(EngineError("Constraint Error: Duplicate key in file_log"));
      }
      db := db.(log := db.log + [LogEntry(path, now)]);
      return Ok(true);
    }

    /** The common body of the three loaders: skip check, statement, log entry. */
    method LoadWith(files: map<string, DataFile>, path: string, table: string,
                    columns: Option<seq<string>>, mode: Mode, now: int) returns (r: Result<bool>)
      modifies this`db
      ensures old(conn) == Closed ==> r == Err(NoConnection) && db == old(db)
      ensures conn == Open ==> Outcome(db, r) == Load(old(db), files, path, table, columns, mode, now)
    {
      var skip := HasFileBeenInserted(path);
      if skip.Err? {
        return Err(skip.error);
      }
      if skip.value {
        return Ok(false);
      }
      var read := ReadFile(files, path, columns);
      if read.Err? {
        return Err(read.error);
      }
      var applied := Apply(db.tables, table, read.value, mode);
      if applied.Err? {
        return Err(applied.error);
      }
      db := db.(tables := applied.value);
      r := LogFileInsertion(path, now);
    }

    /** `load_parquet_to_table`: CREATE OR REPLACE from the file's (projected) records. */
    method LoadParquetToTable(files: map<string, DataFile>, path: string, table: string,
                              columns: Option<seq<string>>, now: int) returns (r: Result<bool>)
      modifies this`db
      ensures old(conn) == Closed ==> r == Err(NoConnection) && db == old(db)
      ensures conn == Open ==> Outcome(db, r) == Load(old(db), files, path, table, columns, CreateOrReplace, now)
    {
      r := LoadWith(files, path, table, columns, CreateOrReplace, now);
    }

    /** `append_parquet_to_table`: INSERT INTO an existing table, after its rows. */
    method AppendParquetToTable(files: map<string, DataFile>, path: string, table: string,
                                columns: Option<seq<string>>, now: int) returns (r: Result<bool>)
      modifies this`db
      ensures old(conn) == Closed ==> r == Err(NoConnection) && db == old(db)
      ensures conn == Open ==> Outcome(db, r) == Load(old(db), files, path, table, columns, InsertInto, now)
    {
      r := LoadWith(files, path, table, columns, InsertInto, now);
    }

    /**
     * `load_csv_to_table`: CREATE OR REPLACE with every column. The separator
     * only affects how the engine parses the file, which `files` already holds.
     */
    method LoadCsvToTable(files: map<string, DataFile>, path: string, table: string,
                          separator: string, now: int) returns (r: Result<bool>)
      modifies this`db
      ensures old(conn) == Closed ==> r == Err(NoConnection) && db == old(db)
      ensures conn == Open ==> Outcome(db, r) == Load(old(db), files, path, table, None, CreateOrReplace, now)
    {
      r := LoadWith(files, path, table, None, CreateOrReplace, now);
    }

    /** `SELECT COUNT(*) FROM t`, as the offer loader issues it. */
    method CountRows(table: string) returns (r: Result<int>)
      ensures conn == Closed ==> r == Err(NoConnection)
      ensures conn == Open && table in db.tables ==> r == Ok(|db.tables[table].rows|)
      ensures conn == Open && table !in db.tables ==> r == Err(NoTable)
    {
      if conn == Closed {
        return Err(NoConnection);
      }
      if table !in db.tables {
        return Err(NoTable);
      }
      return Ok(|db.tables[table].rows|);
    }

    /** CREATE TABLE IF NOT EXISTS through `queryAsPl`. */
    method CreateTableIfNotExists(table: string, columns: seq<string>) returns (r: Result<bool>)
      modifies this`db
      ensures old(conn) == Closed ==> r == Err(NoConnection) && db == old(db)
      ensures conn == Open ==> r == Ok(true) && db == CreateIfNotExists(old(db), table, columns)
    {
      if conn == Closed {
        return Err(NoConnection);
      }
      db := CreateIfNotExists(db, table, columns);
      return Ok(true);
    }

    /** `close`: drops the connection; a second call only logs a warning (`warned`). */
    method Close() returns (warned: bool)
      modifies this`conn
      ensures conn == Closed
      ensures warned <==> old(conn) == Closed
    {
      warned := conn == Closed;
      conn := Closed;
    }
  }
}
