// load_angebot_data and initialize_offer_table of
// impl/db/loaders/load_temp_offers_data.py: the weekly offer files around a
// seal date are looked up in the offer folders, the first one found creates
// the `angebot` table and every later one is appended to it, each through the
// file log of the data source.

module OfferLoader {
  import opened Wrappers
  import opened Seqs
  import opened Helpers
  import opened DataSource

  const AngebotTable: string := "angebot"
  const AngebotColumns: seq<string> := ["produkt_id", "haendler_bez", "dtimebegin", "dtimeend"]

  /** `generate_weeks_around_seal` is called without `weeks_in_year`, so its default of 52 applies. */
  const DefaultWeeksInYear: int := 52

  /** `file_exists_in_folders(name, ANGEBOTE_FOLDER)` under the Parquet directory. */
  function Locate(name: string, existing: set<string>): Option<string>
  {
    FirstExisting(CandidatePaths(name, FolderList(AngeboteFolders), ParquetFilesDir), existing)
  }

  /** The paths found for the week names, in week order; names with no file are passed over. */
  function FoundPaths(names: seq<string>, existing: set<string>): (r: seq<string>)
    ensures |r| <= |names|
    decreases |names|
  {
    if names == [] then []
    else
      match Locate(names[0], existing)
      case Some(p) => [p] + FoundPaths(names[1..], existing)
      case None => FoundPaths(names[1..], existing)
  }

  /** One more week name adds its located path, if any, at the end. */
  lemma {:induction false} FoundPathsSnoc(names: seq<string>, name: string, existing: set<string>)
    ensures FoundPaths(names + [name], existing)
         == FoundPaths(names, existing) + (if Locate(name, existing).Some? then [Locate(name, existing).value] else [])
    decreases |names|
  {
    if names == [] {
      assert [name][1..] == [];
    } else {
      assert (names + [name])[0] == names[0] && (names + [name])[1..] == names[1..] + [name];
      FoundPathsSnoc(names[1..], name, existing);
      if Locate(names[0], existing).Some? {
        AppendAssoc([Locate(names[0], existing).value], FoundPaths(names[1..], existing),
                    if Locate(name, existing).Some? then [Locate(name, existing).value] else []);
      }
    }
  }

  /** Every found path exists. */
  lemma {:induction false} FoundPathsExist(names: seq<string>, existing: set<string>)
    ensures forall p :: p in FoundPaths(names, existing) ==> p in existing
    decreases |names|
  {
    if names != [] {
      FoundPathsExist(names[1..], existing);
      FirstExistingMember(CandidatePaths(names[0], FolderList(AngeboteFolders), ParquetFilesDir), existing);
    }
  }

  /** No path is found exactly when no week name has a file in any offer folder. */
  lemma {:induction false} FoundPathsEmpty(names: seq<string>, existing: set<string>)
    ensures FoundPaths(names, existing) == [] <==> forall k :: 0 <= k < |names| ==> Locate(names[k], existing).None?
    decreases |names|
  {
    if names != [] {
      var rest := names[1..];
      FoundPathsEmpty(rest, existing);
      if Locate(names[0], existing).None? {
        if forall k :: 0 <= k < |rest| ==> Locate(rest[k], existing).None? {
          forall k | 0 <= k < |names| ensures Locate(names[k], existing).None? {
            if k > 0 { assert names[k] == rest[k - 1]; }
          }
        } else {
          var k :| 0 <= k < |rest| && Locate(rest[k], existing).Some?;
          assert names[k + 1] == rest[k];
        }
      }
    }
  }

  /**
   * The loads issued for the found paths: the first one with CREATE OR
   * REPLACE, every later one with INSERT INTO, and the first error ends the
   * run. The result carries `table_initialized`, which is set by the first
   * found file even when the log skipped its load.
   */
  function LoadSequence(db: Database, files: map<string, DataFile>, paths: seq<string>,
                        initialized: bool, columns: seq<string>, now: int): Outcome
    decreases |paths|
  {
    if paths == [] then Outcome(db, Ok(initialized))
    else
      var o := Load(db, files, paths[0], AngebotTable, Some(columns),
                    if initialized then InsertInto else CreateOrReplace, now);
      if o.result.Err? then o
      else LoadSequence(o.db, files, paths[1..], true, columns, now)
  }

  /** After a successful run every found path is in the log, and the flag says whether any path was found. */
  lemma {:induction false} LoadSequenceLogsAll(db: Database, files: map<string, DataFile>, paths: seq<string>,
                                                initialized: bool, columns: seq<string>, now: int)
    requires LoadSequence(db, files, paths, initialized, columns, now).result.Ok?
    ensures var o := LoadSequence(db, files, paths, initialized, columns, now);
            o.result.value == (initialized || paths != [])
            && (forall p :: p in paths ==> Logged(o.db, p))
            && (forall p :: Logged(db, p) ==> Logged(o.db, p))
    decreases |paths|
  {
    if paths != [] {
      var o := Load(db, files, paths[0], AngebotTable, Some(columns),
                    if initialized then InsertInto else CreateOrReplace, now);
      LoadExtendsLog(db, files, paths[0], AngebotTable, Some(columns),
                     if initialized then InsertInto else CreateOrReplace, now);
      SecondLoadSkipped(db, files, paths[0], AngebotTable, Some(columns),
                        if initialized then InsertInto else CreateOrReplace, now,
                        AngebotTable, Some(columns), InsertInto, now);
      assert Logged(o.db, paths[0]);
      LoadSequenceLogsAll(o.db, files, paths[1..], true, columns, now);
      forall p | p in paths ensures Logged(LoadSequence(db, files, paths, initialized, columns, now).db, p) {
        if p != paths[0] {
          assert p in paths[1..];
        }
      }
    }
  }

  /** When every path is already logged, the run skips them all and changes nothing. */
  lemma {:induction false} LoadSequenceAllLogged(db: Database, files: map<string, DataFile>, paths: seq<string>,
                                                  initialized: bool, columns: seq<string>, now: int)
    requires forall p :: p in paths ==> Logged(db, p)
    ensures LoadSequence(db, files, paths, initialized, columns, now) == Outcome(db, Ok(initialized || paths != []))
    decreases |paths|
  {
    if paths != [] {
      assert paths[0] in paths;
      forall p | p in paths[1..] ensures Logged(db, p) {
        assert p in paths;
      }
      LoadSequenceAllLogged(db, files, paths[1..], true, columns, now);
    }
  }

  /** Loading the same seal date twice: the second run finds every file logged and changes nothing. */
  lemma ReloadIsNoOp(db: Database, files: map<string, DataFile>, paths: seq<string>,
                     columns: seq<string>, now: int, later: int)
    requires LoadSequence(db, files, paths, false, columns, now).result.Ok?
    ensures var o := LoadSequence(db, files, paths, false, columns, now);
            LoadSequence(o.db, files, paths, false, columns, later) == Outcome(o.db, Ok(paths != []))
  {
    var o := LoadSequence(db, files, paths, false, columns, now);
    LoadSequenceLogsAll(db, files, paths, false, columns, now);
    LoadSequenceAllLogged(o.db, files, paths, false, columns, later);
  }

  /** A run keeps file_name unique in the log. */
  lemma {:induction false} LoadSequenceKeepsLogValid(db: Database, files: map<string, DataFile>, paths: seq<string>,
                                                      initialized: bool, columns: seq<string>, now: int)
    requires ValidLog(db)
    ensures ValidLog(LoadSequence(db, files, paths, initialized, columns, now).db)
    decreases |paths|
  {
    if paths != [] {
      var mode := if initialized then InsertInto else CreateOrReplace;
      var o := Load(db, files, paths[0], AngebotTable, Some(columns), mode, now);
      LoadKeepsLogValid(db, files, paths[0], AngebotTable, Some(columns), mode, now);
      if o.result.Ok? {
        LoadSequenceKeepsLogValid(o.db, files, paths[1..], true, columns, now);
      }
    }
  }

  /** The value returned: 0 when no file was found, else the row count of the table. */
  function LoaderResult(o: Outcome): Result<int>
  {
    match o.result
    case Err(e) => Err(e)
    case Ok(initialized) =>
      if !initialized then Ok(0)
      else if AngebotTable in o.db.tables then Ok(|o.db.tables[AngebotTable].rows|)
      else Err(NoTable)
  }

  /** The loop of load_angebot_data over the week names: create from the first file found, append the rest. */
  method LoadWeekFiles(ds: DuckDBDataSource, names: seq<string>, existing: set<string>,
                       files: map<string, DataFile>, cols: seq<string>, now: int) returns (r: Result<bool>)
    modifies ds`db
    ensures var o := LoadSequence(old(ds.db), files, FoundPaths(names, existing), false, cols, now);
            (ds.conn == Open ==> ds.db == o.db && r == o.result)
            && (ds.conn == Closed ==>
                  ds.db == old(ds.db) && r == (if FoundPaths(names, existing) == [] then Ok(false) else Err(NoConnection)))
  {
    ghost var db0 := ds.db;
    ghost var paths := FoundPaths(names, existing);
    var initialized := false;
    var i := 0;
    assert names[0..] == names;
    while i < |names|
      invariant 0 <= i <= |names|
      invariant ds.conn == Open ==>
                  LoadSequence(db0, files, paths, false, cols, now)
                  == LoadSequence(ds.db, files, FoundPaths(names[i..], existing), initialized, cols, now)
      invariant ds.conn == Closed ==> ds.db == db0 && !initialized && (paths == [] <==> FoundPaths(names[i..], existing) == [])
    {
      assert names[i..][0] == names[i] && names[i..][1..] == names[i + 1..];
      ghost var rest := FoundPaths(names[i + 1..], existing);
      var path := FileExistsInFolders(names[i], FolderList(AngeboteFolders), ParquetFilesDir, existing);
      assert path == Locate(names[i], existing);
      if path.Some? {
        assert FoundPaths(names[i..], existing) == [path.value] + rest;
        assert ([path.value] + rest)[1..] == rest;
        var loaded;
        if !initialized {
          loaded := ds.LoadParquetToTable(files, path.value, AngebotTable, Some(cols), now);
          initialized := true;
        } else {
          loaded := ds.AppendParquetToTable(files, path.value, AngebotTable, Some(cols), now);
        }
        if loaded.Err? {
          return Err(loaded.error);
        }
      } else {
        assert FoundPaths(names[i..], existing) == rest;
      }
      i := i + 1;
    }
    return Ok(initialized);
  }

  /** The offer file names for a seal (year, week), with the configured window when pre or post is None. */
  function SealWeekNames(yearWeek: (int, int), pre: Option<int>, post: Option<int>): seq<string>
  {
    WeekNames(AngeboteScheme, yearWeek.0,
              WeekIndices(yearWeek.1, pre.GetOr(PreSealWeeks), post.GetOr(PostSealWeeks)),
              DefaultWeeksInYear)
  }

  /**
   * load_angebot_data. The seal date is a Unix time (its ISO year and week
   * come from `WeekYearFromSeal`); `columns`, `pre` and `post` are None when
   * the caller leaves them out; `existing` is what `os.path.isfile` accepts and
   * `files` what the engine reads.
   */
  method LoadAngebotData(ds: DuckDBDataSource, seal: int, columns: Option<seq<string>>,
                         pre: Option<int>, post: Option<int>, existing: set<string>,
                         files: map<string, DataFile>, now: int) returns (r: Result<int>)
    modifies ds`db
    ensures var paths := FoundPaths(SealWeekNames(WeekYearFromSeal(seal), pre, post), existing);
            var o := LoadSequence(old(ds.db), files, paths, false, columns.GetOr(AngebotColumns), now);
            (ds.conn == Open ==> ds.db == o.db && r == LoaderResult(o))
            && (ds.conn == Closed ==> ds.db == old(ds.db) && r == (if paths == [] then Ok(0) else Err(NoConnection)))
  {
    var cols := columns.GetOr(AngebotColumns);
    var yearWeek := WeekYearFromSeal(seal);
    var names := WeeksAroundSeal(yearWeek.0, yearWeek.1, pre.GetOr(PreSealWeeks), post.GetOr(PostSealWeeks),
                                 AngeboteScheme, DefaultWeeksInYear);
    assert names == SealWeekNames(yearWeek, pre, post);
    ghost var o := LoadSequence(ds.db, files, FoundPaths(names, existing), false, cols, now);
    assert o == LoadSequence(old(ds.db), files, FoundPaths(SealWeekNames(WeekYearFromSeal(seal), pre, post), existing),
                             false, columns.GetOr(AngebotColumns), now);
    var loaded := LoadWeekFiles(ds, names, existing, files, cols, now);
    ghost var paths := FoundPaths(names, existing);
    if loaded.Err? {
      r := Err(loaded.error);
      assert ds.conn == Closed ==> ds.db == old(ds.db) && r == (if paths == [] then Ok(0) else Err(NoConnection));
      return;
    }
    if !loaded.value {
      r := Ok(0);
      assert ds.conn == Open ==> o.result == Ok(false);
      return;
    }
    assert ds.conn == Open && o.result == Ok(true);
    r := ds.CountRows(AngebotTable);
    assert r == LoaderResult(o);
  }

  /** initialize_offer_table: CREATE TABLE IF NOT EXISTS with the four offer columns. */
  method InitializeOfferTable(ds: DuckDBDataSource, tableName: string) returns (r: Result<bool>)
    modifies ds`db
    ensures old(ds.conn) == Closed ==> r == Err(NoConnection) && ds.db == old(ds.db)
    ensures ds.conn == Open ==> r == Ok(true) && ds.db == CreateIfNotExists(old(ds.db), tableName, AngebotColumns)
  {
    r := ds.CreateTableIfNotExists(tableName, AngebotColumns);
  }

  /** Initialising twice is the same as initialising once. */
  lemma InitializeOfferTableIdempotent(db: Database, tableName: string)
    ensures CreateIfNotExists(CreateIfNotExists(db, tableName, AngebotColumns), tableName, AngebotColumns)
         == CreateIfNotExists(db, tableName, AngebotColumns)
  {
    CreateIfNotExistsIdempotent(db, tableName, AngebotColumns, AngebotColumns);
  }
}
