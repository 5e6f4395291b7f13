# Seal-adoption panel and retailer-name matching, modelled in Dafny

This project models two parts of the price-search-engine seal analysis.

**The (product, firm, week) panel builder** (project 03). For every firm that adopted a
quality seal, a product sample is drawn: either the most-clicked products in the eight weeks
around the seal date, or random products. Products that are not continuously offered around
the seal date are dropped. Counterfactual firms, which offered the same product at the seal
instant without the seal, are drawn by a seeded sampler. One `results.csv` row is then written
per product, firm and running week in which the firm offered the product, flagged 1 for the
seal firm and 0 for a counterfactual.

Around that pipeline, the model also covers:
- the running-week variable and the calendar rules it relies on (ISO 8601:2004 week dates);
- the partition-file name generators;
- the offer and click repositories, read as what their SQL returns from an in-memory table;
- the four fluent SQL builders;
- the DuckDB data source, reduced to its file log and tables;
- the offer-table loader;
- the three generations of selection services (`OffersService`, the older `OffersService`,
  `ProductService` and the frame-based `static.py`) and the click services;
- the three panel drivers (`02_calculate_index_space.py`, `01_calculate_index_space.py`,
  `impl/main.py`);
- the cube sub-space selector and variable renderer;
- the cartesian index space;
- the error row of `EMPTY_ROW.py`;
- the `Singleton` registry.

**The seal-list matcher** (project 01). It strips prefixes and suffixes from a retailer name
on a seal list, proposes Geizhals retailer names by the simple, Handelsverband and advanced
criteria, and writes the proposals into columns of the list. It also covers the filtering of
marketplace retailers.

Modules follow the source files. Code that updates state step by step is written as methods:
- classes with `modifies` clauses for the data source, the drivers' run guards, the SQL
  builders, the singleton registry and the matching processor;
- loops with invariants for the weekly and daily walks, the continuity test, the gather and
  write loops and the matching loop.

Each such method is proved against a function that specifies it. The properties the code
promises are lemmas about those functions.

Conventions:
- Unix times are integers read as UTC.
- `random.sample` is a fixed draw that keeps the promises Python makes: size, membership and
  distinct positions.
- SQL ties are broken by first occurrence.
- Python sets are enumerated in ascending order where an order must be picked.
- Polars `unique()` is taken to keep values in order of first occurrence. Polars promises no order without `maintain_order=True`, so the model fixes this one.

Where the code and its documentation disagree, the model follows the code:
- `append_empty_row` fills the row with `"CalculationError"`, not null.
- The column list of `EMPTY_ROW.py` has 84 names because lines 73-74 lack a comma.
- `OffersService.py` does not consult the allowed firms.
- `static.py` uses a fixed 26/27-week collection window whatever `weeks` is.
- `space_selector.py` and `variable_renderer.py` import `calculate_u_from_running_var_t`, which
  `impl/helpers.py` does not define. The model uses the inverse of the running week that the
  name describes.

## Model

| member | source | states |
|---|---|---|
| DataSource.LoggedNames | 03_seal_firm_ijt_indexspaced_cubes_in_cube_data_set/impl/db/datasource.py:60-65 | the file_name column of the log, entry by entry |
| DataSource.Project | 03_seal_firm_ijt_indexspaced_cubes_in_cube_data_set/impl/db/datasource.py:146-149 | a record projected onto the selected columns, a missing column read as NULL |
| DataSource.ProjectAll | 03_seal_firm_ijt_indexspaced_cubes_in_cube_data_set/impl/db/datasource.py:146-149 | one projected row per record of the file, under the selected columns |
| DataSource.ReadFile | 03_seal_firm_ijt_indexspaced_cubes_in_cube_data_set/impl/db/datasource.py:146-150 | read_parquet with a column list succeeds exactly when the file exists and has every selected column (`*` when the list is None or empty), and then gives the projected records |
| DataSource.Apply | 03_seal_firm_ijt_indexspaced_cubes_in_cube_data_set/impl/db/datasource.py:147-196 | CREATE OR REPLACE sets the table; INSERT INTO needs an existing table with as many columns and appends after its rows; no other table changes |
| DataSource.Load | 03_seal_firm_ijt_indexspaced_cubes_in_cube_data_set/impl/db/datasource.py:98-127 | a path already in file_log is skipped (Ok(false), nothing changes); a failing statement changes nothing; otherwise the table is written and the path logged once with the current time |
| DataSource.LoadKeepsLogValid | 03_seal_firm_ijt_indexspaced_cubes_in_cube_data_set/impl/db/datasource.py:56-127 | loading never logs a file name twice, so the file_log primary key holds |
| DataSource.LoadExtendsLog | 03_seal_firm_ijt_indexspaced_cubes_in_cube_data_set/impl/db/datasource.py:84-127 | the log only grows: earlier entries stay, in order |
| DataSource.SecondLoadSkipped | 03_seal_firm_ijt_indexspaced_cubes_in_cube_data_set/impl/db/datasource.py:98-111 | after a successful load, loading the same path again, into any table in any mode, changes nothing |
| DataSource.CreateIfNotExists | 03_seal_firm_ijt_indexspaced_cubes_in_cube_data_set/impl/db/datasource.py:60-65 | CREATE TABLE IF NOT EXISTS adds an empty table only when the name is free and changes nothing else |
| DataSource.CreateIfNotExistsIdempotent | 03_seal_firm_ijt_indexspaced_cubes_in_cube_data_set/impl/db/datasource.py:60-65 | running it twice is the same as running it once |
| DataSource.DuckDBDataSource.constructor | 03_seal_firm_ijt_indexspaced_cubes_in_cube_data_set/impl/db/datasource.py:17-43 | the first construction connects and holds the persisted database, with file_log created |
| DataSource.DuckDBDataSource.Init | 03_seal_firm_ijt_indexspaced_cubes_in_cube_data_set/impl/db/datasource.py:30-43 | a repeated `__init__` reconnects only with bypass_singleton, since `close` leaves `conn` as None and `hasattr` still holds |
| DataSource.DuckDBDataSource.HasFileBeenInserted | 03_seal_firm_ijt_indexspaced_cubes_in_cube_data_set/impl/db/datasource.py:68-82 | true exactly when the path is in file_log; without a connection an AttributeError |
| DataSource.DuckDBDataSource.LogFileInsertion | 03_seal_firm_ijt_indexspaced_cubes_in_cube_data_set/impl/db/datasource.py:84-96 | appends (path, now) to file_log; a name already logged violates the primary key and changes nothing |
| DataSource.DuckDBDataSource.LoadWith | 03_seal_firm_ijt_indexspaced_cubes_in_cube_data_set/impl/db/datasource.py:98-127 | the new database and result are those of `Load` |
| DataSource.DuckDBDataSource.LoadParquetToTable | 03_seal_firm_ijt_indexspaced_cubes_in_cube_data_set/impl/db/datasource.py:129-151 | `Load` in CREATE OR REPLACE mode with the column list |
| DataSource.DuckDBDataSource.AppendParquetToTable | 03_seal_firm_ijt_indexspaced_cubes_in_cube_data_set/impl/db/datasource.py:153-174 | `Load` in INSERT INTO mode with the column list |
| DataSource.DuckDBDataSource.LoadCsvToTable | 03_seal_firm_ijt_indexspaced_cubes_in_cube_data_set/impl/db/datasource.py:176-196 | `Load` in CREATE OR REPLACE mode with every column |
| DataSource.DuckDBDataSource.CountRows | 03_seal_firm_ijt_indexspaced_cubes_in_cube_data_set/impl/db/datasource.py:211-222 | SELECT COUNT(*) is the number of rows of an existing table and a catalog error for a missing one |
| DataSource.DuckDBDataSource.CreateTableIfNotExists | 03_seal_firm_ijt_indexspaced_cubes_in_cube_data_set/impl/db/datasource.py:198-209 | the database after `CreateIfNotExists` |
| DataSource.DuckDBDataSource.Close | 03_seal_firm_ijt_indexspaced_cubes_in_cube_data_set/impl/db/datasource.py:224-233 | the connection is closed afterwards; only a call on a closed source warns |
| EmptyRow.ColumnsLength | 03_seal_firm_ijt_indexspaced_cubes_in_cube_data_set/impl/EMPTY_ROW.py:5-121 | the column list as Python parses it (two adjacent literals on lines 73-74 joined) has 84 names, the width the module prints |
| EmptyRow.ErrorColumns | 03_seal_firm_ijt_indexspaced_cubes_in_cube_data_set/impl/EMPTY_ROW.py:119-120 | the dictionary's keys: no name twice, exactly the names of the column list |
| EmptyRow.ErrorCells | 03_seal_firm_ijt_indexspaced_cubes_in_cube_data_set/impl/EMPTY_ROW.py:119-120 | one "CalculationError" per column |
| EmptyRow.AppendEmptyRowSpec | 03_seal_firm_ijt_indexspaced_cubes_in_cube_data_set/impl/EMPTY_ROW.py:130-156 | ColumnMismatchError naming both widths exactly when the widths differ; with the right width but other column names vstack raises; success exactly when the columns are the error row's; then one more row of "CalculationError" under the unchanged rows |
| EmptyRow.AppendEmptyRowUndo | 03_seal_firm_ijt_indexspaced_cubes_in_cube_data_set/impl/EMPTY_ROW.py:130-156 | dropping the appended row gives back the input frame |
| FirstIndexSpace.ProcessFirmSingleProduct | 03_seal_firm_ijt_indexspaced_cubes_in_cube_data_set/01_calculate_index_space.py:32-65 | one row per week the service reports for the product and firm, flag 1 for the main firm and 0 otherwise, no row twice |
| FirstIndexSpace.GatherTasksForProduct | 03_seal_firm_ijt_indexspaced_cubes_in_cube_data_set/01_calculate_index_space.py:68-80 | as written: the seal firm's task first, then one per sampled counterfactual firm, every tuple with four fields |
| FirstIndexSpace.GatherTasksForProductFixed | 03_seal_firm_ijt_indexspaced_cubes_in_cube_data_set/01_calculate_index_space.py:68-80 | the same tasks with the service as a fifth field |
| FirstIndexSpace.ProcessTaskTuple | 03_seal_firm_ijt_indexspaced_cubes_in_cube_data_set/01_calculate_index_space.py:83-88 | unpacking anything but five values raises ValueError |
| FirstIndexSpace.GatheredTuplesRaise | 03_seal_firm_ijt_indexspaced_cubes_in_cube_data_set/01_calculate_index_space.py:68-88 | every tuple gather_tasks_for_product builds makes process_task raise "not enough values to unpack (expected 5, got 4)" |
| FirstIndexSpace.FixedTupleProcesses | 03_seal_firm_ijt_indexspaced_cubes_in_cube_data_set/01_calculate_index_space.py:83-88 | a five-field tuple gives exactly the rows of its task |
| FirstIndexSpace.RunFourTuples | 03_seal_firm_ijt_indexspaced_cubes_in_cube_data_set/01_calculate_index_space.py:150-153 | the as-written write loop writes no row and raises the unpacking error as soon as there is a task |
| FirstIndexSpace.RunFiveTuples | 03_seal_firm_ijt_indexspaced_cubes_in_cube_data_set/01_calculate_index_space.py:150-153 | with five-field tuples the loop writes the rows of every task, in task order, and raises nothing |
| FirstIndexSpace.WriteTaskTuples | 03_seal_firm_ijt_indexspaced_cubes_in_cube_data_set/01_calculate_index_space.py:91-153 | appends the rows and CSV lines of `RunTuples` to results.csv and returns the exception that stopped the loop |
| FirstIndexSpace.RunTuplesStops | 03_seal_firm_ijt_indexspaced_cubes_in_cube_data_set/01_calculate_index_space.py:150-153 | once a task has raised, later tuples change nothing |
| FirstIndexSpace.ConcatProductTuples | 03_seal_firm_ijt_indexspaced_cubes_in_cube_data_set/01_calculate_index_space.py:137-148 | extending the task list product by product gives the tuples of all tasks in product order |
| FirstIndexSpace.FirstCandidates | 03_seal_firm_ijt_indexspaced_cubes_in_cube_data_set/01_calculate_index_space.py:122-128 | at most RANDOM_PRODUCTS_AMOUNTS (50) drawn products |
| FirstIndexSpace.FirstTasksEmpty | 03_seal_firm_ijt_indexspaced_cubes_in_cube_data_set/01_calculate_index_space.py:130-148 | there are tasks exactly when some drawn product passed the continuity filter |
| FirstIndexSpace.AsWrittenOutcome | 03_seal_firm_ijt_indexspaced_cubes_in_cube_data_set/01_calculate_index_space.py:99-155 | as written, a new firm gets no row, and the run raises exactly when some product passed the filter |
| FirstIndexSpace.FirstProductSound | 03_seal_firm_ijt_indexspaced_cubes_in_cube_data_set/01_calculate_index_space.py:122-135 | a filtered product was drawn, was offered by the firm within eight weeks of the seal, and is continuously offered over eight weeks |
| FirstIndexSpace.FirstSealFirmRowsSound | 03_seal_firm_ijt_indexspaced_cubes_in_cube_data_set/01_calculate_index_space.py:99-155 | every row of the intended script has flag 0 or 1, flag 1 only for the matched firm id, flag 0 only for firms outside the seal firms, a drawn continuously offered product, and a week the row's firm offered it |
| FirstIndexSpace.FirstIndexSpaceRun.constructor | 03_seal_firm_ijt_indexspaced_cubes_in_cube_data_set/01_calculate_index_space.py:161-183 | no firm processed, counter 0, results.csv holding only the header |
| FirstIndexSpace.FirstIndexSpaceRun.GatherTuples | 03_seal_firm_ijt_indexspaced_cubes_in_cube_data_set/01_calculate_index_space.py:137-148 | the tuple list is the tuples of every filtered product's tasks, in order |
| FirstIndexSpace.FirstIndexSpaceRun.GatherProductTuples | 03_seal_firm_ijt_indexspaced_cubes_in_cube_data_set/01_calculate_index_space.py:138-148 | the loop's list is the concatenation of each product's gathered tuples |
| FirstIndexSpace.FirstIndexSpaceRun.WriteAsWritten | 03_seal_firm_ijt_indexspaced_cubes_in_cube_data_set/01_calculate_index_space.py:137-153 | as written nothing reaches results.csv and the error is the unpacking error exactly when some product passed the filter |
| FirstIndexSpace.FirstIndexSpaceRun.ProcessSealFirmAsWritten | 03_seal_firm_ijt_indexspaced_cubes_in_cube_data_set/01_calculate_index_space.py:99-155 | a firm name seen before gives None; otherwise the name is recorded and counted, no row is written and the first tuple raises, leaving the firm recorded |
| FirstIndexSpace.FirstIndexSpaceRun.WriteFixed | 03_seal_firm_ijt_indexspaced_cubes_in_cube_data_set/01_calculate_index_space.py:137-153 | with five-field tuples every row of the firm's tasks reaches results.csv |
| FirstIndexSpace.FirstIndexSpaceRun.ProcessSealFirm | 03_seal_firm_ijt_indexspaced_cubes_in_cube_data_set/01_calculate_index_space.py:99-155 | the corrected run: a new firm name is recorded, counted, and its rows appended; a seen name changes nothing |
| Helpers.UnixTimeFromRunningVar | 03_seal_firm_ijt_indexspaced_cubes_in_cube_data_set/impl/helpers.py:29-38 | Ok exactly for an int argument, with origin + t·week; any other argument gives NotImplementedError |
| Helpers.RunningVarTruncates | 03_seal_firm_ijt_indexspaced_cubes_in_cube_data_set/impl/helpers.py:22-26 | t = int((u − origin) / week) is the quotient truncated toward zero: t·week lies between 0 and u − origin, less than one week from it |
| Helpers.RunningVarAtWeekMultiple | 03_seal_firm_ijt_indexspaced_cubes_in_cube_data_set/impl/helpers.py:22-26 | the start of week k (origin + k·week) has running variable k, for negative k too |
| Helpers.RunningVarMonotone | 03_seal_firm_ijt_indexspaced_cubes_in_cube_data_set/impl/helpers.py:22-26 | a later time never has a smaller running variable |
| Helpers.RunningVarNearOrigin | 03_seal_firm_ijt_indexspaced_cubes_in_cube_data_set/impl/helpers.py:22-26 | every time less than one week from the origin, before or after it, is in week 0 (week 0 is two weeks wide) |
| Helpers.RunningVarInverse | 03_seal_firm_ijt_indexspaced_cubes_in_cube_data_set/impl/helpers.py:22-38 | converting t to Unix time and back gives t again |
| Helpers.CalculateWeekYear | 03_seal_firm_ijt_indexspaced_cubes_in_cube_data_set/impl/helpers.py:129-139 | the rolled (year, week) lies within one year of the seal year, is in the seal year exactly for an index 1..weeks_in_year, and counts the same weeks from the start of the seal year as the index |
| Helpers.CalculateWeekYearInRange | 03_seal_firm_ijt_indexspaced_cubes_in_cube_data_set/impl/helpers.py:129-139 | an index in (−w, 2w] lands on week 1..w of the previous, same or next year |
| Helpers.CalculateWeekYearInjective | 03_seal_firm_ijt_indexspaced_cubes_in_cube_data_set/impl/helpers.py:129-139 | two week indices with the same (year, week) result are equal |
| Helpers.FormatNameInjective | 03_seal_firm_ijt_indexspaced_cubes_in_cube_data_set/impl/helpers.py:118-124 | `scheme.format(year, "%02d" % week)` with a non-digit separator never gives two (year, part) pairs the same file name |
| Helpers.AppendWeekNames | 03_seal_firm_ijt_indexspaced_cubes_in_cube_data_set/impl/helpers.py:118-124 | one `for i in range(lo, hi)` loop appends exactly the file names of lo..hi−1, in order |
| Helpers.WeeksAroundSeal | 03_seal_firm_ijt_indexspaced_cubes_in_cube_data_set/impl/helpers.py:112-126 | the list is the names of indices seal_week − pre .. seal_week + post, in order |
| Helpers.WeekIndicesShape | 03_seal_firm_ijt_indexspaced_cubes_in_cube_data_set/impl/helpers.py:112-126 | pre + post + 1 indices, ascending by one from seal_week − pre |
| Helpers.WeekNamesDistinct | 03_seal_firm_ijt_indexspaced_cubes_in_cube_data_set/impl/helpers.py:112-139 | generate_weeks_around_seal never lists a file name twice |
| Helpers.WeekIndicesValidWeeks | 03_seal_firm_ijt_indexspaced_cubes_in_cube_data_set/impl/helpers.py:112-139 | while the window reaches at most one year either side, every generated week number is 1..weeks_in_year |
| Helpers.MonthShiftProperties | 03_seal_firm_ijt_indexspaced_cubes_in_cube_data_set/impl/helpers.py:145-147 | datetime + relativedelta(months=k): shift 0 is the seal month, the month is always 1..12, and shift k + 1 is the calendar month after shift k |
| Helpers.MonthShiftYearMonotone | 03_seal_firm_ijt_indexspaced_cubes_in_cube_data_set/impl/helpers.py:145-147 | a larger month shift never gives an earlier year |
| Helpers.MonthNames | 03_seal_firm_ijt_indexspaced_cubes_in_cube_data_set/impl/helpers.py:142-148 | one name per offset in −pre..post |
| Helpers.MonthsAroundSeal | 03_seal_firm_ijt_indexspaced_cubes_in_cube_data_set/impl/helpers.py:142-148 | Ok exactly when every datetime built is valid (month 1..12, years 1..9999), and then the names of offsets −pre..post in order; otherwise ValueError |
| Helpers.MonthNamesConsecutive | 03_seal_firm_ijt_indexspaced_cubes_in_cube_data_set/impl/helpers.py:142-148 | consecutive names are one calendar month apart and position pre is the seal month |
| Helpers.YearPartNamesLength | 03_seal_firm_ijt_indexspaced_cubes_in_cube_data_set/impl/helpers.py:96-109 | generate_weeks_range / generate_months_range list n names per year of the range |
| Helpers.YearPartNamesAt | 03_seal_firm_ijt_indexspaced_cubes_in_cube_data_set/impl/helpers.py:96-109 | part p of year y sits right after the names of the earlier years, year-major |
| Helpers.YearPartNamesOnly | 03_seal_firm_ijt_indexspaced_cubes_in_cube_data_set/impl/helpers.py:96-109 | every listed name is the name of a year of the range and a part 1..n |
| Helpers.StartOfWeek | 03_seal_firm_ijt_indexspaced_cubes_in_cube_data_set/impl/helpers.py:51-54 | midnight of the latest week_start_day on or before the time: at most the time, less than 7 days before it, at midnight, on that weekday |
| Helpers.InflowTimeRange | 03_seal_firm_ijt_indexspaced_cubes_in_cube_data_set/impl/helpers.py:57-67 | from 52 weeks before the seal to 26 weeks after it, which brackets the seal |
| Helpers.FirstExistingMember | 03_seal_firm_ijt_indexspaced_cubes_in_cube_data_set/impl/helpers.py:83-93 | a path that is returned is one of the candidates and exists |
| Helpers.FirstExistingSpec | 03_seal_firm_ijt_indexspaced_cubes_in_cube_data_set/impl/helpers.py:83-93 | None exactly when no candidate exists; otherwise the first candidate in folder order that exists |
| Helpers.FileExistsInFolders | 03_seal_firm_ijt_indexspaced_cubes_in_cube_data_set/impl/helpers.py:83-93 | the answer is the first existing path in test order (for a str argument: the whole name, then each character) |
| Calendar.Weekday | 03_seal_firm_ijt_indexspaced_cubes_in_cube_data_set/impl/helpers.py:51-54 | date.weekday() is 0..6 |
| Calendar.WeekdayShift | 03_seal_firm_ijt_indexspaced_cubes_in_cube_data_set/impl/helpers.py:51-54 | moving k days moves the weekday by k modulo 7 |
| Calendar.IsoThursday | 03_seal_firm_ijt_indexspaced_cubes_in_cube_data_set/impl/helpers.py:70-74 | the Thursday of the ISO week that holds a day is a Thursday at most three days away |
| Calendar.IsoWeekConstantOnWeek | 03_seal_firm_ijt_indexspaced_cubes_in_cube_data_set/impl/helpers.py:70-74 | all seven days Monday..Sunday of one week share their ISO (year, week), the year of the week's Thursday |
| Calendar.YearLength | 03_seal_firm_ijt_indexspaced_cubes_in_cube_data_set/impl/helpers.py:77-80 | consecutive 1 January day numbers are 365 or 366 days apart, 366 exactly in a leap year |
| Calendar.YearOfDaySpec | 03_seal_firm_ijt_indexspaced_cubes_in_cube_data_set/impl/helpers.py:77-80 | the calendar year found for a day is the one whose 1 January is the last on or before that day |
| ClickService.TopNProductsByClicks | 03_seal_firm_ijt_indexspaced_cubes_in_cube_data_set/impl/service/clicks_service.py:16-44 | at most top_n distinct products, each clicked by the retailer within eight weeks either side of the seal, with click counts that never increase down the list |
| ClickService.TopNProductsByClicksMaximal | 03_seal_firm_ijt_indexspaced_cubes_in_cube_data_set/impl/service/clicks_service.py:16-44 | a clicked product is left out only when the list is full and every listed product has at least as many clicks |
| ClickService.WindowClicksMeaning | 03_seal_firm_ijt_indexspaced_cubes_in_cube_data_set/impl/service/clicks_service.py:29-42 | a product counts as clicked exactly when the click table holds a click by that retailer on it between seal − 8 weeks and seal + 8 weeks |
| ClickService.LegacyClicksService.constructor | 03_seal_firm_ijt_indexspaced_cubes_in_cube_data_set/impl/service/ClicksService.py:10-15 | the older service is a plain class: each construction stores the repository it is given |
| ClickService.TopNProductsByClicksPrefix | 03_seal_firm_ijt_indexspaced_cubes_in_cube_data_set/impl/service/clicks_service.py:40-42 | a smaller top_n gives a prefix of the list a larger top_n gives |
| IndexSpace.ProcessSingleProductRows | 03_seal_firm_ijt_indexspaced_cubes_in_cube_data_set/02_calculate_index_space.py:37-40 | one row per offered week, each with the product, firm and flag given, and no other row |
| IndexSpace.ProcessTaskRows | 03_seal_firm_ijt_indexspaced_cubes_in_cube_data_set/02_calculate_index_space.py:90-93 | a task's rows are exactly its offered weeks, each once, with the task's product and firm and flag int(is_main_firm) |
| IndexSpace.GatherTasks | 03_seal_firm_ijt_indexspaced_cubes_in_cube_data_set/02_calculate_index_space.py:76-87 | the seal firm's own task first, then one task per sampled counterfactual firm (at most the sampling amount), flagged as not main |
| IndexSpace.TasksForSpec | 03_seal_firm_ijt_indexspaced_cubes_in_cube_data_set/02_calculate_index_space.py:135-136 | every task is for one of the products, main tasks for the matched firm id and the others for eligible firms, and every product has its main task |
| IndexSpace.TasksForSnoc | 03_seal_firm_ijt_indexspaced_cubes_in_cube_data_set/02_calculate_index_space.py:135-136 | one more product appends exactly that product's tasks |
| IndexSpace.RowsOfMember | 03_seal_firm_ijt_indexspaced_cubes_in_cube_data_set/02_calculate_index_space.py:138-144 | a written row is a row of some task of the list, and every row of every task is written |
| IndexSpace.RowsOfPrefix | 03_seal_firm_ijt_indexspaced_cubes_in_cube_data_set/02_calculate_index_space.py:138-144 | the rows of one more task are the rows so far followed by that task's rows |
| IndexSpace.SealFirmRowsSound | 03_seal_firm_ijt_indexspaced_cubes_in_cube_data_set/02_calculate_index_space.py:96-146 | every row written for a seal firm is for one of its top-200 clicked, continuously offered products, in a week the row's firm offered it within 26 weeks of the seal; flag 1 rows are the firm's own, flag 0 rows belong to eligible firms outside the seal firms |
| IndexSpace.TasksForRowSound | 03_seal_firm_ijt_indexspaced_cubes_in_cube_data_set/02_calculate_index_space.py:135-144 | the rows of a product list's tasks are for those products, flagged as their task says, in offered weeks within the bound |
| IndexSpace.SealFirmRowsComplete | 03_seal_firm_ijt_indexspaced_cubes_in_cube_data_set/02_calculate_index_space.py:96-146 | every week the seal firm offered a candidate product is written with flag 1 |
| IndexSpace.RunRowsSeen | 03_seal_firm_ijt_indexspaced_cubes_in_cube_data_set/02_calculate_index_space.py:102-107 | seal firms whose (firm, seal date) key was seen before write nothing |
| IndexSpace.RunRowsAppend | 03_seal_firm_ijt_indexspaced_cubes_in_cube_data_set/02_calculate_index_space.py:157-192 | running two lists in a row is running the first, then the second with the first's keys seen |
| IndexSpace.RunTwiceWritesOnce | 03_seal_firm_ijt_indexspaced_cubes_in_cube_data_set/02_calculate_index_space.py:102-109 | processing the list a second time adds no row |
| IndexSpace.RunRowsStep | 03_seal_firm_ijt_indexspaced_cubes_in_cube_data_set/02_calculate_index_space.py:190-192 | a run is the first firm's rows (when its key is new) followed by the rest with its key seen |
| IndexSpace.IndexSpaceRun.constructor | 03_seal_firm_ijt_indexspaced_cubes_in_cube_data_set/02_calculate_index_space.py:160-183 | no key processed, counter 0, results.csv holding only the header |
| IndexSpace.IndexSpaceRun.RunTask | 03_seal_firm_ijt_indexspaced_cubes_in_cube_data_set/02_calculate_index_space.py:90-93 | the rows of `ProcessTask` |
| IndexSpace.IndexSpaceRun.WriteTasks | 03_seal_firm_ijt_indexspaced_cubes_in_cube_data_set/02_calculate_index_space.py:138-154 | appends the rows of every task in order and their CSV lines to results.csv |
| IndexSpace.IndexSpaceRun.GatherSealFirmTasks | 03_seal_firm_ijt_indexspaced_cubes_in_cube_data_set/02_calculate_index_space.py:125-136 | the task list of the firm's clicked, continuously offered products |
| IndexSpace.IndexSpaceRun.ProcessSealFirm | 03_seal_firm_ijt_indexspaced_cubes_in_cube_data_set/02_calculate_index_space.py:96-146 | a key seen before returns at once and changes nothing; otherwise the key is recorded, the counter goes up by one and the firm's rows are appended to results.csv |
| IndexSpace.CalculateIndexSpace | 03_seal_firm_ijt_indexspaced_cubes_in_cube_data_set/02_calculate_index_space.py:157-192 | the counter ends at the number of distinct (firm, seal date) keys and results.csv holds the header and then the rows of each key once, in list order |
| LegacyMain.SealWeekFirstSpec | 03_seal_firm_ijt_indexspaced_cubes_in_cube_data_set/impl/main.py:106-146 | a builder's rows: the seal-week row first, then one row per iterated week other than the seal week, in order, all with the product, firm and flag given; no week twice when the iterated weeks are distinct |
| LegacyMain.LegacyTaskRowsSpec | 03_seal_firm_ijt_indexspaced_cubes_in_cube_data_set/impl/main.py:106-168 | process_task's rows: the seal-week row first, then each other week the task's firm offered the product within 26 weeks of the seal, flagged 1 for the seal firm and 0 otherwise, with 1 + \|offered weeks − {seal week}\| rows |
| LegacyMain.StaticGatherTasks | 03_seal_firm_ijt_indexspaced_cubes_in_cube_data_set/impl/main.py:149-159 | the seal firm's task first, then one task per firm of the counterfactual draw |
| LegacyMain.SealWeekFirstSnoc | 03_seal_firm_ijt_indexspaced_cubes_in_cube_data_set/impl/main.py:115-122 | one more iterated week adds its row at the end, unless it is the seal week |
| LegacyMain.SealWeekFirstLoop | 03_seal_firm_ijt_indexspaced_cubes_in_cube_data_set/impl/main.py:107-124 | the loop's rows are `SealWeekFirst` of the iterated weeks |
| LegacyMain.SealWeekFirstBuilder | 03_seal_firm_ijt_indexspaced_cubes_in_cube_data_set/impl/main.py:106-146 | the rows of the weeks static.get_offered_weeks returns, seal week first |
| LegacyMain.ProcessMainFirmSingleProduct | 03_seal_firm_ijt_indexspaced_cubes_in_cube_data_set/impl/main.py:105-124 | the seal firm's task rows, flagged 1 |
| LegacyMain.ProcessCounterfactualFirmSingleProduct | 03_seal_firm_ijt_indexspaced_cubes_in_cube_data_set/impl/main.py:127-146 | a counterfactual firm's task rows, flagged 0 |
| LegacyMain.ProcessTask | 03_seal_firm_ijt_indexspaced_cubes_in_cube_data_set/impl/main.py:162-168 | the rows of the builder the task's flag selects |
| LegacyMain.StackPresentMember | 03_seal_firm_ijt_indexspaced_cubes_in_cube_data_set/impl/main.py:63-77 | a row is in the concatenated frames exactly when it is in the file of one of the paths that exists |
| LegacyMain.PresentEmpty | 03_seal_firm_ijt_indexspaced_cubes_in_cube_data_set/impl/main.py:63-75 | no frame is read exactly when none of the paths exists |
| LegacyMain.FoundFramesSpec | 03_seal_firm_ijt_indexspaced_cubes_in_cube_data_set/impl/main.py:63-77 | the frames of the found paths are empty exactly when no week name has a file, and hold exactly the rows of the found files |
| LegacyMain.LoadedOffersSpec | 03_seal_firm_ijt_indexspaced_cubes_in_cube_data_set/impl/main.py:56-79 | None exactly when no week file from 52 weeks before to 26 after the seal week exists; otherwise exactly the rows of the found files whose firm is allowed |
| LegacyMain.LoadRelevantAngebotData | 03_seal_firm_ijt_indexspaced_cubes_in_cube_data_set/impl/main.py:56-79 | the result is `LoadedOffers` |
| LegacyMain.LoadedClicksSpec | 03_seal_firm_ijt_indexspaced_cubes_in_cube_data_set/impl/main.py:83-102 | None exactly when no month's click file exists, otherwise exactly the rows of the existing files |
| LegacyMain.LoadRelevantClickData | 03_seal_firm_ijt_indexspaced_cubes_in_cube_data_set/impl/main.py:83-102 | raises exactly when the six-month window leaves the years datetime accepts; otherwise `LoadedClicks` |
| LegacyMain.CollectClickFrames | 03_seal_firm_ijt_indexspaced_cubes_in_cube_data_set/impl/main.py:88-96 | the frame of each existing click path, in month order |
| LegacyMain.LegacyProductsSpec | 03_seal_firm_ijt_indexspaced_cubes_in_cube_data_set/impl/main.py:200-208 | at most 50 kept products, none twice, each offered under the Geizhals identifier and continuously offered by the seal firm for 4 weeks; none when no offer carries the identifier as its firm |
| LegacyMain.StaticGatherTaskSound | 03_seal_firm_ijt_indexspaced_cubes_in_cube_data_set/impl/main.py:149-159 | each task is for its product and seal date, and is the seal firm's or one for an allowed firm without a seal |
| LegacyMain.LegacyRowsSound | 03_seal_firm_ijt_indexspaced_cubes_in_cube_data_set/impl/main.py:171-226 | every appended row is for a kept product and is the seal firm's (flag 1) or an allowed, unsealed counterfactual firm's (flag 0) |
| LegacyMain.LegacyRowsComplete | 03_seal_firm_ijt_indexspaced_cubes_in_cube_data_set/impl/main.py:171-226 | every kept product gets the seal firm's seal-week row, flagged 1 |
| LegacyMain.LegacyRun.constructor | 03_seal_firm_ijt_indexspaced_cubes_in_cube_data_set/impl/main.py:245-268 | no firm processed, counter 0, results.csv holding only the header |
| LegacyMain.LegacyRun.GatherLegacyTasks | 03_seal_firm_ijt_indexspaced_cubes_in_cube_data_set/impl/main.py:210-215 | the tasks of each product in turn |
| LegacyMain.LegacyRun.WriteLegacyTasks | 03_seal_firm_ijt_indexspaced_cubes_in_cube_data_set/impl/main.py:217-224 | appends the rows of every task in order and their CSV lines |
| LegacyMain.LegacyRun.WriteLegacyRows | 03_seal_firm_ijt_indexspaced_cubes_in_cube_data_set/impl/main.py:200-224 | appends `LegacyRows` |
| LegacyMain.LegacyRun.LoadAndWrite | 03_seal_firm_ijt_indexspaced_cubes_in_cube_data_set/impl/main.py:190-226 | raises exactly when the click month window is invalid; writes nothing when offers or clicks are missing; otherwise appends the firm's rows |
| LegacyMain.LegacyRun.ProcessSealFirm | 03_seal_firm_ijt_indexspaced_cubes_in_cube_data_set/impl/main.py:171-226 | the counter rises on every call, before the duplicate check; a seen firm name gives None; a new name is recorded whatever follows, and its rows are appended as `LoadAndWrite` says |
| OfferLoader.FoundPaths | 03_seal_firm_ijt_indexspaced_cubes_in_cube_data_set/impl/db/loaders/load_temp_offers_data.py:54-58 | at most one path per week name |
| OfferLoader.FoundPathsSnoc | 03_seal_firm_ijt_indexspaced_cubes_in_cube_data_set/impl/db/loaders/load_temp_offers_data.py:54-58 | one more week name adds its located path, if any, at the end |
| OfferLoader.FoundPathsExist | 03_seal_firm_ijt_indexspaced_cubes_in_cube_data_set/impl/db/loaders/load_temp_offers_data.py:56-58 | every path used exists |
| OfferLoader.FoundPathsEmpty | 03_seal_firm_ijt_indexspaced_cubes_in_cube_data_set/impl/db/loaders/load_temp_offers_data.py:54-58 | no path is found exactly when no week name has a file in any offer folder |
| OfferLoader.LoadSequenceLogsAll | 03_seal_firm_ijt_indexspaced_cubes_in_cube_data_set/impl/db/loaders/load_temp_offers_data.py:54-65 | after a run without error every found path is logged, earlier log entries stay, and table_initialized says whether any file was found, even one the log skipped |
| OfferLoader.LoadSequenceAllLogged | 03_seal_firm_ijt_indexspaced_cubes_in_cube_data_set/impl/db/loaders/load_temp_offers_data.py:54-65 | when every path is already logged, the run changes nothing |
| OfferLoader.ReloadIsNoOp | 03_seal_firm_ijt_indexspaced_cubes_in_cube_data_set/impl/db/loaders/load_temp_offers_data.py:15-81 | loading the same seal date a second time changes nothing |
| OfferLoader.LoadSequenceKeepsLogValid | 03_seal_firm_ijt_indexspaced_cubes_in_cube_data_set/impl/db/loaders/load_temp_offers_data.py:54-65 | the run never logs a file name twice |
| OfferLoader.LoadWeekFiles | 03_seal_firm_ijt_indexspaced_cubes_in_cube_data_set/impl/db/loaders/load_temp_offers_data.py:50-67 | the database and flag after the loop are those of `LoadSequence`: the first found file creates `angebot`, every later one is appended |
| OfferLoader.LoadAngebotData | 03_seal_firm_ijt_indexspaced_cubes_in_cube_data_set/impl/db/loaders/load_temp_offers_data.py:15-81 | week names from 52 (or pre) weeks before to 26 (or post) after the seal's ISO week, the columns defaulting to the four offer columns; returns 0 when no file was found, else the row count of `angebot` |
| OfferLoader.InitializeOfferTable | 03_seal_firm_ijt_indexspaced_cubes_in_cube_data_set/impl/db/loaders/load_temp_offers_data.py:134-152 | CREATE TABLE IF NOT EXISTS with the four offer columns |
| OfferLoader.InitializeOfferTableIdempotent | 03_seal_firm_ijt_indexspaced_cubes_in_cube_data_set/impl/db/loaders/load_temp_offers_data.py:134-152 | initialising twice is the same as initialising once |
| OfferService.GetOfferedWeeks | 03_seal_firm_ijt_indexspaced_cubes_in_cube_data_set/impl/service/offers_service.py:11-42 | the weeks of the clamped weekly walk over each repository row, kept within the running weeks of seal ± 26 weeks |
| OfferService.RandMaxCounterfactualFirms | 03_seal_firm_ijt_indexspaced_cubes_in_cube_data_set/impl/service/offers_service.py:44-66 | min(\|pool\|, 10) firms, none twice, each outside the seal firms and offering the product at the seal instant |
| OfferService.LegacyRandMaxCounterfactualFirms | 03_seal_firm_ijt_indexspaced_cubes_in_cube_data_set/impl/service/OffersService.py:51-69 | the older service's append-loop pool gives the same draw as the current service, at most 10 firms |
| OfferService.SmallPoolTakenWhole | 03_seal_firm_ijt_indexspaced_cubes_in_cube_data_set/impl/service/offers_service.py:60-64 | a pool of at most ten firms is returned whole, reordered |
| OfferService.RandomNProducts | 03_seal_firm_ijt_indexspaced_cubes_in_cube_data_set/impl/service/offers_service.py:68-97 | [] when the retailer offered nothing in the window; otherwise min(n, \|candidates\|) distinct candidates; a negative n with candidates raises ValueError |
| OfferService.ProductCandidateOffered | 03_seal_firm_ijt_indexspaced_cubes_in_cube_data_set/impl/service/offers_service.py:84-91 | every candidate product is one the retailer offered |
| OfferService.SampledProductsOffered | 03_seal_firm_ijt_indexspaced_cubes_in_cube_data_set/impl/service/offers_service.py:84-97 | every sampled product is one the retailer offered |
| OfferService.IsProductContinuouslyOffered | 03_seal_firm_ijt_indexspaced_cubes_in_cube_data_set/impl/service/offers_service.py:99-149 | the result of the two loops is `ContinuouslyOffered`; fewer than 4 weeks is always False |
| OfferService.FilterContinuouslyOfferedProducts | 03_seal_firm_ijt_indexspaced_cubes_in_cube_data_set/impl/service/offers_service.py:151-171 | the kept products, in input order, are exactly those that are continuously offered |
| PanelRows.CsvLines | 03_seal_firm_ijt_indexspaced_cubes_in_cube_data_set/02_calculate_index_space.py:149-154 | one line per row |
| PanelRows.CsvLinesAppend | 03_seal_firm_ijt_indexspaced_cubes_in_cube_data_set/02_calculate_index_space.py:149-154 | the lines of two row lists written one after the other are the lines of their concatenation |
| PanelRows.ResultsFile.constructor | 03_seal_firm_ijt_indexspaced_cubes_in_cube_data_set/02_calculate_index_space.py:182-183 | results.csv opened with 'w' holds only the header line |
| PanelRows.ResultsFile.WriteResults | 03_seal_firm_ijt_indexspaced_cubes_in_cube_data_set/02_calculate_index_space.py:149-154 | appends one line per row, in order, and the rows behind them |
| PanelRows.CsvRecordFields | 03_seal_firm_ijt_indexspaced_cubes_in_cube_data_set/02_calculate_index_space.py:152 | a record of four comma-free fields splits back into those four fields |
| PanelRows.CsvLineRoundTrip | 03_seal_firm_ijt_indexspaced_cubes_in_cube_data_set/02_calculate_index_space.py:152 | reading a written line back gives the row, when product and firm hold no comma |
| PanelRows.CsvHeaderIsNoRow | 03_seal_firm_ijt_indexspaced_cubes_in_cube_data_set/02_calculate_index_space.py:183 | the header line does not read as a row |
| PanelRows.Ascending | 03_seal_firm_ijt_indexspaced_cubes_in_cube_data_set/02_calculate_index_space.py:39-40 | the iteration order fixed for a set of weeks: exactly the set's weeks within the bounds, strictly increasing |
| ProductService.ValidateParams | 03_seal_firm_ijt_indexspaced_cubes_in_cube_data_set/impl/service/service.py:15-18 | no error exactly when every value is present; otherwise ValueError naming the first parameter that is None |
| ProductService.GetOfferedWeeks | 03_seal_firm_ijt_indexspaced_cubes_in_cube_data_set/impl/service/service.py:20-51 | the same offered weeks as `OfferedWeeks`: the weekly walk over the clamped offers within seal ± 26 weeks |
| ProductService.RandMaxCounterfactualFirms | 03_seal_firm_ijt_indexspaced_cubes_in_cube_data_set/impl/service/service.py:53-64 | as written the size guard is commented out: it succeeds exactly when the allowed, unsealed pool has at least 10 firms, and then returns 10 of them; a smaller pool raises ValueError |
| ProductService.SmallPoolRaises | 03_seal_firm_ijt_indexspaced_cubes_in_cube_data_set/impl/service/service.py:60-62 | a product offered at the seal by one allowed firm makes service.py raise, where static.py's guarded sampler returns that firm |
| ProductService.GuardedAgreesWhenPoolLarge | 03_seal_firm_ijt_indexspaced_cubes_in_cube_data_set/impl/service/service.py:53-64 | with more than 10 firms in the pool the as-written draw equals static.py's guarded draw |
| ProductService.ServiceTopProductsLeadClicksService | 03_seal_firm_ijt_indexspaced_cubes_in_cube_data_set/impl/service/service.py:66-78 | with its default top_n of 10 the list has at most 10 products and is a prefix of ClicksService's default 200 |
| ProductService.RandomNProducts | 03_seal_firm_ijt_indexspaced_cubes_in_cube_data_set/impl/service/service.py:80-97 | [] without candidates; otherwise min(n, \|candidates\|) products drawn from the candidate rows, none more often than it has rows; a negative n with candidates raises ValueError |
| ProductService.RandomNProductsOffered | 03_seal_firm_ijt_indexspaced_cubes_in_cube_data_set/impl/service/service.py:80-97 | every sampled product was offered by the retailer in the window |
| ProductService.SampledCandidateOffered | 03_seal_firm_ijt_indexspaced_cubes_in_cube_data_set/impl/service/service.py:89-97 | a product drawn from the candidate rows was offered by the retailer in the window |
| ProductService.IsProductContinuouslyOffered | 03_seal_firm_ijt_indexspaced_cubes_in_cube_data_set/impl/service/service.py:99-138 | the day-step walk and the missing-week count give `ContinuouslyOffered` at a one-day step; fewer than 4 weeks is always False |
| ProductService.FilterContinuouslyOfferedProducts | 03_seal_firm_ijt_indexspaced_cubes_in_cube_data_set/impl/service/service.py:140-147 | the kept products, in input order, are exactly those that are continuously offered |
| Repositories.Where | 03_seal_firm_ijt_indexspaced_cubes_in_cube_data_set/impl/db/simple_sql_base_query_builder.py:214-218 | a WHERE query keeps exactly the rows meeting every condition |
| Repositories.IjtCondsMeaning | 03_seal_firm_ijt_indexspaced_cubes_in_cube_data_set/impl/db/simple_sql_base_query_builder.py:185-212 | a row meets the i/j/t conditions exactly when it matches the product and firm that are given and overlaps the given time bounds, an absent filter testing nothing |
| Repositories.HoldsAllAppend | 03_seal_firm_ijt_indexspaced_cubes_in_cube_data_set/impl/db/simple_sql_base_query_builder.py:67-78 | appending conditions conjoins them with the earlier ones |
| Repositories.WhereAbsorb | 03_seal_firm_ijt_indexspaced_cubes_in_cube_data_set/impl/static.py:178-183 | narrowing the table by conditions the query implies changes no query result |
| Repositories.OfferedWeekRowsSpec | 03_seal_firm_ijt_indexspaced_cubes_in_cube_data_set/impl/repository/offers_repository.py:18-37 | the rows fetched are exactly the product's rows at the firm overlapping the range, in table order |
| Repositories.CounterfactualFirmsSpec | 03_seal_firm_ijt_indexspaced_cubes_in_cube_data_set/impl/repository/offers_repository.py:39-58 | the firms listed are exactly those with an offer of the product running at the seal instant; DISTINCT lists each once, repository.py one per matching row |
| Repositories.ActiveFirm | 03_seal_firm_ijt_indexspaced_cubes_in_cube_data_set/impl/repository/repository.py:28-39 | a firm is listed exactly when one of its rows offers the product at the seal instant |
| Repositories.ProductOfferSpansSpec | 03_seal_firm_ijt_indexspaced_cubes_in_cube_data_set/impl/repository/offers_repository.py:60-81 | the spans returned are exactly those of the product's rows at the retailer overlapping the window |
| Repositories.RetailerProductsSpec | 03_seal_firm_ijt_indexspaced_cubes_in_cube_data_set/impl/repository/offers_repository.py:83-103 | the products listed are exactly those the retailer offered overlapping the window; DISTINCT lists each once |
| Repositories.ProductsOfMember | 03_seal_firm_ijt_indexspaced_cubes_in_cube_data_set/impl/repository/offers_repository.py:95-102 | a product is listed exactly when some fetched row has it |
| Repositories.MatchingClicksMembers | 03_seal_firm_ijt_indexspaced_cubes_in_cube_data_set/impl/repository/clicks_repository.py:38-42 | the clicks counted are exactly the retailer's clicks in the closed time range |
| Repositories.Groups | 03_seal_firm_ijt_indexspaced_cubes_in_cube_data_set/impl/repository/clicks_repository.py:40-43 | each group carries the true click count of its product |
| Repositories.SortByCountDescSpec | 03_seal_firm_ijt_indexspaced_cubes_in_cube_data_set/impl/repository/clicks_repository.py:44 | ORDER BY count DESC gives a permutation in non-increasing count order |
| Repositories.TopProductsByClicksSpec | 03_seal_firm_ijt_indexspaced_cubes_in_cube_data_set/impl/repository/clicks_repository.py:19-48 | min(limit, number of clicked products) rows in non-increasing count order, one per product, each with its true, positive count |
| Repositories.TopProductsByClicksMaximal | 03_seal_firm_ijt_indexspaced_cubes_in_cube_data_set/impl/repository/clicks_repository.py:19-48 | a clicked product left out means the limit was filled by products with at least as many clicks |
| Repositories.GroupsNoDup | 03_seal_firm_ijt_indexspaced_cubes_in_cube_data_set/impl/repository/clicks_repository.py:43 | GROUP BY gives one row per product |
| Sampling.Rotate | 03_seal_firm_ijt_indexspaced_cubes_in_cube_data_set/impl/service/offers_service.py:96-97 | the fixed reordering standing for the seeded shuffle keeps every element as often as before |
| Sampling.Sample | 03_seal_firm_ijt_indexspaced_cubes_in_cube_data_set/impl/service/offers_service.py:96-97 | random.sample: ValueError exactly when k is negative or above the population size; otherwise k elements drawn from the population, none more often than there |
| Sampling.SampleMembers | 03_seal_firm_ijt_indexspaced_cubes_in_cube_data_set/impl/service/offers_service.py:96-97 | every sampled element is a member of the population |
| Sampling.SampleNoDup | 03_seal_firm_ijt_indexspaced_cubes_in_cube_data_set/impl/service/offers_service.py:96-97 | a duplicate-free population gives a duplicate-free sample |
| Sampling.SampleAll | 03_seal_firm_ijt_indexspaced_cubes_in_cube_data_set/impl/service/offers_service.py:96-97 | sampling the whole population reorders it without loss |
| Sampling.SampleAtMost | 03_seal_firm_ijt_indexspaced_cubes_in_cube_data_set/impl/service/offers_service.py:62-64 | k = min(n, \|population\|) never raises and draws exactly that many |
| Selection.StepWeeksSpec | 03_seal_firm_ijt_indexspaced_cubes_in_cube_data_set/impl/service/offers_service.py:32-36 | a week is collected by the weekly walk from cur to end exactly when some step cur + k·week ≤ end falls in it |
| Selection.StepWeeksBounds | 03_seal_firm_ijt_indexspaced_cubes_in_cube_data_set/impl/service/offers_service.py:32-36 | every collected week lies between the running weeks of the walk's two ends |
| Selection.RowWeeksSpec | 03_seal_firm_ijt_indexspaced_cubes_in_cube_data_set/impl/service/offers_service.py:28-36 | a row contributes the weeks of max(begin, from) + k weeks up to min(end, to); a row whose clamped interval is empty contributes nothing |
| Selection.ClampedWeeksMember | 03_seal_firm_ijt_indexspaced_cubes_in_cube_data_set/impl/service/offers_service.py:27-36 | the weeks of all rows are the union of each row's weeks |
| Selection.OfferedWeeksOf | 03_seal_firm_ijt_indexspaced_cubes_in_cube_data_set/impl/service/offers_service.py:38-42 | every returned week lies within t(seal − 26 weeks)..t(seal + 26 weeks) |
| Selection.CollectOfferedWeeks | 03_seal_firm_ijt_indexspaced_cubes_in_cube_data_set/impl/service/offers_service.py:27-42 | the two nested loops and the bound comprehension give `OfferedWeeksOf` |
| Selection.OfferedWeeksOfMember | 03_seal_firm_ijt_indexspaced_cubes_in_cube_data_set/impl/service/offers_service.py:27-42 | a week is returned exactly when it is within the bounds and some row's clamped walk lands in it |
| Selection.OfferedWeeksOfRows | 03_seal_firm_ijt_indexspaced_cubes_in_cube_data_set/impl/service/offers_service.py:25-42 | the same, stated on the offer rows rather than positions |
| Selection.OfferedWeeksSpec | 03_seal_firm_ijt_indexspaced_cubes_in_cube_data_set/impl/service/offers_service.py:11-42 | a week is offered exactly when it is within the bounds and the clamped walk of an offer of the product at the firm (an empty id matching any) lands in it |
| Selection.CollectIsoWeeks | 03_seal_firm_ijt_indexspaced_cubes_in_cube_data_set/impl/service/offers_service.py:127-137 | the nested loops collect exactly the ISO week numbers of the in-window walk dates of every row |
| Selection.WeekNumbers | 03_seal_firm_ijt_indexspaced_cubes_in_cube_data_set/impl/service/offers_service.py:140-142 | one week number per week start |
| Selection.WeekStartNumbersAt | 03_seal_firm_ijt_indexspaced_cubes_in_cube_data_set/impl/service/offers_service.py:140-142 | the i-th number is the ISO week of start + i weeks |
| Selection.CountMissingWeeks | 03_seal_firm_ijt_indexspaced_cubes_in_cube_data_set/impl/service/offers_service.py:139-149 | the counting loop with its early exit returns True exactly when at most one of the 2·weeks + 1 week starts is missing |
| Selection.CountMissing | 03_seal_firm_ijt_indexspaced_cubes_in_cube_data_set/impl/service/offers_service.py:139-149 | the same loop for any numbering of the week starts |
| Selection.MissingCountStep | 03_seal_firm_ijt_indexspaced_cubes_in_cube_data_set/impl/service/offers_service.py:144-145 | one more week start adds one to the count exactly when its number is missing |
| Selection.MissingCountPrefix | 03_seal_firm_ijt_indexspaced_cubes_in_cube_data_set/impl/service/offers_service.py:139-147 | the count over the first m week starts is at most the whole count, which makes the early exit sound |
| Selection.MissingCountAntitone | 03_seal_firm_ijt_indexspaced_cubes_in_cube_data_set/impl/service/offers_service.py:139-147 | more offered weeks never means more missing ones |
| Selection.MissingCountNone | 03_seal_firm_ijt_indexspaced_cubes_in_cube_data_set/impl/service/offers_service.py:139-147 | nothing is missing when every number is offered |
| Selection.MissingCountEmpty | 03_seal_firm_ijt_indexspaced_cubes_in_cube_data_set/impl/service/offers_service.py:139-147 | with nothing offered every week start is missing |
| Selection.AdmitsNeedsOffers | 03_seal_firm_ijt_indexspaced_cubes_in_cube_data_set/impl/service/offers_service.py:139-149 | a window of at least one week each side is never admitted without an offered week |
| Selection.CollectWeeksMember | 03_seal_firm_ijt_indexspaced_cubes_in_cube_data_set/impl/service/offers_service.py:127-137 | each row's weeks are among all collected weeks |
| Selection.ScanReaches | 03_seal_firm_ijt_indexspaced_cubes_in_cube_data_set/impl/service/offers_service.py:132-137 | an in-window date the weekly walk reaches contributes its ISO week number |
| Selection.ScanWeeksWiden | 03_seal_firm_ijt_indexspaced_cubes_in_cube_data_set/impl/service/offers_service.py:132-137 | a wider window sees every week a narrower one sees |
| Selection.CollectWeeksWiden | 03_seal_firm_ijt_indexspaced_cubes_in_cube_data_set/impl/service/offers_service.py:127-137 | fewer rows in a narrower window see no more weeks |
| Selection.ScanSuffix | 03_seal_firm_ijt_indexspaced_cubes_in_cube_data_set/impl/service/offers_service.py:132-137 | a walk started later sees no more weeks |
| Selection.WeekScanWithinDayScan | 03_seal_firm_ijt_indexspaced_cubes_in_cube_data_set/impl/service/service.py:121-126 | a daily walk (service.py) reaches every date a weekly walk (offers_service.py) reaches |
| Selection.WeekCollectWithinDayCollect | 03_seal_firm_ijt_indexspaced_cubes_in_cube_data_set/impl/service/service.py:116-126 | the daily walk over all rows sees every week the weekly walk sees |
| Selection.ContinuityStartMonday | 03_seal_firm_ijt_indexspaced_cubes_in_cube_data_set/impl/service/offers_service.py:116-121 | the window starts at midnight of a Monday |
| Selection.SameIsoWeek | 03_seal_firm_ijt_indexspaced_cubes_in_cube_data_set/impl/service/offers_service.py:140-142 | every instant of the i-th window week has the ISO week of that week's start |
| Selection.MondayAfterWeeks | 03_seal_firm_ijt_indexspaced_cubes_in_cube_data_set/impl/service/offers_service.py:140-141 | whole weeks after a Monday midnight is again a Monday midnight |
| Selection.SameIsoWeekFrom | 03_seal_firm_ijt_indexspaced_cubes_in_cube_data_set/impl/service/offers_service.py:140-142 | every instant of a Monday-to-Sunday week shares that Monday's ISO week |
| Selection.DayWithinWeek | 03_seal_firm_ijt_indexspaced_cubes_in_cube_data_set/impl/service/offers_service.py:140-142 | an instant within a week of midnight of day d falls on day d + 0..6 |
| Selection.WholeWindowOfferAdmitted | 03_seal_firm_ijt_indexspaced_cubes_in_cube_data_set/impl/service/offers_service.py:127-149 | a weekly walk over an offer covering the whole window misses at most one week start, so it is admitted |
| Selection.CoveringOfferAdmitted | 03_seal_firm_ijt_indexspaced_cubes_in_cube_data_set/impl/service/offers_service.py:99-149 | with weeks ≥ 4, one offer at the retailer covering the whole window is enough for admission |
| Selection.WeeklyAdmissionImpliesDaily | 03_seal_firm_ijt_indexspaced_cubes_in_cube_data_set/impl/service/service.py:99-138 | whatever offers_service.py's weekly walk admits, service.py's daily walk admits too |
| Selection.AdmittedHasOffer | 03_seal_firm_ijt_indexspaced_cubes_in_cube_data_set/impl/service/offers_service.py:99-149 | an admitted product has an offer at the retailer overlapping the window |
| Selection.CounterfactualPoolSpec | 03_seal_firm_ijt_indexspaced_cubes_in_cube_data_set/impl/service/offers_service.py:60 | the pool keeps exactly the firms outside the seal firms (and, when given, in the allowed firms), in order, with no new repeats |
| Selection.CounterfactualPoolSnoc | 03_seal_firm_ijt_indexspaced_cubes_in_cube_data_set/impl/service/OffersService.py:62-64 | one more firm extends the pool exactly when it passes the tests |
| Selection.AllowedCounterfactualCandidatesSpec | 03_seal_firm_ijt_indexspaced_cubes_in_cube_data_set/impl/service/service.py:53-58 | a firm is a candidate exactly when it has an offer of the product running at the seal instant, is no seal firm and is allowed |
| Selection.SampleUpTo | 03_seal_firm_ijt_indexspaced_cubes_in_cube_data_set/impl/service/offers_service.py:62-64 | min(\|pool\|, 10) firms drawn from the pool, none twice when the pool has no repeats |
| Selection.CappedSample | 03_seal_firm_ijt_indexspaced_cubes_in_cube_data_set/impl/static.py:214-217 | min(\|pool\|, 10) firms drawn from the pool, the pool itself when it has at most 10 |
| Selection.SampleProducts | 03_seal_firm_ijt_indexspaced_cubes_in_cube_data_set/impl/service/offers_service.py:93-97 | [] without candidates; otherwise min(n, \|candidates\|) drawn candidates; a negative n raises ValueError |
| Selection.SampleProductsNoDup | 03_seal_firm_ijt_indexspaced_cubes_in_cube_data_set/impl/service/offers_service.py:93-97 | duplicate-free candidates give a duplicate-free draw |
| Singleton.Service.constructor | 03_seal_firm_ijt_indexspaced_cubes_in_cube_data_set/impl/singleton.py:34 | a newly created instance belongs to its class and holds no repository yet |
| Singleton.Registry.constructor | 03_seal_firm_ijt_indexspaced_cubes_in_cube_data_set/impl/singleton.py:16 | the class-level instance dictionary starts empty and well formed |
| Singleton.Registry.New | 03_seal_firm_ijt_indexspaced_cubes_in_cube_data_set/impl/singleton.py:18-37 | the first call for a class stores and returns a fresh instance without a repository; every later call returns that same stored instance and leaves the dictionary as it was |
| Singleton.InitGuarded | 03_seal_firm_ijt_indexspaced_cubes_in_cube_data_set/impl/service/base/abc_service.py:10-15 | `__init__` sets the repository only when the instance has none; a repository already held is kept |
| Singleton.Construct | 03_seal_firm_ijt_indexspaced_cubes_in_cube_data_set/impl/service/clicks_service.py:11-14 | constructing a service returns the stored instance of its class, which keeps the repository it was first given; on first use it is a fresh instance holding the given repository |
| Singleton.ConstructTwice | 03_seal_firm_ijt_indexspaced_cubes_in_cube_data_set/impl/singleton.py:18-37 | two constructions of one class give one object holding the first repository; another class gets a different object |
| SpaceSelector.MinOf | 03_seal_firm_ijt_indexspaced_cubes_in_cube_data_set/impl/business/selector/space_selector.py:17 | min() of a non-empty list is an element no greater than any element |
| SpaceSelector.MaxOf | 03_seal_firm_ijt_indexspaced_cubes_in_cube_data_set/impl/business/selector/space_selector.py:18 | max() of a non-empty list is an element no smaller than any element |
| SpaceSelector.DtimeRangeSpec | 03_seal_firm_ijt_indexspaced_cubes_in_cube_data_set/impl/business/selector/space_selector.py:11-25 | the timestamp range exists exactly for one week or a non-empty list of weeks; it starts no later than it ends, one week maps to its own start twice, and for a list both ends are starts of picked weeks and cover the start of every picked week |
| SpaceSelector.DtimeRangeAsWrittenRejectsLists | 03_seal_firm_ijt_indexspaced_cubes_in_cube_data_set/impl/business/selector/space_selector.py:10-16 | as decorated with lru_cache, every list of weeks raises TypeError (unhashable list), including the non-empty lists the body handles |
| SpaceSelector.NewSelector | 03_seal_firm_ijt_indexspaced_cubes_in_cube_data_set/impl/business/selector/space_selector.py:29-49 | construction fails only for an empty list of weeks; it keeps the three picks and the data, and has a timestamp range exactly when the week axis is picked, namely the range of the week pick |
| SpaceSelector.IndexOf | 03_seal_firm_ijt_indexspaced_cubes_in_cube_data_set/impl/business/selector/space_selector.py:57 | the factor of a value is the position of its first occurrence among the distinct values |
| SpaceSelector.FactorListSpec | 03_seal_firm_ijt_indexspaced_cubes_in_cube_data_set/impl/business/selector/space_selector.py:64 | the list lookup succeeds exactly when every value is known; the factors are one valid position per value, in order, decoding back to the values; otherwise the error names the first unknown value |
| SpaceSelector.FactorizeSpec | 03_seal_firm_ijt_indexspaced_cubes_in_cube_data_set/impl/business/selector/space_selector.py:51-67 | None gives every position of the distinct values; a single value or a list succeeds exactly when its values occur in the column, and its factors decode back to the picked values; an unknown value is reported |
| SpaceSelector.ToFactorRepresentation | 03_seal_firm_ijt_indexspaced_cubes_in_cube_data_set/impl/business/selector/space_selector.py:69-78 | a successful factor representation has one factor list per axis, three in all |
| SpaceSelector.DetermineStrategySpec | 03_seal_firm_ijt_indexspaced_cubes_in_cube_data_set/impl/business/selector/space_selector.py:80-92 | outer space exactly when the axis has as many factors as the data has rows; inner space exactly when otherwise it has more than one; positional coordinates exactly when otherwise it has at most one |
| SpaceSelector.DetermineStrategies | 03_seal_firm_ijt_indexspaced_cubes_in_cube_data_set/impl/business/selector/space_selector.py:94-102 | fails exactly when the factor representation fails, with its error; otherwise the strategy of each axis, in axis order |
| SpaceSelector.ValidateFromAll | 03_seal_firm_ijt_indexspaced_cubes_in_cube_data_set/impl/business/selector/space_selector.py:112-126 | given a strategy for every axis, the validation loop answers True exactly when every remaining axis passes the check of its strategy |
| SpaceSelector.ValidateSelectionSpace | 03_seal_firm_ijt_indexspaced_cubes_in_cube_data_set/impl/business/selector/space_selector.py:105-126 | validation raises the factor representation's error, or checks the axes in order against their strategies: False at the first failing axis, IndexError when strategies run out, True otherwise |
| SpaceSelector.FactorsNonNegative | 03_seal_firm_ijt_indexspaced_cubes_in_cube_data_set/impl/business/selector/space_selector.py:57-67 | every factor is non-negative, so the non-negativity checks of validation never fail |
| SpaceSelector.OwnStrategyValid | 03_seal_firm_ijt_indexspaced_cubes_in_cube_data_set/impl/business/selector/space_selector.py:80-126 | an axis passes the check of the strategy derived from it unless it has no factor while the data has rows |
| SpaceSelector.NoFactors | 03_seal_firm_ijt_indexspaced_cubes_in_cube_data_set/impl/business/selector/space_selector.py:59-67 | an axis has no factor exactly when it is picked by an empty list, or taken whole on an empty column |
| SpaceSelector.DerivedStrategiesValid | 03_seal_firm_ijt_indexspaced_cubes_in_cube_data_set/impl/business/selector/space_selector.py:94-126 | the strategies a selector derives pass its own validation unless some axis is picked by an empty list while the data has rows |
| SpaceSelector.WholeAxisOuter | 03_seal_firm_ijt_indexspaced_cubes_in_cube_data_set/impl/business/selector/space_selector.py:59-61 | an axis taken whole is rendered in the outer space exactly when its column repeats no value |
| VariableRenderer.RenderVariable | 03_seal_firm_ijt_indexspaced_cubes_in_cube_data_set/impl/service/variable_renderer.py:139-162 | never returns normally: a value missing from its column raises that KeyError, otherwise ValueError exactly when some axis is picked by an empty list while the data has rows, and NotImplementedError for conforming criteria |
| SqlBuilders.ColumnsText | 03_seal_firm_ijt_indexspaced_cubes_in_cube_data_set/impl/db/simple_sql_base_query_builder.py:54-57 | a plain string is taken as it is; a list of one column is that column |
| SqlBuilders.WhereBody | 03_seal_firm_ijt_indexspaced_cubes_in_cube_data_set/impl/db/simple_sql_base_query_builder.py:214-218 | no conditions give the tautology 1=1; one condition is its own body |
| SqlBuilders.WhereBodySnoc | 03_seal_firm_ijt_indexspaced_cubes_in_cube_data_set/impl/db/simple_sql_base_query_builder.py:214-218 | one more condition extends the body by " AND " and its text |
| SqlBuilders.WhereBodyContainsEach | 03_seal_firm_ijt_indexspaced_cubes_in_cube_data_set/impl/db/simple_sql_base_query_builder.py:214-218 | every condition received appears in full in the WHERE body |
| SqlBuilders.CondTexts | 03_seal_firm_ijt_indexspaced_cubes_in_cube_data_set/impl/db/simple_sql_base_query_builder.py:201-210 | one text per condition, in order, each the rendering of its condition |
| SqlBuilders.ProductFilterText | 03_seal_firm_ijt_indexspaced_cubes_in_cube_data_set/impl/db/simple_sql_base_query_builder.py:201-202 | the product condition appears exactly when the product is truthy (neither None nor empty) |
| SqlBuilders.FirmFilterText | 03_seal_firm_ijt_indexspaced_cubes_in_cube_data_set/impl/db/simple_sql_base_query_builder.py:203-204 | the firm condition appears exactly when the firm is truthy |
| SqlBuilders.PeriodFilterText | 03_seal_firm_ijt_indexspaced_cubes_in_cube_data_set/impl/db/simple_sql_base_query_builder.py:205-210 | one time condition exactly when some bound is given, none otherwise |
| SqlBuilders.IjtConditionTexts | 03_seal_firm_ijt_indexspaced_cubes_in_cube_data_set/impl/db/simple_sql_base_query_builder.py:185-212 | at most three conditions; without bounds only the truthy product and firm filters |
| SqlBuilders.IjtConditionTextsRender | 03_seal_firm_ijt_indexspaced_cubes_in_cube_data_set/impl/db/simple_sql_base_query_builder.py:185-212 | the appended texts are the renderings of the repository conditions, so they mean the same filter |
| SqlBuilders.CondTextsAppend | 03_seal_firm_ijt_indexspaced_cubes_in_cube_data_set/impl/db/simple_sql_base_query_builder.py:77 | rendering distributes over concatenation of condition lists |
| SqlBuilders.RenderQuery | 03_seal_firm_ijt_indexspaced_cubes_in_cube_data_set/impl/db/simple_sql_base_query_builder.py:220-243 | the built text is a contiguous slice of the raw concatenation of the clauses (only the ends are stripped) |
| SqlBuilders.RenderPlainSelect | 03_seal_firm_ijt_indexspaced_cubes_in_cube_data_set/impl/db/simple_sql_base_query_builder.py:227-241 | with no CTE and no clause after WHERE the text is the SELECT core alone, inner double spaces kept |
| SqlBuilders.RenderKeepsAll | 03_seal_firm_ijt_indexspaced_cubes_in_cube_data_set/impl/db/simple_sql_base_query_builder.py:227-241 | with a CTE first and a window last the built text is the raw concatenation unchanged |
| SqlBuilders.QueryBuilder.constructor | 03_seal_firm_ijt_indexspaced_cubes_in_cube_data_set/impl/db/simple_sql_base_query_builder.py:2-42 | the defaults: all columns, no DISTINCT, no conditions and every other clause empty |
| SqlBuilders.QueryBuilder.WithClauses | 03_seal_firm_ijt_indexspaced_cubes_in_cube_data_set/impl/db/simple_sql_base_query_builder.py:2-42 | keyword arguments are stored as given; a missing or empty condition list becomes [] |
| SqlBuilders.QueryBuilder.Select | 03_seal_firm_ijt_indexspaced_cubes_in_cube_data_set/impl/db/simple_sql_base_query_builder.py:44-58 | sets the selected columns and nothing else |
| SqlBuilders.QueryBuilder.Distinct | 03_seal_firm_ijt_indexspaced_cubes_in_cube_data_set/impl/db/simple_sql_base_query_builder.py:60-65 | turns DISTINCT on and nothing else |
| SqlBuilders.QueryBuilder.Where | 03_seal_firm_ijt_indexspaced_cubes_in_cube_data_set/impl/db/simple_sql_base_query_builder.py:67-78 | appends the condition after the earlier ones, nothing else changes |
| SqlBuilders.QueryBuilder.GroupBy | 03_seal_firm_ijt_indexspaced_cubes_in_cube_data_set/impl/db/simple_sql_base_query_builder.py:80-94 | sets the GROUP BY clause and nothing else |
| SqlBuilders.QueryBuilder.Having | 03_seal_firm_ijt_indexspaced_cubes_in_cube_data_set/impl/db/simple_sql_base_query_builder.py:96-107 | sets the HAVING clause and nothing else |
| SqlBuilders.QueryBuilder.OrderBy | 03_seal_firm_ijt_indexspaced_cubes_in_cube_data_set/impl/db/simple_sql_base_query_builder.py:109-122 | sets ORDER BY column ASC or DESC and nothing else |
| SqlBuilders.QueryBuilder.Limit | 03_seal_firm_ijt_indexspaced_cubes_in_cube_data_set/impl/db/simple_sql_base_query_builder.py:124-135 | sets the LIMIT clause and nothing else |
| SqlBuilders.QueryBuilder.Join | 03_seal_firm_ijt_indexspaced_cubes_in_cube_data_set/impl/db/simple_sql_base_query_builder.py:137-152 | appends an upper-cased join ending in a space to the earlier joins, nothing else changes |
| SqlBuilders.QueryBuilder.Window | 03_seal_firm_ijt_indexspaced_cubes_in_cube_data_set/impl/db/simple_sql_base_query_builder.py:154-165 | replaces the window clause and nothing else |
| SqlBuilders.QueryBuilder.WithCte | 03_seal_firm_ijt_indexspaced_cubes_in_cube_data_set/impl/db/simple_sql_base_query_builder.py:167-183 | the first CTE opens WITH; later ones are chained with a comma, nothing else changes |
| SqlBuilders.QueryBuilder.BuildIjtWhereClause | 03_seal_firm_ijt_indexspaced_cubes_in_cube_data_set/impl/db/simple_sql_base_query_builder.py:185-212 | appends the i/j/t conditions after the earlier ones, nothing else changes |
| SqlBuilders.QueryBuilder.InsertInto | 03_seal_firm_ijt_indexspaced_cubes_in_cube_data_set/impl/db/simple_sql_base_query_builder.py:245-260 | the text is INSERT INTO, the target table, a space and then the built query unchanged |
| SqlBuilders.ReducedQueryTrailingSpaces | 03_seal_firm_ijt_indexspaced_cubes_in_cube_data_set/impl/db/query_builder.py:66-69 | the reduced builder does not strip: without GROUP BY, ORDER BY and LIMIT its text ends in three spaces |
| SqlBuilders.ReducedQueryBuilder.constructor | 03_seal_firm_ijt_indexspaced_cubes_in_cube_data_set/impl/db/query_builder.py:2-10 | all columns, no conditions, empty GROUP BY, ORDER BY and LIMIT |
| SqlBuilders.ReducedQueryBuilder.Select | 03_seal_firm_ijt_indexspaced_cubes_in_cube_data_set/impl/db/query_builder.py:12-19 | sets the selected columns |
| SqlBuilders.ReducedQueryBuilder.Where | 03_seal_firm_ijt_indexspaced_cubes_in_cube_data_set/impl/db/query_builder.py:21-25 | appends the condition after the earlier ones |
| SqlBuilders.ReducedQueryBuilder.GroupBy | 03_seal_firm_ijt_indexspaced_cubes_in_cube_data_set/impl/db/query_builder.py:27-32 | sets the GROUP BY clause |
| SqlBuilders.ReducedQueryBuilder.OrderBy | 03_seal_firm_ijt_indexspaced_cubes_in_cube_data_set/impl/db/query_builder.py:34-39 | sets ORDER BY column ASC or DESC |
| SqlBuilders.ReducedQueryBuilder.Limit | 03_seal_firm_ijt_indexspaced_cubes_in_cube_data_set/impl/db/query_builder.py:41-45 | sets the LIMIT clause |
| SqlBuilders.ReducedQueryBuilder.BuildWhereClauseIjt | 03_seal_firm_ijt_indexspaced_cubes_in_cube_data_set/impl/db/query_builder.py:47-64 | appends the same i/j/t conditions as the full builders |
| SqlBuilders.ReducedQueryBuilder.InsertInto | 03_seal_firm_ijt_indexspaced_cubes_in_cube_data_set/impl/db/query_builder.py:71-76 | INSERT INTO, the target, a space and the built query unchanged |
| SqlBuilders.MinimalQueryBuilder.constructor | 03_seal_firm_ijt_indexspaced_cubes_in_cube_data_set/impl/querybuilder.py:2-9 | all columns, no conditions, empty ORDER BY and LIMIT |
| SqlBuilders.MinimalQueryBuilder.Select | 03_seal_firm_ijt_indexspaced_cubes_in_cube_data_set/impl/querybuilder.py:11-18 | sets the selected columns |
| SqlBuilders.MinimalQueryBuilder.Where | 03_seal_firm_ijt_indexspaced_cubes_in_cube_data_set/impl/querybuilder.py:20-24 | appends the condition after the earlier ones |
| SqlBuilders.MinimalQueryBuilder.OrderBy | 03_seal_firm_ijt_indexspaced_cubes_in_cube_data_set/impl/querybuilder.py:26-31 | sets ORDER BY column ASC or DESC |
| SqlBuilders.MinimalQueryBuilder.Limit | 03_seal_firm_ijt_indexspaced_cubes_in_cube_data_set/impl/querybuilder.py:33-37 | sets the LIMIT clause |
| StaticSelection.SelectSealChangeFirms | 03_seal_firm_ijt_indexspaced_cubes_in_cube_data_set/impl/static.py:30-38 | keeps, in table order, exactly the rows whose seal date is present and has the DD.MM.YYYY shape |
| StaticSelection.SealDateShapes | 03_seal_firm_ijt_indexspaced_cubes_in_cube_data_set/impl/static.py:32-35 | a zero-padded date passes the pattern and a one-digit month does not, so only the padded row is selected |
| StaticSelection.TopNProductsByClicks | 03_seal_firm_ijt_indexspaced_cubes_in_cube_data_set/impl/static.py:42-78 | at most top_n distinct products, each clicked at the retailer inside the window around the seal date, ordered by click count descending |
| StaticSelection.TopNProductsByClicksMaximal | 03_seal_firm_ijt_indexspaced_cubes_in_cube_data_set/impl/static.py:42-78 | a product clicked in the window is left out only when the list holds top_n products, each clicked at least as often |
| StaticSelection.FirmProductsSpec | 03_seal_firm_ijt_indexspaced_cubes_in_cube_data_set/impl/static.py:89-94 | the retailer's product list holds each product it offers exactly once |
| StaticSelection.RandomNProducts | 03_seal_firm_ijt_indexspaced_cubes_in_cube_data_set/impl/static.py:82-108 | [] for a retailer without products; otherwise min(n, count) distinct products of the retailer, and ValueError for a negative n |
| StaticSelection.ProductRetailerSpansSpec | 03_seal_firm_ijt_indexspaced_cubes_in_cube_data_set/impl/static.py:129-135 | the spans read are exactly the (begin, end) pairs of the product's rows at the retailer |
| StaticSelection.IsProductContinuouslyOffered | 03_seal_firm_ijt_indexspaced_cubes_in_cube_data_set/impl/static.py:112-169 | the loop answers the continuity predicate: at least four weeks and at most one week start of the window without an offered day; below four weeks it is false |
| StaticSelection.DailyAdmissionImpliesStatic | 03_seal_firm_ijt_indexspaced_cubes_in_cube_data_set/impl/static.py:112-169 | for windows up to 26 weeks, every product the daily service test admits is also admitted here |
| StaticSelection.FilterContinuouslyOfferedProducts | 03_seal_firm_ijt_indexspaced_cubes_in_cube_data_set/impl/static.py:173-187 | keeps, in input order, exactly the products the continuity test admits |
| StaticSelection.NarrowingKeepsSpans | 03_seal_firm_ijt_indexspaced_cubes_in_cube_data_set/impl/static.py:178-183 | narrowing the table to the retailer first loses none of the product's spans there |
| StaticSelection.RandMaxCounterfactualFirms | 03_seal_firm_ijt_indexspaced_cubes_in_cube_data_set/impl/static.py:191-220 | min(pool, 10) firms drawn from the pool of allowed non-seal firms offering the product at the seal instant; a pool of at most 10 is returned whole |
| StaticSelection.GetOfferedWeeks | 03_seal_firm_ijt_indexspaced_cubes_in_cube_data_set/impl/static.py:224-269 | the offered weeks of the product's rows at the firm beginning by the window end, each within 26 weeks of the seal week |
| StaticSelection.StaticOfferedWeeksAgree | 03_seal_firm_ijt_indexspaced_cubes_in_cube_data_set/impl/static.py:235-265 | for non-empty ids these are exactly the weeks the services' overlap query gives, although the end-of-row condition is commented out |
| StaticSelection.StaticRowsWeeks | 03_seal_firm_ijt_indexspaced_cubes_in_cube_data_set/impl/static.py:235-257 | a row of the static query walks onto a week exactly when some row of the product at the firm does |
| TupleExtractor.Insert | 03_seal_firm_ijt_indexspaced_cubes_in_cube_data_set/impl/gz_business/unique_tuple_extractor.py:7-8 | inserting into a sorted list keeps it sorted and adds exactly the one element |
| TupleExtractor.Sort | 03_seal_firm_ijt_indexspaced_cubes_in_cube_data_set/impl/gz_business/unique_tuple_extractor.py:7-8 | sorted(): an ascending permutation of its input |
| TupleExtractor.SortOfSet | 03_seal_firm_ijt_indexspaced_cubes_in_cube_data_set/impl/gz_business/unique_tuple_extractor.py:7-8 | sorting a set's elements keeps every element once and loses none |
| TupleExtractor.NewExtractor | 03_seal_firm_ijt_indexspaced_cubes_in_cube_data_set/impl/gz_business/unique_tuple_extractor.py:5-8 | the firms are kept as given; the products and weeks are ascending permutations of the given sets |
| TupleExtractor.UniqueCombinationsSpec | 03_seal_firm_ijt_indexspaced_cubes_in_cube_data_set/impl/gz_business/unique_tuple_extractor.py:10-21 | ValueError exactly for a count other than 2 or 3; two names give None exactly when they are not two distinct names of j, i, t, and the same pair set in either order; three names always give J × I × T |
| TupleExtractor.PairsMembers | 03_seal_firm_ijt_indexspaced_cubes_in_cube_data_set/impl/gz_business/unique_tuple_extractor.py:13-24 | a pair or triple is in a result exactly when each component is in its chosen set |
| TupleExtractor.PairCard | 03_seal_firm_ijt_indexspaced_cubes_in_cube_data_set/impl/gz_business/unique_tuple_extractor.py:13-17 | a product of two sets without repetitions has the product of their sizes as its size |
| TupleExtractor.TripleCard | 03_seal_firm_ijt_indexspaced_cubes_in_cube_data_set/impl/gz_business/unique_tuple_extractor.py:19-24 | a product of three sets without repetitions has the product of their three sizes |
| TupleExtractor.UniqueTuplesCount | 03_seal_firm_ijt_indexspaced_cubes_in_cube_data_set/impl/gz_business/unique_tuple_extractor.py:5-24 | built from three sets, get_unique_tuples has \|J\|·\|I\|·\|T\| triples and each pair result the product of its two set sizes |
| MatchingCriteria.NameSuffixesAgree | 01_seal_firm_identifier_string_matching/CONFIG.py:27-28 | no configured name suffix is empty, so the suffix loop as written cuts each one as intended |
| MatchingCriteria.Simple | 01_seal_firm_identifier_string_matching/src/MatchingCriteria.py:15-20 | proposes a name exactly when the suffix-stripped name with dots turned into dashes is a retailer name, and then that name, which holds no dot |
| MatchingCriteria.HandelsverbandSpec | 01_seal_firm_identifier_string_matching/src/MatchingCriteria.py:6-13 | a "www." name proposes its dash-converted form with every "www-" deleted, only when that is a retailer name; other names propose what the simple criterion proposes; a proposal is always a retailer name |
| MatchingCriteria.SliceIndex | 01_seal_firm_identifier_string_matching/src/MatchingCriteria.py:29-30 | Python slice bounds stay within the string |
| MatchingCriteria.AdvancedCandidates | 01_seal_firm_identifier_string_matching/src/MatchingCriteria.py:22-41 | the retailers proposed for a name and n, computed by stripping and one pass over the retailers |
| MatchingCriteria.CollectMatches | 01_seal_firm_identifier_string_matching/src/MatchingCriteria.py:27-41 | the loop appends, in retailer order, exactly the retailers passing the front-or-sufficient-back test |
| MatchingCriteria.Advanced | 01_seal_firm_identifier_string_matching/src/MatchingCriteria.py:43-47 | the advanced criterion with n = 3 below six characters, else 5 |
| MatchingCriteria.Advanced2 | 01_seal_firm_identifier_string_matching/src/MatchingCriteria.py:49-53 | the second advanced criterion with n = 3 when the first dot is at index 3 or less or absent, else 4 |
| MatchingCriteria.AdvancedMatchesSpec | 01_seal_firm_identifier_string_matching/src/MatchingCriteria.py:22-41 | proposes exactly the retailers starting with the first n characters of the stripped name, or ending with its last n when those contain no insufficient suffix, each as often and in the order of the retailer column |
| MatchingCriteria.EmptyStrippedMatchesAll | 01_seal_firm_identifier_string_matching/src/MatchingCriteria.py:29-32 | a name that strips to nothing proposes every retailer |
| MatchingCriteria.WwwStripsToNothing | 01_seal_firm_identifier_string_matching/CONFIG.py:26 | "www." strips to the empty name under the configured prefixes |
| MatchingCriteria.AdvancedCharsSpec | 01_seal_firm_identifier_string_matching/src/MatchingCriteria.py:46-52 | n is 3 exactly below six characters, else 5; the second criterion's n is 4 exactly when the first dot lies past index 3 |
| MatchingCriteria.StripsNothing | 01_seal_firm_identifier_string_matching/CONFIG.py:26-28 | a name starting with none of h, e, s, w and holding no slash is not changed by stripping |
| MatchingCriteria.AdvancedTestFullName | 01_seal_firm_identifier_string_matching/test/MatchingCriteriaAdvancedTest.py:9-14 | "retailer-3" proposes the three retailer-n names and not geizhals |
| MatchingCriteria.AdvancedTestDomainName | 01_seal_firm_identifier_string_matching/test/MatchingCriteriaAdvancedTest.py:16-18 | the domain "retailer-2" proposes the three retailer-n names |
| MatchingCriteria.AdvancedTestTailOnly | 01_seal_firm_identifier_string_matching/test/MatchingCriteriaAdvancedTest.py:20-23 | "ailer-2" proposes only retailer-2, by its tail |
| MatchingCriteria.AdvancedTestUrl | 01_seal_firm_identifier_string_matching/test/MatchingCriteriaAdvancedTest.py:29-37 | the URL "https://geizh.com/shop" proposes only geizhals |
| MatchingCriteria.AdvancedTestShortName | 01_seal_firm_identifier_string_matching/test/MatchingCriteriaAdvancedTest.py:32-38 | the short name "zhals" proposes only geizhals |
| MatchingCriteria.AdvancedTestSelf | 01_seal_firm_identifier_string_matching/test/MatchingCriteriaAdvancedTest.py:35-39 | "geizhals" proposes only itself |
| Matching.WrittenSpec | 01_seal_firm_identifier_string_matching/src/Matching.py:14-26 | only the result column changes: row 0 gets the header, a later row gets the text of its result when that is true and keeps its cell otherwise, and every other cell stays as it was |
| Matching.NameUnchanged | 01_seal_firm_identifier_string_matching/src/Matching.py:16-17 | a row not yet matched still has its original name in column 1 |
| Matching.RowStep | 01_seal_firm_identifier_string_matching/src/Matching.py:16-26 | matching one more row extends the cells, the count and the set by that row's result |
| Matching.MembersAtMostWeight | 01_seal_firm_identifier_string_matching/src/Matching.py:19-26 | a result adds at most as many names to the set as it adds to the count |
| Matching.GainedAtMostScore | 01_seal_firm_identifier_string_matching/src/Matching.py:15-28 | the count returned is never smaller than the number of distinct names the run added to the set |
| Matching.GainedFromRetailers | 01_seal_firm_identifier_string_matching/src/Matching.py:17-26 | a criterion proposing only retailer names adds only retailer names to the set |
| Matching.ScoreZero | 01_seal_firm_identifier_string_matching/src/Matching.py:18-26 | the count is 0 exactly when no row's result is true |
| Matching.SimpleProposesRetailers | 01_seal_firm_identifier_string_matching/src/MatchingCriteria.py:15-20 | the simple criterion proposes only names of the filtered retailers |
| Matching.HandelsverbandProposesRetailers | 01_seal_firm_identifier_string_matching/src/MatchingCriteria.py:6-13 | the Handelsverband criterion proposes only names of the filtered retailers |
| Matching.AdvancedProposesRetailers | 01_seal_firm_identifier_string_matching/src/MatchingCriteria.py:43-53 | both advanced criteria propose only names of the filtered retailers |
| Matching.WrittenKeepsNames | 01_seal_firm_identifier_string_matching/src/Matching.py:14-26 | a step writing another column leaves the names in column 1 as they were |
| Matching.SameNamesSameResults | 01_seal_firm_identifier_string_matching/src/Matching.py:16-26 | the count and the names gained depend only on the names in column 1 |
| Matching.AfterSteps | 01_seal_firm_identifier_string_matching/src/Matching.py:41-67 | the steps applied one after another leave the names in column 1 as they were |
| Matching.GainedByStepsFromRetailers | 01_seal_firm_identifier_string_matching/src/Matching.py:41-67 | when every step's criterion proposes only retailer names, the names all the steps add are retailer names |
| Matching.EhiBevhFirstFour | 01_seal_firm_identifier_string_matching/src/Matching.py:82-106 | after its first four steps the EHI/bevh list's column 7 holds its final text |
| Matching.EhiBevhJaroColumn | 01_seal_firm_identifier_string_matching/src/Matching.py:90-97 | both Jaro steps write column 7: the top-3 header replaces the top-1 header and a row keeps the top-1 result only where the top-3 result is false |
| Matching.StepOutcomes | 01_seal_firm_identifier_string_matching/src/Matching.py:17 | a row's result is the same on two frames with the same names |
| Matching.ColumnUntouched | 01_seal_firm_identifier_string_matching/src/Matching.py:41-67 | steps that all write other columns leave a column as it was |
| Matching.Sheet.constructor | 01_seal_firm_identifier_string_matching/src/Matching.py:42 | a list read with header=None: its row count and cells as read |
| Matching.MatchingProcessor.constructor | 01_seal_firm_identifier_string_matching/src/Matching.py:7-9 | keeps the filtered retailer names and the shared matched-retailer set |
| Matching.MatchingProcessor.AppendResult | 01_seal_firm_identifier_string_matching/src/Matching.py:18-26 | a true str is written as it is, counted once and added to the set; a true list is written as str(list), counted by its length and all added; a false result changes nothing |
| Matching.MatchingProcessor.MatchAndAppend | 01_seal_firm_identifier_string_matching/src/Matching.py:11-28 | writes the header, then every row's true result, returns the count of the specification and adds exactly the proposed names to the set |
| Matching.MatchingProcessor.RunSteps | 01_seal_firm_identifier_string_matching/src/Matching.py:40-76 | the steps one after another: the final frame, one count per step as each step alone would give, and the set grown by all proposed names |
| RetailerFiltering.FilteredOutCount | 01_seal_firm_identifier_string_matching/src/RetailerFiltering.py:21 | the count reported plus the names kept is the number of input names |
| RetailerFiltering.FilterRetailersSpec | 01_seal_firm_identifier_string_matching/src/RetailerFiltering.py:16-23 | keeps, in input order and multiplicity, exactly the names containing none of the forbidden keywords |
| RetailerFiltering.FilteredOutCountSpec | 01_seal_firm_identifier_string_matching/src/RetailerFiltering.py:21-22 | the reported count is the number of input names containing some keyword |
| RetailerFiltering.NoKeywordsKeepsAll | 01_seal_firm_identifier_string_matching/src/RetailerFiltering.py:17-19 | without keywords every name is kept and none reported |
| RetailerFiltering.FilterRetailersIdempotent | 01_seal_firm_identifier_string_matching/src/RetailerFiltering.py:16-23 | filtering again with the same keywords changes nothing |
| StringHelper.StripPrefixesSuffixes | 01_seal_firm_identifier_string_matching/static/StringHelper.py:8-20 | the two loops compute the first-matching prefix cut followed by the as-written suffix cut; None lists behave as empty |
| StringHelper.StripPrefixSpec | 01_seal_firm_identifier_string_matching/static/StringHelper.py:10-14 | at most one prefix is removed: the text is unchanged when no prefix starts it, otherwise the first matching prefix in list order and the result make up the text |
| StringHelper.StripSuffixSpec | 01_seal_firm_identifier_string_matching/static/StringHelper.py:15-19 | at most one suffix is removed: unchanged when none ends the text, otherwise the result and the first matching suffix make up the text |
| StringHelper.StripPrefixIsTail | 01_seal_firm_identifier_string_matching/static/StringHelper.py:10-14 | the prefix loop leaves a tail of the text |
| StringHelper.StripSuffixIsHead | 01_seal_firm_identifier_string_matching/static/StringHelper.py:15-19 | the suffix loop leaves a head of the text |
| StringHelper.StripAffixesSlice | 01_seal_firm_identifier_string_matching/static/StringHelper.py:8-20 | the result is one contiguous slice of the input; with no lists the text is unchanged |
| StringHelper.StripSuffixAgrees | 01_seal_firm_identifier_string_matching/static/StringHelper.py:15-19 | when no suffix is empty the code as written cuts exactly the intended suffix |
| StringHelper.EmptySuffixEmptiesText | 01_seal_firm_identifier_string_matching/static/StringHelper.py:17-18 | an empty suffix matched first empties the text as written (text[:-0] is ""), while the intended cut leaves it whole |
| StringHelper.YearFromSpec | 01_seal_firm_identifier_string_matching/static/StringHelper.py:30-33 | the search from a position finds nothing exactly when no match starts there or later, otherwise the leftmost match at or after it |
| StringHelper.ExtractYearSpec | 01_seal_firm_identifier_string_matching/static/StringHelper.py:27-33 | the year of the leftmost word-bounded four-digit number starting 19 or 20, or None exactly when there is none |
| StringHelper.YearRange | 01_seal_firm_identifier_string_matching/static/StringHelper.py:30 | every matched year lies in 1900..2099 |

## Left out

- Concurrency: the multiprocessing pools, the `Manager` dictionaries, the shared `Value` counters and the locks of the three panel drivers become one sequential run guard per driver, so interleavings are not modelled.
- The DuckDB engine, Polars frames and the file system are not modelled. Tables are in-memory sequences of rows, and the data files are an oracle from path to rows. `queryAsPl`/`query` are therefore not operations of the model, and neither are column dtypes or CSV parsing.
- `date_to_unix_time`, `datetime.fromtimestamp`, `strptime` and the string path of `calculate_running_var_t_from_u` depend on the local time zone and on date parsing. They are not modelled: seal dates arrive as Unix seconds, and times are read as UTC, so daylight-saving shifts are not captured.
- `print_process_mem_usage`, `time.sleep`, `psutil`, logging and `print`/`display_results` produce output or measure memory only.
- Sampling.Sample: Python's Mersenne Twister is not reproduced. The model fixes one draw that keeps what `random.sample` promises (size, membership, distinct positions, ValueError for an impossible size), not Python's actual sequence.
- The Jaro similarity and the two Jaro criteria (`matching_criteria_closest_3_jaro_sim_candidates`, `matching_criteria_top_1_jaro_sim_candidate`) rely on floating point and on a foreign library. They are parameters of the matching runs.
- `VariableCalculator`, the imputation services and `render_variable`'s join and filter logic are not written in the source beyond stubs. `render_variable`'s table and column arguments are never read and are not parameters.
- `free_up_prev_inflow_tables` (02_calculate_index_space.py:21-29) calls `free_up_table_and_manipulate_file_logs`, which the data source does not define, and then sleeps. It is not modelled.
- The other file loaders are not modelled: `load_angebot_data_v2` in impl/db/loaders/load_temp_offers_data.py, the click loaders, `load_all*`, `init_db`, the copies under impl/loaders/, and the loaders of impl/db/duckdb_data_source.py. They read parquet files into DuckDB. The tables they would fill are inputs of the model.
- LegacyMain: every function of impl/main.py carries `@PendingDeprecationWarning`, which replaces it with a warning object that cannot be called. The model gives each of these functions the meaning of its body and does not model the failing call.
- StaticSelection: the functions at impl/static.py lines 42, 82, 112, 173 and 224 carry `@DeprecationWarning`, which replaces each of them with a warning object, so calling one raises TypeError. The model gives each the meaning of its body and does not model the failing call.
- The loop of `main()` in impl/main.py (lines 229-280) is not modelled. The per-firm step it calls, `process_seal_firm`, is modelled.
- Thin repository wrappers, repository factories, enums with no behaviour, and the retailer, product, seal-change-firm and result repositories are not modelled. They only forward a query.
- Project 01's `main.py`, `Plotting`, `FileHelper`, `GuetesiegelMatriceWriter`, and the `02b_*`, `pre_checks` and `population_count` scripts are not part of this model.
- The CONFIG values are constants of the model. Paths and file-format settings are left out.
- The check in test/duck/selectioncriteria/TestGetRandMaxNCounterfactualFirmsDuckDb.py:102-104 asks every returned firm to be both among and not among the allowed firms, which only an empty result meets. It is not stated as a property.
- `@lru_cache` is modelled only where it changes behaviour (the list argument of the timestamp-range function). Elsewhere the cache returns what the function computes and is invisible.
- StringHelper.ExtractYearSpec: `\b`, `\w` and `\d` are taken over ASCII characters. Python's Unicode word and digit classes are not modelled.
- Whitespace for `str.strip()` and case for `str.upper()` are ASCII only. Python's Unicode whitespace and case mappings are not modelled. Upper-casing is used only for the join type of the SQL builder.
- The `lstrip`/`rstrip` calls in test/MatchingCriteriaAdvancedTest.py are not modelled. The lemmas about those cases take the names the calls produce ("retailer-2", "ailer-2").
- Matching.MatchingProcessor.MatchAndAppend: requires a name in column 1 of every row. A missing name is NaN in pandas, which the criteria would reject with an AttributeError, so that path is not modelled.
- Matching.MatchingProcessor.RunSteps: requires a frame with at least one row. Each step's write to the output file and the re-read by the next step are taken to give back the same frame, so CSV quoting and re-typing are not captured.
- Matching.Render: `str(list)` is rendered with plain single quotes, without the escaping `repr` applies to quotes and backslashes inside names.
- RetailerFiltering: `create_filtered_retailers_file` (the parquet read, `unique()` and the CSV write) is file I/O and is not modelled. Only `filter_retailers` is.
- StaticSelection.TopNProductsByClicks: the `except` branch of get_top_n_products_by_clicks (impl/static.py:76-78), which returns [] on any engine error, is not modelled, because the model's tables raise no such errors.

## Findings

| source | as written | input that shows it | evidently intended | confidence | as-written member | corrected member |
|---|---|---|---|---|---|---|
| 03_seal_firm_ijt_indexspaced_cubes_in_cube_data_set/01_calculate_index_space.py:69-84 | `gather_tasks_for_product` builds four-field tuples, but `process_task` unpacks five (the product service as well), so the first task raises ValueError before any row is written | a seal firm with one continuously offered product: the task list is non-empty and the write loop fails on its first tuple | each task carries the product service, so every task's rows are written in task order | not executed | FirstIndexSpace.RunFourTuples | FirstIndexSpace.RunFiveTuples |
| 03_seal_firm_ijt_indexspaced_cubes_in_cube_data_set/impl/service/service.py:60-62 | the size guard is commented out, so `random.sample` is asked for ten firms even when fewer are eligible and raises ValueError | a product offered at the seal by one allowed firm that holds no seal | a pool of at most ten firms is taken whole, as impl/static.py:214-217 and impl/service/offers_service.py:60-64 do | not executed | ProductService.SmallPoolRaises | Selection.CappedSample |
| 03_seal_firm_ijt_indexspaced_cubes_in_cube_data_set/impl/business/selector/space_selector.py:10-16 | `@lru_cache` hashes its argument, so any list of weeks raises TypeError before the list branch of the body runs | the weeks [5, 6] | a list of weeks maps to the start of its first week and the start of its last week | not executed | SpaceSelector.DtimeRangeAsWrittenRejectsLists | SpaceSelector.DtimeRangeSpec |
| 01_seal_firm_identifier_string_matching/static/StringHelper.py:15-19 | `text[:-len(suffix)]` with an empty suffix is `text[:0]`, which is the empty string | the text "Shop GmbH" with the suffixes [""] | an empty suffix removes nothing and leaves the text whole | not executed | StringHelper.EmptySuffixEmptiesText | StringHelper.StripSuffixSpec |
