// 02_calculate_index_space.py: for every seal-change firm, the clicked and
// continuously offered products, one task for the firm itself and one per
// sampled counterfactual firm, and one results.csv row per offered week of
// each task. The service calls read the in-memory tables `offers` and
// `clicks` that the loaders fill; the multiprocessing pool, lock and shared
// dictionary become the sequential guard of `IndexSpaceRun`.
//
// As the files stand the script stops at its imports:
// impl/db/loaders/load_temp_clicks_data.py imports a name CONFIG does not
// define. The model gives the behaviour the code spells out.

module IndexSpace {
  import opened Seqs
  import opened Calendar
  import opened Helpers
  import opened Repositories
  import opened Selection
  import opened OfferService
  import opened ClickService
  import opened PanelRows

  /**
   * A row of the seal-change-firm table as calculate_index_space passes it
   * on: the firm's name twice (both are the 'RESULTING MATCH' column) and its
   * first seal date.
   */
  datatype SealFirm = SealFirm(haendlerBez: string, geizhalsId: string, seal: int)

  /** The guard key: firm and seal date. */
  function Key(d: SealFirm): (string, int) { (d.haendlerBez, d.seal) }

  /** A task: product, firm, seal date and whether the firm is the seal firm itself. */
  datatype Task = Task(product: string, firm: string, seal: int, isMain: bool)

  /** int(is_main_firm). */
  function Flag(isMain: bool): int { if isMain then 1 else 0 }

  // ---------------------------------------------------------------------------
  // Rows of one task
  // ---------------------------------------------------------------------------

  /** process_single_product: one row per offered week, in the order the weeks are iterated. */
  function ProcessSingleProduct(product: string, firm: string, weeks: seq<int>, hasSeal: int): seq<PanelRow>
  {
    seq(|weeks|, i requires 0 <= i < |weeks| => PanelRow(product, firm, weeks[i], hasSeal))
  }

  lemma ProcessSingleProductRows(product: string, firm: string, weeks: seq<int>, hasSeal: int)
    ensures |ProcessSingleProduct(product, firm, weeks, hasSeal)| == |weeks|
    ensures forall r :: r in ProcessSingleProduct(product, firm, weeks, hasSeal) <==>
      r.product == product && r.firm == firm && r.hasSeal == hasSeal && r.week in weeks
  {
    var rows := ProcessSingleProduct(product, firm, weeks, hasSeal);
    forall r: PanelRow | r.product == product && r.firm == firm && r.hasSeal == hasSeal && r.week in weeks
      ensures r in rows
    {
      var i :| 0 <= i < |weeks| && weeks[i] == r.week;
      assert rows[i] == r;
    }
  }

  /** The offered weeks of a task in iteration order (they all lie within the +-26-week bound). */
  function TaskWeeks(offers: seq<Offer>, t: Task): seq<int>
  {
    Ascending(OfferedWeeks(offers, t.product, t.firm, t.seal), LowerWeek(t.seal), UpperWeek(t.seal))
  }

  /** process_task: the rows of the task's product at its firm, flagged 1 for the seal firm and 0 otherwise. */
  function ProcessTask(offers: seq<Offer>, t: Task): seq<PanelRow>
  {
    ProcessSingleProduct(t.product, t.firm, TaskWeeks(offers, t), Flag(t.isMain))
  }

  /** A task's rows are exactly its offered weeks, each once, with the task's product, firm and flag. */
  lemma ProcessTaskRows(offers: seq<Offer>, t: Task)
    ensures forall r :: r in ProcessTask(offers, t) <==>
      r.product == t.product && r.firm == t.firm && r.hasSeal == Flag(t.isMain)
      && r.week in OfferedWeeks(offers, t.product, t.firm, t.seal)
    ensures NoDup(ProcessTask(offers, t))
  {
    var weeks := TaskWeeks(offers, t);
    ProcessSingleProductRows(t.product, t.firm, weeks, Flag(t.isMain));
    var rows := ProcessTask(offers, t);
    forall i, j | 0 <= i < j < |rows| ensures rows[i] != rows[j] {
      assert rows[i].week == weeks[i] < weeks[j] == rows[j].week;
    }
  }

  // ---------------------------------------------------------------------------
  // Tasks
  // ---------------------------------------------------------------------------

  /**
   * gather_tasks: the seal firm's task first, then one task per sampled
   * counterfactual firm, in sampler order.
   */
  function GatherTasks(offers: seq<Offer>, product: string, seal: int, sealFirms: seq<string>,
                       geizhalsId: string, allowedFirms: seq<string>): (tasks: seq<Task>)
    ensures |tasks| == 1 + |RandMaxCounterfactualFirms(offers, product, seal, sealFirms, allowedFirms)|
    ensures |tasks| <= 1 + CounterfactualFirmsAmount
    ensures tasks[0] == Task(product, geizhalsId, seal, true)
    ensures forall t :: t in tasks[1..] ==>
      t.product == product && t.seal == seal && !t.isMain && t.firm !in sealFirms
      && exists o :: o in offers && o.product == product && o.begin <= seal <= o.end && o.firm == t.firm
  {
    var cf := RandMaxCounterfactualFirms(offers, product, seal, sealFirms, allowedFirms);
    var rest := seq(|cf|, i requires 0 <= i < |cf| => Task(product, cf[i], seal, false));
    assert forall t :: t in rest ==> t.firm in cf;
    [Task(product, geizhalsId, seal, true)] + rest
  }

  /** The task list of process_seal_firm: the tasks of each product in turn. */
  function TasksFor(offers: seq<Offer>, products: seq<string>, seal: int, sealFirms: seq<string>,
                    geizhalsId: string, allowedFirms: seq<string>): seq<Task>
    decreases |products|
  {
    if products == [] then []
    else TasksFor(offers, products[..|products| - 1], seal, sealFirms, geizhalsId, allowedFirms)
         + GatherTasks(offers, products[|products| - 1], seal, sealFirms, geizhalsId, allowedFirms)
  }

  /** Every task is for one of the products; the seal firm's tasks are for the seal firm, the others for eligible firms. */
  lemma {:induction false} TasksForSpec(offers: seq<Offer>, products: seq<string>, seal: int, sealFirms: seq<string>,
                                        geizhalsId: string, allowedFirms: seq<string>)
    ensures forall t :: t in TasksFor(offers, products, seal, sealFirms, geizhalsId, allowedFirms) ==>
      t.product in products && t.seal == seal
      && (t.isMain ==> t.firm == geizhalsId)
      && (!t.isMain ==>
            t.firm !in sealFirms
            && exists o :: o in offers && o.product == t.product && o.begin <= seal <= o.end && o.firm == t.firm)
    ensures forall p :: p in products ==>
      Task(p, geizhalsId, seal, true) in TasksFor(offers, products, seal, sealFirms, geizhalsId, allowedFirms)
    decreases |products|
  {
    if products != [] {
      var init := products[..|products| - 1];
      var last := GatherTasks(offers, products[|products| - 1], seal, sealFirms, geizhalsId, allowedFirms);
      TasksForSpec(offers, init, seal, sealFirms, geizhalsId, allowedFirms);
      forall t | t in last ensures t.product in products && (t.isMain ==> t.firm == geizhalsId) {
        if t != last[0] {
          var i :| 0 <= i < |last| && last[i] == t;
          assert t in last[1..];
        }
      }
      forall p | p in init ensures p in products { }
      forall p | p in products ensures p in init || p == products[|products| - 1] {
        var i :| 0 <= i < |products| && products[i] == p;
        if i < |products| - 1 {
          assert init[i] == p;
        }
      }
    }
  }

  /** Extending the task list by one more product appends that product's tasks. */
  lemma {:induction false} TasksForSnoc(offers: seq<Offer>, products: seq<string>, i: int, seal: int,
                                        sealFirms: seq<string>, geizhalsId: string, allowedFirms: seq<string>)
    requires 0 <= i < |products|
    ensures TasksFor(offers, products[..i + 1], seal, sealFirms, geizhalsId, allowedFirms)
         == TasksFor(offers, products[..i], seal, sealFirms, geizhalsId, allowedFirms)
            + GatherTasks(offers, products[i], seal, sealFirms, geizhalsId, allowedFirms)
    decreases i
  {
    assert products[..i + 1][..i] == products[..i];
  }

  // ---------------------------------------------------------------------------
  // Rows of a seal firm
  // ---------------------------------------------------------------------------

  /** process_task as a function of the task. */
  function TaskRows(offers: seq<Offer>): Task -> seq<PanelRow>
  {
    t => ProcessTask(offers, t)
  }

  /** The rows written for a task list, task by task. */
  function RowsOf(offers: seq<Offer>, tasks: seq<Task>): seq<PanelRow>
  {
    Concat(TaskRows(offers), tasks)
  }

  lemma RowsOfMember(offers: seq<Offer>, tasks: seq<Task>, r: PanelRow)
    ensures r in RowsOf(offers, tasks) <==> exists t :: t in tasks && r in ProcessTask(offers, t)
  {
    ConcatMember(TaskRows(offers), tasks, r);
  }

  /** The rows of one more task of the list are the rows so far and the rows of that task. */
  lemma RowsOfPrefix(offers: seq<Offer>, tasks: seq<Task>, j: int)
    requires 0 <= j < |tasks|
    ensures RowsOf(offers, tasks[..j + 1]) == RowsOf(offers, tasks[..j]) + ProcessTask(offers, tasks[j])
  {
    ConcatPrefix(TaskRows(offers), tasks, j);
  }

  /** The candidate products: the retailer's top 200 products by clicks that pass the 8-week continuity test. */
  function SealFirmProducts(offers: seq<Offer>, clicks: seq<Click>, d: SealFirm): seq<string>
  {
    Filter(TopNProductsByClicks(clicks, d.haendlerBez, d.seal, TopProductsAmount),
           Admitted(offers, d.haendlerBez, d.seal, ContinuityWeeks, UnixWeek))
  }

  function SealFirmTasks(offers: seq<Offer>, clicks: seq<Click>, d: SealFirm, sealFirms: seq<string>,
                         allowedFirms: seq<string>): seq<Task>
  {
    TasksFor(offers, SealFirmProducts(offers, clicks, d), d.seal, sealFirms, d.geizhalsId, allowedFirms)
  }

  /** What process_seal_firm writes for a firm and seal date it has not seen before. */
  function SealFirmRows(offers: seq<Offer>, clicks: seq<Click>, d: SealFirm, sealFirms: seq<string>,
                        allowedFirms: seq<string>): seq<PanelRow>
  {
    RowsOf(offers, SealFirmTasks(offers, clicks, d, sealFirms, allowedFirms))
  }

  /**
   * Every row written for a seal firm is for a clicked, continuously offered
   * product, in a week the firm offered it within 26 weeks of the seal date;
   * flag 1 rows are the seal firm's own, flag 0 rows belong to firms that are
   * not seal firms and offered the product at the seal date.
   */
  lemma SealFirmRowsSound(offers: seq<Offer>, clicks: seq<Click>, d: SealFirm, sealFirms: seq<string>,
                          allowedFirms: seq<string>, r: PanelRow)
    requires r in SealFirmRows(offers, clicks, d, sealFirms, allowedFirms)
    ensures r.hasSeal == 0 || r.hasSeal == 1
    ensures r.hasSeal == 1 ==> r.firm == d.geizhalsId
    ensures r.hasSeal == 0 ==>
              r.firm !in sealFirms
              && exists o :: o in offers && o.product == r.product && o.begin <= d.seal <= o.end && o.firm == r.firm
    ensures r.product in TopNProductsByClicks(clicks, d.haendlerBez, d.seal, TopProductsAmount)
    ensures ContinuouslyOffered(offers, r.product, d.haendlerBez, d.seal, ContinuityWeeks, UnixWeek)
    ensures r.week in OfferedWeeks(offers, r.product, r.firm, d.seal)
    ensures LowerWeek(d.seal) <= r.week <= UpperWeek(d.seal)
  {
    var products := SealFirmProducts(offers, clicks, d);
    TasksForRowSound(offers, products, d.seal, sealFirms, d.geizhalsId, allowedFirms, r);
    FilterMembers(TopNProductsByClicks(clicks, d.haendlerBez, d.seal, TopProductsAmount),
                  Admitted(offers, d.haendlerBez, d.seal, ContinuityWeeks, UnixWeek));
  }

  /** The rows of the tasks for a product list: for one of the products, flagged and placed as the task says. */
  lemma TasksForRowSound(offers: seq<Offer>, products: seq<string>, seal: int, sealFirms: seq<string>,
                         geizhalsId: string, allowedFirms: seq<string>, r: PanelRow)
    requires r in RowsOf(offers, TasksFor(offers, products, seal, sealFirms, geizhalsId, allowedFirms))
    ensures r.hasSeal == 0 || r.hasSeal == 1
    ensures r.hasSeal == 1 ==> r.firm == geizhalsId
    ensures r.hasSeal == 0 ==>
              r.firm !in sealFirms
              && exists o :: o in offers && o.product == r.product && o.begin <= seal <= o.end && o.firm == r.firm
    ensures r.product in products
    ensures r.week in OfferedWeeks(offers, r.product, r.firm, seal)
    ensures LowerWeek(seal) <= r.week <= UpperWeek(seal)
  {
    var tasks := TasksFor(offers, products, seal, sealFirms, geizhalsId, allowedFirms);
    RowsOfMember(offers, tasks, r);
    var t :| t in tasks && r in ProcessTask(offers, t);
    ProcessTaskRows(offers, t);
    TasksForSpec(offers, products, seal, sealFirms, geizhalsId, allowedFirms);
    if r.hasSeal == 0 {
      var o :| o in offers && o.product == t.product && o.begin <= seal <= o.end && o.firm == t.firm;
      assert o.product == r.product && o.firm == r.firm;
    }
  }

  /** For every candidate product, every week the seal firm offered it is written with flag 1. */
  lemma SealFirmRowsComplete(offers: seq<Offer>, clicks: seq<Click>, d: SealFirm, sealFirms: seq<string>,
                             allowedFirms: seq<string>, p: string, w: int)
    requires p in SealFirmProducts(offers, clicks, d)
    requires w in OfferedWeeks(offers, p, d.geizhalsId, d.seal)
    ensures PanelRow(p, d.geizhalsId, w, 1) in SealFirmRows(offers, clicks, d, sealFirms, allowedFirms)
  {
    var tasks := SealFirmTasks(offers, clicks, d, sealFirms, allowedFirms);
    var t := Task(p, d.geizhalsId, d.seal, true);
    TasksForSpec(offers, SealFirmProducts(offers, clicks, d), d.seal, sealFirms, d.geizhalsId, allowedFirms);
    ProcessTaskRows(offers, t);
    RowsOfMember(offers, tasks, PanelRow(p, d.geizhalsId, w, 1));
  }

  // ---------------------------------------------------------------------------
  // The whole run
  // ---------------------------------------------------------------------------

  function Keys(data: seq<SealFirm>): set<(string, int)>
  {
    set d | d in data :: Key(d)
  }

  /** The rows process_seal_firm writes for a seal firm it has not seen, as a function of the firm. */
  function FirmRows(offers: seq<Offer>, clicks: seq<Click>, sealFirms: seq<string>,
                    allowedFirms: seq<string>): SealFirm -> seq<PanelRow>
  {
    d => SealFirmRows(offers, clicks, d, sealFirms, allowedFirms)
  }

  /** The rows of a run over the seal-firm list, each (firm, seal date) key processed the first time only. */
  function RunRows(data: seq<SealFirm>, seen: set<(string, int)>, rowsOf: SealFirm -> seq<PanelRow>): seq<PanelRow>
    decreases |data|
  {
    if data == [] then []
    else
      (if Key(data[0]) in seen then [] else rowsOf(data[0]))
      + RunRows(data[1..], seen + {Key(data[0])}, rowsOf)
  }

  /** A run over keys already seen writes nothing. */
  lemma {:induction false} RunRowsSeen(data: seq<SealFirm>, seen: set<(string, int)>, rowsOf: SealFirm -> seq<PanelRow>)
    requires Keys(data) <= seen
    ensures RunRows(data, seen, rowsOf) == []
    decreases |data|
  {
    if data != [] {
      assert data[0] in data;
      assert seen + {Key(data[0])} == seen;
      forall d | d in data[1..] ensures Key(d) in seen {
        assert d in data;
      }
      RunRowsSeen(data[1..], seen, rowsOf);
    }
  }

  /** Running two lists in a row is running the first, then the second with the first's keys seen. */
  lemma {:induction false} RunRowsAppend(a: seq<SealFirm>, b: seq<SealFirm>, seen: set<(string, int)>,
                                         rowsOf: SealFirm -> seq<PanelRow>)
    ensures RunRows(a + b, seen, rowsOf) == RunRows(a, seen, rowsOf) + RunRows(b, seen + Keys(a), rowsOf)
    decreases |a|
  {
    if a == [] {
      assert a + b == b;
      assert Keys(a) == {};
      assert seen + Keys(a) == seen;
    } else {
      assert (a + b)[0] == a[0] && (a + b)[1..] == a[1..] + b;
      RunRowsAppend(a[1..], b, seen + {Key(a[0])}, rowsOf);
      assert a == [a[0]] + a[1..];
      assert Keys(a) == {Key(a[0])} + Keys(a[1..]);
      assert seen + {Key(a[0])} + Keys(a[1..]) == seen + Keys(a);
      var seen1 := seen + {Key(a[0])};
      AppendAssoc(if Key(a[0]) in seen then [] else rowsOf(a[0]), RunRows(a[1..], seen1, rowsOf),
                  RunRows(b, seen1 + Keys(a[1..]), rowsOf));
    }
  }

  /** Processing the seal-firm list a second time adds no row. */
  lemma RunTwiceWritesOnce(data: seq<SealFirm>, rowsOf: SealFirm -> seq<PanelRow>)
    ensures RunRows(data + data, {}, rowsOf) == RunRows(data, {}, rowsOf)
  {
    RunRowsAppend(data, data, {}, rowsOf);
    RunRowsSeen(data, {} + Keys(data), rowsOf);
  }

  /** One step of a run: the first seal firm of the rest, then the others with its key seen. */
  lemma RunRowsStep(data: seq<SealFirm>, i: int, seen: set<(string, int)>, rowsOf: SealFirm -> seq<PanelRow>)
    requires 0 <= i < |data|
    ensures RunRows(data[i..], seen, rowsOf)
         == (if Key(data[i]) in seen then [] else rowsOf(data[i])) + RunRows(data[i + 1..], seen + {Key(data[i])}, rowsOf)
  {
    assert data[i..][0] == data[i] && data[i..][1..] == data[i + 1..];
  }

  lemma KeysPrefix(data: seq<SealFirm>, i: int)
    requires 0 <= i < |data|
    ensures Keys(data[..i + 1]) == Keys(data[..i]) + {Key(data[i])}
  {
    assert data[..i + 1] == data[..i] + [data[i]];
  }

  /**
   * The state process_seal_firm shares between calls: the processed keys,
   * the counter of processed firms and results.csv.
   */
  class IndexSpaceRun {
    var processed: set<(string, int)>
    var counter: int
    const out: ResultsFile

    /** The counter counts the processed keys; the file is the header and then one line per row. */
    ghost predicate Valid()
      reads this, out
    {
      counter == |processed| && out.Valid()
    }

    /** The empty dictionary, Value('i', 0), and results.csv opened with 'w' and given its header. */
    constructor()
      ensures Valid() && fresh(out)
      ensures processed == {} && counter == 0 && out.lines == [CsvHeader] && out.rows == []
    {
      processed := {};
      counter := 0;
      out := new ResultsFile();
    }

    /** process_task with the offered weeks from the service. */
    static method RunTask(offers: seq<Offer>, t: Task) returns (results: seq<PanelRow>)
      ensures results == ProcessTask(offers, t)
    {
      var weeks := GetOfferedWeeks(offers, t.product, t.firm, t.seal);
      results := ProcessSingleProduct(t.product, t.firm, Ascending(weeks, LowerWeek(t.seal), UpperWeek(t.seal)),
                                      Flag(t.isMain));
    }

    /** The write loop of process_seal_firm: the rows of each task in turn (process_task, then write_results_to_csv). */
    static method WriteTasks(out: ResultsFile, offers: seq<Offer>, tasks: seq<Task>)
      modifies out
      ensures out.rows == old(out.rows) + RowsOf(offers, tasks)
      ensures out.lines == old(out.lines) + CsvLines(RowsOf(offers, tasks))
    {
      var j := 0;
      while j < |tasks|
        invariant 0 <= j <= |tasks|
        invariant out.rows == old(out.rows) + RowsOf(offers, tasks[..j])
        invariant out.lines == old(out.lines) + CsvLines(RowsOf(offers, tasks[..j]))
      {
        ghost var done := RowsOf(offers, tasks[..j]);
        var results := RunTask(offers, tasks[j]);
        out.WriteResults(results);
        RowsOfPrefix(offers, tasks, j);
        AppendAssoc(old(out.rows), done, results);
        CsvLinesAppend(done, results);
        AppendAssoc(old(out.lines), CsvLines(done), CsvLines(results));
        j := j + 1;
      }
      assert tasks[..j] == tasks;
    }

    /** The products and tasks of process_seal_firm, from the click and offer services. */
    static method GatherSealFirmTasks(offers: seq<Offer>, clicks: seq<Click>, d: SealFirm, sealFirms: seq<string>,
                                      allowedFirms: seq<string>) returns (tasks: seq<Task>)
      ensures tasks == SealFirmTasks(offers, clicks, d, sealFirms, allowedFirms)
    {
      var products := TopNProductsByClicks(clicks, d.haendlerBez, d.seal, TopProductsAmount);
      var filtered := FilterContinuouslyOfferedProducts(offers, d.haendlerBez, products, d.seal, ContinuityWeeks);
      tasks := TasksFor(offers, filtered, d.seal, sealFirms, d.geizhalsId, allowedFirms);
    }

    /**
     * process_seal_firm: a (firm, seal date) key seen before returns at once
     * (None, here false); otherwise the key is recorded, the counter goes up
     * by one and the rows of every task are appended to results.csv, task by
     * task (True, here true).
     */
    method ProcessSealFirm(offers: seq<Offer>, clicks: seq<Click>, d: SealFirm, sealFirms: seq<string>,
                           allowedFirms: seq<string>) returns (done: bool)
      requires Valid()
      modifies this, out
      ensures Valid()
      ensures done <==> Key(d) !in old(processed)
      ensures processed == old(processed) + {Key(d)}
      ensures counter == old(counter) + (if done then 1 else 0)
      ensures out.rows == old(out.rows) + (if done then SealFirmRows(offers, clicks, d, sealFirms, allowedFirms) else [])
      ensures out.lines == old(out.lines) + CsvLines(if done then SealFirmRows(offers, clicks, d, sealFirms, allowedFirms) else [])
    {
      if Key(d) in processed {
        assert processed + {Key(d)} == processed;
        assert old(out.rows) + [] == old(out.rows) && old(out.lines) + CsvLines([]) == old(out.lines);
        return false;
      }
      processed := processed + {Key(d)};
      counter := counter + 1;
      var tasks := GatherSealFirmTasks(offers, clicks, d, sealFirms, allowedFirms);
      ghost var written := RowsOf(offers, tasks);
      WriteTasks(out, offers, tasks);
      CsvLinesAppend(old(out.rows), written);
      AppendAssoc([CsvHeader], CsvLines(old(out.rows)), CsvLines(written));
      return true;
    }
  }

  /**
   * calculate_index_space run sequentially: the header, then every seal firm
   * of the list in order. The counter ends at the number of distinct
   * (firm, seal date) keys and the file holds the rows of each key once.
   */
  method CalculateIndexSpace(offers: seq<Offer>, clicks: seq<Click>, data: seq<SealFirm>,
                             sealFirms: seq<string>, allowedFirms: seq<string>) returns (run: IndexSpaceRun)
    ensures fresh(run) && fresh(run.out) && run.Valid()
    ensures run.processed == Keys(data) && run.counter == |Keys(data)|
    ensures run.out.lines == [CsvHeader] + CsvLines(RunRows(data, {}, FirmRows(offers, clicks, sealFirms, allowedFirms)))
  {
    ghost var rowsOf := FirmRows(offers, clicks, sealFirms, allowedFirms);
    run := new IndexSpaceRun();
    var i := 0;
    while i < |data|
      invariant 0 <= i <= |data|
      invariant fresh(run) && fresh(run.out) && run.Valid()
      invariant run.processed == Keys(data[..i])
      invariant RunRows(data, {}, rowsOf) == run.out.rows + RunRows(data[i..], run.processed, rowsOf)
    {
      ghost var before, written := run.processed, run.out.rows;
      RunRowsStep(data, i, before, rowsOf);
      KeysPrefix(data, i);
      var done := run.ProcessSealFirm(offers, clicks, data[i], sealFirms, allowedFirms);
      AppendAssoc(written, if done then rowsOf(data[i]) else [], RunRows(data[i + 1..], run.processed, rowsOf));
      i := i + 1;
    }
    assert data[..i] == data && data[i..] == [];
    assert run.out.rows + [] == run.out.rows;
  }
}
