// 01_calculate_index_space.py: the earlier panel script over OffersService.
// Its candidates are 50 products drawn from those the firm offered within
// eight weeks of the seal date, kept when continuously offered over eight
// weeks; its guard is keyed on the firm's name alone. Its task tuples have
// four fields while process_task unpacks five, so the first task of a firm
// with a candidate raises ValueError. The members below model the script as
// written and, beside it, the five-field tuples it evidently intends.
//
// Loading the offer table (initialize_offer_table, load_angebot_data_v2) is
// the table `offers` given here; the multiprocessing pool and lock become the
// sequential guard of `FirstIndexSpaceRun`.

module FirstIndexSpace {
  import opened Wrappers
  import opened Seqs
  import opened Text
  import opened Calendar
  import opened Repositories
  import opened Selection
  import opened OfferService
  import opened PanelRows
  import opened IndexSpace

  /**
   * process_main_firm_single_product (isMain, flag 1) and
   * process_counterfactual_firm_single_product (flag 0): one row per week
   * the service reports, each week once.
   */
  method ProcessFirmSingleProduct(offers: seq<Offer>, product: string, firm: string, seal: int, isMain: bool)
    returns (rows: seq<PanelRow>)
    ensures rows == ProcessTask(offers, Task(product, firm, seal, isMain))
    ensures forall r :: r in rows <==>
      r.product == product && r.firm == firm && r.hasSeal == Flag(isMain) && r.week in OfferedWeeks(offers, product, firm, seal)
    ensures NoDup(rows)
  {
    var weeks := GetOfferedWeeks(offers, product, firm, seal);
    rows := ProcessSingleProduct(product, firm, Ascending(weeks, LowerWeek(seal), UpperWeek(seal)), Flag(isMain));
    ProcessTaskRows(offers, Task(product, firm, seal, isMain));
  }

  // ---------------------------------------------------------------------------
  // Task tuples
  // ---------------------------------------------------------------------------

  /** The values a task tuple holds: ids, the seal date, the firm flag and the service object. */
  datatype TupleItem = Str(s: string) | Time(u: int) | Truth(b: bool) | Service

  /** Python truthiness of a tuple value. */
  predicate Truthy(x: TupleItem)
  {
    match x
    case Str(s) => s != ""
    case Time(u) => u != 0
    case Truth(b) => b
    case Service => true
  }

  /** The tuple gather_tasks_for_product builds: (product, firm, seal_date_str, is_main). */
  function FourTuple(t: Task): seq<TupleItem>
  {
    [Str(t.product), Str(t.firm), Time(t.seal), Truth(t.isMain)]
  }

  /** The tuple process_task unpacks: (product, firm, seal_date_str, is_main, product_service). */
  function FiveTuple(t: Task): seq<TupleItem>
  {
    FourTuple(t) + [Service]
  }

  /** gather_tasks_for_product as written: the seal firm's task, then one per sampled counterfactual firm, as 4-tuples. */
  function GatherTasksForProduct(offers: seq<Offer>, product: string, seal: int, sealFirms: seq<string>,
                                 geizhalsId: string, allowedFirms: seq<string>): (tuples: seq<seq<TupleItem>>)
    ensures |tuples| == 1 + |RandMaxCounterfactualFirms(offers, product, seal, sealFirms, allowedFirms)|
    ensures tuples[0] == [Str(product), Str(geizhalsId), Time(seal), Truth(true)]
    ensures forall t :: t in tuples ==> |t| == 4
  {
    Map(FourTuple, GatherTasks(offers, product, seal, sealFirms, geizhalsId, allowedFirms))
  }

  /** The same tasks with the service as the fifth field, the shape process_task unpacks. */
  function GatherTasksForProductFixed(offers: seq<Offer>, product: string, seal: int, sealFirms: seq<string>,
                                      geizhalsId: string, allowedFirms: seq<string>): (tuples: seq<seq<TupleItem>>)
    ensures |tuples| == 1 + |RandMaxCounterfactualFirms(offers, product, seal, sealFirms, allowedFirms)|
    ensures forall t :: t in tuples ==> |t| == 5 && t[4] == Service
  {
    Map(FiveTuple, GatherTasks(offers, product, seal, sealFirms, geizhalsId, allowedFirms))
  }

  /** The message of a 4-tuple unpacked into five names: "not enough values to unpack (expected 5, got 4)". */
  const UnpackMessage: string := UnpackShortMessage(4)

  function UnpackShortMessage(n: int): string
  {
    "not enough values to unpack (expected 5, got " + IntToString(n) + ")"
  }

  /**
   * process_task: unpack five values (ValueError for any other count), then
   * the rows of the main or counterfactual builder by the truth of the
   * fourth. A fifth value other than the service has no get_offered_weeks.
   */
  function ProcessTaskTuple(offers: seq<Offer>, args: seq<TupleItem>): (r: Result<seq<PanelRow>>)
    ensures |args| != 5 ==> r.Err? && r.error.ValueError?
  {
    if |args| < 5 then Err(ValueError(UnpackShortMessage(|args|)))
    else if |args| > 5 then Err(ValueError("too many values to unpack (expected 5)"))
    else if !args[4].Service? then Err(AttributeError("object has no attribute 'get_offered_weeks'"))
    else if args[0].Str? && args[1].Str? && args[2].Time? then
      Ok(ProcessTask(offers, Task(args[0].s, args[1].s, args[2].u, Truthy(args[3]))))
    else Err(TypeError("unexpected task field types"))
  }

  /** Every tuple gather_tasks_for_product builds makes process_task raise the unpacking ValueError. */
  lemma GatheredTuplesRaise(offers: seq<Offer>, product: string, seal: int, sealFirms: seq<string>,
                            geizhalsId: string, allowedFirms: seq<string>)
    ensures forall t :: t in GatherTasksForProduct(offers, product, seal, sealFirms, geizhalsId, allowedFirms) ==>
      ProcessTaskTuple(offers, t) == Err(ValueError(UnpackMessage))
  {
  }

  /** A five-field tuple of a task gives exactly that task's rows. */
  lemma FixedTupleProcesses(offers: seq<Offer>, t: Task)
    ensures ProcessTaskTuple(offers, FiveTuple(t)) == Ok(ProcessTask(offers, t))
  {
    var args := FiveTuple(t);
    assert args[0] == Str(t.product) && args[1] == Str(t.firm) && args[2] == Time(t.seal);
    assert Truthy(args[3]) == t.isMain;
  }

  // ---------------------------------------------------------------------------
  // Running a tuple list
  // ---------------------------------------------------------------------------

  /** What the write loop leaves: the rows written, and the exception that ended it, if any. */
  datatype TupleOutcome = TupleOutcome(rows: seq<PanelRow>, error: Option<PyError>)

  /** The loop `for task in tasks: write_results_to_csv(process_task(task))`: it stops at the first exception. */
  function RunTuples(offers: seq<Offer>, tuples: seq<seq<TupleItem>>): TupleOutcome
    decreases |tuples|
  {
    if tuples == [] then TupleOutcome([], None)
    else
      var before := RunTuples(offers, tuples[..|tuples| - 1]);
      if before.error.Some? then before
      else
        match ProcessTaskTuple(offers, tuples[|tuples| - 1])
        case Err(e) => TupleOutcome(before.rows, Some(e))
        case Ok(rows) => TupleOutcome(before.rows + rows, None)
  }

  /** With the 4-tuples the loop writes nothing and raises the unpacking error at the first task. */
  lemma {:induction false} RunFourTuples(offers: seq<Offer>, tasks: seq<Task>)
    ensures RunTuples(offers, Map(FourTuple, tasks))
         == if tasks == [] then TupleOutcome([], None) else TupleOutcome([], Some(ValueError(UnpackMessage)))
    decreases |tasks|
  {
    if tasks != [] {
      var init := tasks[..|tasks| - 1];
      var tuples := Map(FourTuple, tasks);
      assert tuples[..|tuples| - 1] == Map(FourTuple, init);
      RunFourTuples(offers, init);
      assert |tuples[|tuples| - 1]| == 4;
    }
  }

  /** With the 5-tuples the loop writes the rows of every task in order and raises nothing. */
  lemma {:induction false} RunFiveTuples(offers: seq<Offer>, tasks: seq<Task>)
    ensures RunTuples(offers, Map(FiveTuple, tasks)) == TupleOutcome(RowsOf(offers, tasks), None)
    decreases |tasks|
  {
    if tasks != [] {
      var init, last := tasks[..|tasks| - 1], tasks[|tasks| - 1];
      var tuples := Map(FiveTuple, tasks);
      assert tuples[..|tuples| - 1] == Map(FiveTuple, init);
      RunFiveTuples(offers, init);
      FixedTupleProcesses(offers, last);
      assert RowsOf(offers, tasks) == RowsOf(offers, init) + ProcessTask(offers, last);
    }
  }

  /** The tuple-writing loop of process_seal_firm, proved against RunTuples. */
  method WriteTaskTuples(out: ResultsFile, offers: seq<Offer>, tuples: seq<seq<TupleItem>>) returns (err: Option<PyError>)
    modifies out
    ensures out.rows == old(out.rows) + RunTuples(offers, tuples).rows
    ensures out.lines == old(out.lines) + CsvLines(RunTuples(offers, tuples).rows)
    ensures err == RunTuples(offers, tuples).error
  {
    var j := 0;
    while j < |tuples|
      invariant 0 <= j <= |tuples|
      invariant RunTuples(offers, tuples[..j]).error == None
      invariant out.rows == old(out.rows) + RunTuples(offers, tuples[..j]).rows
      invariant out.lines == old(out.lines) + CsvLines(RunTuples(offers, tuples[..j]).rows)
    {
      ghost var done := RunTuples(offers, tuples[..j]).rows;
      assert tuples[..j + 1][..j] == tuples[..j] && tuples[..j + 1][j] == tuples[j];
      var results := ProcessTaskTuple(offers, tuples[j]);
      if results.Err? {
        assert RunTuples(offers, tuples[..j + 1]).error == Some(results.error);
        RunTuplesStops(offers, tuples, j);
        return Some(results.error);
      }
      out.WriteResults(results.value);
      AppendAssoc(old(out.rows), done, results.value);
      CsvLinesAppend(done, results.value);
      AppendAssoc(old(out.lines), CsvLines(done), CsvLines(results.value));
      j := j + 1;
    }
    assert tuples[..j] == tuples;
    return None;
  }

  /** Once the loop has raised, later tuples change nothing. */
  lemma {:induction false} RunTuplesStops(offers: seq<Offer>, tuples: seq<seq<TupleItem>>, j: int)
    requires 0 <= j < |tuples|
    requires RunTuples(offers, tuples[..j + 1]).error.Some?
    ensures RunTuples(offers, tuples) == RunTuples(offers, tuples[..j + 1])
    decreases |tuples| - j
  {
    if j + 1 < |tuples| {
      assert tuples[..|tuples| - 1][..j + 1] == tuples[..j + 1];
      RunTuplesStops(offers, tuples[..|tuples| - 1], j);
    } else {
      assert tuples[..j + 1] == tuples;
    }
  }

  /** The tuple shape of the script as written (four fields) or as intended (five). */
  function TupleShape(fixed: bool): Task -> seq<TupleItem>
  {
    if fixed then FiveTuple else FourTuple
  }

  /** One more product appends its gathered tuples to the tuples of the products before it. */
  /** gather_tasks_for_product for one product, in the tuple shape chosen. */
  function ProductTuples(offers: seq<Offer>, seal: int, sealFirms: seq<string>, geizhalsId: string,
                         allowedFirms: seq<string>, fixed: bool): string -> seq<seq<TupleItem>>
  {
    p => if fixed then GatherTasksForProductFixed(offers, p, seal, sealFirms, geizhalsId, allowedFirms)
         else GatherTasksForProduct(offers, p, seal, sealFirms, geizhalsId, allowedFirms)
  }

  /** Extending the list product by product gives the tuples of the task list, in the same order. */
  lemma {:induction false} ConcatProductTuples(offers: seq<Offer>, products: seq<string>, seal: int,
                                               sealFirms: seq<string>, geizhalsId: string, allowedFirms: seq<string>,
                                               fixed: bool)
    ensures Concat(ProductTuples(offers, seal, sealFirms, geizhalsId, allowedFirms, fixed), products)
         == Map(TupleShape(fixed), TasksFor(offers, products, seal, sealFirms, geizhalsId, allowedFirms))
    decreases |products|
  {
    if products != [] {
      var n := |products| - 1;
      var init := products[..n];
      var shape := TupleShape(fixed);
      var step := GatherTasks(offers, products[n], seal, sealFirms, geizhalsId, allowedFirms);
      ConcatProductTuples(offers, init, seal, sealFirms, geizhalsId, allowedFirms, fixed);
      TasksForSnoc(offers, products, n, seal, sealFirms, geizhalsId, allowedFirms);
      assert products[..n + 1] == products;
      MapAppend(shape, TasksFor(offers, init, seal, sealFirms, geizhalsId, allowedFirms), step);
      assert ProductTuples(offers, seal, sealFirms, geizhalsId, allowedFirms, fixed)(products[n]) == Map(shape, step);
    }
  }

  // ---------------------------------------------------------------------------
  // One seal firm
  // ---------------------------------------------------------------------------

  /** random_products: 50 products drawn (seed 42) from those the firm offered within eight weeks of the seal. */
  function FirstCandidates(offers: seq<Offer>, d: SealFirm): (r: seq<string>)
    ensures |r| <= RandomProductsAmount
  {
    RandomNProducts(offers, d.haendlerBez, d.seal, RandomProductsAmount, SamplerSeed, ContinuityWeeks).value
  }

  /** filtered_products: the candidates continuously offered over eight weeks around the seal, in draw order. */
  function FirstProducts(offers: seq<Offer>, d: SealFirm): seq<string>
  {
    Filter(FirstCandidates(offers, d), Admitted(offers, d.haendlerBez, d.seal, ContinuityWeeks, UnixWeek))
  }

  /** The tasks of every filtered product, in product order. */
  function FirstTasks(offers: seq<Offer>, d: SealFirm, sealFirms: seq<string>, allowedFirms: seq<string>): seq<Task>
  {
    TasksFor(offers, FirstProducts(offers, d), d.seal, sealFirms, d.geizhalsId, allowedFirms)
  }

  /** There are tasks exactly when some candidate passed the continuity test. */
  lemma FirstTasksEmpty(offers: seq<Offer>, d: SealFirm, sealFirms: seq<string>, allowedFirms: seq<string>)
    ensures FirstTasks(offers, d, sealFirms, allowedFirms) == [] <==> FirstProducts(offers, d) == []
  {
    var products := FirstProducts(offers, d);
    if products != [] {
      assert |GatherTasks(offers, products[0], d.seal, sealFirms, d.geizhalsId, allowedFirms)| >= 1;
    }
  }

  /** The as-written run for a new firm: nothing is written, and it raises exactly when some product passed the filter. */
  lemma AsWrittenOutcome(offers: seq<Offer>, d: SealFirm, sealFirms: seq<string>, allowedFirms: seq<string>)
    ensures RunTuples(offers, Map(FourTuple, FirstTasks(offers, d, sealFirms, allowedFirms)))
         == TupleOutcome([], if FirstProducts(offers, d) == [] then None else Some(ValueError(UnpackMessage)))
  {
    RunFourTuples(offers, FirstTasks(offers, d, sealFirms, allowedFirms));
    FirstTasksEmpty(offers, d, sealFirms, allowedFirms);
  }

  /** A filtered product was drawn, was offered by the firm within eight weeks of the seal, and passed the continuity test. */
  lemma FirstProductSound(offers: seq<Offer>, d: SealFirm, p: string)
    requires p in FirstProducts(offers, d)
    ensures p in FirstCandidates(offers, d)
    ensures exists o :: (o in offers && o.firm == d.haendlerBez && o.product == p
      && o.begin <= d.seal + ContinuityWeeks * UnixWeek && o.end >= d.seal - ContinuityWeeks * UnixWeek)
    ensures ContinuouslyOffered(offers, p, d.haendlerBez, d.seal, ContinuityWeeks, UnixWeek)
  {
    var admitted := Admitted(offers, d.haendlerBez, d.seal, ContinuityWeeks, UnixWeek);
    FilterMembers(FirstCandidates(offers, d), admitted);
    assert p in FirstCandidates(offers, d) && admitted(p);
  }

  /** The rows the intended script writes for a firm it has not seen. */
  function FirstSealFirmRows(offers: seq<Offer>, d: SealFirm, sealFirms: seq<string>, allowedFirms: seq<string>): seq<PanelRow>
  {
    RowsOf(offers, FirstTasks(offers, d, sealFirms, allowedFirms))
  }

  /**
   * Every row of the intended script is for a drawn product the firm offered
   * within eight weeks of the seal and continuously over eight weeks, in a
   * week the row's firm offered it; flag 1 rows are the seal firm's.
   */
  lemma FirstSealFirmRowsSound(offers: seq<Offer>, d: SealFirm, sealFirms: seq<string>, allowedFirms: seq<string>,
                               r: PanelRow)
    requires r in FirstSealFirmRows(offers, d, sealFirms, allowedFirms)
    ensures r.hasSeal == 0 || r.hasSeal == 1
    ensures r.hasSeal == 1 ==> r.firm == d.geizhalsId
    ensures r.hasSeal == 0 ==> r.firm !in sealFirms
    ensures r.product in FirstCandidates(offers, d)
    ensures exists o :: (o in offers && o.firm == d.haendlerBez && o.product == r.product
      && o.begin <= d.seal + ContinuityWeeks * UnixWeek && o.end >= d.seal - ContinuityWeeks * UnixWeek)
    ensures ContinuouslyOffered(offers, r.product, d.haendlerBez, d.seal, ContinuityWeeks, UnixWeek)
    ensures r.week in OfferedWeeks(offers, r.product, r.firm, d.seal)
  {
    TasksForRowSound(offers, FirstProducts(offers, d), d.seal, sealFirms, d.geizhalsId, allowedFirms, r);
    FirstProductSound(offers, d, r.product);
  }

  /**
   * The state process_seal_firm shares between calls: the processed firm
   * names, the counter and results.csv.
   */
  class FirstIndexSpaceRun {
    var processed: set<string>
    var counter: int
    const out: ResultsFile

    ghost predicate Valid()
      reads this, out
    {
      counter == |processed| && out.Valid()
    }

    constructor()
      ensures Valid() && fresh(out)
      ensures processed == {} && counter == 0 && out.lines == [CsvHeader] && out.rows == []
    {
      processed := {};
      counter := 0;
      out := new ResultsFile();
    }

    /** The products, then the tuples of gather_tasks_for_product for each, in product order. */
    static method GatherTuples(offers: seq<Offer>, d: SealFirm, sealFirms: seq<string>, allowedFirms: seq<string>,
                               fixed: bool) returns (tuples: seq<seq<TupleItem>>)
      ensures tuples == Map(TupleShape(fixed), FirstTasks(offers, d, sealFirms, allowedFirms))
    {
      var sample := RandomNProducts(offers, d.haendlerBez, d.seal, RandomProductsAmount, SamplerSeed, ContinuityWeeks);
      var products := FilterContinuouslyOfferedProducts(offers, d.haendlerBez, sample.value, d.seal, ContinuityWeeks);
      assert products == FirstProducts(offers, d);
      tuples := GatherProductTuples(offers, products, d.seal, sealFirms, d.geizhalsId, allowedFirms, fixed);
      ConcatProductTuples(offers, products, d.seal, sealFirms, d.geizhalsId, allowedFirms, fixed);
    }

    /** The loop over the filtered products, extending the tuple list with each product's tuples. */
    static method GatherProductTuples(offers: seq<Offer>, products: seq<string>, seal: int, sealFirms: seq<string>,
                                      geizhalsId: string, allowedFirms: seq<string>, fixed: bool)
      returns (tuples: seq<seq<TupleItem>>)
      ensures tuples == Concat(ProductTuples(offers, seal, sealFirms, geizhalsId, allowedFirms, fixed), products)
    {
      ghost var gather := ProductTuples(offers, seal, sealFirms, geizhalsId, allowedFirms, fixed);
      tuples := [];
      var i := 0;
      while i < |products|
        invariant 0 <= i <= |products|
        invariant tuples == Concat(gather, products[..i])
      {
        var more;
        if fixed {
          more := GatherTasksForProductFixed(offers, products[i], seal, sealFirms, geizhalsId, allowedFirms);
        } else {
          more := GatherTasksForProduct(offers, products[i], seal, sealFirms, geizhalsId, allowedFirms);
        }
        assert more == gather(products[i]);
        ConcatPrefix(gather, products, i);
        tuples := tuples + more;
        i := i + 1;
      }
      assert products[..i] == products;
    }

    /** The gather and tuple loops of process_seal_firm as written: nothing reaches the file, and the first tuple raises. */
    static method WriteAsWritten(out: ResultsFile, offers: seq<Offer>, d: SealFirm, sealFirms: seq<string>,
                                 allowedFirms: seq<string>) returns (err: Option<PyError>)
      modifies out
      ensures out.rows == old(out.rows) && out.lines == old(out.lines)
      ensures err == if FirstProducts(offers, d) == [] then None else Some(ValueError(UnpackMessage))
    {
      var tuples := GatherTuples(offers, d, sealFirms, allowedFirms, false);
      assert tuples == Map(FourTuple, FirstTasks(offers, d, sealFirms, allowedFirms));
      AsWrittenOutcome(offers, d, sealFirms, allowedFirms);
      err := WriteTaskTuples(out, offers, tuples);
      assert out.rows == old(out.rows) + [];
      assert out.lines == old(out.lines) + [];
    }

    /**
     * process_seal_firm as written: a firm name seen before returns None
     * (Ok(false)); otherwise the name is recorded and counted, and the tuple
     * loop runs, raising at the first tuple. The firm stays recorded, so it
     * is never retried.
     */
    method ProcessSealFirmAsWritten(offers: seq<Offer>, d: SealFirm, sealFirms: seq<string>, allowedFirms: seq<string>)
      returns (r: Result<bool>)
      requires Valid()
      modifies this, out
      ensures Valid()
      ensures processed == old(processed) + {d.haendlerBez}
      ensures counter == old(counter) + (if d.haendlerBez in old(processed) then 0 else 1)
      ensures out.rows == old(out.rows) && out.lines == old(out.lines)
      ensures r == if d.haendlerBez in old(processed) then Ok(false)
                   else if FirstProducts(offers, d) == [] then Ok(true)
                   else Err(ValueError(UnpackMessage))
    {
      if d.haendlerBez in processed {
        return Ok(false);
      }
      processed := processed + {d.haendlerBez};
      counter := counter + 1;
      var err := WriteAsWritten(out, offers, d, sealFirms, allowedFirms);
      if err.Some? {
        return Err(err.value);
      }
      return Ok(true);
    }

    /** The gather and tuple loops with five-field tuples: every task's rows reach the file, and nothing raises. */
    static method WriteFixed(out: ResultsFile, offers: seq<Offer>, d: SealFirm, sealFirms: seq<string>,
                             allowedFirms: seq<string>)
      modifies out
      ensures out.rows == old(out.rows) + FirstSealFirmRows(offers, d, sealFirms, allowedFirms)
      ensures old(out.Valid()) ==> out.Valid()
    {
      var tuples := GatherTuples(offers, d, sealFirms, allowedFirms, true);
      ghost var tasks := FirstTasks(offers, d, sealFirms, allowedFirms);
      assert tuples == Map(FiveTuple, tasks);
      RunFiveTuples(offers, tasks);
      var err := WriteTaskTuples(out, offers, tuples);
      assert err == None;
      if old(out.Valid()) {
        CsvLinesAppend(old(out.rows), RowsOf(offers, tasks));
        AppendAssoc([CsvHeader], CsvLines(old(out.rows)), CsvLines(RowsOf(offers, tasks)));
      }
    }

    /** process_seal_firm with five-field tuples: the rows of every task are appended, task by task. */
    method ProcessSealFirm(offers: seq<Offer>, d: SealFirm, sealFirms: seq<string>, allowedFirms: seq<string>)
      returns (done: bool)
      requires Valid()
      modifies this, out
      ensures Valid()
      ensures done <==> d.haendlerBez !in old(processed)
      ensures processed == old(processed) + {d.haendlerBez}
      ensures counter == old(counter) + (if done then 1 else 0)
      ensures out.rows == old(out.rows) + (if done then FirstSealFirmRows(offers, d, sealFirms, allowedFirms) else [])
    {
      if d.haendlerBez in processed {
        assert old(out.rows) + [] == old(out.rows);
        return false;
      }
      processed := processed + {d.haendlerBez};
      counter := counter + 1;
      WriteFixed(out, offers, d, sealFirms, allowedFirms);
      return true;
    }
  }
}
