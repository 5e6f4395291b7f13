// impl/main.py: the older driver of the panel. It loads the offer and click
// files around each seal date itself, draws products with the functions of
// impl/static.py, and builds each task's rows with the seal week first.
//
// Every function of impl/main.py is decorated with
// @PendingDeprecationWarning, which replaces the function by a warning
// instance that cannot be called; so do the @DeprecationWarning decorators of
// the static.py functions it uses. None of these entry points can be called
// as the file stands. The model gives the behaviour their bodies spell out.
//
// The file system is an oracle: `offerFiles` and `clickFiles` map every path
// os.path.isfile accepts to the rows pl.read_parquet returns for it. The
// pool, manager dictionary and lock become the sequential guard of LegacyRun.

module LegacyMain {
  import opened Wrappers
  import opened Seqs
  import opened Helpers
  import opened Repositories
  import opened Selection
  import StaticSelection
  import opened OfferLoader
  import opened PanelRows
  import IndexSpace

  /** The week count main.py passes to filter_continuously_offered_products. */
  const LegacyContinuityWeeks: int := 4

  /** CONFIG.CLICKS_FOLDER */
  const ClicksFolder: string := "clicks"

  /** The default month window of generate_months_around_seal, on both sides. */
  const ClickMonths: int := 6

  // ---------------------------------------------------------------------------
  // Rows of one task, seal week first
  // ---------------------------------------------------------------------------

  /** The row dictionary of a builder for one week. */
  function RowOf(product: string, firm: string, flag: int): int -> PanelRow
  {
    w => PanelRow(product, firm, w, flag)
  }

  function Other(sealWeek: int): int -> bool
  {
    w => w != sealWeek
  }

  /** The weeks of a builder's rows: the seal week, then the iterated weeks other than it, in order. */
  function SealWeekFirstWeeks(sealWeek: int, weeks: seq<int>): seq<int>
  {
    [sealWeek] + Filter(weeks, Other(sealWeek))
  }

  /** The rows of a builder for the weeks it iterates. */
  function SealWeekFirst(product: string, firm: string, sealWeek: int, weeks: seq<int>, flag: int): seq<PanelRow>
  {
    Map(RowOf(product, firm, flag), SealWeekFirstWeeks(sealWeek, weeks))
  }

  /** The weeks get_offered_weeks (static.py) returns, in the order the set is iterated. */
  function StaticWeeks(offers: seq<Offer>, product: string, firm: string, seal: int): seq<int>
  {
    Ascending(OfferedWeeksOf(SpansOf(StaticSelection.StaticOfferedWeekRows(offers, product, firm, seal)), seal),
              LowerWeek(seal), UpperWeek(seal))
  }

  /** The rows process_task returns for a task. */
  function LegacyTaskRows(offers: seq<Offer>, t: IndexSpace.Task): seq<PanelRow>
  {
    SealWeekFirst(t.product, t.firm, RunningVar(t.seal), StaticWeeks(offers, t.product, t.firm, t.seal),
                  IndexSpace.Flag(t.isMain))
  }

  lemma StrictlyIncreasingNoDup(xs: seq<int>)
    requires StrictlyIncreasing(xs)
    ensures NoDup(xs)
  {
  }

  /** A duplicate-free list with the same members as a set has the set's size. */
  lemma {:induction false} NoDupCard(xs: seq<int>, s: set<int>)
    requires NoDup(xs)
    requires forall x :: x in xs <==> x in s
    ensures |xs| == |s|
    decreases |xs|
  {
    if xs != [] {
      var last := xs[|xs| - 1];
      var init := xs[..|xs| - 1];
      assert xs == init + [last];
      forall x ensures x in init <==> x in s - {last} {
        if x in init {
          var k :| 0 <= k < |init| && init[k] == x;
          assert xs[k] == x;
        }
      }
      NoDupCard(init, s - {last});
    } else {
      assert forall x :: x !in s;
      assert s == {};
    }
  }

  /**
   * The rows of a builder: the seal-week row first, then one row per
   * iterated week other than the seal week, so every week appears once
   * when the iterated weeks are distinct.
   */
  lemma SealWeekFirstSpec(product: string, firm: string, sealWeek: int, weeks: seq<int>, flag: int)
    ensures var rows := SealWeekFirst(product, firm, sealWeek, weeks, flag);
            |rows| >= 1 && rows[0] == PanelRow(product, firm, sealWeek, flag)
            && (forall r :: r in rows <==>
                  r.product == product && r.firm == firm && r.hasSeal == flag && (r.week == sealWeek || r.week in weeks))
            && (NoDup(weeks) ==> NoDup(rows))
  {
    var rest := Filter(weeks, Other(sealWeek));
    var ws := SealWeekFirstWeeks(sealWeek, weeks);
    var rows := SealWeekFirst(product, firm, sealWeek, weeks, flag);
    FilterMembers(weeks, Other(sealWeek));
    forall r: PanelRow | r.product == product && r.firm == firm && r.hasSeal == flag && (r.week == sealWeek || r.week in weeks)
      ensures r in rows
    {
      assert r.week in ws;
      var k :| 0 <= k < |ws| && ws[k] == r.week;
      assert rows[k] == r;
    }
    if NoDup(weeks) {
      FilterNoDup(weeks, Other(sealWeek));
      forall i, j | 0 <= i < j < |rows| ensures rows[i] != rows[j] {
        if i == 0 {
          assert ws[j] == rest[j - 1] && ws[j] in rest;
        } else {
          assert ws[i] == rest[i - 1] && ws[j] == rest[j - 1];
        }
      }
    }
  }

  /**
   * process_task (main.py): the seal-week row first, then one row for each
   * other week the task's firm offered the product within 26 weeks of the
   * seal, flagged 1 for the seal firm and 0 otherwise; no week repeats and
   * there are 1 + |offered weeks - {seal week}| rows.
   */
  lemma LegacyTaskRowsSpec(offers: seq<Offer>, t: IndexSpace.Task)
    ensures var rows := LegacyTaskRows(offers, t);
            var offered := OfferedWeeksOf(SpansOf(StaticSelection.StaticOfferedWeekRows(offers, t.product, t.firm, t.seal)), t.seal);
            |rows| == 1 + |offered - {RunningVar(t.seal)}|
            && rows[0] == PanelRow(t.product, t.firm, RunningVar(t.seal), IndexSpace.Flag(t.isMain))
            && (forall r :: r in rows <==>
                  r.product == t.product && r.firm == t.firm && r.hasSeal == IndexSpace.Flag(t.isMain)
                  && (r.week == RunningVar(t.seal) || r.week in offered))
            && NoDup(rows)
  {
    var offered := OfferedWeeksOf(SpansOf(StaticSelection.StaticOfferedWeekRows(offers, t.product, t.firm, t.seal)), t.seal);
    var weeks := StaticWeeks(offers, t.product, t.firm, t.seal);
    var t0 := RunningVar(t.seal);
    StrictlyIncreasingNoDup(weeks);
    SealWeekFirstSpec(t.product, t.firm, t0, weeks, IndexSpace.Flag(t.isMain));
    assert forall w :: w in weeks <==> w in offered;
    var rest := Filter(weeks, Other(t0));
    FilterMembers(weeks, Other(t0));
    FilterNoDup(weeks, Other(t0));
    NoDupCard(rest, offered - {t0});
  }

  // ---------------------------------------------------------------------------
  // Tasks
  // ---------------------------------------------------------------------------

  function CounterfactualTask(product: string, seal: int): string -> IndexSpace.Task
  {
    f => IndexSpace.Task(product, f, seal, false)
  }

  /**
   * gather_tasks_for_product (main.py): the seal firm's task first, then one
   * per firm of static.py's counterfactual draw, in draw order.
   */
  function StaticGatherTasks(offers: seq<Offer>, product: string, seal: int, sealFirms: seq<string>,
                             geizhalsId: string, allowedFirms: seq<string>): (tasks: seq<IndexSpace.Task>)
    ensures |tasks| == 1 + |StaticSelection.RandMaxCounterfactualFirms(offers, product, seal, sealFirms, allowedFirms)|
    ensures tasks[0] == IndexSpace.Task(product, geizhalsId, seal, true)
  {
    [IndexSpace.Task(product, geizhalsId, seal, true)]
      + Map(CounterfactualTask(product, seal), StaticSelection.RandMaxCounterfactualFirms(offers, product, seal, sealFirms, allowedFirms))
  }

  // ---------------------------------------------------------------------------
  // Row builders
  // ---------------------------------------------------------------------------

  /** One more iterated week adds its row at the end, unless it is the seal week. */
  lemma SealWeekFirstSnoc(product: string, firm: string, sealWeek: int, weeks: seq<int>, w: int, flag: int)
    ensures SealWeekFirst(product, firm, sealWeek, weeks + [w], flag)
         == SealWeekFirst(product, firm, sealWeek, weeks, flag) + (if w != sealWeek then [PanelRow(product, firm, w, flag)] else [])
  {
    var row := RowOf(product, firm, flag);
    var kept := SealWeekFirstWeeks(sealWeek, weeks);
    FilterSnoc(weeks, w, Other(sealWeek));
    if w != sealWeek {
      AppendAssoc([sealWeek], Filter(weeks, Other(sealWeek)), [w]);
      MapSnoc(row, kept, w);
    } else {
      assert Filter(weeks, Other(sealWeek)) + [] == Filter(weeks, Other(sealWeek));
    }
  }

  /**
   * The loop shared by process_main_firm_single_product and
   * process_counterfactual_firm_single_product: the seal-week row, then a row
   * for each iterated week that differs from the seal week.
   */
  method SealWeekFirstLoop(product: string, firm: string, sealWeek: int, weeks: seq<int>, flag: int)
    returns (rows: seq<PanelRow>)
    ensures rows == SealWeekFirst(product, firm, sealWeek, weeks, flag)
  {
    rows := [PanelRow(product, firm, sealWeek, flag)];
    var i := 0;
    assert weeks[..0] == [];
    while i < |weeks|
      invariant 0 <= i <= |weeks|
      invariant rows == SealWeekFirst(product, firm, sealWeek, weeks[..i], flag)
    {
      assert weeks[..i + 1] == weeks[..i] + [weeks[i]];
      SealWeekFirstSnoc(product, firm, sealWeek, weeks[..i], weeks[i], flag);
      if weeks[i] != sealWeek {
        rows := rows + [PanelRow(product, firm, weeks[i], flag)];
      }
      i := i + 1;
    }
    assert weeks[..i] == weeks;
  }

  /** A builder: the offered weeks from static.py's get_offered_weeks, then the loop. */
  method SealWeekFirstBuilder(offers: seq<Offer>, product: string, firm: string, seal: int, flag: int)
    returns (rows: seq<PanelRow>)
    ensures rows == SealWeekFirst(product, firm, RunningVar(seal), StaticWeeks(offers, product, firm, seal), flag)
  {
    var offered := StaticSelection.GetOfferedWeeks(offers, product, firm, seal);
    rows := SealWeekFirstLoop(product, firm, RunningVar(seal), Ascending(offered, LowerWeek(seal), UpperWeek(seal)), flag);
  }

  /** process_main_firm_single_product: the seal firm's rows, flagged 1. */
  method ProcessMainFirmSingleProduct(offers: seq<Offer>, product: string, geizhalsId: string, seal: int)
    returns (rows: seq<PanelRow>)
    ensures rows == LegacyTaskRows(offers, IndexSpace.Task(product, geizhalsId, seal, true))
  {
    rows := SealWeekFirstBuilder(offers, product, geizhalsId, seal, 1);
  }

  /** process_counterfactual_firm_single_product: a counterfactual firm's rows, flagged 0. */
  method ProcessCounterfactualFirmSingleProduct(offers: seq<Offer>, product: string, firm: string, seal: int)
    returns (rows: seq<PanelRow>)
    ensures rows == LegacyTaskRows(offers, IndexSpace.Task(product, firm, seal, false))
  {
    rows := SealWeekFirstBuilder(offers, product, firm, seal, 0);
  }

  /** process_task: the builder the task's flag selects. */
  method ProcessTask(offers: seq<Offer>, t: IndexSpace.Task) returns (rows: seq<PanelRow>)
    ensures rows == LegacyTaskRows(offers, t)
  {
    if t.isMain {
      rows := ProcessMainFirmSingleProduct(offers, t.product, t.firm, t.seal);
    } else {
      rows := ProcessCounterfactualFirmSingleProduct(offers, t.product, t.firm, t.seal);
    }
  }

  // ---------------------------------------------------------------------------
  // Loading the offer and click files around a seal date
  // ---------------------------------------------------------------------------

  /** pl.concat of a list of frames: their rows, frame after frame. */
  function Stack<T>(frames: seq<seq<T>>): seq<T>
  {
    Concat((f: seq<T>) => f, frames)
  }

  /** The frame pl.read_parquet gives for a path: one when the file exists, none otherwise. */
  function Present<T>(files: map<string, seq<T>>): string -> seq<seq<T>>
  {
    p => if p in files then [files[p]] else []
  }

  /** A row is in the stacked frames of some paths exactly when it is in the file of one of them that exists. */
  lemma StackPresentMember<T>(files: map<string, seq<T>>, paths: seq<string>, x: T)
    ensures x in Stack(Concat(Present(files), paths)) <==> exists p :: p in paths && p in files && x in files[p]
  {
    var frames := Concat(Present(files), paths);
    ConcatMember((f: seq<T>) => f, frames, x);
    if exists p :: p in paths && p in files && x in files[p] {
      var p :| p in paths && p in files && x in files[p];
      ConcatMember(Present(files), paths, files[p]);
    }
    if exists f :: f in frames && x in f {
      var f :| f in frames && x in f;
      ConcatMember(Present(files), paths, f);
    }
  }

  /** No frame is read exactly when none of the paths exists. */
  lemma PresentEmpty<T>(files: map<string, seq<T>>, paths: seq<string>)
    ensures Concat(Present(files), paths) == [] <==> forall p :: p in paths ==> p !in files
  {
    ConcatEmpty(Present(files), paths);
  }

  function FirmAllowed(allowedFirms: seq<string>): Offer -> bool
  {
    (o: Offer) => o.firm in allowedFirms
  }

  /** The offer file names load_relevant_angebot_data looks for: 52 weeks before the seal week to 26 after. */
  function LegacyWeekNames(seal: int): seq<string>
  {
    SealWeekNames(WeekYearFromSeal(seal), None, None)
  }

  /** The frames read, one per week name with a file in some offer folder, in week order. */
  function OfferFrames(files: map<string, seq<Offer>>, seal: int): seq<seq<Offer>>
  {
    Concat(Present(files), FoundPaths(LegacyWeekNames(seal), files.Keys))
  }

  /** What load_relevant_angebot_data returns: None when no file is found, else the allowed firms' rows of all files. */
  function LoadedOffers(files: map<string, seq<Offer>>, seal: int, allowedFirms: seq<string>): Option<seq<Offer>>
  {
    var frames := OfferFrames(files, seal);
    if frames == [] then None else Some(Filter(Stack(frames), FirmAllowed(allowedFirms)))
  }

  /** The frames of the found paths: none exactly when no name has a file, and between them the rows of the found files. */
  lemma FoundFramesSpec(files: map<string, seq<Offer>>, names: seq<string>)
    ensures Concat(Present(files), FoundPaths(names, files.Keys)) == [] <==>
              forall k :: 0 <= k < |names| ==> Locate(names[k], files.Keys).None?
    ensures forall o :: o in Stack(Concat(Present(files), FoundPaths(names, files.Keys))) <==>
              exists p :: p in FoundPaths(names, files.Keys) && p in files && o in files[p]
  {
    var paths := FoundPaths(names, files.Keys);
    FoundPathsEmpty(names, files.Keys);
    FoundPathsExist(names, files.Keys);
    PresentEmpty(files, paths);
    forall o: Offer ensures o in Stack(Concat(Present(files), paths)) <==> exists p :: p in paths && p in files && o in files[p] {
      StackPresentMember(files, paths, o);
    }
  }

  /**
   * load_relevant_angebot_data gives None exactly when no week name has a
   * file; otherwise exactly the rows of the found files whose firm is allowed.
   */
  lemma LoadedOffersSpec(files: map<string, seq<Offer>>, seal: int, allowedFirms: seq<string>)
    ensures var names := LegacyWeekNames(seal);
            LoadedOffers(files, seal, allowedFirms).None? <==>
              forall k :: 0 <= k < |names| ==> Locate(names[k], files.Keys).None?
    ensures var paths := FoundPaths(LegacyWeekNames(seal), files.Keys);
            LoadedOffers(files, seal, allowedFirms).Some? ==>
              forall o :: o in LoadedOffers(files, seal, allowedFirms).value <==>
                o.firm in allowedFirms && exists p :: p in paths && p in files && o in files[p]
  {
    var names := LegacyWeekNames(seal);
    var frames := OfferFrames(files, seal);
    FoundFramesSpec(files, names);
    FilterMembers(Stack(frames), FirmAllowed(allowedFirms));
  }

  /**
   * load_relevant_angebot_data: the offer file names around the seal, the
   * first existing path of each in the offer folders, and the found frames
   * stacked and narrowed to the allowed firms.
   */
  method LoadRelevantAngebotData(files: map<string, seq<Offer>>, seal: int, allowedFirms: seq<string>)
    returns (r: Option<seq<Offer>>)
    ensures r == LoadedOffers(files, seal, allowedFirms)
  {
    var yearWeek := WeekYearFromSeal(seal);
    var names := WeeksAroundSeal(yearWeek.0, yearWeek.1, PreSealWeeks, PostSealWeeks, AngeboteScheme, DefaultWeeksInYear);
    assert names == LegacyWeekNames(seal);
    var frames: seq<seq<Offer>> := [];
    var i := 0;
    assert names[..0] == [];
    while i < |names|
      invariant 0 <= i <= |names|
      invariant frames == Concat(Present(files), FoundPaths(names[..i], files.Keys))
    {
      ghost var found := FoundPaths(names[..i], files.Keys);
      var path := FileExistsInFolders(names[i], FolderList(AngeboteFolders), ParquetFilesDir, files.Keys);
      assert path == Locate(names[i], files.Keys);
      TakeSnoc(names, i);
      FoundPathsSnoc(names[..i], names[i], files.Keys);
      if path.Some? {
        FirstExistingMember(CandidatePaths(names[i], FolderList(AngeboteFolders), ParquetFilesDir), files.Keys);
        ConcatSnoc(Present(files), found, path.value);
        frames := frames + [files[path.value]];
      } else {
        assert found + [] == found;
      }
      i := i + 1;
    }
    assert names[..i] == names;
    if frames == [] {
      return None;
    }
    return Some(Filter(Stack(frames), FirmAllowed(allowedFirms)));
  }

  /** os.path.join(PARQUET_FILES_DIR, CLICKS_FOLDER, name). */
  function ClickPath(name: string): string
  {
    JoinPath3(ParquetFilesDir, ClicksFolder, name)
  }

  /** The seal month's calendar window of six months each side lies within years 1..9999, so datetime accepts it. */
  predicate ClickWindowValid(seal: int)
  {
    var ym := YearMonthFromSeal(seal);
    MonthsWindowValid(ym.0, ym.1, ClickMonths, ClickMonths)
  }

  /** The click paths load_relevant_click_data looks for, one per month name. */
  function ClickPaths(seal: int): seq<string>
  {
    var ym := YearMonthFromSeal(seal);
    Map(ClickPath, MonthNames(ClicksScheme, ym.0, ym.1, ClickMonths, ClickMonths))
  }

  /** What load_relevant_click_data returns when the window is valid: None when no file exists, else all files' rows. */
  function LoadedClicks(files: map<string, seq<Click>>, seal: int): Option<seq<Click>>
  {
    var frames := Concat(Present(files), ClickPaths(seal));
    if frames == [] then None else Some(Stack(frames))
  }

  /**
   * load_relevant_click_data raises when the month window leaves the years
   * datetime accepts; otherwise it gives None exactly when no month's click
   * file exists, and else exactly the rows of the existing files.
   */
  lemma LoadedClicksSpec(files: map<string, seq<Click>>, seal: int)
    ensures LoadedClicks(files, seal).None? <==> forall p :: p in ClickPaths(seal) ==> p !in files
    ensures LoadedClicks(files, seal).Some? ==>
              forall c :: c in LoadedClicks(files, seal).value <==>
                exists p :: p in ClickPaths(seal) && p in files && c in files[p]
  {
    var paths := ClickPaths(seal);
    PresentEmpty(files, paths);
    forall c: Click
      ensures c in Stack(Concat(Present(files), paths)) <==> exists p :: p in paths && p in files && c in files[p]
    {
      StackPresentMember(files, paths, c);
    }
  }

  /** load_relevant_click_data: the month names around the seal, and the frames of the existing click paths stacked. */
  method LoadRelevantClickData(files: map<string, seq<Click>>, seal: int) returns (r: Result<Option<seq<Click>>>)
    ensures r.Err? <==> !ClickWindowValid(seal)
    ensures r.Ok? ==> r.value == LoadedClicks(files, seal)
  {
    var ym := YearMonthFromSeal(seal);
    var months := MonthsAroundSeal(ym.0, ym.1, ClickMonths, ClickMonths, ClicksScheme);
    if months.Err? {
      return Err(months.error);
    }
    var names := months.value;
    ghost var paths := Map(ClickPath, names);
    assert paths == ClickPaths(seal);
    var frames := CollectClickFrames(files, names);
    if frames == [] {
      return Ok(None);
    }
    return Ok(Some(Stack(frames)));
  }

  /** The loop over the month names: the frame of each click path that exists, in month order. */
  method CollectClickFrames(files: map<string, seq<Click>>, names: seq<string>) returns (frames: seq<seq<Click>>)
    ensures frames == Concat(Present(files), Map(ClickPath, names))
  {
    ghost var paths := Map(ClickPath, names);
    frames := [];
    var i := 0;
    while i < |names|
      invariant 0 <= i <= |names|
      invariant frames == Concat(Present(files), paths[..i])
    {
      var path := ClickPath(names[i]);
      assert path == paths[i];
      ConcatPrefix(Present(files), paths, i);
      if path in files {
        frames := frames + [files[path]];
      } else {
        assert frames + [] == frames;
      }
      i := i + 1;
    }
    assert paths[..i] == paths;
  }

  // ---------------------------------------------------------------------------
  // Products, tasks and rows of one seal firm
  // ---------------------------------------------------------------------------

  /**
   * The products process_seal_firm keeps: static.py's random draw of 50
   * products with seed 42, then those the seal firm offered continuously for
   * 4 weeks around the seal. The draw is made for the firm named by the
   * Geizhals identifier, which is what main.py passes as the firm name.
   */
  function LegacyProducts(offers: seq<Offer>, d: IndexSpace.SealFirm): seq<string>
  {
    Filter(StaticSelection.RandomNProducts(offers, d.geizhalsId, RandomProductsAmount, SamplerSeed).value,
           p => StaticSelection.ContinuouslyOffered(offers, p, d.haendlerBez, d.seal, LegacyContinuityWeeks))
  }

  function LegacyGather(offers: seq<Offer>, seal: int, sealFirms: seq<string>, geizhalsId: string,
                        allowedFirms: seq<string>): string -> seq<IndexSpace.Task>
  {
    p => StaticGatherTasks(offers, p, seal, sealFirms, geizhalsId, allowedFirms)
  }

  /** The task list of process_seal_firm: the tasks of each kept product, in product order. */
  function LegacyTasks(offers: seq<Offer>, d: IndexSpace.SealFirm, sealFirms: seq<string>,
                       allowedFirms: seq<string>): seq<IndexSpace.Task>
  {
    Concat(LegacyGather(offers, d.seal, sealFirms, d.geizhalsId, allowedFirms), LegacyProducts(offers, d))
  }

  function LegacyRowsOf(offers: seq<Offer>): IndexSpace.Task -> seq<PanelRow>
  {
    t => LegacyTaskRows(offers, t)
  }

  /** The rows process_seal_firm appends: the rows of each task, in task order. */
  function LegacyRows(offers: seq<Offer>, d: IndexSpace.SealFirm, sealFirms: seq<string>,
                      allowedFirms: seq<string>): seq<PanelRow>
  {
    Concat(LegacyRowsOf(offers), LegacyTasks(offers, d, sealFirms, allowedFirms))
  }

  /**
   * The kept products: at most 50, none twice, each offered by a firm named
   * by the Geizhals identifier and continuously offered by the seal firm.
   * So when no offer names the Geizhals identifier as its firm, nothing is kept.
   */
  lemma LegacyProductsSpec(offers: seq<Offer>, d: IndexSpace.SealFirm)
    ensures |LegacyProducts(offers, d)| <= RandomProductsAmount
    ensures NoDup(LegacyProducts(offers, d))
    ensures forall p :: p in LegacyProducts(offers, d) ==>
              StaticSelection.ContinuouslyOffered(offers, p, d.haendlerBez, d.seal, LegacyContinuityWeeks)
              && exists o :: o in offers && o.firm == d.geizhalsId && o.product == p
    ensures (forall o :: o in offers ==> o.firm != d.geizhalsId) ==> LegacyProducts(offers, d) == []
  {
    var admitted := p => StaticSelection.ContinuouslyOffered(offers, p, d.haendlerBez, d.seal, LegacyContinuityWeeks);
    var sample := StaticSelection.RandomNProducts(offers, d.geizhalsId, RandomProductsAmount, SamplerSeed).value;
    FilterMembers(sample, admitted);
    FilterNoDup(sample, admitted);
    FilterCount(sample, admitted);
    if LegacyProducts(offers, d) != [] {
      assert LegacyProducts(offers, d)[0] in LegacyProducts(offers, d);
    }
  }

  /**
   * A task of gather_tasks_for_product is for its product and seal date, and
   * is the seal firm's (the first) or a counterfactual one for an allowed
   * firm without a seal.
   */
  lemma StaticGatherTaskSound(offers: seq<Offer>, p: string, seal: int, sealFirms: seq<string>, geizhalsId: string,
                              allowedFirms: seq<string>, t: IndexSpace.Task)
    requires t in StaticGatherTasks(offers, p, seal, sealFirms, geizhalsId, allowedFirms)
    ensures t.product == p && t.seal == seal
    ensures (t.isMain && t.firm == geizhalsId) || (!t.isMain && t.firm !in sealFirms && t.firm in allowedFirms)
  {
    var cf := StaticSelection.RandMaxCounterfactualFirms(offers, p, seal, sealFirms, allowedFirms);
    var ts := StaticGatherTasks(offers, p, seal, sealFirms, geizhalsId, allowedFirms);
    if t != ts[0] {
      var k :| 0 <= k < |ts| && ts[k] == t;
      assert t == CounterfactualTask(p, seal)(cf[k - 1]);
      assert cf[k - 1] in cf;
    }
  }

  /**
   * Every row process_seal_firm appends is for a kept product, and is either
   * the seal firm's row (under its Geizhals identifier, flagged 1) or a
   * counterfactual firm's row (flagged 0, an allowed firm without a seal).
   */
  lemma LegacyRowsSound(offers: seq<Offer>, d: IndexSpace.SealFirm, sealFirms: seq<string>,
                        allowedFirms: seq<string>, r: PanelRow)
    requires r in LegacyRows(offers, d, sealFirms, allowedFirms)
    ensures r.product in LegacyProducts(offers, d)
    ensures (r.firm == d.geizhalsId && r.hasSeal == 1)
         || (r.hasSeal == 0 && r.firm !in sealFirms && r.firm in allowedFirms)
  {
    var gather := LegacyGather(offers, d.seal, sealFirms, d.geizhalsId, allowedFirms);
    var products := LegacyProducts(offers, d);
    var tasks := LegacyTasks(offers, d, sealFirms, allowedFirms);
    ConcatMember(LegacyRowsOf(offers), tasks, r);
    var t :| t in tasks && r in LegacyRowsOf(offers)(t);
    ConcatMember(gather, products, t);
    var p :| p in products && t in gather(p);
    StaticGatherTaskSound(offers, p, d.seal, sealFirms, d.geizhalsId, allowedFirms, t);
    LegacyTaskRowsSpec(offers, t);
  }

  /** Every kept product gets the seal firm's row for the seal week, flagged 1. */
  lemma LegacyRowsComplete(offers: seq<Offer>, d: IndexSpace.SealFirm, sealFirms: seq<string>,
                           allowedFirms: seq<string>, p: string)
    requires p in LegacyProducts(offers, d)
    ensures PanelRow(p, d.geizhalsId, RunningVar(d.seal), 1) in LegacyRows(offers, d, sealFirms, allowedFirms)
  {
    var gather := LegacyGather(offers, d.seal, sealFirms, d.geizhalsId, allowedFirms);
    var t := IndexSpace.Task(p, d.geizhalsId, d.seal, true);
    assert t == gather(p)[0];
    ConcatMember(gather, LegacyProducts(offers, d), t);
    LegacyTaskRowsSpec(offers, t);
    ConcatMember(LegacyRowsOf(offers), LegacyTasks(offers, d, sealFirms, allowedFirms),
                 PanelRow(p, d.geizhalsId, RunningVar(d.seal), 1));
  }

  /** What one call of process_seal_firm appends for a firm not seen before, once no exception is raised. */
  function LegacyFirmRows(offerFiles: map<string, seq<Offer>>, clickFiles: map<string, seq<Click>>,
                          d: IndexSpace.SealFirm, sealFirms: seq<string>, allowedFirms: seq<string>): seq<PanelRow>
  {
    var offers := LoadedOffers(offerFiles, d.seal, allowedFirms);
    if offers.None? || LoadedClicks(clickFiles, d.seal).None? then []
    else LegacyRows(offers.value, d, sealFirms, allowedFirms)
  }

  // ---------------------------------------------------------------------------
  // The sequential driver
  // ---------------------------------------------------------------------------

  /**
   * The state process_seal_firm shares between calls: the processed firm
   * names, the call counter and results.csv.
   */
  class LegacyRun {
    var processed: set<string>
    var counter: int
    const out: ResultsFile

    /** Every call counts, and at most one name is recorded per call; the file is the header and then one line per row. */
    ghost predicate Valid()
      reads this, out
    {
      |processed| <= counter && out.Valid()
    }

    /** The manager dictionary, Value('i', 0), and results.csv opened with 'w' and given its header. */
    constructor()
      ensures Valid() && fresh(out)
      ensures processed == {} && counter == 0 && out.lines == [CsvHeader] && out.rows == []
    {
      processed := {};
      counter := 0;
      out := new ResultsFile();
    }

    /** The gather loop: the tasks of gather_tasks_for_product for each product, in product order. */
    static method GatherLegacyTasks(offers: seq<Offer>, products: seq<string>, seal: int, sealFirms: seq<string>,
                                    geizhalsId: string, allowedFirms: seq<string>) returns (tasks: seq<IndexSpace.Task>)
      ensures tasks == Concat(LegacyGather(offers, seal, sealFirms, geizhalsId, allowedFirms), products)
    {
      ghost var gather := LegacyGather(offers, seal, sealFirms, geizhalsId, allowedFirms);
      tasks := [];
      var i := 0;
      while i < |products|
        invariant 0 <= i <= |products|
        invariant tasks == Concat(gather, products[..i])
      {
        ConcatPrefix(gather, products, i);
        tasks := tasks + StaticGatherTasks(offers, products[i], seal, sealFirms, geizhalsId, allowedFirms);
        i := i + 1;
      }
      assert products[..i] == products;
    }

    /** The write loop: process_task for each task, its rows written as lines and flushed, task by task. */
    static method WriteLegacyTasks(out: ResultsFile, offers: seq<Offer>, tasks: seq<IndexSpace.Task>)
      modifies out
      ensures out.rows == old(out.rows) + Concat(LegacyRowsOf(offers), tasks)
      ensures out.lines == old(out.lines) + CsvLines(Concat(LegacyRowsOf(offers), tasks))
    {
      ghost var rowsOf := LegacyRowsOf(offers);
      var j := 0;
      while j < |tasks|
        invariant 0 <= j <= |tasks|
        invariant out.rows == old(out.rows) + Concat(rowsOf, tasks[..j])
        invariant out.lines == old(out.lines) + CsvLines(Concat(rowsOf, tasks[..j]))
      {
        ghost var done := Concat(rowsOf, tasks[..j]);
        var results := ProcessTask(offers, tasks[j]);
        out.WriteResults(results);
        ConcatPrefix(rowsOf, tasks, j);
        AppendAssoc(old(out.rows), done, results);
        CsvLinesAppend(done, results);
        AppendAssoc(old(out.lines), CsvLines(done), CsvLines(results));
        j := j + 1;
      }
      assert tasks[..j] == tasks;
    }

    /** The products, the tasks and the write loop of process_seal_firm, on loaded offers. */
    static method WriteLegacyRows(out: ResultsFile, offers: seq<Offer>, d: IndexSpace.SealFirm, sealFirms: seq<string>,
                                  allowedFirms: seq<string>)
      modifies out
      ensures out.rows == old(out.rows) + LegacyRows(offers, d, sealFirms, allowedFirms)
      ensures old(out.Valid()) ==> out.Valid()
    {
      var sample := StaticSelection.RandomNProducts(offers, d.geizhalsId, RandomProductsAmount, SamplerSeed);
      var products := StaticSelection.FilterContinuouslyOfferedProducts(offers, d.haendlerBez, sample.value, d.seal,
                                                                        LegacyContinuityWeeks);
      assert products == LegacyProducts(offers, d);
      var tasks := GatherLegacyTasks(offers, products, d.seal, sealFirms, d.geizhalsId, allowedFirms);
      ghost var written := Concat(LegacyRowsOf(offers), tasks);
      WriteLegacyTasks(out, offers, tasks);
      if old(out.Valid()) {
        CsvLinesAppend(old(out.rows), written);
        AppendAssoc([CsvHeader], CsvLines(old(out.rows)), CsvLines(written));
      }
    }

    /**
     * The part of process_seal_firm after the firm is recorded: the offer and
     * click files are loaded (a click month window outside datetime's years
     * raises); when either is missing nothing is written (Ok(false)), else the
     * rows of every task are appended (Ok(true)).
     */
    static method LoadAndWrite(out: ResultsFile, offerFiles: map<string, seq<Offer>>,
                               clickFiles: map<string, seq<Click>>, d: IndexSpace.SealFirm, sealFirms: seq<string>,
                               allowedFirms: seq<string>) returns (r: Result<bool>)
      modifies out
      ensures r.Err? <==> !ClickWindowValid(d.seal)
      ensures r.Ok? ==> (r.value <==> LoadedOffers(offerFiles, d.seal, allowedFirms).Some?
                                      && LoadedClicks(clickFiles, d.seal).Some?)
      ensures out.rows == old(out.rows) + (if r.Ok? then LegacyFirmRows(offerFiles, clickFiles, d, sealFirms, allowedFirms) else [])
      ensures old(out.Valid()) ==> out.Valid()
    {
      var offers := LoadRelevantAngebotData(offerFiles, d.seal, allowedFirms);
      var clicks := LoadRelevantClickData(clickFiles, d.seal);
      if clicks.Err? {
        assert old(out.rows) + [] == old(out.rows);
        return Err(clicks.error);
      }
      if offers.None? || clicks.value.None? {
        assert LegacyFirmRows(offerFiles, clickFiles, d, sealFirms, allowedFirms) == [];
        assert old(out.rows) + [] == old(out.rows);
        return Ok(false);
      }
      WriteLegacyRows(out, offers.value, d, sealFirms, allowedFirms);
      return Ok(true);
    }

    /**
     * process_seal_firm (main.py): the counter goes up on every call, before
     * the duplicate check; a firm name seen before returns None (Ok(false)).
     * Otherwise the name is recorded and the files are loaded and written as
     * LoadAndWrite says; the name stays recorded whatever the outcome.
     */
    method ProcessSealFirm(offerFiles: map<string, seq<Offer>>, clickFiles: map<string, seq<Click>>,
                           d: IndexSpace.SealFirm, sealFirms: seq<string>, allowedFirms: seq<string>)
      returns (r: Result<bool>)
      requires Valid()
      modifies this, out
      ensures Valid()
      ensures counter == old(counter) + 1
      ensures processed == old(processed) + {d.haendlerBez}
      ensures d.haendlerBez in old(processed) ==> r == Ok(false)
      ensures d.haendlerBez !in old(processed) ==>
                (r.Err? <==> !ClickWindowValid(d.seal))
                && (r.Ok? ==> (r.value <==> LoadedOffers(offerFiles, d.seal, allowedFirms).Some?
                                            && LoadedClicks(clickFiles, d.seal).Some?))
      ensures out.rows == old(out.rows) + (if d.haendlerBez !in old(processed) && r.Ok?
                                           then LegacyFirmRows(offerFiles, clickFiles, d, sealFirms, allowedFirms) else [])
    {
      counter := counter + 1;
      if d.haendlerBez in processed {
        assert old(out.rows) + [] == old(out.rows);
        return Ok(false);
      }
      processed := processed + {d.haendlerBez};
      r := LoadAndWrite(out, offerFiles, clickFiles, d, sealFirms, allowedFirms);
    }
  }
}
