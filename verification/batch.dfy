/** The batch driver (`process_pdf_directory`): keeps the directory
    entries whose names end in `.pdf`, and for each, in listing order, reads
    it, classifies it, runs the default-mode layout analysis and dispatches
    on the type. There is no exception handling around any of these steps,
    so the first exception ends the whole batch. */
module Batch {
  import opened Wrappers
  import opened InfoDict
  import opened Classifier
  import opened Parse

  /** What the driver meets for one directory entry: whether reading its
      bytes succeeds, what the PDF reader sees in it, and the external
      collaborators as they behave on it. */
  datatype Entry = Entry(readable: bool, file: PdfFile, engines: Engines)

  /** The directory's contents by file name. */
  type Directory = string -> Entry

  datatype Status = Parsed(info: Info) | Skipped | Raised(error: Error)

  /** What happened to one file: its type once classified, the events in
      order, and how its processing ended. */
  datatype FileReport = FileReport(name: string, pdfType: Option<PdfType>, events: seq<Event>, status: Status)

  // ---------------------------------------------------------------------
  // The listing filter.
  // ---------------------------------------------------------------------

  /** `name.endswith('.pdf')`, case-sensitive. */
  predicate EndsWithPdf(name: string) {
    |name| >= 4 && name[|name| - 4..] == ".pdf"
  }

  /** The `.pdf` entries of the listing, in listing order. */
  function PdfFiles(listing: seq<string>): (r: seq<string>)
    ensures |r| <= |listing|
    ensures forall i :: 0 <= i < |r| ==> EndsWithPdf(r[i])
  {
    if listing == [] then []
    else (if EndsWithPdf(listing[0]) then [listing[0]] else []) + PdfFiles(listing[1..])
  }

  /** Filtering keeps order: filtering a concatenation concatenates the
      filtered parts. */
  lemma {:induction false} PdfFilesOfConcat(a: seq<string>, b: seq<string>)
    ensures PdfFiles(a + b) == PdfFiles(a) + PdfFiles(b)
  {
    if a == [] {
      assert a + b == b;
    } else {
      assert (a + b)[1..] == a[1..] + b;
      PdfFilesOfConcat(a[1..], b);
      assert PdfFiles(a + b) == (if EndsWithPdf(a[0]) then [a[0]] else []) + PdfFiles(a[1..] + b);
    }
  }

  /** Every `.pdf` entry is kept as often as it is listed and nothing else
      is kept. */
  lemma {:induction false} PdfFilesKeepsExactlyPdfEntries(listing: seq<string>)
    ensures forall x :: multiset(PdfFiles(listing))[x] == if EndsWithPdf(x) then multiset(listing)[x] else 0
    ensures forall x :: x in PdfFiles(listing) <==> x in listing && EndsWithPdf(x)
  {
    if listing != [] {
      PdfFilesKeepsExactlyPdfEntries(listing[1..]);
      assert listing == [listing[0]] + listing[1..];
    }
  }

  // ---------------------------------------------------------------------
  // How the driver calls the wrappers.
  // ---------------------------------------------------------------------

  /** `parse_x_pdf(pdf_bytes, pdf_models, imageWriter, start_page,
      is_debug)` binds by position, so the driver's `start_page` lands in the
      wrappers' `is_debug` parameter and its `is_debug` in their `start_page`
      parameter. */
  function PositionalArgs(startPage: int, isDebug: bool): WrapperArgs {
    WrapperArgs(Int(startPage), Bool(isDebug))
  }

  /** The evidently intended binding, `is_debug=is_debug,
      start_page=start_page`. */
  function KeywordArgs(startPage: int, isDebug: bool): WrapperArgs {
    WrapperArgs(Bool(isDebug), Int(startPage))
  }

  // ---------------------------------------------------------------------
  // One file.
  // ---------------------------------------------------------------------

  /** Dispatch on the type string: `normal` to the text wrapper, `scanned`
      to the OCR wrapper, `mix_pdf` to the union path (whose
      `input_model_is_empty` keeps its default, false), anything else to no
      strategy at all. */
  function Dispatch(t: PdfType, e: Engines, models: ModelList, args: WrapperArgs): (r: Option<Run>)
    ensures r.None? <==> t == Unknown
    ensures r.Some? ==>
              && |r.value.events| >= 1
              && r.value.events[0] == EngineCalled(if t == Scanned then Ocr else Txt, CallFor(models, args))
  {
    match t
    case Normal => Some(ParseTxtPdf(e, models, args))
    case Scanned => Some(ParseOcrPdf(e, models, args))
    case MixPdf => Some(ParseUnionPdf(UnionInput(e, models, args, false)))
    case Unknown => None
  }

  /** One iteration of the driver's loop for the entry at `index`. */
  function ProcessFile(name: string, index: nat, total: nat, entry: Entry, args: WrapperArgs): (r: FileReport)
    ensures r.name == name
    ensures r.status.Parsed? ==> |r.events| > 0 && r.events[|r.events| - 1] == Progress(index + 1, total, name)
  {
    if !entry.readable then FileReport(name, None, [], Raised(ReadRaised))
    else
      var t := Classify(entry.file);
      var analyzed := [Analyzed(false)];
      match entry.engines.analyze(false)
      case None => FileReport(name, Some(t), analyzed, Raised(AnalyzeRaised))
      case Some(models) =>
        match Dispatch(t, entry.engines, models, args)
        case None => FileReport(name, Some(t), analyzed + [UnknownTypeReported(name)], Skipped)
        case Some(run) =>
          match run.result
          case Failure(err) => FileReport(name, Some(t), analyzed + run.events, Raised(err))
          case Success(info) =>
            FileReport(name, Some(t), analyzed + run.events + [Progress(index + 1, total, name)], Parsed(info))
  }

  /** The events of any strategy run: engine calls with the wrapper
      arguments and the fallback warning; never a default analysis, an
      OCR-mode analysis (the union path is entered with
      `input_model_is_empty` false) or a driver event. */
  lemma StrategyEvents(t: PdfType, e: Engines, models: ModelList, args: WrapperArgs)
    requires Dispatch(t, e, models, args).Some?
    ensures var ev := Dispatch(t, e, models, args).value.events;
      && CallsUse(ev, args)
      && CallsOn(ev, models)
      && Analyses(ev, false) == 0
      && Analyses(ev, true) == 0
      && NoDriverEvents(ev)
  {
    if t == MixPdf {
      var u := UnionInput(e, models, args, false);
      UnionEventsShape(u);
      UnionReusesModels(u);
      if TextAccepted(e.txt(CallFor(models, args))) {
        UnionKeepsTextResult(u);
      } else {
        UnionFallsBackToOcr(u);
      }
    }
  }

  /** The trace of one readable, analysable file: the default analysis,
      then the strategy's events, or the unknown-type line when there is no
      strategy; the progress line comes last when the strategy returned. */
  lemma FileTrace(name: string, index: nat, total: nat, entry: Entry, args: WrapperArgs)
    requires entry.readable && entry.engines.analyze(false).Some?
    ensures var r := ProcessFile(name, index, total, entry, args);
      var d := Dispatch(Classify(entry.file), entry.engines, entry.engines.analyze(false).value, args);
      && r.pdfType == Some(Classify(entry.file))
      && (d.None? ==> r.events == [Analyzed(false), UnknownTypeReported(name)] && r.status == Skipped)
      && (d.Some? && d.value.result.Failure? ==>
            r.events == [Analyzed(false)] + d.value.events && r.status == Raised(d.value.result.error))
      && (d.Some? && d.value.result.Success? ==>
            && r.events == [Analyzed(false)] + d.value.events + [Progress(index + 1, total, name)]
            && r.status == Parsed(d.value.result.value))
  {
  }

  /** For one file the default-mode analysis runs once if its bytes could
      be read and not at all otherwise, and an OCR-mode one never: the union path is entered with
      `input_model_is_empty` false, so it never re-analyses. */
  lemma ProcessFileAnalyses(name: string, index: nat, total: nat, entry: Entry, args: WrapperArgs)
    ensures var r := ProcessFile(name, index, total, entry, args);
      && Analyses(r.events, false) == (if entry.readable then 1 else 0)
      && Analyses(r.events, true) == 0
  {
    if !entry.readable || entry.engines.analyze(false).None? {
      return;
    }
    FileTrace(name, index, total, entry, args);
    var t := Classify(entry.file);
    var models := entry.engines.analyze(false).value;
    var d := Dispatch(t, entry.engines, models, args);
    if d.Some? {
      StrategyEvents(t, entry.engines, models, args);
    }
  }

  /** Every engine call a file causes receives the wrapper arguments the
      driver passed, and the models of the file's one default-mode
      analysis. */
  lemma ProcessFileCallArgs(name: string, index: nat, total: nat, entry: Entry, args: WrapperArgs)
    ensures CallsUse(ProcessFile(name, index, total, entry, args).events, args)
    ensures entry.readable && entry.engines.analyze(false).Some? ==>
              CallsOn(ProcessFile(name, index, total, entry, args).events, entry.engines.analyze(false).value)
  {
    if entry.readable && entry.engines.analyze(false).Some? {
      FileTrace(name, index, total, entry, args);
      var t := Classify(entry.file);
      var models := entry.engines.analyze(false).value;
      var d := Dispatch(t, entry.engines, models, args);
      if d.Some? {
        StrategyEvents(t, entry.engines, models, args);
        CallsUseConcat([Analyzed(false)], d.value.events, args);
        CallsUseConcat([Analyzed(false)] + d.value.events, [Progress(index + 1, total, name)], args);
        CallsOnConcat([Analyzed(false)], d.value.events, models);
        CallsOnConcat([Analyzed(false)] + d.value.events, [Progress(index + 1, total, name)], models);
      } else {
        assert [Analyzed(false), UnknownTypeReported(name)][1] == UnknownTypeReported(name);
      }
    }
  }

  /** How often each engine runs under each dispatched strategy. `mix_pdf`
      goes to the union path: the OCR engine runs exactly when the text
      result is not kept, after the fallback warning, as the last call, on
      the same models. */
  lemma DispatchEngineCalls(t: PdfType, e: Engines, models: ModelList, args: WrapperArgs)
    requires Dispatch(t, e, models, args).Some?
    ensures var ev := Dispatch(t, e, models, args).value.events;
      && (t == Normal ==> EngineCalls(ev, Txt) == 1 && EngineCalls(ev, Ocr) == 0)
      && (t == Scanned ==> EngineCalls(ev, Ocr) == 1 && EngineCalls(ev, Txt) == 0)
      && (t == MixPdf ==>
            && EngineCalls(ev, Txt) == 1
            && EngineCalls(ev, Ocr) == (if TextAccepted(e.txt(CallFor(models, args))) then 0 else 1))
      && (t == MixPdf && !TextAccepted(e.txt(CallFor(models, args))) ==>
            && |ev| >= 2 && ev[1] == FallbackWarned
            && ev[|ev| - 1] == EngineCalled(Ocr, CallFor(models, args)))
  {
    if t == MixPdf {
      var u := UnionInput(e, models, args, false);
      if TextAccepted(e.txt(CallFor(models, args))) {
        UnionKeepsTextResult(u);
      } else {
        UnionFallsBackToOcr(u);
      }
    }
  }

  /** The driver's own events around a strategy's trace add no engine calls. */
  lemma DriverEventsAddNoCalls(ev: seq<Event>, p: Event, s: Strategy)
    requires !p.EngineCalled?
    ensures EngineCalls([Analyzed(false)] + ev, s) == EngineCalls(ev, s)
    ensures EngineCalls([Analyzed(false)] + ev + [p], s) == EngineCalls(ev, s)
  {
    EngineCallsAppend([Analyzed(false)], ev, s);
    EngineCallsAppend([Analyzed(false)] + ev, [p], s);
  }

  /** The strategy one readable, analysable file gets: `normal` runs only
      the text engine, once; `scanned` only the OCR engine, once; `mix_pdf`
      the text engine once and the OCR engine exactly when the text result
      is not kept; `unknown` no engine, and the file ends skipped. */
  lemma ProcessFileDispatch(name: string, index: nat, total: nat, entry: Entry, args: WrapperArgs)
    requires entry.readable && entry.engines.analyze(false).Some?
    ensures var r := ProcessFile(name, index, total, entry, args);
      && r.pdfType == Some(Classify(entry.file))
      && (r.pdfType == Some(Normal) ==> EngineCalls(r.events, Txt) == 1 && EngineCalls(r.events, Ocr) == 0)
      && (r.pdfType == Some(Scanned) ==> EngineCalls(r.events, Ocr) == 1 && EngineCalls(r.events, Txt) == 0)
      && (r.pdfType == Some(MixPdf) ==>
            && EngineCalls(r.events, Txt) == 1
            && EngineCalls(r.events, Ocr) ==
                 (if TextAccepted(entry.engines.txt(CallFor(entry.engines.analyze(false).value, args))) then 0 else 1))
      && (r.pdfType == Some(Unknown) ==>
            r.status == Skipped && EngineCalls(r.events, Txt) == 0 && EngineCalls(r.events, Ocr) == 0)
  {
    FileTrace(name, index, total, entry, args);
    var t := Classify(entry.file);
    var d := Dispatch(t, entry.engines, entry.engines.analyze(false).value, args);
    if d.Some? {
      DispatchEngineCalls(t, entry.engines, entry.engines.analyze(false).value, args);
      DriverEventsAddNoCalls(d.value.events, Progress(index + 1, total, name), Txt);
      DriverEventsAddNoCalls(d.value.events, Progress(index + 1, total, name), Ocr);
    } else {
      DriverEventsAddNoCalls([], UnknownTypeReported(name), Txt);
      DriverEventsAddNoCalls([], UnknownTypeReported(name), Ocr);
      assert [Analyzed(false)] + [] + [UnknownTypeReported(name)] == [Analyzed(false), UnknownTypeReported(name)];
    }
  }

  /** When a file ends raised: its bytes could not be read, the
      default-mode analysis raised, or the dispatched strategy raised (the
      text or OCR wrapper's engine, or, on the union path, the OCR side
      after the text result was not kept). Nothing in the loop catches it. */
  lemma ProcessFileRaisesIff(name: string, index: nat, total: nat, entry: Entry, args: WrapperArgs)
    ensures var r := ProcessFile(name, index, total, entry, args);
      r.status.Raised? <==>
        || !entry.readable
        || entry.engines.analyze(false).None?
        || (var call := CallFor(entry.engines.analyze(false).value, args);
            var t := Classify(entry.file);
            || (t == Normal && entry.engines.txt(call).None?)
            || (t == Scanned && entry.engines.ocr(call).None?)
            || (t == MixPdf && !TextAccepted(entry.engines.txt(call)) && entry.engines.ocr(call).None?))
    ensures !entry.readable ==> ProcessFile(name, index, total, entry, args).status == Raised(ReadRaised)
    ensures entry.readable && entry.engines.analyze(false).None? ==>
              ProcessFile(name, index, total, entry, args).status == Raised(AnalyzeRaised)
  {
    if entry.readable && entry.engines.analyze(false).Some? && Classify(entry.file) == MixPdf {
      var models := entry.engines.analyze(false).value;
      UnionRaisesOnlyOnOcrPath(UnionInput(entry.engines, models, args, false));
    }
  }

  /** A file's trace holds a progress line exactly when the file was
      parsed, and then only one, as its last event, carrying the file's
      1-based position and the total. */
  lemma ProgressIffParsed(name: string, index: nat, total: nat, entry: Entry, args: WrapperArgs)
    ensures var r := ProcessFile(name, index, total, entry, args);
      && (r.status.Parsed? <==> exists j :: 0 <= j < |r.events| && r.events[j].Progress?)
      && (r.status.Parsed? ==> forall j :: 0 <= j < |r.events| - 1 ==> !r.events[j].Progress?)
  {
    var r := ProcessFile(name, index, total, entry, args);
    if entry.readable && entry.engines.analyze(false).Some? {
      FileTrace(name, index, total, entry, args);
      var t := Classify(entry.file);
      var models := entry.engines.analyze(false).value;
      var d := Dispatch(t, entry.engines, models, args);
      if d.Some? {
        StrategyEvents(t, entry.engines, models, args);
        NoDriverEventsConcat([Analyzed(false)], d.value.events);
        if r.status.Parsed? {
          assert r.events[|r.events| - 1].Progress?;
        }
      }
    }
  }

  // ---------------------------------------------------------------------
  // The loop.
  // ---------------------------------------------------------------------

  /** The loop from the entry at `index` on, with the loop body as a
      parameter: each file is handed to `body` with its position, in turn,
      and the first one that raises is the last one handed over. */
  function ProcessFrom(pdfs: seq<string>, index: nat, body: (string, nat) -> FileReport)
    : (r: seq<FileReport>)
    ensures |r| <= |pdfs|
    ensures forall i :: 0 <= i < |r| ==> r[i] == body(pdfs[i], index + i)
    ensures forall i :: 0 <= i < |r| - 1 ==> !r[i].status.Raised?
    ensures |r| < |pdfs| ==> |r| > 0 && r[|r| - 1].status.Raised?
    decreases |pdfs|
  {
    if pdfs == [] then []
    else
      var report := body(pdfs[0], index);
      if report.status.Raised? then [report]
      else [report] + ProcessFrom(pdfs[1..], index + 1, body)
  }

  /** The body of the driver's loop for one directory. */
  function LoopBody(dir: Directory, total: nat, args: WrapperArgs): (string, nat) -> FileReport {
    (name: string, index: nat) => ProcessFile(name, index, total, dir(name), args)
  }

  /** The driver's loop over the `.pdf` entries of the listing: they are
      processed in listing order, each report naming its entry, and the
      batch stops early only right after a file that raised. */
  function RunBatch(listing: seq<string>, dir: Directory, args: WrapperArgs): (r: seq<FileReport>)
    ensures |r| <= |PdfFiles(listing)|
    ensures forall i :: 0 <= i < |r| ==> r[i].name == PdfFiles(listing)[i]
    ensures forall i :: 0 <= i < |r| - 1 ==> !r[i].status.Raised?
    ensures |r| < |PdfFiles(listing)| ==> |r| > 0 && r[|r| - 1].status.Raised?
  {
    var pdfs := PdfFiles(listing);
    var r := ProcessFrom(pdfs, 0, LoopBody(dir, |pdfs|, args));
    assert forall i :: 0 <= i < |r| ==> r[i] == ProcessFile(pdfs[i], i, |pdfs|, dir(pdfs[i]), args);
    r
  }

  /** Each report of the batch is one run of the loop body. */
  lemma RunBatchFileByFile(listing: seq<string>, dir: Directory, args: WrapperArgs)
    ensures var r := RunBatch(listing, dir, args);
      var pdfs := PdfFiles(listing);
      forall i :: 0 <= i < |r| ==> r[i] == ProcessFile(pdfs[i], i, |pdfs|, dir(pdfs[i]), args)
  {
  }

  /** A parsed file's last event is the progress line `index + 1 / total`,
      where the total counts every `.pdf` entry, skipped ones included. */
  lemma RunBatchProgress(listing: seq<string>, dir: Directory, args: WrapperArgs)
    ensures var r := RunBatch(listing, dir, args);
      forall i :: 0 <= i < |r| && r[i].status.Parsed? ==>
        |r[i].events| > 0 &&
        r[i].events[|r[i].events| - 1] == Progress(i + 1, |PdfFiles(listing)|, r[i].name)
  {
    RunBatchFileByFile(listing, dir, args);
  }

  /** The first file that raises ends the batch: the files before it are
      all processed, it is the last one, and no later file is touched. */
  lemma RunBatchStopsAtFirstRaise(listing: seq<string>, dir: Directory, args: WrapperArgs, i: nat)
    requires i < |PdfFiles(listing)|
    requires var pdfs := PdfFiles(listing);
      ProcessFile(pdfs[i], i, |pdfs|, dir(pdfs[i]), args).status.Raised?
    requires var pdfs := PdfFiles(listing);
      forall k :: 0 <= k < i ==> !ProcessFile(pdfs[k], k, |pdfs|, dir(pdfs[k]), args).status.Raised?
    ensures |RunBatch(listing, dir, args)| == i + 1
    ensures RunBatch(listing, dir, args)[i].status.Raised?
  {
    RunBatchFileByFile(listing, dir, args);
  }

  /** When no file raises, every `.pdf` entry is processed. */
  lemma RunBatchCompletesWithoutRaise(listing: seq<string>, dir: Directory, args: WrapperArgs)
    requires var pdfs := PdfFiles(listing);
      forall k :: 0 <= k < |pdfs| ==> !ProcessFile(pdfs[k], k, |pdfs|, dir(pdfs[k]), args).status.Raised?
    ensures |RunBatch(listing, dir, args)| == |PdfFiles(listing)|
  {
    RunBatchFileByFile(listing, dir, args);
  }

  /** Across the whole batch every engine call receives the wrapper
      arguments the driver passed. */
  lemma RunBatchCallArgs(listing: seq<string>, dir: Directory, args: WrapperArgs)
    ensures var r := RunBatch(listing, dir, args);
      forall i :: 0 <= i < |r| ==> CallsUse(r[i].events, args)
  {
    var r := RunBatch(listing, dir, args);
    var pdfs := PdfFiles(listing);
    RunBatchFileByFile(listing, dir, args);
    forall i | 0 <= i < |r| ensures CallsUse(r[i].events, args) {
      ProcessFileCallArgs(pdfs[i], i, |pdfs|, dir(pdfs[i]), args);
    }
  }

  /** The batch never runs an OCR-mode analysis, and runs the default one
      once for every file whose bytes it read. */
  lemma RunBatchNeverReanalysesForOcr(listing: seq<string>, dir: Directory, args: WrapperArgs)
    ensures var r := RunBatch(listing, dir, args);
      forall i :: 0 <= i < |r| ==>
        && Analyses(r[i].events, true) == 0
        && Analyses(r[i].events, false) == (if dir(r[i].name).readable then 1 else 0)
  {
    var r := RunBatch(listing, dir, args);
    var pdfs := PdfFiles(listing);
    RunBatchFileByFile(listing, dir, args);
    forall i | 0 <= i < |r|
      ensures Analyses(r[i].events, true) == 0
      ensures Analyses(r[i].events, false) == (if dir(r[i].name).readable then 1 else 0)
    {
      ProcessFileAnalyses(pdfs[i], i, |pdfs|, dir(pdfs[i]), args);
    }
  }

  /** Across the batch every engine call of a file receives the models of
      that file's default-mode analysis: the union fallback reuses them
      rather than analysing again. */
  lemma RunBatchReusesDefaultModels(listing: seq<string>, dir: Directory, args: WrapperArgs)
    ensures var r := RunBatch(listing, dir, args);
      forall i :: 0 <= i < |r| && dir(r[i].name).readable && dir(r[i].name).engines.analyze(false).Some? ==>
        CallsOn(r[i].events, dir(r[i].name).engines.analyze(false).value)
  {
    var r := RunBatch(listing, dir, args);
    var pdfs := PdfFiles(listing);
    RunBatchFileByFile(listing, dir, args);
    forall i | 0 <= i < |r| && dir(r[i].name).readable && dir(r[i].name).engines.analyze(false).Some?
      ensures CallsOn(r[i].events, dir(r[i].name).engines.analyze(false).value)
    {
      ProcessFileCallArgs(pdfs[i], i, |pdfs|, dir(pdfs[i]), args);
    }
  }

  /** `process_pdf_directory(directory_path, imageWriter, start_page,
      is_debug)` as written: with the positional binding, every engine call
      of the batch receives the driver's `is_debug` as its start page and
      its `start_page` as its debug mode. */
  function ProcessPdfDirectory(listing: seq<string>, dir: Directory, startPage: int, isDebug: bool)
    : (r: seq<FileReport>)
    ensures forall i, j :: 0 <= i < |r| && 0 <= j < |r[i].events| && r[i].events[j].EngineCalled? ==>
              r[i].events[j].call.startPageId == Bool(isDebug) && r[i].events[j].call.debugMode == Int(startPage)
  {
    RunBatchCallArgs(listing, dir, PositionalArgs(startPage, isDebug));
    RunBatch(listing, dir, PositionalArgs(startPage, isDebug))
  }

  /** The driver with the wrappers' parameters bound by name: every engine
      call receives the driver's `start_page` as its start page and its
      `is_debug` as its debug mode. */
  function ProcessPdfDirectoryIntended(listing: seq<string>, dir: Directory, startPage: int, isDebug: bool)
    : (r: seq<FileReport>)
    ensures forall i, j :: 0 <= i < |r| && 0 <= j < |r[i].events| && r[i].events[j].EngineCalled? ==>
              r[i].events[j].call.startPageId == Int(startPage) && r[i].events[j].call.debugMode == Bool(isDebug)
  {
    RunBatchCallArgs(listing, dir, KeywordArgs(startPage, isDebug));
    RunBatch(listing, dir, KeywordArgs(startPage, isDebug))
  }

  /** A one-file directory holding an empty, readable document whose text
      engine returns an empty mapping. */
  function OneEmptyPdf(): Directory {
    var engines := Engines(ocr => Some([]), call => Some(map[]), call => Some(map[]), "0.0");
    name => Entry(true, Opened([]), engines)
  }

  /** As written, a start page of 3 never reaches the text engine: on the
      directory above the engine is called with `False` as its start page
      and 3 as its debug mode, while the intended binding passes 3 as the
      start page. */
  lemma StartPageSwapWitness()
    ensures var r := ProcessPdfDirectory(["a.pdf"], OneEmptyPdf(), 3, false);
      && |r| == 1 && |r[0].events| >= 2
      && r[0].events[1] == EngineCalled(Txt, EngineCall([], Bool(false), Int(3)))
      && r[0].events[1].call.startPageId != Int(3)
    ensures var r := ProcessPdfDirectoryIntended(["a.pdf"], OneEmptyPdf(), 3, false);
      && |r| == 1 && |r[0].events| >= 2
      && r[0].events[1] == EngineCalled(Txt, EngineCall([], Int(3), Bool(false)))
  {
    var listing := ["a.pdf"];
    assert EndsWithPdf("a.pdf");
    assert PdfFiles(listing) == ["a.pdf"];
    EmptyDocumentIsNormal();
    RunBatchFileByFile(listing, OneEmptyPdf(), PositionalArgs(3, false));
    RunBatchFileByFile(listing, OneEmptyPdf(), KeywordArgs(3, false));
  }
}
