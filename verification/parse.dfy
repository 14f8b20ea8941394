/** The two tagging wrappers (`parse_txt_pdf`, `parse_ocr_pdf`) and the
    union path (`parse_union_pdf`), which tries the text engine and falls
    back to the OCR engine. The layout analyser and both extraction engines
    are oracles: functions from their arguments to what they return, `None`
    meaning that they raised. Every call of an oracle is recorded as an
    event, so that which engines ran, in what order and with what arguments
    can be stated. */
module Parse {
  import opened Wrappers
  import opened InfoDict

  /** The layout analysis result (`pdf_models`); its content is opaque. */
  type ModelList = seq<int>

  /** The arguments an extraction engine receives besides the document
      bytes and the image writer, which this model does not vary. */
  datatype EngineCall = EngineCall(models: ModelList, startPageId: Value, debugMode: Value)

  /** An extraction engine for one document. */
  type Engine = EngineCall -> Option<Info>

  /** The external collaborators for one document: `doc_analyze` as a
      function of its `ocr` flag, the two engines, and the `__version__`
      string the wrappers stamp. */
  datatype Engines = Engines(analyze: bool -> Option<ModelList>, txt: Engine, ocr: Engine, version: string)

  datatype Strategy = Txt | Ocr

  /** What the log and the oracles observe, in order. */
  datatype Event =
    | Analyzed(ocr: bool)
    | EngineCalled(strategy: Strategy, call: EngineCall)
    | FallbackWarned
    // The printed line names the type; the field records which file was skipped.
    | UnknownTypeReported(file: string)
    | Progress(done: nat, total: nat, file: string)

  /** Why a call raised. */
  datatype Error = EngineRaised(strategy: Strategy) | AnalyzeRaised | BothFailed | ReadRaised

  /** The events a call produced and its return value or exception. */
  datatype Run = Run(events: seq<Event>, result: Result<Info, Error>)

  /** The wrappers' `is_debug` and `start_page` parameters. Python does not
      check their types, so any value can arrive in either slot. */
  datatype WrapperArgs = WrapperArgs(isDebug: Value, startPage: Value)

  function EngineOf(e: Engines, s: Strategy): Engine {
    match s
    case Txt => e.txt
    case Ocr => e.ocr
  }

  function ParseTypeOf(s: Strategy): string {
    match s
    case Txt => ParseTypeTxt
    case Ocr => ParseTypeOcr
  }

  /** Keyword passing in the wrappers: `start_page_id=start_page,
      debug_mode=is_debug`. */
  function CallFor(models: ModelList, args: WrapperArgs): (c: EngineCall)
    ensures c.models == models
    ensures c.startPageId == args.startPage && c.debugMode == args.isDebug
  {
    EngineCall(models, args.startPage, args.isDebug)
  }

  /** Number of calls of the given engine in a trace. */
  function EngineCalls(events: seq<Event>, s: Strategy): (n: nat)
    ensures n <= |events|
  {
    if events == [] then 0
    else EngineCalls(events[..|events| - 1], s)
         + (if events[|events| - 1].EngineCalled? && events[|events| - 1].strategy == s then 1 else 0)
  }

  /** Number of layout analyses in the given mode in a trace. */
  function Analyses(events: seq<Event>, ocr: bool): nat {
    multiset(events)[Analyzed(ocr)]
  }

  // ---------------------------------------------------------------------
  // The tagging wrappers.
  // ---------------------------------------------------------------------

  /** Calls one engine once and, if it returns, tags its mapping; an
      exception of the engine propagates. */
  function ParseWith(s: Strategy, e: Engines, models: ModelList, args: WrapperArgs): Run {
    var call := CallFor(models, args);
    Run([EngineCalled(s, call)],
        match EngineOf(e, s)(call)
        case None => Failure(EngineRaised(s))
        case Some(d) => Success(Tag(d, ParseTypeOf(s), e.version)))
  }

  /** `parse_txt_pdf`: the text engine runs exactly once, on the given
      models, with `start_page` as its start page and `is_debug` as its debug
      mode; its mapping comes back with `_parse_type = "txt"` and the version
      added and nothing else changed; if it raises, so does the wrapper. */
  function ParseTxtPdf(e: Engines, models: ModelList, args: WrapperArgs): (r: Run)
    ensures r.events == [EngineCalled(Txt, EngineCall(models, args.startPage, args.isDebug))]
    ensures e.txt(EngineCall(models, args.startPage, args.isDebug)).None? ==>
              r.result == Failure(EngineRaised(Txt))
    ensures e.txt(EngineCall(models, args.startPage, args.isDebug)).Some? ==>
              r.result.Success? &&
              TaggedFrom(e.txt(EngineCall(models, args.startPage, args.isDebug)).value,
                         r.result.value, "txt", e.version)
  {
    var call := EngineCall(models, args.startPage, args.isDebug);
    if EngineOf(e, Txt)(call).Some? then
      TagAddsOnlyTags(EngineOf(e, Txt)(call).value, ParseTypeOf(Txt), e.version);
      ParseWith(Txt, e, models, args)
    else
      ParseWith(Txt, e, models, args)
  }

  /** `parse_ocr_pdf`: as `ParseTxtPdf`, with the OCR engine and
      `_parse_type = "ocr"`. */
  function ParseOcrPdf(e: Engines, models: ModelList, args: WrapperArgs): (r: Run)
    ensures r.events == [EngineCalled(Ocr, EngineCall(models, args.startPage, args.isDebug))]
    ensures e.ocr(EngineCall(models, args.startPage, args.isDebug)).None? ==>
              r.result == Failure(EngineRaised(Ocr))
    ensures e.ocr(EngineCall(models, args.startPage, args.isDebug)).Some? ==>
              r.result.Success? &&
              TaggedFrom(e.ocr(EngineCall(models, args.startPage, args.isDebug)).value,
                         r.result.value, "ocr", e.version)
  {
    var call := EngineCall(models, args.startPage, args.isDebug);
    if EngineOf(e, Ocr)(call).Some? then
      TagAddsOnlyTags(EngineOf(e, Ocr)(call).value, ParseTypeOf(Ocr), e.version);
      ParseWith(Ocr, e, models, args)
    else
      ParseWith(Ocr, e, models, args)
  }

  // ---------------------------------------------------------------------
  // The union path as a state machine.
  // ---------------------------------------------------------------------

  datatype UnionInput = UnionInput(e: Engines, models: ModelList, args: WrapperArgs, inputModelIsEmpty: bool)

  /** Start: nothing ran yet. TextTried: the text engine returned this (or
      raised). OcrReady: fallback decided, with the models the OCR engine
      will receive. Finished: the union call returns or raises. */
  datatype Phase =
    | Start
    | TextTried(outcome: Option<Info>)
    | OcrReady(models: ModelList)
    | Finished(result: Result<Info, Error>)

  datatype Machine = Machine(phase: Phase, events: seq<Event>)

  function Rank(p: Phase): nat {
    match p
    case Start => 3
    case TextTried(_) => 2
    case OcrReady(_) => 1
    case Finished(_) => 0
  }

  /** The text result is kept when the engine returned and did not ask for
      the result to be dropped. */
  predicate TextAccepted(outcome: Option<Info>) {
    outcome.Some? && !NeedDrop(outcome.value)
  }

  /** One transition; each appends the events it causes (accepting the
      text result causes none). */
  function Step(u: UnionInput, m: Machine): (m': Machine)
    requires !m.phase.Finished?
    ensures Rank(m'.phase) < Rank(m.phase)
    ensures |m'.events| >= |m.events| && m'.events[..|m.events|] == m.events
  {
    match m.phase
    case Start =>
      var call := CallFor(u.models, u.args);
      Machine(TextTried(u.e.txt(call)), m.events + [EngineCalled(Txt, call)])
    case TextTried(outcome) =>
      if TextAccepted(outcome) then
        Machine(Finished(Success(Tag(outcome.value, ParseTypeTxt, u.e.version))), m.events)
      else if u.inputModelIsEmpty then
        var ev := m.events + [FallbackWarned, Analyzed(true)];
        match u.e.analyze(true)
        case None => Machine(Finished(Failure(AnalyzeRaised)), ev)
        case Some(models) => Machine(OcrReady(models), ev)
      else
        Machine(OcrReady(u.models), m.events + [FallbackWarned])
    case OcrReady(models) =>
      var call := CallFor(models, u.args);
      var ev := m.events + [EngineCalled(Ocr, call)];
      match u.e.ocr(call)
      case None => Machine(Finished(Failure(BothFailed)), ev)
      case Some(d) => Machine(Finished(Success(Tag(d, ParseTypeOcr, u.e.version))), ev)
  }

  function RunMachine(u: UnionInput, m: Machine): (r: Machine)
    ensures r.phase.Finished?
    decreases Rank(m.phase)
  {
    if m.phase.Finished? then m else RunMachine(u, Step(u, m))
  }

  /** Running the machine only appends to the trace it started with. */
  lemma {:induction false} RunMachineExtends(u: UnionInput, m: Machine)
    ensures var r := RunMachine(u, m);
      |r.events| >= |m.events| && r.events[..|m.events|] == m.events
    decreases Rank(m.phase)
  {
    if !m.phase.Finished? {
      var m' := Step(u, m);
      RunMachineExtends(u, m');
      var r := RunMachine(u, m);
      assert r.events[..|m'.events|][..|m.events|] == r.events[..|m.events|];
    }
  }

  /** `parse_union_pdf`: whatever happens later, the text engine is tried
      first, on the caller's models and the wrapper arguments. */
  function ParseUnionPdf(u: UnionInput): (r: Run)
    ensures |r.events| >= 1 && r.events[0] == EngineCalled(Txt, CallFor(u.models, u.args))
  {
    var m1 := Step(u, Machine(Start, []));
    var m := RunMachine(u, m1);
    RunMachineExtends(u, m1);
    assert m.events[0] == m.events[..|m1.events|][0];
    Run(m.events, m.phase.result)
  }

  /** The models the OCR engine receives after a fallback: a fresh OCR-mode
      analysis when the caller had no models, otherwise the caller's models
      unchanged; `None` when that analysis raised. */
  function FallbackModels(u: UnionInput): Option<ModelList> {
    if u.inputModelIsEmpty then u.e.analyze(true) else Some(u.models)
  }

  /** When the text engine returns a result without `_need_drop`, that
      result, tagged `"txt"` with the version, is the answer: the text engine
      ran once and neither the OCR engine nor an OCR-mode analysis ran. */
  lemma UnionKeepsTextResult(u: UnionInput)
    requires TextAccepted(u.e.txt(CallFor(u.models, u.args)))
    ensures ParseUnionPdf(u).events == [EngineCalled(Txt, CallFor(u.models, u.args))]
    ensures EngineCalls(ParseUnionPdf(u).events, Ocr) == 0
    ensures Analyses(ParseUnionPdf(u).events, true) == 0
    ensures ParseUnionPdf(u).result ==
              Success(Tag(u.e.txt(CallFor(u.models, u.args)).value, "txt", u.e.version))
  {
    var m0 := Machine(Start, []);
    var m1 := Step(u, m0);
    var m2 := Step(u, m1);
    assert RunMachine(u, m0) == RunMachine(u, m1) == RunMachine(u, m2) == m2;
    assert m2.events == [EngineCalled(Txt, CallFor(u.models, u.args))];
  }

  /** Counting engine calls distributes over concatenation of traces. */
  lemma {:induction false} EngineCallsAppend(a: seq<Event>, b: seq<Event>, s: Strategy)
    ensures EngineCalls(a + b, s) == EngineCalls(a, s) + EngineCalls(b, s)
  {
    if b != [] {
      var b' := b[..|b| - 1];
      EngineCallsAppend(a, b', s);
      assert (a + b)[..|a + b| - 1] == a + b';
    } else {
      assert a + b == a;
    }
  }

  /** A fallback trace: the text call, the warning, the OCR-mode analysis
      if one ran, and the OCR call if one was made. */
  function FallbackTrace(txt: EngineCall, reanalysed: bool, ocr: Option<EngineCall>): seq<Event> {
    [EngineCalled(Txt, txt), FallbackWarned]
    + (if reanalysed then [Analyzed(true)] else [])
    + (if ocr.Some? then [EngineCalled(Ocr, ocr.value)] else [])
  }

  /** The OCR call the fallback makes, unless the OCR-mode analysis raised. */
  function FallbackOcrCall(u: UnionInput): Option<EngineCall> {
    match FallbackModels(u)
    case None => None
    case Some(models) => Some(CallFor(models, u.args))
  }

  /** The trace of the union path once it falls back, written out: the
      text call, the warning, the OCR-mode analysis if the caller had no
      models, and the OCR call unless that analysis raised. */
  function FallbackEvents(u: UnionInput): seq<Event> {
    FallbackTrace(CallFor(u.models, u.args), u.inputModelIsEmpty, FallbackOcrCall(u))
  }

  /** The outcome of the union path once it falls back, written out. */
  function FallbackResult(u: UnionInput): Result<Info, Error> {
    match FallbackModels(u)
    case None => Failure(AnalyzeRaised)
    case Some(models) =>
      match u.e.ocr(CallFor(models, u.args))
      case None => Failure(BothFailed)
      case Some(d) => Success(Tag(d, ParseTypeOcr, u.e.version))
  }

  /** Once the text result is not kept, the state machine produces exactly
      the written-out fallback trace and outcome. */
  lemma UnionFallbackTrace(u: UnionInput)
    requires !TextAccepted(u.e.txt(CallFor(u.models, u.args)))
    ensures ParseUnionPdf(u) == Run(FallbackEvents(u), FallbackResult(u))
  {
    var m2 := FallbackMachine(u);
    UnionReachesFallback(u);
    if FallbackModels(u).Some? {
      var m3 := Step(u, m2);
      assert RunMachine(u, m2) == RunMachine(u, m3) == m3;
    }
  }

  /** The machine right after the fallback decision: ready for the OCR
      engine, or finished because the OCR-mode analysis raised. */
  function FallbackMachine(u: UnionInput): Machine {
    var call := CallFor(u.models, u.args);
    var ev := [EngineCalled(Txt, call), FallbackWarned] + (if u.inputModelIsEmpty then [Analyzed(true)] else []);
    match FallbackModels(u)
    case None => Machine(Finished(Failure(AnalyzeRaised)), ev)
    case Some(models) => Machine(OcrReady(models), ev)
  }

  /** Once the text result is not kept, the first two transitions lead to
      the fallback decision. */
  lemma UnionReachesFallback(u: UnionInput)
    requires !TextAccepted(u.e.txt(CallFor(u.models, u.args)))
    ensures RunMachine(u, Machine(Start, [])) == RunMachine(u, FallbackMachine(u))
  {
    var m0 := Machine(Start, []);
    var m1 := Step(u, m0);
    assert Step(u, m1) == FallbackMachine(u);
    assert RunMachine(u, m0) == RunMachine(u, m1) == RunMachine(u, Step(u, m1));
  }

  /** The order of a fallback trace: text call, then warning, and the OCR
      call last when there is one. */
  lemma FallbackTraceOrder(txt: EngineCall, reanalysed: bool, ocr: Option<EngineCall>)
    ensures var ev := FallbackTrace(txt, reanalysed, ocr);
      && |ev| >= 2
      && ev[0] == EngineCalled(Txt, txt)
      && ev[1] == FallbackWarned
      && (ocr.Some? ==> ev[|ev| - 1] == EngineCalled(Ocr, ocr.value))
  {
  }

  /** A fallback trace calls the text engine once, and the OCR engine once
      exactly when it makes the OCR call. */
  lemma FallbackTraceEngineCalls(txt: EngineCall, reanalysed: bool, ocr: Option<EngineCall>)
    ensures EngineCalls(FallbackTrace(txt, reanalysed, ocr), Txt) == 1
    ensures EngineCalls(FallbackTrace(txt, reanalysed, ocr), Ocr) == (if ocr.Some? then 1 else 0)
  {
    var head := [EngineCalled(Txt, txt), FallbackWarned];
    var mid := head + (if reanalysed then [Analyzed(true)] else []);
    var last: seq<Event> := if ocr.Some? then [EngineCalled(Ocr, ocr.value)] else [];
    assert head[..1] == [EngineCalled(Txt, txt)];
    assert EngineCalls(head, Txt) == 1 && EngineCalls(head, Ocr) == 0;
    EngineCallsAppend(head, if reanalysed then [Analyzed(true)] else [], Txt);
    EngineCallsAppend(head, if reanalysed then [Analyzed(true)] else [], Ocr);
    EngineCallsAppend(mid, last, Txt);
    EngineCallsAppend(mid, last, Ocr);
  }

  /** A fallback trace analyses in OCR mode once exactly when it re-analysed,
      and never in text mode. */
  lemma FallbackTraceAnalyses(txt: EngineCall, reanalysed: bool, ocr: Option<EngineCall>)
    ensures Analyses(FallbackTrace(txt, reanalysed, ocr), true) == (if reanalysed then 1 else 0)
    ensures Analyses(FallbackTrace(txt, reanalysed, ocr), false) == 0
  {
    var mid: seq<Event> := if reanalysed then [Analyzed(true)] else [];
    var last: seq<Event> := if ocr.Some? then [EngineCalled(Ocr, ocr.value)] else [];
    assert multiset([EngineCalled(Txt, txt), FallbackWarned] + mid + last)
      == multiset([EngineCalled(Txt, txt), FallbackWarned]) + multiset(mid) + multiset(last);
  }

  /** Counts over the written-out fallback trace. */
  lemma FallbackEventsCounts(u: UnionInput)
    ensures var ev := FallbackEvents(u);
      && |ev| >= 2
      && ev[0] == EngineCalled(Txt, CallFor(u.models, u.args))
      && ev[1] == FallbackWarned
      && EngineCalls(ev, Txt) == 1
      && EngineCalls(ev, Ocr) == (if FallbackModels(u).Some? then 1 else 0)
      && Analyses(ev, true) == (if u.inputModelIsEmpty then 1 else 0)
      && Analyses(ev, false) == 0
      && (FallbackModels(u).Some? ==>
            ev[|ev| - 1] == EngineCalled(Ocr, CallFor(FallbackModels(u).value, u.args)))
  {
    var txt := CallFor(u.models, u.args);
    FallbackTraceOrder(txt, u.inputModelIsEmpty, FallbackOcrCall(u));
    FallbackTraceEngineCalls(txt, u.inputModelIsEmpty, FallbackOcrCall(u));
    FallbackTraceAnalyses(txt, u.inputModelIsEmpty, FallbackOcrCall(u));
  }

  /** When the text engine raises or asks for its result to be dropped: the
      text engine ran once, first; an OCR-mode analysis ran exactly once if
      the caller had no models and never otherwise; unless that analysis
      raised, the OCR engine then ran exactly once, last, on the fallback
      models, and the union call raises "both failed" exactly when the OCR
      engine raises, and otherwise returns its result tagged `"ocr"`. */
  lemma UnionFallsBackToOcr(u: UnionInput)
    requires !TextAccepted(u.e.txt(CallFor(u.models, u.args)))
    ensures var r := ParseUnionPdf(u);
      && |r.events| >= 2
      && r.events[0] == EngineCalled(Txt, CallFor(u.models, u.args))
      && r.events[1] == FallbackWarned
      && EngineCalls(r.events, Txt) == 1
      && Analyses(r.events, true) == (if u.inputModelIsEmpty then 1 else 0)
      && Analyses(r.events, false) == 0
    ensures var r := ParseUnionPdf(u);
      FallbackModels(u).None? ==>
        r.result == Failure(AnalyzeRaised) && EngineCalls(r.events, Ocr) == 0
    ensures var r := ParseUnionPdf(u);
      FallbackModels(u).Some? ==>
        var call := CallFor(FallbackModels(u).value, u.args);
        && EngineCalls(r.events, Ocr) == 1
        && r.events[|r.events| - 1] == EngineCalled(Ocr, call)
        && (r.result == Failure(BothFailed) <==> u.e.ocr(call).None?)
        && (u.e.ocr(call).Some? ==> r.result == Success(Tag(u.e.ocr(call).value, "ocr", u.e.version)))
  {
    UnionFallbackTrace(u);
    FallbackEventsCounts(u);
  }

  /** A returned union result is tagged `"txt"` exactly when the text
      result was kept, and `"ocr"` otherwise, and always carries the
      version. */
  lemma UnionResultTags(u: UnionInput)
    requires ParseUnionPdf(u).result.Success?
    ensures var d := ParseUnionPdf(u).result.value;
      && VersionKey in d && ParseTypeKey in d
      && d[VersionKey] == Str(u.e.version)
      && (d[ParseTypeKey] == Str("txt") <==> TextAccepted(u.e.txt(CallFor(u.models, u.args))))
      && (d[ParseTypeKey] == Str("ocr") <==> !TextAccepted(u.e.txt(CallFor(u.models, u.args))))
  {
    if TextAccepted(u.e.txt(CallFor(u.models, u.args))) {
      UnionKeepsTextResult(u);
    } else {
      UnionFallsBackToOcr(u);
    }
  }

  /** The union call raises only when the OCR path fails: an exception of
      the text engine never escapes it, and with the text result kept it
      never raises. */
  lemma UnionRaisesOnlyOnOcrPath(u: UnionInput)
    ensures var r := ParseUnionPdf(u);
      r.result.Failure? <==>
        && !TextAccepted(u.e.txt(CallFor(u.models, u.args)))
        && (FallbackModels(u).None? || u.e.ocr(CallFor(FallbackModels(u).value, u.args)).None?)
    ensures var r := ParseUnionPdf(u);
      r.result.Failure? ==> r.result.error == BothFailed || r.result.error == AnalyzeRaised
  {
    if TextAccepted(u.e.txt(CallFor(u.models, u.args))) {
      UnionKeepsTextResult(u);
    } else {
      UnionFallbackTrace(u);
    }
  }

  /** Every engine call in the trace received `args`' start page and debug
      values. */
  ghost predicate CallsUse(events: seq<Event>, args: WrapperArgs) {
    forall j :: 0 <= j < |events| && events[j].EngineCalled? ==>
      events[j].call.startPageId == args.startPage && events[j].call.debugMode == args.isDebug
  }

  lemma CallsUseConcat(a: seq<Event>, b: seq<Event>, args: WrapperArgs)
    requires CallsUse(a, args) && CallsUse(b, args)
    ensures CallsUse(a + b, args)
  {
    forall j | 0 <= j < |a + b| && (a + b)[j].EngineCalled?
      ensures (a + b)[j].call.startPageId == args.startPage && (a + b)[j].call.debugMode == args.isDebug
    {
      if j >= |a| { assert (a + b)[j] == b[j - |a|]; }
    }
  }

  /** The trace holds no event of the batch driver itself. */
  predicate NoDriverEvents(events: seq<Event>) {
    forall j :: 0 <= j < |events| ==> !events[j].Progress? && !events[j].UnknownTypeReported?
  }

  lemma NoDriverEventsConcat(a: seq<Event>, b: seq<Event>)
    requires NoDriverEvents(a) && NoDriverEvents(b)
    ensures NoDriverEvents(a + b)
  {
    forall j | 0 <= j < |a + b|
      ensures !(a + b)[j].Progress? && !(a + b)[j].UnknownTypeReported?
    {
      if j >= |a| { assert (a + b)[j] == b[j - |a|]; }
    }
  }

  /** Every engine call in the trace received the given models. */
  ghost predicate CallsOn(events: seq<Event>, models: ModelList) {
    forall j :: 0 <= j < |events| && events[j].EngineCalled? ==> events[j].call.models == models
  }

  lemma CallsOnConcat(a: seq<Event>, b: seq<Event>, models: ModelList)
    requires CallsOn(a, models) && CallsOn(b, models)
    ensures CallsOn(a + b, models)
  {
    forall j | 0 <= j < |a + b| && (a + b)[j].EngineCalled?
      ensures (a + b)[j].call.models == models
    {
      if j >= |a| { assert (a + b)[j] == b[j - |a|]; }
    }
  }

  /** Without `input_model_is_empty` the union path never analyses again:
      the text engine and, after a fallback, the OCR engine both receive
      the caller's models. */
  lemma UnionReusesModels(u: UnionInput)
    requires !u.inputModelIsEmpty
    ensures CallsOn(ParseUnionPdf(u).events, u.models)
  {
    if TextAccepted(u.e.txt(CallFor(u.models, u.args))) {
      UnionKeepsTextResult(u);
    } else {
      UnionFallbackTrace(u);
      FallbackTraceModels(CallFor(u.models, u.args), false, FallbackOcrCall(u), u.models);
    }
  }

  /** Every engine call of a fallback trace receives the given models when
      the text and OCR calls do. */
  lemma FallbackTraceModels(txt: EngineCall, reanalysed: bool, ocr: Option<EngineCall>, models: ModelList)
    requires txt.models == models
    requires ocr.Some? ==> ocr.value.models == models
    ensures CallsOn(FallbackTrace(txt, reanalysed, ocr), models)
  {
    var head: seq<Event> := [EngineCalled(Txt, txt), FallbackWarned] + (if reanalysed then [Analyzed(true)] else []);
    var last: seq<Event> := if ocr.Some? then [EngineCalled(Ocr, ocr.value)] else [];
    assert CallsOn(head, models);
    assert CallsOn(last, models);
    CallsOnConcat(head, last, models);
  }

  /** The union path's trace: every engine call gets the wrapper
      arguments, no default-mode analysis runs, and no driver event occurs. */
  lemma UnionEventsShape(u: UnionInput)
    ensures CallsUse(ParseUnionPdf(u).events, u.args)
    ensures Analyses(ParseUnionPdf(u).events, false) == 0
    ensures NoDriverEvents(ParseUnionPdf(u).events)
  {
    if TextAccepted(u.e.txt(CallFor(u.models, u.args))) {
      UnionKeepsTextResult(u);
    } else {
      UnionFallbackEventsShape(u);
    }
  }

  lemma UnionFallbackEventsShape(u: UnionInput)
    requires !TextAccepted(u.e.txt(CallFor(u.models, u.args)))
    ensures CallsUse(ParseUnionPdf(u).events, u.args)
    ensures Analyses(ParseUnionPdf(u).events, false) == 0
    ensures NoDriverEvents(ParseUnionPdf(u).events)
  {
    UnionFallbackTrace(u);
    FallbackEventsShape(u);
  }

  lemma FallbackEventsShape(u: UnionInput)
    ensures CallsUse(FallbackEvents(u), u.args)
    ensures Analyses(FallbackEvents(u), false) == 0
    ensures NoDriverEvents(FallbackEvents(u))
  {
    var txt := CallFor(u.models, u.args);
    FallbackTraceAnalyses(txt, u.inputModelIsEmpty, FallbackOcrCall(u));
    FallbackTraceShape(txt, u.inputModelIsEmpty, FallbackOcrCall(u), u.args);
  }

  /** Every engine call of a fallback trace passes the wrapper's arguments
      when the text and OCR calls do, and the trace holds no driver events. */
  lemma FallbackTraceShape(txt: EngineCall, reanalysed: bool, ocr: Option<EngineCall>, args: WrapperArgs)
    requires txt.startPageId == args.startPage && txt.debugMode == args.isDebug
    requires ocr.Some? ==> ocr.value.startPageId == args.startPage && ocr.value.debugMode == args.isDebug
    ensures CallsUse(FallbackTrace(txt, reanalysed, ocr), args)
    ensures NoDriverEvents(FallbackTrace(txt, reanalysed, ocr))
  {
    var head: seq<Event> := [EngineCalled(Txt, txt), FallbackWarned] + (if reanalysed then [Analyzed(true)] else []);
    var last: seq<Event> := if ocr.Some? then [EngineCalled(Ocr, ocr.value)] else [];
    assert CallsUse(head, args) && NoDriverEvents(head);
    assert CallsUse(last, args) && NoDriverEvents(last);
    CallsUseConcat(head, last, args);
    NoDriverEventsConcat(head, last);
  }

}
