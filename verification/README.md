# PDF type classification and parse dispatch, modelled in Dafny

This project models the decision logic of `start_with_progress_bar.py`, a batch
driver for a PDF extraction pipeline. The driver has three parts:

- **Classifier** (`determine_pdf_type`). It reads every page, strips the
  extracted text, and counts text pages and scanned pages. It answers
  `normal`, `scanned` or `mix_pdf`. It answers `unknown` when opening the file
  or extracting a page raises.
- **Parse wrappers** (`parse_txt_pdf`, `parse_ocr_pdf`, `parse_union_pdf`).
  The first two call one extraction engine and stamp `_parse_type` and
  `_version_name` on the mapping it returns. The union path tries the text
  engine first. It falls back to the OCR engine when the text engine raises
  or sets `_need_drop`. Before the fallback it re-runs the layout analysis in
  OCR mode, but only when `input_model_is_empty` is set.
- **Batch driver** (`process_pdf_directory`). It keeps the listing entries
  ending in `.pdf`. For each one, in order, it reads the file, classifies it,
  runs the default-mode layout analysis, dispatches on the type and logs a
  progress line.

The layout analyser (`doc_analyze`) and both extraction engines are oracles:
functions from their arguments to `Option` results, where `None` means the
call raised. Every oracle call is recorded in an event trace. So the model can
state which engines ran, in what order, and with which arguments.

Modules:

- `Wrappers` (wrappers.dfy): `Option` and `Result`.
- `Classifier` (classifier.dfy): Python's `str.strip`, page counting, the
  decision table, and the classifier loop as a method.
- `InfoDict` (info_dict.dfy): the result mapping, its truthiness-based
  `_need_drop` test, and the tagging.
- `Parse` (parse.dfy): the wrappers, and the union path as an explicit state
  machine (`Start`, then `TextTried`, then `OcrReady`, then `Finished`).
- `Batch` (batch.dfy): the listing filter, the loop body, the loop as a fold
  that stops at the first exception, and the argument binding.

The model follows the code as written. In particular:

- **No failure isolation.** The loop has no exception handling. A read error,
  an analysis error or a strategy error ends the whole batch.
- **Unknown files.** They are skipped with a printed message and get no
  progress line. Their position still counts in `index + 1` and `total`.
- **Analysis order.** The default-mode analysis runs for every readable file,
  `unknown` ones included. It runs before the dispatch, and if it raises, the
  batch aborts.
- **OCR-mode re-analysis.** The union path re-analyses in OCR mode only when
  `input_model_is_empty` is true. The driver never sets it, so inside the
  batch the OCR fallback always reuses the default-mode models.
- **Type string.** The mixed type is the string `mix_pdf`.

## Model

| member | source | states |
|---|---|---|
| Classifier.CountPages | start_with_progress_bar.py:134-139 | The page loop finishes its pass iff every page's extraction succeeded. It then holds the number of pages with non-blank text and the number without. |
| Classifier.DeterminePdfType | start_with_progress_bar.py:124-151 | The function agrees with the page-by-page classifier. When the answer is not `unknown`, the text and scanned counts add up to the page count, and the text count is the number of pages with non-blank text. |
| Classifier.Classify | start_with_progress_bar.py:124-151 | Only a document that opened and whose pages all extracted gets a type other than `unknown`. A `scanned` document has at least one page. A `mix_pdf` document has at least two pages. |
| Classifier.ClassifyByPages | start_with_progress_bar.py:141-151 | `unknown` iff opening or some page extraction raised. `normal` iff every page has text. `scanned` iff there is at least one page and none has text. `mix_pdf` iff both kinds occur. |
| Classifier.EmptyDocumentIsNormal | start_with_progress_bar.py:141-142 | A document with zero pages is `normal`, because the all-text test runs first. |
| Classifier.CountsPartitionPages | start_with_progress_bar.py:134-139 | Each page is counted exactly once, as text or as scanned. |
| Classifier.AllTextIffCount | start_with_progress_bar.py:136-142 | The text count equals the page count iff every page has text. |
| Classifier.AllScannedIffCount | start_with_progress_bar.py:138-144 | The scanned count equals the page count iff no page has text. |
| Classifier.StripLeftTrims | start_with_progress_bar.py:135 | Leading strip gives a suffix that does not start with whitespace, and only whitespace was removed. |
| Classifier.StripRightTrims | start_with_progress_bar.py:135 | Trailing strip gives a prefix that does not end with whitespace, and only whitespace was removed. |
| Classifier.StripIsTrimmedSlice | start_with_progress_bar.py:135 | `strip()` gives a slice of the text with whitespace-only margins. A non-empty result starts and ends with a non-whitespace character. |
| Classifier.StripEmptyIffBlank | start_with_progress_bar.py:135-136 | The stripped text is falsy iff the page text is all whitespace, the empty string included. |
| InfoDict.TagAddsOnlyTags | start_with_progress_bar.py:33-35 | After tagging, the mapping has the engine's keys plus `_parse_type` and `_version_name`. The two tags hold the given values and every other key is unchanged. |
| InfoDict.Tag | start_with_progress_bar.py:33-35 | Tagging keeps every key of the engine's mapping and adds no key other than `_parse_type` and `_version_name`. |
| InfoDict.UntagAfterTag | start_with_progress_bar.py:33-35 | Removing the two tag keys after tagging gives back the engine's mapping without them. |
| Parse.ParseTxtPdf | start_with_progress_bar.py:20-37 | The text engine runs exactly once, with the wrapper's arguments. If it raises, the wrapper raises. Otherwise the result is its mapping tagged `"txt"` with the version, and all other keys are unchanged. |
| Parse.ParseOcrPdf | start_with_progress_bar.py:40-57 | The same for the OCR engine, tagged `"ocr"`. |
| Parse.Step | start_with_progress_bar.py:80-93 | Each union transition moves strictly forward (text try, fallback, OCR try, done) and only appends to the trace. |
| Parse.RunMachine | start_with_progress_bar.py:60-95 | The union call always finishes: it returns or raises. |
| Parse.ParseUnionPdf | start_with_progress_bar.py:60-95 | Whatever happens later, the first thing the union call does is call the text engine, on the caller's models with the wrapper arguments. |
| Parse.UnionKeepsTextResult | start_with_progress_bar.py:80-95 | If the text engine returns without `_need_drop`, its mapping tagged `"txt"` is the answer. The trace is that single text call: no OCR call and no OCR-mode analysis. |
| Parse.UnionFallbackTrace | start_with_progress_bar.py:81-89 | When the text result is not kept, the state machine yields the written-out fallback: the text call, the warning, the OCR-mode analysis iff `input_model_is_empty`, then the OCR call on the fallback models unless that analysis raised. The outcome is "analysis raised", "both failed", or the OCR mapping tagged `"ocr"`. |
| Parse.FallbackTraceOrder | start_with_progress_bar.py:81-89 | A fallback trace starts with the text call and then the warning. When the OCR call is made, it is the last event. |
| Parse.FallbackTraceEngineCalls | start_with_progress_bar.py:81-89 | A fallback trace calls the text engine once, and the OCR engine once exactly when the OCR call is made. |
| Parse.FallbackTraceAnalyses | start_with_progress_bar.py:83-85 | A fallback trace has one OCR-mode analysis iff it re-analysed, and no default-mode analysis. |
| Parse.FallbackTraceShape | start_with_progress_bar.py:81-89 | If the text and OCR calls pass the wrapper's arguments, every engine call in the fallback trace does. The trace has no progress or unknown-type event. |
| Parse.UnionFallsBackToOcr | start_with_progress_bar.py:81-89 | On text failure or drop, the text engine ran once and first. The OCR-mode analysis ran once iff `input_model_is_empty`, and never in default mode. Unless that analysis raised, the OCR engine ran exactly once and last. The call raises "both failed" iff OCR raised, and otherwise returns the OCR mapping tagged `"ocr"`. |
| Parse.UnionResultTags | start_with_progress_bar.py:86-93 | A returned union result carries the version. It is tagged `"txt"` iff the text result was kept, and `"ocr"` iff it was not. |
| Parse.UnionRaisesOnlyOnOcrPath | start_with_progress_bar.py:67-89 | The union call raises iff the text result was not kept and then the OCR-mode analysis or the OCR engine raised. A text-engine exception never escapes. |
| Parse.UnionReusesModels | start_with_progress_bar.py:80-85 | Without `input_model_is_empty`, every engine call of the union path, the OCR fallback included, receives the caller's models. |
| Batch.PdfFiles | start_with_progress_bar.py:99 | The filtered list is no longer than the listing, and every kept name ends in `.pdf`. |
| Batch.PdfFilesOfConcat | start_with_progress_bar.py:99 | Filtering keeps listing order: it distributes over concatenation. |
| Batch.PdfFilesKeepsExactlyPdfEntries | start_with_progress_bar.py:99 | Each `.pdf` entry is kept exactly as often as it is listed, and nothing else is kept. |
| Batch.ProcessFile | start_with_progress_bar.py:102-121 | A report names its file. A parsed file's last event is the progress line with its 1-based position and the total. |
| Batch.ProcessFileRaisesIff | start_with_progress_bar.py:103-116 | A file ends raised iff one of these raised: reading its bytes, the default-mode analysis (for every type, `unknown` included, since the analysis runs before the dispatch), or the dispatched strategy. For `normal` the strategy is the text engine, for `scanned` the OCR engine, and for `mix_pdf` the OCR engine after the text result was not kept. A read error and an analysis error are reported as such. |
| Batch.Dispatch | start_with_progress_bar.py:111-119 | Exactly `unknown` gets no strategy. A `scanned` file's strategy first calls the OCR engine. A `normal` or `mix_pdf` file's strategy first calls the text engine. |
| Batch.StrategyEvents | start_with_progress_bar.py:110-116 | A dispatched strategy runs no default-mode analysis, no OCR-mode analysis and no driver event. Its engine calls get the wrapper arguments and the models the driver passed. |
| Batch.ProcessFileAnalyses | start_with_progress_bar.py:104-116 | Each file gets exactly one default-mode analysis if its bytes were read and none otherwise. It never gets an OCR-mode analysis. |
| Batch.ProcessFileCallArgs | start_with_progress_bar.py:110-116 | Every engine call a file causes receives the wrapper arguments the driver passed, and the models of that file's default-mode analysis. |
| Batch.DispatchEngineCalls | start_with_progress_bar.py:111-116 | `normal` runs only the text engine, once. `scanned` runs only the OCR engine, once. `mix_pdf` goes to the union path: the text engine runs once, and the OCR engine runs once iff the text result is not kept. In that case the fallback warning comes second and the OCR call on the same models comes last. |
| Batch.ProcessFileDispatch | start_with_progress_bar.py:107-119 | For a readable file whose default-mode analysis returned, the per-type engine counts hold for the whole file, including the union-path rule for `mix_pdf`: the OCR engine runs iff the text result is not kept. Such a file of type `unknown` runs no engine and ends skipped. |
| Batch.ProgressIffParsed | start_with_progress_bar.py:117-121 | A file's trace holds a progress line iff the file was parsed, and then only as its last event. |
| Batch.ProcessFrom | start_with_progress_bar.py:102-121 | Files are handed to the loop body in order, with their positions. Only the last one handed over can have raised, and the loop stops early only after a file that raised. |
| Batch.RunBatch | start_with_progress_bar.py:99-121 | Reports follow the `.pdf` entries in listing order. The batch is cut short only right after a raising file. |
| Batch.RunBatchFileByFile | start_with_progress_bar.py:102-121 | Report `i` of the batch is the loop body run on the `i`-th `.pdf` entry, at position `i`, with the total of all `.pdf` entries. |
| Batch.RunBatchProgress | start_with_progress_bar.py:100-121 | A parsed file's last event is the progress line `i+1 / total`, where the total counts every `.pdf` entry, skipped ones included. |
| Batch.RunBatchStopsAtFirstRaise | start_with_progress_bar.py:102-116 | If file `i` is the first `.pdf` entry whose processing raises, the batch has exactly `i + 1` reports and the last one is raised: no later file is touched. |
| Batch.RunBatchCompletesWithoutRaise | start_with_progress_bar.py:102-121 | If no file raises, every `.pdf` entry gets a report. |
| Batch.RunBatchCallArgs | start_with_progress_bar.py:110-116 | Across the batch, every engine call receives the wrapper arguments. |
| Batch.RunBatchNeverReanalysesForOcr | start_with_progress_bar.py:110-116 | The batch never runs an OCR-mode analysis, and each readable file gets exactly one default-mode analysis. |
| Batch.RunBatchReusesDefaultModels | start_with_progress_bar.py:110-116 | Across the batch, every engine call of a file receives the models of that file's default-mode analysis, so the union fallback reuses them. |
| Batch.ProcessPdfDirectory | start_with_progress_bar.py:98-121 | As written: every engine call gets the driver's `is_debug` as its start page and its `start_page` as its debug mode. |
| Batch.StartPageSwapWitness | start_with_progress_bar.py:112-116 | For a one-file directory with `start_page = 3`, the text engine gets `False` as its start page, not 3. With keyword binding it gets 3. |
| Batch.ProcessPdfDirectoryIntended | start_with_progress_bar.py:112-116 | With keyword binding, every engine call gets the driver's `start_page` as its start page and its `is_debug` as its debug mode. |

## Left out

- PyPDF2 text extraction: each page is the text it yields or an extraction failure. Opening and parsing the file is either a page list or a failure.
- `doc_analyze`, `parse_pdf_by_txt` and `parse_pdf_by_ocr` are oracle parameters, and their content is opaque. Each is a deterministic function of its arguments. The PDF bytes and the image writer are fixed per file and not represented.
- `__version__` is a parameter (`Engines.version`), because it comes from another module.
- File and directory I/O (`os.listdir`, `os.path.join`, `open`) is left out: the listing is a list of names, and each name maps to an entry that records whether reading its bytes succeeds.
- Log and print text is not modelled. Only the fallback warning, the unknown-type message and the progress line appear, as trace events. `logger.exception` inside the union path and the type log line are not recorded.
- Values stored in an engine mapping keep only what the code inspects, their Python truthiness. Container contents are opaque (`Content(nonEmpty)`).
- Unicode whitespace for `strip()` is the fixed set of characters for which Python's `str.isspace` holds, written out in `Classifier.IsSpace`.
- The `AbsPipe` class (lines 153-165) only stores constructor arguments, and `ABC` is not imported there.
- The `__main__` block (lines 166-174) uses a hard-coded path and an undefined `imageWriter`.
- Concurrency, timeouts and image-sink deduplication do not occur in the code.

## Findings

| source | as written | input that shows it | evidently intended | confidence | as-written member | corrected member |
|---|---|---|---|---|---|---|
| start_with_progress_bar.py:112-116 | The driver calls the wrappers as `(pdf_bytes, pdf_models, imageWriter, start_page, is_debug)`. The wrappers take `is_debug` before `start_page`, so the two values are swapped. | `start_page = 3, is_debug = False`: the engine gets `start_page_id = False` and `debug_mode = 3`. | Bind `start_page` and `is_debug` by name, so the engine gets `start_page_id = 3` and `debug_mode = False`. | high; not executed | Batch.StartPageSwapWitness | Batch.ProcessPdfDirectoryIntended |
