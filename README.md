# Sejm legislative-process audit: a Dafny model

This project models the core of a crawler for the Polish Sejm's public API and
proves properties of that model. The crawler walks every legislative
*process*, its *prints* (filed documents) and their *attachments*. It runs the
"nuclear" keyword scanner over each attachment and writes one row per node,
with a hierarchical identifier such as `XIV.3.B`, to a semicolon-separated
report. The report is written in batches. A second tool fetches one process,
builds its print/attachment tree, and renders it in two ways: as an ASCII tree
and as a chronological list of dated events.

The modules follow the two scripts:

- `strings.dfy` (`Strings`): decimal rendering, `join`, ASCII `lower`,
  substring tests, and the order-keeping de-duplication that stands in for
  `list(set(...))`.
- `ids.dfy` (`TreeIds`): `get_roman` and `index_to_char`, and the dotted
  hierarchical identifiers built from them.
- `scoring.dfy` (`Scoring`): the trigger vocabulary, text normalisation,
  matching, the category-correlation bonus and the clamped score, all as
  functions of the text.
- `scanner.dfy` (`Scanner`): the `NuclearScanner` class, its extraction
  methods per file type, `analyze_results` and `run`.
- `worker.dfy` (`Worker`): `worker_process_full_tree` as a method proved
  against a row-list function. It also proves that tree identifiers are unique
  within a process and across processes.
- `writer.dfy` (`Writer`): `initialize_csv`, `append_to_csv` and the
  batch-and-flush loop of `main`, with the report file as a class.
- `process_tree.dfy` (`ProcessTree`): the process lookup and the tree that
  `build_tree` produces, as functions.
- `tree_views.dfy` (`TreeViews`): the ASCII tree, the event list, and a stable
  sort of the events by date.
- `downloader.dfy` (`Downloader`): the `SejmProcessDownloader` class and its
  methods, each proved equal to the functions above.

HTTP, OCR, the PDF/DOCX readers, `unidecode` and `fuzz.partial_ratio` are not
modelled as code. They enter as parameters:

- what a download returns (`Worker.Download`, `ProcessTree.Api`);
- what the document readers produce for a file's bytes
  (`Scanner.FileReadings`);
- a `Scoring.Matcher` holding the two string functions.

Nothing is assumed about these functions beyond their being functions of the
request: the API is taken as a read-only snapshot, so the same request always
gets the same answer (see "## Left out"). The types of the JSON responses also
assume that a decoded response has the expected shape.

Where the design description and the code disagree, the model follows the
code:

- The scanner has no cross-layer (logical vs. visual) diff. The OCR text and
  the text layer are simply concatenated.
- A failed metadata fetch for a print is only logged. It adds no status row;
  the print row is already in place, and its attachments are skipped.
- There is no retry or backoff, and there is no archive expansion.
- The report is one CSV file that is appended to. It is not split into
  segment files.
- Flushing happens every fifth *completed* task, counted in completion order.
  A task that raised skips the flush check for its own position.
- A process that has `num` but lacks `title` raises inside the worker. `main`
  catches that (main.py:345-346) and writes no row for the process; no status
  row is produced. A process lacking `num` already stops `main` itself while
  the tasks are being submitted; see "## Left out".

## Model

| member | source | states |
|---|---|---|
| TreeIds.GetRoman | main.py:57-67 | the loop over the value table yields exactly the Roman numeral `Roman(n)`, proved with the invariant "built so far + what the remaining rows add = Roman(n)" |
| TreeIds.AppendCopies | main.py:63-65 | appending `n // val[i]` copies of a symbol adds `Repeat(sym, k)` to the numeral and subtracts `k * val[i]` from the remainder |
| TreeIds.QuotientIsDiv | main.py:63 | the repeat count of a table row is Python's `n // val[i]` for non-negative n |
| TreeIds.RomanRoundTrip | main.py:57-67 | reading the numeral back with subtractive Roman rules gives n for every n >= 0; n = 0 gives the empty string |
| TreeIds.RomanInjective | main.py:57-67 | distinct process indices get distinct Roman numerals |
| TreeIds.RomanLetters | main.py:57-67 | a numeral uses only the letters I V X L C D M |
| TreeIds.TableFacts | main.py:58-59 | every table value is at least 1, only the last row is 1, and every symbol is 1-2 letters whose value is bracketed by its letters' values |
| TreeIds.IndexToChar | main.py:69-70 | the result starts with an upper-case letter; it is one character iff n < 26; the rest are digits (`Z{n}`) |
| TreeIds.IndexToCharInjective | main.py:69-70 | distinct attachment indices get distinct labels, including across the 26 boundary |
| TreeIds.SegmentsDotFree | main.py:218-247 | no identifier segment (Roman numeral, print ordinal, attachment label) contains a dot |
| TreeIds.DotPrefixUnique | main.py:233-247 | a dot-free head followed by a dot-led tail splits a string in only one way |
| TreeIds.TreeIdInjective | main.py:233-247 | dot-joined paths of dot-free segments are equal only when the paths are equal |
| TreeIds.IdShapes | main.py:233-247 | print ids are `root.p` and attachment ids are `root.p.label` |
| TreeIds.NodeIdPath | main.py:218-247 | the id of a node is the dot-join of its path |
| TreeIds.NodeIdInjective | main.py:218-247 | two nodes (root, print p, attachment f of print p) of processes i and j share an id only if i = j and they are the same node |
| Strings.NatToStringInjective | main.py:233 | `str(p)` of distinct ordinals differs |
| Strings.DecimalRoundTrip | main.py:233 | the decimal string of n reads back as n |
| Strings.Dedup | main.py:271 | the de-duplicated vector list holds each matched term exactly once and nothing else |
| Scoring.KeepAllowed | main.py:182 | the result keeps only `[a-z0-9\s]` characters, every kept character of the input survives, and an already clean text is unchanged |
| Scoring.KeepAllowedAppend | main.py:182 | the filter of a concatenation is the concatenation of the filtered parts, so kept characters keep their order and multiplicity |
| Scoring.KeepAllowedChar | main.py:182 | a single character is kept iff it is in `[a-z0-9\s]`, and dropped otherwise |
| Scoring.KeepAllowedIdempotent | main.py:182 | cleaning twice is cleaning once |
| Scoring.Score | main.py:180-200 | the score is `min(raw, 10)`: even and in 0..10; both categories found gives 10; without the correlation and with fewer than five matches it is exactly 2 per matched term; five or more matches give 10 |
| Scoring.FoundCats | main.py:184-192 | no matched vector means no found category |
| Scoring.MatchedTermsExact | main.py:187-191 | a term is recorded iff it is in the category's list and hits (literal substring or similarity > 90) |
| Scoring.VectorsExact | main.py:186-191 | a vector is recorded iff some category lists it and it hits |
| Scoring.LiteralHitRecorded | main.py:190-192 | a term whose normalised form occurs literally is recorded, and its category is found |
| Scoring.CatFoundStep | main.py:186-192 | scanning one more category adds its name exactly when one of its terms hits |
| Scoring.FoundCatsExact | main.py:186-192 | a category is found iff one of its terms hits |
| Scoring.CorrelationIff | main.py:196 | the correlation bonus fires iff a FINANSE term and a WOJSKO_SLUZBY term both hit |
| Scoring.CorrelationScoresMax | main.py:196-200 | with both categories hit, the returned score is the cap 10 |
| Scoring.NoHitScoresZero | main.py:186-200 | text where no term hits yields no vectors, no categories and score 0 |
| Scanner.LastSegmentShape | main.py:115 | `split('.')[-1]` is a dot-free suffix preceded by a dot unless it is the whole name |
| Scanner.ExtensionOfDotted | main.py:115 | for `stem.ext` with a dot-free ext, the extension is exactly ext |
| Scanner.ScanReport | main.py:202-210 | a fresh scanner's risk is even and in 0..10 for every file |
| Scanner.ScanReportFacts | main.py:180-210 | the correlation alert appears iff both categories are found in the extracted text, and every vector is a trigger term |
| Scanner.ExtractionAlertsAreNotCorrelation | main.py:149 | extraction never emits the correlation alert |
| Scanner.NuclearScanner.constructor | main.py:112-119 | the extension is the lower-cased last dot segment; risk 0, no vectors, no alerts, empty cache |
| Scanner.NuclearScanner.ScanPdf | main.py:132-149 | on render success the cache is the OCR text followed by every page's text and a space; on failure the cache is kept and `PDF Render Error: ...` is appended; risk and vectors are untouched |
| Scanner.NuclearScanner.ScanDocx | main.py:151-178 | the cache gains the space-joined paragraphs, every cell followed by a space, and image OCR after a space with the `[SKAN W WORDZIE]` alert; on failure the partial text and `DOCX Error: ...` |
| Scanner.NuclearScanner.AnalyzeResults | main.py:180-200 | vectors gain exactly the hitting terms in vocabulary order; risk grows by the raw risk; the correlation alert is appended iff both categories are found; returns `min(risk, 10)` |
| Scanner.NuclearScanner.ScanCategories | main.py:186-192 | the category loop appends `Vectors` and adds 2 per hit, and the found set is `FoundCats` |
| Scanner.NuclearScanner.ScanCategory | main.py:187-192 | the term loop appends the matched terms and 2 per match, and reports whether any matched |
| Scanner.NuclearScanner.Run | main.py:202-210 | dispatches on pdf / docx,doc / other (utf-8 text), then analyses; the final state and the result are the extraction followed by the analysis |
| Scanner.Scan | main.py:267-272 | a fresh scanner's result, vectors and alerts after `run` are the file's scan report |
| Worker.WorkerProcessFullTree | main.py:216-283 | the returned rows equal `WorkerResult`: the root row, then per print its row and, when the metadata fetch succeeds, one row per attachment |
| Worker.ScanPrint | main.py:231-281 | one print's rows: the print row, then the attachment rows, or only the print row when the metadata fetch raises |
| Worker.BuildAttachmentRows | main.py:244-278 | the attachment loop yields `AttachmentRows` in attachment order |
| Worker.ScanAttachment | main.py:245-278 | one attachment's row is `AttachmentRow` |
| Worker.AttachmentRowContents | main.py:245-278 | an attachment row has id `print_id.label`, the file name and URL; on an exception a `CRASH: ` alert, risk 0 and `?` author/date; on a non-200 status `Błąd 404/500`; on 200 exactly the scanner's score as risk, the de-duplicated comma-joined vectors, the ` \| `-joined alerts and the file metadata |
| Worker.AttachmentRows | main.py:244-278 | one row per attachment |
| Worker.AttachmentRowsIds | main.py:246-247 | attachment row f carries the id `print_id.index_to_char(f)` |
| Worker.PrintBlocksStep | main.py:231-281 | one more print appends exactly that print's block |
| Worker.PrintBlockHead | main.py:233-238 | every print block starts with the print's own row |
| Worker.PrintRowPresent | main.py:231-238 | print p's row sits in the result right after the blocks of prints 1..p-1 |
| Worker.WorkerFailsIff | main.py:216-226 | the worker raises iff the process lacks `num` or `title`; otherwise the first row has the Roman id and there are at least 1 + #prints rows |
| Worker.AttachmentNodes | main.py:244-247 | the k attachment nodes of print p are in order |
| Worker.LabelledAppend | main.py:221-278 | rows labelled by node lists stay labelled under concatenation |
| Worker.DistinctAppend | main.py:231-278 | nodes of earlier prints and of print n do not collide |
| Worker.BlockShape | main.py:233-278 | a print block's ids are those of the print node and its attachment nodes |
| Worker.BlockNodesShape | main.py:233-278 | a print block's nodes are distinct and all belong to that print |
| Worker.AttachmentsLabelled | main.py:244-278 | attachment rows are labelled by attachment nodes 0..k-1 of the print |
| Worker.BlocksShape | main.py:231-281 | all print blocks are labelled by distinct nodes under prints 1..#prints |
| Worker.ResultShape | main.py:216-283 | a successful result is labelled by distinct nodes |
| Worker.RootAppendDistinct | main.py:221-238 | the root node differs from every print-level node |
| Worker.WorkerIdsDistinct | main.py:216-283 | no two rows of one process share a TREE_ID |
| Worker.WorkerIdsDisjoint | main.py:216-283 | rows of processes with different indices never share a TREE_ID |
| Writer.RecordInjective | main.py:94-105 | distinct rows give distinct records |
| Writer.RecordsAppend | main.py:94-105 | writing a + b writes a's records then b's |
| Writer.CsvFile.constructor | main.py:87-92 | a report file with the given presence and records |
| Writer.CsvFile.InitializeCsv | main.py:87-92 | a missing file is created with only the header; an existing file is left alone |
| Writer.CsvFile.AppendToCsv | main.py:94-105 | an empty batch changes nothing; otherwise the file exists and gains the batch's records in order |
| Writer.WrittenThenPending | main.py:320-350 | at every point of the loop, rows written plus rows buffered are all rows of the successful tasks so far, in completion order |
| Writer.FailureKeepsBuffer | main.py:327-346 | a task that raised changes neither the buffer nor the file |
| Writer.FlushWritesAll | main.py:341-343 | right after a flush the buffer is empty and everything so far is written |
| Writer.FlushRecords | main.py:341-350 | writing the written rows and then a batch is writing them together |
| Writer.LoopStep | main.py:327-346 | one completed task either flushes (buffer plus its rows are written, buffer emptied) or only extends the buffer |
| Writer.CollectResults | main.py:320-350 | after the loop and the final flush the file holds exactly the records of all rows of all successful tasks, each once, in completion order |
| ProcessTree.FirstMatch | sejm_process_downloader.py:89-108 | the index found is the first process matching; none found means no process matches |
| ProcessTree.LookupIff | sejm_process_downloader.py:74-111 | a process is found iff the list was fetched and some process lists the number (as int or as string) |
| ProcessTree.FallbackAddsNothing | sejm_process_downloader.py:96-105 | for integer print values the second, looser pass matches exactly what the first pass matches |
| ProcessTree.LookupIsFirstMention | sejm_process_downloader.py:89-99 | with integer print values the found process is the first one listing the number |
| ProcessTree.AttachmentNodes | sejm_process_downloader.py:185-203 | one node per attachment |
| ProcessTree.ChildrenAreKeptPrints | sejm_process_downloader.py:164-208 | the children are the prints whose details were fetched, in print order |
| ProcessTree.KeptPrintsExact | sejm_process_downloader.py:167-208 | a print number is kept iff it is listed and its details were fetched |
| ProcessTree.AttachmentLocalPath | sejm_process_downloader.py:185-203 | attachment f keeps its filename and has a local path iff the download succeeded |
| ProcessTree.AttachmentNodesAt | sejm_process_downloader.py:185-203 | node f is built from attachment f |
| TreeViews.AttachmentLines | sejm_process_downloader.py:238-245 | one line per attachment, in order |
| TreeViews.PrintLines | sejm_process_downloader.py:232-247 | a print is drawn as four lines, one per attachment, and a blank line |
| TreeViews.ChildrenLinesCount | sejm_process_downloader.py:227-247 | the first k prints take 5k lines plus one per attachment |
| TreeViews.NodeLineCount | sejm_process_downloader.py:221-247 | a process is drawn in 4 + 5 * #prints + #attachments lines |
| TreeViews.ChildrenLinesPrefix | sejm_process_downloader.py:227-230 | drawing more prints only extends the lines |
| TreeViews.BlockAt | sejm_process_downloader.py:227-247 | print k's block is right after the lines of prints 0..k-1 |
| TreeViews.LineOfPrint | sejm_process_downloader.py:221-247 | line i of print k's block is line 4 + 5k + (earlier attachments) + i of the process drawing |
| TreeViews.PrintDrawnAt | sejm_process_downloader.py:221-247 | print k's whole block appears at that offset of the process drawing |
| TreeViews.PrintBlockShape | sejm_process_downloader.py:219-247 | the first line is connector + `📄 DRUK NR` + number; it starts with `└── ` iff the print is the last; attachment lines follow; a blank line ends the block |
| TreeViews.SavedMarkIffDownloaded | sejm_process_downloader.py:194-244 | an attachment is marked ✅ iff its download gave a non-empty path, otherwise 🔗 |
| TreeViews.PrintEventsIff | sejm_process_downloader.py:269-286 | a Dokument event exists iff the document date is non-empty; a Dostarczenie event exists iff the delivery date is non-empty and differs; delivery events carry 0 attachments |
| TreeViews.LexLeRefl | sejm_process_downloader.py:289 | string order is reflexive |
| TreeViews.LexLeTotal | sejm_process_downloader.py:289 | string order is total |
| TreeViews.LexLeTrans | sejm_process_downloader.py:289 | string order is transitive |
| TreeViews.InsertPermutes | sejm_process_downloader.py:289 | inserting adds exactly the new event |
| TreeViews.InsertSorted | sejm_process_downloader.py:289 | inserting into a date-sorted list keeps it sorted |
| TreeViews.InsertStable | sejm_process_downloader.py:289 | inserting keeps the relative order of events with the same date, the new one last |
| TreeViews.WithDateLast | sejm_process_downloader.py:289 | the events of a date are those of the prefix plus the last one when it has that date |
| TreeViews.SortByDateCorrect | sejm_process_downloader.py:289 | the events are sorted by date and are a permutation of the input |
| TreeViews.SortByDateStable | sejm_process_downloader.py:289 | events with equal dates keep their collection order (the sort is stable) |
| TreeViews.EventsLinesCount | sejm_process_downloader.py:291-296 | k events take 3k lines plus one per event with attachments |
| TreeViews.WithAttachmentsInsert | sejm_process_downloader.py:289-295 | insertion adds one event with attachments exactly when the new one has some |
| TreeViews.WithAttachmentsSort | sejm_process_downloader.py:289-295 | sorting keeps the number of events and of events with attachments |
| TreeViews.InsertLength | sejm_process_downloader.py:289 | insertion adds one event |
| TreeViews.ChronoLineCount | sejm_process_downloader.py:256-298 | the report has 4 header lines plus 3 per event plus one per event with attachments |
| Downloader.SejmProcessDownloader.constructor | sejm_process_downloader.py:49-55 | term, number and directory are stored; no process data, no attachments, empty tree |
| Downloader.SejmProcessDownloader.FetchProcessInfo | sejm_process_downloader.py:74-111 | returns true iff a process is found; then `process_data` is that process, else it is unchanged; nothing else changes |
| Downloader.SejmProcessDownloader.BuildTree | sejm_process_downloader.py:140-212 | no process data gives an empty tree and no change; otherwise the tree is the one process node, it is stored, and every attachment node is appended to `attachments` in order |
| Downloader.SejmProcessDownloader.BuildChildren | sejm_process_downloader.py:161-208 | the print loop builds `ChildNodes` and appends all their attachments |
| Downloader.SejmProcessDownloader.BuildPrintNode | sejm_process_downloader.py:170-206 | one print node, its attachments appended to `attachments` |
| Downloader.SejmProcessDownloader.PrintTreeAscii | sejm_process_downloader.py:214-252 | the text is the newline-joined drawing of the stored tree |
| Downloader.SejmProcessDownloader.GenerateChronologicalTree | sejm_process_downloader.py:254-298 | the text is the header plus the events of the stored tree, stably sorted by date |
| Downloader.ListsPrint | sejm_process_downloader.py:96-105 | the print-list test is `Mentions` (string comparison), or `MentionsLoosely` in the fallback pass |
| Downloader.ChildNodesStep | sejm_process_downloader.py:164-208 | one more print adds its node exactly when its details were fetched |
| Downloader.AllAttachmentsAppend | sejm_process_downloader.py:203-204 | one more print node appends its attachments |
| Downloader.AddProcessNode | sejm_process_downloader.py:218-231 | drawing a process appends its lines |
| Downloader.AddPrintNode | sejm_process_downloader.py:232-247 | drawing a print appends its lines |
| Downloader.CollectEvents | sejm_process_downloader.py:263-286 | the collected events are `TreeEvents` of the tree |
| Downloader.CollectChildEvents | sejm_process_downloader.py:267-286 | the events of a process's prints, in print order |
| Downloader.CollectPrintEvents | sejm_process_downloader.py:269-286 | one print's events are `PrintEvents` |
| Downloader.RenderEvents | sejm_process_downloader.py:256-296 | the header followed by every event's lines |
| Downloader.EventBlock | sejm_process_downloader.py:292-296 | one event's lines are `EventLines` |

## Left out

- OCR (`_ocr_images_gpu`), `convert_from_bytes`, `PdfReader`, `python-docx` and `extract_metadata` are not modelled as code. Their outputs for a file's bytes are the `Scanner.FileReadings` value and the author/date fields of `Worker.Download`.
- `unidecode` and `fuzz.partial_ratio` are library code. They are the two functions of `Scoring.Matcher`, and nothing is assumed about them.
- HTTP requests (`requests.get`, `_make_request`, `fetch_print_details`, `download_attachment`, `get_all_processes`) are replaced by the functions they return through: `Worker.Network` and `ProcessTree.Api`. File writes are not modelled; the downloaded path is part of the `Api` result.
- Downloader.SejmProcessDownloader.BuildTree and Downloader.SejmProcessDownloader.BuildPrintNode do not model an exception from `download_attachment`. `os.makedirs` and `open(filepath, 'wb')` at sejm_process_downloader.py:131-135 are outside any `try` (the only one, at :63-70, catches `RequestException`), and so is the call at :196. An `OSError` there (an attachment name with a path separator, a permission error, a full disk) stops `build_tree` midway. The attachment nodes already built stay in `self.attachments`, and `tree_structure` is never set. `Api.download` returns only a path or nothing, so the contracts hold only for runs where every write succeeds.
- Worker.Network and ProcessTree.Api model the Sejm API as a read-only snapshot: functions of the URL (or of the print text and file name), so repeated requests for the same URL get the same outcome. In the source every request is a separate `requests.get` whose outcome can differ from call to call. So for a print listed twice in `prints`, `worker_process_full_tree` (main.py:231-278) may fetch different metadata or downloads the two times, while the model gives both blocks the same content. In `build_tree` (sejm_process_downloader.py:164-208), a print listed twice whose first details fetch fails and whose second succeeds is kept once. ProcessTree.KeptPrintsExact ("kept iff listed and its details are fetched") relies on this snapshot assumption for its "only if" direction.
- The thread pool is not modelled. Completion order is an input of `Writer.CollectResults`, a sequence of task outcomes.
- `print`, `logging` and the progress messages (including the high-risk message at main.py:335) are left out because they do not affect any result.
- `save_results`, `main` of the downloader and the CLI parsing are outside the modelled core.
- Python's `str.lower()` is modelled as ASCII lower-casing (`Strings.Lower`). Full Unicode case mapping is not modelled.
- `Scanner.NuclearScanner.AnalyzeResults`: the order of `list(set(vectors))` at main.py:271 is unspecified in Python. The model keeps first-occurrence order (`Strings.Dedup`) and proves only that each matched term appears exactly once.
- ProcessTree.FallbackAddsNothing and ProcessTree.LookupIsFirstMention are stated only for print values that are JSON integers (`IsIntValue`). Print values in general carry their `str()` text and the integer they equal under Python's `==` (an int, an integral float, a bool), and `ProcessTree.LookupIff` and `Downloader.SejmProcessDownloader.FetchProcessInfo` hold for all of them. For floats and booleans the fallback pass at sejm_process_downloader.py:103-108 can match where the first pass does not, so the found process need not be the first one whose printed list mentions the number.
- Downloader.SejmProcessDownloader.FetchProcessInfo and Downloader.SejmProcessDownloader.BuildTree do not model a response body that is not JSON, or not a list of objects. `resp.json()` at sejm_process_downloader.py:86, and at :119 in `fetch_print_details` (called from `build_tree` at :167), is outside any `try`, so the source raises there. The model's `Option<seq<ProcessRecord>>` and `Api.details` can only say "no response" or "a well-formed response".
- JSON `null` field values are not modelled; missing fields are (an `Option`, or a default).
- `Writer.CsvFile.AppendToCsv`: the fill-in of missing columns (main.py:102-103) is not modelled separately. Every modelled row has all nine columns, so the step never changes anything.
- `Writer.CollectResults` assumes every task has `num`. The dictionary comprehension at main.py:325 evaluates the key `executor.submit(...)` before the value `t[0]['num']`. So a process without `num` has its task, and every task before it, already submitted when the `KeyError` is raised. Leaving the `with` block waits for those tasks, and then the exception ends `main` before any result is collected: the file keeps only its header. The model does not capture this run.
- In the attachment `try` (main.py:258-276), an exception raised after author and date are assigned keeps them in the row. The model treats any exception during the download as raised before that point.
- `events.sort` (sejm_process_downloader.py:289) is library code. It is modelled as a functional stable insertion sort (`TreeViews.SortByDate`), proved sorted, a permutation and stable, rather than as an in-place loop.
- Text truncations (`[:150]`, `[:80]`, `[:60]`, `[:50]`; the `[:100]` at sejm_process_downloader.py:98 and :107 is only in log output) are modelled with `Strings.Prefix`, which is proved to be a prefix of at most that length.
