# KLEE backend of the AI-Assisted Symbolic Execution Engine, in Dafny

The backend compiles a C program to LLVM bitcode, runs the KLEE symbolic executor on it, and
turns KLEE's output directory into an analysis result. It also asks a language model for a
repair and re-runs KLEE on that repair. This project models the deterministic part of that
work and proves properties of it:

- **`.ktest` decoding** (`KTestParser`, `KTestFormat`). A cursor moves over the 5-byte
  `KTEST` magic, big-endian 32-bit counts and lengths, the symbolic-argument block that
  versions 2 and later carry, and the object table. Objects of width 1, 2, 4 or 8 are read as
  little-endian signed integers.
  `KTestFormat` defines the writer's layout. It proves that decoding an encoded test gives the
  test back, and that a two's-complement integer reads back as itself.
- **`.err` report parsing** (`KTestParser`). The labelled, position-fixed lines overwrite a
  dictionary of defaults.
- **Severity and path linking** (`App`, `ResultBuilder`). The ordered keyword cascade of
  `classify_bug`, the two `find_bug_path` variants, and the enrichment loops of
  `analyze_program` and `build_analysis_result`. `ResultBuilder` updates arrays in place,
  as the Python code updates the caller's lists.
- **Paths and bug records from a KLEE run** (`KleeRunner`). The sorted test listing gives
  1-based path ids and `is_buggy` flags. Each `.err` report gives its bug records, including
  the fallback record. The module also covers bitcode naming and the trivial full-coverage
  estimator.
- **Coverage** (`CoverageAnalyzer`). Lines from `run.istats`, then from `info`, then the
  first-four-lines heuristic. A single covered set is threaded through the helpers.
- **Repair outcome and final report** (`App`). The `/repair` status decision, the
  `/report` summary with its string-maximum severity, and the `..` check of `/results`.
- **HTML report pieces** (`HtmlGenerator`). `_escape_html`, the bug rows, the path items
  and the defaults of `generate_report`.
- **Code-fence extraction** (`RepairModule`) from the model's reply.

File reads and directory listings are inputs:
- a `.ktest` file is `Option<seq<Byte>>` (None when it does not exist);
- a text file is the sequence of its lines, looked up in a `Files` map from path to lines;
- a directory listing is a sequence of names, or None when the directory is missing.

Helper modules model the Python built-ins the core relies on:
- `Strings`: `find`, `rfind`, `replace`, `strip`, `lower`, `split`;
- `Numbers`: `int()`, `str()`, `%06d` and the `\d+` regular expressions;
- `Order`: string comparison, `sorted` and `max`;
- `FilePaths`: `os.path.join`, `Path.name` and `Path.stem`.

`Records` holds the bug and path dictionaries as datatypes; each key that may be absent is
an `Option` field.

Behaviour of the code that a reader may not expect, modelled as written:
- A short 4-byte prefix read makes `struct.unpack` raise `struct.error`; the error
  carries no offset. The model returns `StructError`.
- `find_bug_path` in `app.py` reads `err_file`. `_find_bug_path` in `result_builder.py`
  reads `file`, which for a KLEE report is the source path, so it usually links to path 1
  (`ResultBuilder.NoTestNumber`).
- `run_klee` appends the not-found dictionary of `parse_klee_error` for a report that
  disappears, and then also appends the fallback record. The missing `type` key raises
  while that record is printed. Both records are modelled (`KleeRunner.MissingReport`).
- The coverage analyzer takes its workspace from the `WORKSPACE_DIR` environment variable,
  else `Path("workspace").resolve()`. The driver uses `os.path.abspath("workspace")`. The
  two can differ, so `App.AnalyzeProgram` takes them as two parameters.
  The relative `klee-out-<id>` directory is resolved against the analyzer's workspace.
- `get_test_result` refuses only paths containing "..". `os.path.join` discards the workspace
  for an absolute path, so an absolute `file_path` is read where it points
  (`FilePaths.JoinCases`, `App.GetTestResult`).
- `generate_report` escapes the program name, the repair status and the code. It does not
  escape the bug messages in the table rows, and neither does the model.

## Model

| member | source | states |
|---|---|---|
| KTestParser.ReadU32 | backend/src/executor/ktest_parser.py:19-20 | a 4-byte big-endian read succeeds exactly when 4 bytes remain, and its value is below 2^32 |
| KTestParser.Slice | backend/src/executor/ktest_parser.py:30 | a body slice is never longer than the declared length |
| KTestParser.SliceWindow | backend/src/executor/ktest_parser.py:59 | the slice is Python's clipped `data[lo:lo+n]`: shortened at the end of the buffer, never failing |
| KTestParser.LittleEndianBound | backend/src/executor/ktest_parser.py:65 | an unsigned little-endian value is below 256^width |
| KTestParser.SignedRange | backend/src/executor/ktest_parser.py:65 | a signed little-endian value lies in [-256^w/2, 256^w/2) |
| KTestParser.ObjectValue | backend/src/executor/ktest_parser.py:63-67 | `int_value` is an integer exactly for sizes 1, 2, 4 and 8; any other size, 0 included, names that size |
| KTestParser.IntValue.Text | backend/src/executor/ktest_parser.py:67 | the non-standard text is "Non-standard size: " followed by a numeral that reads back as the size |
| KTestParser.ReadArgs | backend/src/executor/ktest_parser.py:26-32 | a successful read yields exactly `count` arguments, and the cursor moves at least 4 per argument (the exact advance is `ReadArgsAdvance`) |
| KTestParser.ReadArgsAdvance | backend/src/executor/ktest_parser.py:26-32 | each argument moves the cursor by its 4-byte prefix plus its declared length, exactly whenever the cursor stays inside the buffer; only a cut-short last body leaves it beyond the end |
| KTestParser.ReadObject | backend/src/executor/ktest_parser.py:50-74 | the cursor moves at least past both length prefixes and the declared data size (exactly, with the name: `ReadObjectFields`) |
| KTestParser.ReadObjectFields | backend/src/executor/ktest_parser.py:50-60 | the name length and data size are the big-endian words read at the cursor and just after the name; the name is never cut short; the data is the clipped slice after the second prefix; the cursor moves by exactly 8 + name length + data size; the read fails exactly when one of the two prefixes runs past the end |
| KTestParser.ReadObjects | backend/src/executor/ktest_parser.py:48-74 | a successful read yields exactly `count` objects, and the cursor moves at least 8 per object |
| KTestParser.ReadObjectsAdvance | backend/src/executor/ktest_parser.py:48-74 | the object loop moves the cursor by exactly 8 + name length + declared data size for every object it reads |
| KTestParser.SkipSymArgs | backend/src/executor/ktest_parser.py:35-41 | before version 2 the cursor does not move |
| KTestParser.ScanArgs | backend/src/executor/ktest_parser.py:26-32 | the argument loop computes `ReadArgs` |
| KTestParser.ScanObject | backend/src/executor/ktest_parser.py:50-74 | one pass of the object loop computes `ReadObject` |
| KTestParser.ScanObjects | backend/src/executor/ktest_parser.py:48-74 | the object loop computes `ReadObjects` |
| KTestParser.ScanRest | backend/src/executor/ktest_parser.py:34-81 | the symbolic-argument skip and the object stage compute `DecodeObjects` |
| KTestParser.Decode | backend/src/executor/ktest_parser.py:11-81 | a buffer without the 5-byte magic is the invalid-format answer, and only such a buffer; a buffer with the magic but under 13 bytes is struct.error; a missing file is never the answer |
| KTestParser.DecodeObjects | backend/src/executor/ktest_parser.py:34-81 | the object stage either raises struct.error or returns a test carrying the version and arguments read before it |
| KTestParser.ParseKTest | backend/src/executor/ktest_parser.py:4-81 | a missing file is FileNotFound; a bad or short magic is the invalid-format answer whatever follows; a buffer with the magic but under 13 bytes raises struct.error; otherwise the result is `Decode` of the bytes |
| KTestFormat.ReadArgsEncoded | backend/src/executor/ktest_parser.py:26-32 | length-prefixed arguments as written read back in order, and the cursor ends just past them |
| KTestFormat.ReadObjectEncoded | backend/src/executor/ktest_parser.py:50-74 | a written object reads back with its name, declared size and exact data |
| KTestFormat.ReadObjectsEncoded | backend/src/executor/ktest_parser.py:48-74 | the written object table reads back in file order, and the cursor ends just past it |
| KTestFormat.SkipEncoded | backend/src/executor/ktest_parser.py:35-41 | from version 2, exactly 8 + sym_argv_len bytes are skipped; before version 2, none |
| KTestFormat.TruncatedObject | backend/src/executor/ktest_parser.py:56-60 | an object whose data runs past the end keeps its declared size and only the bytes present |
| KTestFormat.HeaderDecode | backend/src/executor/ktest_parser.py:13-32 | a written header leads the decoder to the object stage, just after the arguments |
| KTestFormat.TailDecode | backend/src/executor/ktest_parser.py:34-81 | a written sym block, count and object table decode to the written objects |
| KTestFormat.DecodeEncode | backend/src/executor/ktest_parser.py:4-81 | decoding any encoded test, followed by any bytes, gives back its version, arguments and objects, whatever its symbolic-argument block holds |
| KTestFormat.LittleEndianEncodeLE | backend/src/executor/ktest_parser.py:65 | the little-endian reading of the w low bytes of v < 256^w is v |
| KTestFormat.SignedRoundTrip | backend/src/executor/ktest_parser.py:65 | every v in [-2^(8w-1), 2^(8w-1)) written in two's complement reads back as v |
| KTestFormat.IntValueRoundTrip | backend/src/executor/ktest_parser.py:63-65 | an object of width 1, 2, 4 or 8 holding v reports `int_value` v |
| KTestParser.ErrorDetails | backend/src/executor/ktest_parser.py:91-128 | an empty report gives the defaults; message is line 1 stripped; type, file, line and assembly_line keep their defaults when their line is missing or lacks its label; a "Line: " value that is not an integer leaves line 0, and so does a listing number that is not one for assembly_line; `parse_error` is set exactly when line 4 names the listing without "line ", and then assembly_line stays 0 |
| KTestParser.ParseKleeError | backend/src/executor/ktest_parser.py:83-130 | a missing report gives only the not-found error; otherwise the line-by-line overwrites give `ErrorDetails`, and type, file and line are always present |
| KTestParser.KindLine | backend/src/executor/ktest_parser.py:104-107 | a first line "Error: k" gives type k |
| KTestParser.FileLine | backend/src/executor/ktest_parser.py:110-111 | a second line "File: f" gives file f |
| KTestParser.NumberLine | backend/src/executor/ktest_parser.py:114-118 | a third line "Line: n" gives line n |
| KTestParser.ListingLine | backend/src/executor/ktest_parser.py:121-125 | a fourth line "assembly.ll line n" gives assembly_line n |
| KTestParser.LabelledField | backend/src/executor/ktest_parser.py:107-111 | the text after a label, stripped, is the text written after it |
| KTestParser.LabelledNumber | backend/src/executor/ktest_parser.py:116 | a number written after a label is parsed back |
| KTestParser.ListingNumber | backend/src/executor/ktest_parser.py:123 | the number after "line " on the listing line is parsed back |
| KTestParser.ListingLabelPosition | backend/src/executor/ktest_parser.py:121-123 | "line " is found just after the "assembly.ll " marker |
| KTestParser.ReportFields | backend/src/executor/ktest_parser.py:103-125 | each field of a well-formed report is read from its own line |
| KTestParser.ReportRoundTrip | backend/src/executor/ktest_parser.py:99-128 | a written report, followed by any lines, parses back to its type, file, line and assembly line |
| App.ClassifyBug | backend/src/api/app.py:33-44 | the severity is one of the four levels; Critical exactly when a Critical keyword occurs in the lower-cased type; Low exactly when no keyword of any group occurs |
| App.OverflowIsCritical | backend/src/api/app.py:37-41 | any type containing "overflow" is Critical, so the Medium group's "overflow" never decides |
| App.MediumIff | backend/src/api/app.py:37-42 | Medium exactly when no Critical or High keyword occurs and "abort", "warning" or "underflow" does |
| App.LowerIdempotent | backend/src/api/app.py:35 | lower-casing twice is lower-casing once |
| App.ClassifyIgnoresCase | backend/src/api/app.py:35 | the classification does not depend on letter case |
| App.FindBugPath | backend/src/api/app.py:47-60 | the path whose id is the number after the first "test" followed by a digit in `err_file`, when such a path exists; path 1 when there is no such number or no path has that id |
| App.ReportLinksToPath | backend/src/api/app.py:50-58 | `err_file` "test<digits>…" links to the path with that number, leading zeros aside, when it exists |
| App.ClassifyBugs | backend/src/api/app.py:125-130 | one bug out per bug in, in order, each with a valid severity and a path id that is 1 or an existing id; no other field changes |
| App.Classified | backend/src/api/app.py:125-130 | one enriched bug: severity `classify_bug` of its type ("Unknown" when absent), so Critical exactly when that lower-cased type holds a Critical keyword; a path id that is 1 or an existing id; every other field unchanged |
| App.PathsAndBugs | backend/src/api/app.py:123-130 | the i-th path is the i-th test in ascending order with id i + 1, its `is_buggy` flag (a listed `.err` file starts with the test's base name) and the summary that agrees with it, no coverage yet; every bug classified against these paths |
| App.CoverPaths | backend/src/api/app.py:137-138 | every path gets the same covered-lines list, and nothing else changes |
| App.ClassifiedOnSameIds | backend/src/api/app.py:129-138 | setting path coverage after classifying the bugs does not change how the bugs are classified |
| App.CoveredPathsAndBugs | backend/src/api/app.py:123-138 | the i-th path is the i-th sorted test's path (id, test name, `is_buggy`, summary) carrying the covered lines, and the bugs are classified against the path list as it is returned |
| App.CoverageOf | backend/src/api/app.py:133-135 | the coverage of the source named by replacing ".bc" with ".c" in the bitcode path under the driver's workspace, with the output directory resolved against the analyzer's own workspace |
| App.AssembleResult | backend/src/api/app.py:123-159 | program name is the stem plus ".c"; total_paths == explored_paths == number of tests; the i-th path is the i-th sorted test's path (id i + 1, test name, `is_buggy`, summary) with the covered lines; every bug classified; metadata mirrors the coverage and the run |
| App.AnalyzeProgram | backend/src/api/app.py:105-168 | a missing bitcode is 404 "Bitcode not found"; a missing KLEE output directory is 500 with KLEE's stderr; otherwise the result holds, for every sorted test, its path (id, test name, `is_buggy`, summary, covered lines) and every bug record classified against them, with the coverage and run metadata |
| App.RepairOutcome | backend/src/api/app.py:198-252 | ai_failed exactly when the candidate starts with "API Error" or "Repair failed", carrying the candidate; otherwise the candidate, its validation report, the model name and the validation status of the original type ("Unknown" when absent) |
| App.AiFailureIgnoresValidation | backend/src/api/app.py:203-208 | a failed generation is answered before any validation: the answer does not depend on it |
| App.StatusCases | backend/src/api/app.py:226-243 | success exactly when validation ran and found no bug; "Original Bug Still Exists" exactly when some bug's type contains the original type; "New Regression Introduced" exactly when it ran, found bugs, and none has the original type; the compilation/runtime-error text exactly when validation raised, with the error inside it |
| App.RepairedName | backend/src/api/app.py:218 | a name with one trailing ".c" is compiled as `<base>_repaired_<hex>.c` |
| App.RepairedEveryC | backend/src/api/app.py:218 | every ".c" of the original name is replaced by `_repaired_<hex>.c`, not only the extension |
| App.SeveritiesOf | backend/src/api/app.py:271 | one severity per bug, "Low" for a missing one |
| App.MaxSeverity | backend/src/api/app.py:271 | "None" for no bugs; otherwise a listed severity that no other severity exceeds as a string |
| App.GenerateFinalReport | backend/src/api/app.py:254-291 | bugs_found is the bug count and max_severity the string maximum; the repair summary is present exactly for a non-empty repair result |
| App.MediumDominates | backend/src/api/app.py:271 | one Medium bug makes the summary Medium, even next to a Critical one |
| App.CriticalOnlyIfAll | backend/src/api/app.py:271 | the summary is Critical only when every bug is Critical |
| App.GetTestResult | backend/src/api/app.py:294-309 | a normalised path containing ".." is 403 before any lookup; a path that is neither a file nor a directory is 404 naming it; a directory is 500 with the is-a-directory error of `open`; a truncated prefix is 500; otherwise the decoded test |
| KleeRunner.Matching | backend/src/executor/klee_runner.py:37 | the listed names with the given prefix and suffix, and no others |
| KleeRunner.SortMembers | backend/src/executor/klee_runner.py:38 | sorting keeps exactly the same names |
| KleeRunner.SortedSuffixFiles | backend/src/executor/klee_runner.py:206-210 | the `.ktest` (or `.err`) names, sorted, are exactly the listed names with that suffix |
| KleeRunner.BuggyIff | backend/src/executor/klee_runner.py:44-48 | a path is buggy exactly when some listed file starts with the test's base and ends with ".err" |
| KleeRunner.PathsFor | backend/src/executor/klee_runner.py:40-55 | the k-th path has id k+1, the k-th test, its buggy flag and the matching summary |
| KleeRunner.EnumerateAt | backend/src/executor/klee_runner.py:40-41 | the enumerate loop produces one entry per index, built from that index and that element |
| KleeRunner.ExtractPaths | backend/src/executor/klee_runner.py:21-60 | no directory gives no paths; otherwise ids 1..n over the sorted tests, with `is_buggy` as above and a summary that agrees with it |
| KleeRunner.ConcatCovers | backend/src/executor/klee_runner.py:213-238 | every bug record comes from a listed report, and every report leaves a record |
| KleeRunner.ConcatSingles | backend/src/executor/klee_runner.py:213-225 | when each report gives one record, the records line up with the sorted reports |
| KleeRunner.CollectBugs | backend/src/executor/klee_runner.py:213-238 | the report loop computes `ReportsRecords` |
| KleeRunner.RunKlee | backend/src/executor/klee_runner.py:170-244 | no output directory raises the stderr message; otherwise the output name, the sorted tests, the records of the sorted reports and the logs |
| KleeRunner.RecordsCoverReports | backend/src/executor/klee_runner.py:209-238 | no report is dropped, and every record names its report |
| KleeRunner.ReportNamesFile | backend/src/executor/klee_runner.py:221-236 | each report gives at least one record, each naming that report |
| KleeRunner.RecordsPerReport | backend/src/executor/klee_runner.py:213-225 | when every report exists, one parsed record per report, linked to its test and report |
| KleeRunner.MissingReport | backend/src/executor/klee_runner.py:218-238 | a vanished report gives the not-found record and the "unknown error" fallback (line 0, Medium) |
| KleeRunner.TestFileOfReport | backend/src/executor/klee_runner.py:221-222 | a report `test.<rest>` links to `test.ktest` |
| KleeRunner.BitcodePath | backend/src/executor/klee_runner.py:134-136 | the bitcode name ends in ".bc" (which ".c" go: `BitcodeDropsEveryC`) |
| KleeRunner.ReplaceCSuffix | backend/src/executor/klee_runner.py:134 | replacing ".c" in a name with one trailing ".c" changes only that suffix |
| KleeRunner.BitcodeOfSource | backend/src/executor/klee_runner.py:134-136 | `<base>.c` compiles to `<workspace>/<base>.bc` |
| KleeRunner.ReplaceCFirst | backend/src/executor/klee_runner.py:134 | `replace(".c", rep)` replaces the leftmost ".c" and carries on after it |
| KleeRunner.ReplaceEveryC | backend/src/executor/klee_runner.py:134 | `replace(".c", rep)` replaces every ".c": parts joined by ".c" become the parts joined by `rep` |
| KleeRunner.BitcodeDropsEveryC | backend/src/executor/klee_runner.py:134-136 | the bitcode name keeps only the ".c"-free parts of the file name, followed by ".bc" |
| KleeRunner.BitcodeDropsInnerC | backend/src/executor/klee_runner.py:134-136 | `b1.cb2.c` compiles to `<workspace>/b1b2.bc`: the inner ".c" is removed too |
| KleeRunner.AllLines | backend/src/executor/klee_runner.py:104 | lines 1..n in order |
| KleeRunner.FullCoverage | backend/src/executor/klee_runner.py:67-114 | a missing or empty source gives 0 lines at 0.0; otherwise all its lines at 100.0 |
| KleeRunner.FullCoverageAgrees | backend/src/executor/klee_runner.py:101-114 | the full-coverage answer is the ascending covered set and its ratio |
| CoverageAnalyzer.ResolveOutputDir | backend/src/executor/coverage_analyzer.py:48-52 | an absolute directory is unchanged; a relative one is placed under the workspace |
| CoverageAnalyzer.ResolveSourceFile | backend/src/executor/coverage_analyzer.py:54-59 | the given path if it exists, else workspace/basename if that exists, else the given path |
| CoverageAnalyzer.TotalLines | backend/src/executor/coverage_analyzer.py:61-64 | 0 for a missing file, else its number of lines |
| CoverageAnalyzer.IstatsNumber | backend/src/executor/coverage_analyzer.py:79-82 | a line contributes a number exactly when it holds the source name and some "fl=" followed by a digit; the number is the digit run after the leftmost such "fl=", as `re.search` finds it |
| CoverageAnalyzer.InCollect | backend/src/executor/coverage_analyzer.py:78-82 | a number is collected exactly when some scanned line contributes it |
| CoverageAnalyzer.InIstatsLines | backend/src/executor/coverage_analyzer.py:79-82 | an istats line number is covered exactly when some line with "fl=" and the basename has it as its first `fl=` number |
| CoverageAnalyzer.ReadIstats | backend/src/executor/coverage_analyzer.py:78-82 | the scanning loop adds exactly the istats lines to the covered set |
| CoverageAnalyzer.ParseRunIstats | backend/src/executor/coverage_analyzer.py:66-85 | a missing `run.istats` leaves the set unchanged; otherwise its lines are added |
| CoverageAnalyzer.InInfoLines | backend/src/executor/coverage_analyzer.py:101-105 | an info number is covered exactly when it is at most the total and is a digit run on a line mentioning "line" and the basename |
| CoverageAnalyzer.InfoNumbers | backend/src/executor/coverage_analyzer.py:101-105 | an info line contributes only digit-run values of itself that are at most the total, and only when it mentions "line" (in any case) and the source name |
| CoverageAnalyzer.ReadInfo | backend/src/executor/coverage_analyzer.py:100-105 | the scanning loop adds exactly the info numbers to the covered set |
| CoverageAnalyzer.ParseInfoFile | backend/src/executor/coverage_analyzer.py:87-108 | a missing `info` leaves the set unchanged; otherwise its numbers are added |
| CoverageAnalyzer.FirstLines | backend/src/executor/coverage_analyzer.py:38-39 | the heuristic covers lines 1..min(total, 4) |
| CoverageAnalyzer.ChosenCases | backend/src/executor/coverage_analyzer.py:34-39 | the covered set is the istats set, the info set or the heuristic, the istats set whenever it is non-empty, and empty exactly when both files give nothing and the source has no line |
| CoverageAnalyzer.MinOf | backend/src/executor/coverage_analyzer.py:44 | the least covered line |
| CoverageAnalyzer.SortedLines | backend/src/executor/coverage_analyzer.py:44 | `sorted(covered)` holds the same lines, strictly ascending, one each |
| CoverageAnalyzer.AscendingUnique | backend/src/executor/coverage_analyzer.py:44 | two strictly ascending lists with the same members are equal, so the sorted list is determined by the set |
| CoverageAnalyzer.SortedOfAscending | backend/src/executor/coverage_analyzer.py:44 | sorting the members of an ascending list gives it back |
| CoverageAnalyzer.ReadCovered | backend/src/executor/coverage_analyzer.py:34-39 | istats first; info only when istats gave nothing; the heuristic only when both gave nothing |
| CoverageAnalyzer.CoverageReport | backend/src/executor/coverage_analyzer.py:20-46 | no source lines gives {0.0, [], 0}; the covered lines are always ascending |
| CoverageAnalyzer.CalculateCoverage | backend/src/executor/coverage_analyzer.py:20-46 | total 0 answers {0.0, [], 0}; otherwise the sorted covered lines and their share of the total, times 100 |
| ResultBuilder.FirstContaining | backend/src/executor/result_builder.py:68-72 | the id of the first path whose test name contains the key, or 1 when none does |
| ResultBuilder.FindBugPath | backend/src/executor/result_builder.py:55-72 | with a number after "test" in the file, the id of the first path in list order whose test name contains the number's six-digit form, or 1 when none does; 1 when the file names no `test<digits>`; always 1 or a listed path |
| ResultBuilder.FirstContainingListed | backend/src/executor/result_builder.py:68-72 | the search returns 1 or the id of a listed path |
| ResultBuilder.LeadingZerosIgnored | backend/src/executor/result_builder.py:64-70 | `test3` and `test000003` both look for `test000003` |
| ResultBuilder.NoTestNumber | backend/src/executor/result_builder.py:60-72 | a file naming no `test<digits>` links to path 1 |
| ResultBuilder.LinkBugs | backend/src/executor/result_builder.py:31-32 | every bug gains its path id, in place, and no other field changes |
| ResultBuilder.SetLineCoverage | backend/src/executor/result_builder.py:35-36 | every path gets the same covered lines, in place |
| ResultBuilder.BuildAnalysisResult | backend/src/executor/result_builder.py:13-53 | both arrays updated in place as above; total_paths == explored_paths == number of paths; program name is the basename; metadata mirrors the coverage |
| HtmlGenerator.Escape | backend/src/reporting/html_generator.py:128-139 | escaped text holds no `<`, `>`, `"` or `'` |
| HtmlGenerator.EscapeHtml | backend/src/reporting/html_generator.py:128-139 | the replacement loop, "&" first, escapes each character on its own; None or "" gives "" |
| HtmlGenerator.ReplaceAllChar | backend/src/reporting/html_generator.py:138 | `str.replace` with a one-character pattern replaces character by character |
| HtmlGenerator.StagesEscape | backend/src/reporting/html_generator.py:129-138 | with "&" replaced first, no entity a later replacement introduces is escaped again |
| HtmlGenerator.UnescapeEscape | backend/src/reporting/html_generator.py:129-138 | un-escaping the escaped text gives back the input exactly |
| HtmlGenerator.LineTextReadsBack | backend/src/reporting/html_generator.py:59 | "N/A" exactly for a missing line or line 0; any other line reads back as itself |
| HtmlGenerator.Summarize | backend/src/reporting/html_generator.py:37-44 | a bug's table entry: its severity, else "Unknown"; its message, else its type, else "Unknown issue"; its line |
| HtmlGenerator.RowsAppend | backend/src/reporting/html_generator.py:57-67 | joining enumerated rows of two lists numbers the second from where the first stopped |
| HtmlGenerator.RowsSplit | backend/src/reporting/html_generator.py:57-67 | the row of the i-th item, numbered first+i, sits between the rows before and after it |
| HtmlGenerator.BugRows | backend/src/reporting/html_generator.py:57-61 | the "No bugs reported" row exactly when there are no bugs |
| HtmlGenerator.PathRows | backend/src/reporting/html_generator.py:63-67 | "No execution paths recorded" exactly when there are no paths |
| HtmlGenerator.GenerateReport | backend/src/reporting/html_generator.py:22-73 | the nested "result" or the raw payload is read; total paths is their count; the escaped name reads back; the status reads back as "Not Run" without a repair result, else as its validation status ("N/A" when absent); the no-suggestion paragraph exactly when there is no repair result or no code |
| HtmlGenerator.StatusCell | backend/src/reporting/html_generator.py:46-50 | the escaped status holds no markup and reads back as "Not Run" or the validation status, "N/A" by default |
| HtmlGenerator.CodeBlock | backend/src/reporting/html_generator.py:51-55 | the no-suggestion paragraph exactly when there is no repair result or its code is empty |
| HtmlGenerator.ReportShowsCode | backend/src/reporting/html_generator.py:69-73 | a non-empty suggestion is shown inside `<pre><code>` as markup-free text that reads back as the code |
| RepairModule.ExtractCode | backend/src/ai/repair_module.py:67-79 | the answer is stripped text; without a fence it is the stripped reply |
| RepairModule.FromFenced | backend/src/ai/repair_module.py:70-79 | text without a fence is returned unchanged |
| RepairModule.CodeStart | backend/src/ai/repair_module.py:71-73 | the start index lies within the text |
| RepairModule.CodeStartAt | backend/src/ai/repair_module.py:71-73 | after a "c…" tag, the code starts just past the tag's newline |
| RepairModule.FencedAt | backend/src/ai/repair_module.py:70-77 | a fenced reply gives the stripped code between the fences |
| RepairModule.FencedRoundTrip | backend/src/ai/repair_module.py:70-77 | a fence, a tag starting with "c", a newline, code and a closing fence give back the stripped code |
| RepairModule.SingleFenceWhole | backend/src/ai/repair_module.py:75-79 | with a single fence the whole stripped reply is returned |
| RepairModule.NoNewlineStartsAtZero | backend/src/ai/repair_module.py:73-77 | a "c" tag with no newline after it sends the start to 0, so the slice runs from the beginning |
| Numbers.NatToString | backend/src/executor/ktest_parser.py:67 | the decimal numeral of n: digits only, value n, no leading zero |
| Numbers.IntToString | backend/src/executor/ktest_parser.py:67 | `str(i)` is never empty and starts with "-" exactly for a negative number |
| Numbers.ZeroPad | backend/src/executor/result_builder.py:69 | `%06d`: digits of value n, at least the width long |
| Numbers.ParseInt | backend/src/executor/ktest_parser.py:116 | `int()` succeeds exactly on an optionally signed numeral, after stripping |
| Numbers.ParseIntToString | backend/src/executor/ktest_parser.py:116 | `int(str(i)) == i` |
| Numbers.FirstNumberAfter | backend/src/api/app.py:52-54 | `re.search(r'test(\d+)')`: none exactly when no marker is followed by a digit; otherwise the digits after the first such marker |
| Numbers.PaddedNumberAfter | backend/src/executor/result_builder.py:64-66 | the number after the marker ignores leading zeros |
| Numbers.DigitRuns | backend/src/executor/coverage_analyzer.py:102 | `re.findall(r"\d+")` is empty exactly for a line without digits (membership: `InDigitRuns`) |
| Numbers.InDigitRuns | backend/src/executor/coverage_analyzer.py:102 | `n` is among the `re.findall(r"\d+")` values exactly when some maximal digit run has the value `n` |
| Strings.Find | backend/src/ai/repair_module.py:71 | `str.find`: the first occurrence from `start`, or -1 when there is none |
| Strings.RFind | backend/src/ai/repair_module.py:75 | `str.rfind`: the last occurrence, or -1 |
| Strings.ReplaceAll | backend/src/executor/klee_runner.py:134 | `str.replace` leaves text without the pattern unchanged (the leftmost step for ".c": `KleeRunner.ReplaceCFirst`) |
| Strings.Strip | backend/src/executor/ktest_parser.py:105 | `str.strip`: the text between the leading and the trailing whitespace |
| Strings.StripCore | backend/src/executor/ktest_parser.py:105 | whitespace around a trimmed core strips back to the core |
| Strings.Lower | backend/src/api/app.py:35 | `str.lower`, character by character |
| Strings.SecondField | backend/src/executor/ktest_parser.py:107 | `split(sep)[1]`: the text that starts just after the first occurrence of the separator and runs up to the next one or the end, holding no separator |
| Strings.BeforeFirst | backend/src/executor/ktest_parser.py:107 | `split(sep)[0]`: a prefix holding no separator that runs up to the first separator or the end; the whole text when the separator is absent |
| Order.Sort | backend/src/executor/klee_runner.py:38 | `sorted`: ordered, and a permutation of the input |
| Order.SortedUnique | backend/src/executor/klee_runner.py:206 | two sorted permutations of the same names are equal |
| Order.Max | backend/src/api/app.py:271 | `max`: a member that no member exceeds |
| FilePaths.Join | backend/src/api/app.py:112 | `os.path.join` ends with the name, and starts with the directory unless the name is absolute |
| FilePaths.JoinCases | backend/src/api/app.py:301 | an absolute name discards the directory; an empty directory leaves the name; otherwise exactly one "/" stands between the directory, less one trailing slash, and the name |
| FilePaths.Name | backend/src/executor/result_builder.py:39 | `Path.name` holds no "/" |
| FilePaths.NameOfJoin | backend/src/executor/coverage_analyzer.py:58 | the basename of a joined path is the joined name |
| FilePaths.StemOfJoin | backend/src/api/app.py:142 | the stem of `<dir>/<base>.<ext>` is `<base>` |
| FilePaths.Stem | backend/src/api/app.py:142 | `Path.stem` is a prefix of the path's name |

## Left out

- Compiling with clang, running KLEE, its 300-second timeout, and creating the workspace are
  external processes. Their effects are inputs: the output directory listing, KLEE's stderr
  and the file contents.
- The random run id of `run_klee` and the four hex digits of the repair file name are
  parameters (`runId`, `hex`). The measured `execution_time` is a parameter, and
  `round(..., 2)` is not modelled.
- `print` logging is not modelled.
- The `except Exception` around each directory listing, for a directory that vanishes
  between calls, is not modelled.
- The HTTP call to the language model, its API key lookup and its rate-limit retry loop are
  not modelled. `RepairModule` covers only the fence extraction, and `App.RepairOutcome`
  takes the reply and the validation outcome as inputs.
- FastAPI routing, CORS, pydantic models and the endpoints `/`, `/health`, `/compile`,
  `/full-analysis` and `/generate-report` are framework plumbing around modelled functions.
  The traceback text in the 500 detail of `/analyze` is left out too.
- `save_html_report` and the static HTML/CSS page text of `generate_report` are file output
  and literal text. The model produces the values pasted into the page (`ReportView`).
- `backend/src/compiler/bitcode.py` is a clang wrapper the API does not call; it is not part
  of this model.
- `os.path.normpath` is an abstract function parameter of `App.GetTestResult`.
- `App.GetTestResult`: the 500 detail is one fixed `struct.error` text, not the exception's
  exact message.
- `KTestParser.ParseKTest`: argument and object names are kept as raw bytes. Their lossy
  UTF-8 decoding (`errors='ignore'`) is not modelled.
- `KTestParser.ParseKleeError`: the `IndexError` of a fourth line that names the listing
  but has no "line " is modelled as its effect (`parse_error` set, assembly line 0). Other
  read errors of an existing file are not modelled.
- `Strings.Lower` lowers ASCII letters only. `Numbers.ParseInt` accepts ASCII digits and
  underscores between digits, not other Unicode digits.
- `Numbers.FirstNumberAfter` and `Numbers.DigitRuns` take ASCII digits only, while `\d` in
  the regular expressions they model also matches other Unicode decimal digits.
- `CoverageAnalyzer.CalculateCoverage`: the percentage is the exact ratio times 100, not
  rounded to two decimals in floating point. `KleeRunner.FullCoverage` likewise uses 100.0
  as an exact real.
- Text files are given as their lines. The differences between `readlines()` and
  `splitlines()` on unusual line breaks are not modelled.
- `App.AnalyzeProgram`: the bug and path dictionaries that the loops update in place are
  modelled as new sequences of values, since the caller never sees the originals.
  `ResultBuilder` keeps the in-place update on arrays.
- `App.MaxSeverity`: states "None" for an empty bug list, but not the converse. A severity
  field may itself hold the string "None".
- `Strings.ReplaceAll`: the contract states only that text without the pattern is unchanged.
  The leftmost, non-overlapping replacement is proved only for the pattern ".c"
  (`KleeRunner.ReplaceCFirst`, `KleeRunner.ReplaceEveryC`), the one pattern whose effect the
  model relies on.
- `FilePaths.Name`: "." components are not dropped as `pathlib` drops them, so a path ending
  in "/." has the name "." where `Path("a/b/.").name` is "b", and "." itself has the name "."
  where `Path(".").name` is empty. The backend's paths do not end in such components.
- `App.FindBugPath`: a non-string `err_file` value (`str(bug_file)`) is not modelled.
  Bug fields hold strings.
