# Coding-exercise grading core, modelled in Dafny

This project models three parts of the HackLee learning platform.

- **Grading a code submission** (`executeUserCode` in `AppUserCodingExerciseServiceImpl.java`).
  The steps are the attempt gate, language dispatch, the compile step (the Python one runs the
  program on the first run case), the case loop that trims the output and compares it exactly,
  the integer-truncating pass verdict and score, the attempt-history merge, and the
  compile-error branch.
- **The string layer of `CodeRunService.java`.**
  - The stdin normaliser `trim().replaceAll(" +", "\n") + "\n"`.
  - The classification of compiler and runtime stderr for C and C++.
  - The javac exit-code check.
  - The formatting of Python results.
  - The mapping of the Java program's exceptions to messages.
- **The server log viewer in `main.py`.** This covers `parse_log_line` and the
  filter/sort/paginate body of `get_logs`.

Everything is pure. The outside world is passed in as parameters:

- `CodeRun.Toolchain` holds what javac, g++, the compiled binary, the JVM and the embedded
  interpreter return for a given source and stdin. It also holds the platform line separator
  that `BufferedWriter.newLine()` writes.
- `Pipeline.Clock` holds the measured compile time, the run time and "now".
- `Pipeline.RankScore` is `calculateRankScore`.
- `LogParse.TimestampParser` and `LogViewer.DateParser` are the two `strptime` calls.

Repository saves and service calls become the ordered list of `Pipeline.Write`s that a request
issues. `executeUserCode` is not transactional, so an exception keeps the writes made before
it. The model returns `Execution(writes, outcome)` and the outcome can be a failure even when
writes were made.

Modules, one file each:

| module | file | models |
|---|---|---|
| `Wrappers` | wrappers.dfy | `Option`, `Result` |
| `Text` | text.dfy | trimming by a padding class, erase/count/join helpers |
| `JavaText` | java_text.dfy | `String.trim`, `replaceAll(" +", "\n")`, the stdin normaliser, ASCII `equalsIgnoreCase`, Java `int` division |
| `CodeRun` | code_run.dfy | `CodeRunService` compile/run classification |
| `Evaluation` | evaluation.dfy | the case loop and its reports |
| `Scoring` | scoring.dfy | the verdict, score and percentage score |
| `Ledger` | ledger.dfy | the attempt gate and the history merge |
| `Pipeline` | pipeline.dfy | `executeUserCode` |
| `LogParse` | log_parse.dfy | `str.split(" ", 3)` and `parse_log_line` |
| `LogViewer` | log_viewer.dfy | the body of `get_logs` |

## Behaviour of the code worth knowing


- **C and C++ compile errors.** They are decided by stderr alone. The g++ exit code is never
  read, so a warning-only compile counts as a failed compile.
- **Python compile step.** Python does have one. It runs the program on the first run case, and
  any result that starts with `"ERROR: "` is a compile error. This includes a program that merely
  prints such a line (`Pipeline.PrintedErrorLooksLikeCompileFailure`). An exercise with no run
  cases fails with an index error.
- **Java runtime exceptions.** The exceptions that `runJavaClass` rethrows for the Java program
  are not caught by `executeUserCode`. They end the whole request instead of marking one case as
  failed. The same holds for every runner failure.
- **Unknown language names.** No language is refused as unsupported. Any stored name other than
  java, python or cpp (ignoring case) is compiled and run as C. Only a missing language row fails.

## Model

| member | source | states |
|---|---|---|
| Text.TrimWhere | CodeRunService.java:102 | trimming leaves no padding at either end, is empty exactly when the text is all padding, and removes only padding, taken from the two ends of the text |
| Text.TrimWhereOfPadded | AppUserCodingExerciseServiceImpl.java:232 | trimming text that is padding, then an unpadded core, then padding, gives back exactly that core |
| Text.TrimWhereIff | AppUserCodingExerciseServiceImpl.java:232-233 | trimming gives a text exactly when that text is unpadded and the input is that text with padding around it |
| Text.TrimWhereIdempotent | CodeRunService.java:119 | trimming twice is the same as trimming once |
| JavaText.NormaliseInput | CodeRunService.java:119 | the normalised stdin always ends with a newline, contains no space character, and is just "\n" for blank input |
| JavaText.CollapseRun | CodeRunService.java:192 | a maximal run of one or more spaces between two non-space texts becomes exactly one newline |
| JavaText.CollapseWithoutSpaces | CodeRunService.java:233 | text without spaces is left unchanged by the space-run replacement |
| JavaText.CollapseKeepsEnds | CodeRunService.java:233 | the replacement keeps a non-space first or last character in place |
| JavaText.CollapseKeepsContent | CodeRunService.java:119 | apart from spaces and newlines the replacement changes nothing: tabs and all other characters survive in order |
| JavaText.NormaliseKeepsTokens | CodeRunService.java:192 | the normalised stdin holds the same non-space, non-newline characters as the trimmed input, in the same order |
| JavaText.NormaliseIdempotent | CodeRunService.java:233 | normalising already-normalised input changes nothing |
| JavaText.AsciiLower | AppUserCodingExerciseServiceImpl.java:136 | upper-case ASCII letters map to lower case and every other character is unchanged |
| JavaText.JavaDiv | AppUserCodingExerciseServiceImpl.java:249 | Java `int` division truncates toward zero: the quotient times the divisor lies between zero and the dividend, and the remainder is smaller than the divisor in magnitude |
| CodeRun.DrainBlank | CodeRunService.java:97-102 | the text read line by line is blank exactly when every line is blank |
| CodeRun.NativeCompileError | CodeRunService.java:95-106 | g++ output counts as a compile error exactly when some stderr line is non-blank; the error is "Compilation Error: " followed by the trimmed stderr; the exit code plays no part |
| CodeRun.CompileCCode | CodeRunService.java:86-113 | a g++ run that cannot start is rethrown as "Compilation Error: " plus its message; otherwise the result is the stderr classification of solution.c |
| CodeRun.CompileCppCode | CodeRunService.java:162-187 | a g++ run that cannot start is rethrown as "Compilation failed: " plus its message; otherwise the result is the stderr classification of solution.cpp |
| CodeRun.CompileJavaCode | CodeRunService.java:22-41 | javac reports an error exactly when its return code is non-zero, and the error is the captured text, whatever it holds |
| CodeRun.NativeRunOutput | CodeRunService.java:131-150 | with non-blank stderr the result is "Runtime Error:\n" plus the trimmed stderr and stdout is dropped; otherwise it is the trimmed stdout |
| CodeRun.RunCCode | CodeRunService.java:117-157 | the binary reads the normalised input followed by the platform line separator; if it cannot start, "Solution.exe does not exist: " plus the message is thrown |
| CodeRun.RunCppCode | CodeRunService.java:190-225 | as for C, except that a start failure is thrown as "Execution failed: " plus the message |
| CodeRun.ClassifyCause | CodeRunService.java:68-83 | the program's exception is checked in a fixed order: input mismatch first (before its supertype, no-such-element), then no-such-element, then null pointer, each with its fixed message; anything else becomes "Error in execution: " plus the original message |
| CodeRun.RunJavaClass | CodeRunService.java:44-84 | the Java program gets the raw input and its untrimmed output is returned; an exception inside it is rethrown as classified; a load failure propagates unchanged |
| CodeRun.PythonRunOutput | CodeRunService.java:252-259 | any stderr text, even blank, gives "ERROR: PythonError: " plus the trimmed stderr; otherwise the result is the trimmed stdout |
| CodeRun.RunPythonCode | CodeRunService.java:229-266 | the interpreter reads the normalised input; an interpreter exception becomes the result "ERROR: JepError: " plus its message; any other failure is thrown as "Error in execution: " |
| Evaluation.Evaluate | AppUserCodingExerciseServiceImpl.java:220-245 | a completed case loop has one report per case, and the passed count never exceeds the number of cases |
| Evaluation.EvaluateSucceeds | AppUserCodingExerciseServiceImpl.java:264-275 | the case loop completes exactly when no case's run throws |
| Evaluation.EvaluateReports | AppUserCodingExerciseServiceImpl.java:276-289 | report i is the report of case i on its run's output, trimmed, and passed counts the matching reports |
| Evaluation.EvaluateFails | AppUserCodingExerciseServiceImpl.java:220-231 | an aborted case loop fails with the exception of the first case whose run throws; every earlier case ran normally |
| Evaluation.PassesIffPaddedExpectation | AppUserCodingExerciseServiceImpl.java:232-242 | a case passes exactly when the printed output is the stored expected output with only whitespace (up to U+0020) around it and the expected output has no such padding itself; so an expectation with padding can never pass |
| Scoring.PassVerdict | AppUserCodingExerciseServiceImpl.java:249 | the truncated-percentage test passes exactly when 100·passed ≥ threshold·cases, so the truncation never rounds in the candidate's favour |
| Scoring.Score | AppUserCodingExerciseServiceImpl.java:296 | the score lies between 0 and marks when marks ≥ 0 and passed ≤ the total; it is the largest whole share of marks not above passed/total |
| Scoring.PercentageScore | AppUserCodingExerciseServiceImpl.java:298 | the percentage is 0 without marks, is 100·score/marks otherwise, and lies in [0, 100] for a score in [0, marks] |
| Scoring.ScoringExamples | AppUserCodingExerciseServiceImpl.java:293-298 | 2 of 3 cases fails a 67 percent threshold and passes a 66 percent one; 3 of 4 cases on 10 marks score 7, which is 70 percent |
| Ledger.RecordGraded | AppUserCodingExerciseServiceImpl.java:312-335 | a graded attempt numbers the history one past the prior one; the pass is sticky; the best case count, shortest time and best rank are each the better of old and new; totalCases, duration and attemptedOn keep their first values, which a first history takes from this submission's case total, declared duration and time |
| Ledger.RecordCompileError | AppUserCodingExerciseServiceImpl.java:156-176 | a failed compile changes only the attempt count and attemptedOn of an existing history; a new history is a fail with no passed cases, rank 0, the compile time as shortest time, and this submission's case total and declared duration |
| Ledger.ReplaySummary | AppUserCodingExerciseServiceImpl.java:152-176 | after a series of submissions the history counts each of them once, is passed exactly when some graded one passed, and holds the best passed-case count among them |
| Ledger.ReplayKeepsBest | AppUserCodingExerciseServiceImpl.java:328-334 | no sequence of later submissions can undo a pass or make the best count, shortest time or best rank worse |
| Ledger.AdmittedAttemptsBounded | AppUserCodingExerciseServiceImpl.java:124-127 | if every submission passed the gate, there are at most maxAttempts of them, and at most one when maxAttempts is below one |
| Ledger.SavedInTurnBounded | AppUserCodingExerciseServiceImpl.java:125-152 | histories saved one after another by admitted attempts are numbered 1, 2, 3, …, and there are at most max(1, maxAttempts) of them |
| Pipeline.LanguageOf | AppUserCodingExerciseServiceImpl.java:136-150 | the language is matched against java, python and cpp in that order, ignoring case, and every other name is treated as C |
| Pipeline.PythonCompileError | AppUserCodingExerciseServiceImpl.java:139-145 | a Python result is a compile error exactly when it starts with "ERROR: ", and "ERROR: " followed by the error gives back the result |
| Pipeline.PrintedErrorLooksLikeCompileFailure | AppUserCodingExerciseServiceImpl.java:139-145 | a Python program that writes nothing to stderr but prints the line "ERROR: " followed by a non-blank message is taken for one that does not compile, with that message as the error |
| Pipeline.Compile | AppUserCodingExerciseServiceImpl.java:135-151 | Java compiles with javac; Python runs the program on the first run case and fails with an index error when there are none; C++ and C take the g++ classification of solution.cpp and solution.c; a runner or compiler exception ends the request |
| Pipeline.RunCase | AppUserCodingExerciseServiceImpl.java:222-231 | each case runs with the runner of the chosen language: the Java class, the Python interpreter, or the C++ or C binary |
| Pipeline.Runner | AppUserCodingExerciseServiceImpl.java:266-275 | the case loop of a graded run uses the same runner, case by case, as the trial loop |
| Pipeline.PassedCourse | AppUserCodingExerciseServiceImpl.java:301-305 | the first-pass notice reports the exercise's own course, else its chapter's course, else none; a chapter without a course fails on the null dereference |
| Pipeline.CompileErrorBranch | AppUserCodingExerciseServiceImpl.java:154-213 | a compile error returns total 0, passed 0, a fail, the error text and no reports, with the attempt fields in the order (max − attempt, max); a graded run writes exactly three things, in order: the history merged by the compile-error rule, a failed record with passed 0, score 0, percentage 0, the error and the submitted source, and the streak; a trial writes nothing |
| Pipeline.TrialBranch | AppUserCodingExerciseServiceImpl.java:217-260 | a trial writes nothing; it fails with the first exception a run case throws, and with no run cases on the division; otherwise the response holds exactly the case loop's reports and passed count, the verdict over the run-case count, and the attempt fields in the order (max, max − attempt) |
| Pipeline.GradedBranch | AppUserCodingExerciseServiceImpl.java:261-380 | a graded run succeeds exactly when every case runs, there are submit cases, the stored total is non-zero and the exercise has a course; it fails with the first exception a case throws, and with nothing saved when a division fails; otherwise its writes and response are those of GradeEvaluated on the case loop's result |
| Pipeline.GradeEvaluated | AppUserCodingExerciseServiceImpl.java:293-380 | the writes are, in order: the first-pass notice (exactly on a first pass, naming the course found), the history merged with this verdict, passed count, elapsed time and rank, the record with these reports, the score and percentage, the streak, then the two course updates; the response carries the same reports and passed count; a missing course ends the request after the attempt was saved, and a failed course lookup saves nothing |
| Pipeline.SaveGraded | AppUserCodingExerciseServiceImpl.java:306-380 | once the course lookup of a first pass has succeeded, the attempt is always saved; the notice is written exactly on a first pass; the request finishes exactly when the exercise has a course of its own and otherwise fails on the null course after saving |
| Pipeline.RunCompiled | AppUserCodingExerciseServiceImpl.java:215-382 | after a clean compile only graded runs write anything, and a submission with no execution type gets the null response; a trial has the trial outcome and a graded run the graded outcome of the language's runner |
| Pipeline.ExecuteUserCode | AppUserCodingExerciseServiceImpl.java:117-383 | a missing exercise, an exhausted allowance or a missing language ends the request with no writes; only graded submissions write; every saved history is numbered one past the prior one, keeps its best and was admitted by the gate; the notification fires exactly on a first saved pass; every response is either an error with no reports or reports with no error; past the gate, a compile exception ends the request with no writes, a compile error gives the compile-error outcome, and clean code gives the trial or graded outcome of the language's runner |
| LogParse.SpaceIndexFacts | main.py:99 | the split point is the first space, and there is none exactly when the line has no space |
| LogParse.SplitOnSpace | main.py:99 | `split(" ", 3)` yields between one and four parts |
| LogParse.SplitOnSpaceJoins | main.py:99 | joining the parts with single spaces gives back the line |
| LogParse.SplitOnSpaceParts | main.py:99 | every part but the last is free of spaces |
| LogParse.SplitOnSpaceCount | main.py:99 | there are min(spaces, 3) + 1 parts |
| LogParse.ParseLogLine | main.py:97-106 | parsing never fails; raw is always the line; an unparsable timestamp gives an empty level and the whole line as message; a parsed level has no space; the timestamp is exactly what the timestamp parser makes of the second and third parts of `split(" ", 3)`, so a line whose timestamp text parses is always parsed |
| LogParse.WellFormedLineParses | main.py:97-104 | a level word, a date word and a time word whose date and time parse together, with or without a following message, give exactly the entry with that level, that timestamp and that message (empty without one); a level word and one timestamp word that parses give that entry too |
| LogParse.ParsedLineDecomposes | main.py:99-104 | a parsed line with three or more spaces is level, space, a two-word timestamp that parses to the entry's timestamp, space, message (which keeps any further spaces); with two spaces it is level, space and a two-word timestamp; with one, level, space and a one-word timestamp; with none, the level is the whole line and the empty text is what parsed; with fewer than three spaces the message is empty |
| LogViewer.ParseLines | main.py:124 | no more entries than lines |
| LogViewer.ParseLinesSingle | main.py:124 | a blank line gives no entry, and any other line exactly the entry parsed from its stripped text |
| LogViewer.ParseLinesAppend | main.py:124 | the lines are parsed one at a time and in order: the entries of two runs of lines are the entries of the first followed by those of the second |
| LogViewer.ParseLinesFlatMap | main.py:121-124 | parsing the file is mapping each line to its entries, none for a blank line, and concatenating them in file order |
| LogViewer.ParseLinesEntries | main.py:124 | every entry's raw text is non-empty and has no whitespace at either end, as a stripped non-blank line has, and a file of blank lines gives no entries |
| LogViewer.Filter | main.py:128-133 | a filter never lengthens the list |
| LogViewer.FilterMembers | main.py:128-133 | a filter keeps exactly the entries that pass it |
| LogViewer.PassesCombine | main.py:126-133 | the start pass, the end pass and the timestamp pass, applied in turn, keep exactly the stamped entries whose date lies within both bounds (inclusive), in file order |
| LogViewer.InsertKeeps | main.py:134 | inserting into the sorted list adds exactly that entry |
| LogViewer.InsertSorted | main.py:134 | inserting into a sorted list keeps it sorted |
| LogViewer.InsertStable | main.py:134 | inserting an entry puts it ahead of the entries with its timestamp and leaves the order of all other timestamps unchanged |
| LogViewer.SortLogsCorrect | main.py:134 | the sort orders by timestamp, descending exactly when sort is "desc", is a permutation, and is stable: for each timestamp the entries keep their file order |
| LogViewer.Window | main.py:137-139 | the page holds entries (page−1)·size onward, in order; it has size entries, fewer at the end, and none once the start is past the end |
| LogViewer.PagesTile | main.py:137-139 | pages 1 to n, read in order, are exactly the first n·size entries |
| LogViewer.DateBound | main.py:126-131 | a missing or empty date applies no bound; any other date must parse, or the request fails |
| LogViewer.WindowFacts | main.py:139 | a page of a sorted list is sorted and holds only entries of that list |
| LogViewer.PageOf | main.py:133-144 | total counts the stamped entries within the bounds; the page is exactly the requested window of those entries sorted stably in the requested direction, so it is sorted, no longer than the page size and holds only such entries |
| LogViewer.GetLogs | main.py:111-144 | an invalid page, page size or sort is rejected; a missing log file gives the empty answer; a date that does not parse fails the request; otherwise the page is exactly the requested window of the parsed, bounded and sorted entries, as above |

## Left out

- Process and file plumbing: writing source files, starting javac, g++ and the binary, reading
  their streams, class loading, and `System.setIn`/`setOut`. These are I/O and foreign calls,
  and each appears as a function of `CodeRun.Toolchain`. The runner outputs are keyed by the
  source they were built from. The shared file names that concurrent requests overwrite are
  not modelled.
- `runJavaClass` does not restore `System.out` and `System.in` when the program throws. This is
  a process-wide side effect and is not modelled.
- The generic `catch (Exception e)` of `runCCode` (CodeRunService.java:154-156) cannot be
  reached here: a modelled process either starts or fails with an I/O error.
- An I/O failure while `compileJavaCode` writes `Solution.java` is not modelled; javac is total.
- `cleanupGeneratedFiles`: filesystem side effects only.
- `calculateRankScore` is a function parameter. It is `double` arithmetic that divides by zero
  when `maxAttempts` is 1, and the history merge only takes the larger of two values. It is
  called with the window 7200 and the client-supplied duration, as in the source.
- Wall-clock readings are the `Clock` parameter.
- Not modelled:
  - the authenticated-user lookup
  - the unused `isLastAttempt` flag
  - logging
  - the DTO-to-entity mapping of reports
  - the other service methods (`getAttempts`, `getAttempt`, and so on)
- The daily streak, course statistics, ongoing activity and enrolment services appear only as
  writes.
- Scoring.PassVerdict: does not model 32-bit overflow of `casePassed * 100`, which needs more
  than 21 million passed cases.
- Scoring.Score: does not model 32-bit overflow of `marks * casePassed`, because realistic marks
  and case counts stay far below 2^31.
- Scoring.PercentageScore: uses exact real division instead of `double` rounding.
- Ledger.RecordGraded: does not model 32-bit overflow of the attempt count; the rank is an exact
  real, so the `NaN` a `double` rank can hold is not modelled.
- Pipeline.LanguageOf: folds case for ASCII letters only. No non-ASCII character folds to a
  letter of "java", "python" or "cpp", so this matches `equalsIgnoreCase` for these names.
- Exception messages are strings. A `null` message (printed as "null") is not distinguished.
- Reading lines with `readLine` is the given list of lines. The line-separator handling of
  `BufferedReader` and `readlines` is not modelled.
- In `get_logs`:
  - the response's `strftime` formatting is left out; a page holds the timestamp values
  - the validation of `sort` against `^(asc|desc)$` is modelled as exact equality with
    "asc" or "desc"
  - a bad date raises inside the handler, and this appears as the `BadDate` error
- The FastAPI routes, CORS, the websocket agent chat and the `code_run` module that `main.py`
  imports are not part of this model.
