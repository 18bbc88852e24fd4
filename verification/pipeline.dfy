/** executeUserCode: gate, compile, run the applicable cases, grade, and
    record.  The repositories and services it calls are modelled by the
    list of writes it issues, in order; an exception ends the request but
    leaves the writes already made (the method is not transactional). */
module Pipeline {
  import opened Wrappers
  import Text
  import JavaText
  import CodeRun
  import Evaluation
  import Scoring
  import Ledger

  datatype Language = Java | Python | Cpp | C

  /** The language is chosen by its stored name, ignoring case; every name
      other than java, python and cpp is compiled and run as C. */
  function LanguageOf(name: string): (l: Language)
    ensures l == Java <==> JavaText.EqualsIgnoreCase(name, "java")
    ensures l == Python <==> !JavaText.EqualsIgnoreCase(name, "java") && JavaText.EqualsIgnoreCase(name, "python")
    ensures l == Cpp <==> !JavaText.EqualsIgnoreCase(name, "java") && !JavaText.EqualsIgnoreCase(name, "python")
                          && JavaText.EqualsIgnoreCase(name, "cpp")
  {
    if JavaText.EqualsIgnoreCase(name, "java") then Java
    else if JavaText.EqualsIgnoreCase(name, "python") then Python
    else if JavaText.EqualsIgnoreCase(name, "cpp") then Cpp
    else C
  }

  /** Trial runs use the visible run cases and record nothing; graded runs
      use the submit cases and are recorded. */
  datatype ExecutionType = TestCases | SubmitCases

  datatype Chapter = Chapter(course: Option<int>)

  datatype Exercise = Exercise(
    name: string,
    runCases: seq<Evaluation.CodeCase>, submitCases: seq<Evaluation.CodeCase>,
    totalRunCases: int, totalSubmitCases: int,
    maxAttempts: int, minimumPercentageToPass: int, marks: int,
    course: Option<int>, chapter: Option<Chapter>)

  /** The submission.  A missing execution type is the Java null. */
  datatype Code = Code(source: string, executionType: Option<ExecutionType>, duration: int)

  /** The clock readings the method takes: how long compiling and running
      the cases took, and the instant stamped on saved rows. */
  datatype Clock = Clock(compileTime: int, runTime: int, now: int)

  /** calculateRankScore(percentageScore, totalDuration, timeTaken, maxAttempts, attempt). */
  type RankScore = (real, int, int, int, int) -> real

  /** The window calculateRankScore measures the declared duration against. */
  const RankWindow: int := 7200

  /** The attempt row saved for a graded or failed-to-compile submission. */
  datatype AttemptRecord = AttemptRecord(
    attemptedOn: int, isPassed: bool, totalCases: int, passedCases: nat,
    duration: int, timeTaken: int, error: Option<string>, source: string,
    reports: Option<seq<Evaluation.CaseReport>>, marks: int, score: int, percentageScore: real)

  /** What the method asks of the rest of the system, in order. */
  datatype Write =
    | SaveHistory(history: Ledger.History)
    | SaveRecord(record: AttemptRecord)
    | UpdateStreak(streakDuration: int)
    | NotifyFirstPass(passedCourse: Option<int>)
    | UpdateOngoingActivity(activityCourse: int, exerciseName: string)
    | MarkCourseInProgress(progressCourse: int)

  datatype Failure =
    | ExerciseNotFound
    | MaxAttemptsExceeded
    | LanguageNotFound
    | Raised(thrown: CodeRun.Thrown)
    | Crashed(cls: CodeRun.ExceptionClass)

  /** The response.  The two attempt fields are positional: the
      compilation-error response and the graded responses fill them in
      opposite orders. */
  datatype CodeExecutionStatus = CodeExecutionStatus(
    totalCases: int, passedCases: nat, timeTaken: int, isPassed: bool,
    attemptsFirst: int, attemptsSecond: int,
    error: Option<string>, reports: Option<seq<Evaluation.CaseReport>>)

  /** Writes made, and how the request ended.  Success(None) is the Java
      null returned for a submission without an execution type. */
  datatype Execution = Execution(writes: seq<Write>, outcome: Result<Option<CodeExecutionStatus>, Failure>)

  /** The interpreter's answer on the first run case read as a compilation
      result: text starting with "ERROR: " is an error whose message is the
      rest; anything else means the code is fine. */
  function PythonCompileError(result: string): (err: Option<string>)
    ensures err.Some? <==> |result| >= 7 && result[..7] == "ERROR: "
    ensures err.Some? ==> "ERROR: " + err.value == result
  {
    if |result| >= 7 && result[..7] == "ERROR: " then Some(result[7..]) else None
  }

  /** A Python program that writes nothing to stderr but prints a line
      starting with "ERROR: " is taken for one that does not compile. */
  lemma PrintedErrorLooksLikeCompileFailure(rest: string)
    requires rest != [] && !Text.IsPad(Text.JavaSpace, rest[|rest| - 1])
    ensures PythonCompileError(CodeRun.PythonRunOutput("ERROR: " + rest + "\n", [])) == Some(rest)
  {
    var line := "ERROR: " + rest;
    assert Text.Unpadded(line, Text.JavaSpace) by {
      assert line[0] == 'E';
      assert line[|line| - 1] == rest[|rest| - 1];
    }
    assert Text.All("\n", Text.JavaSpace);
    assert [] + line + "\n" == line + "\n";
    Text.TrimWhereOfPadded([], line, "\n", Text.JavaSpace);
  }

  /** The compile step: Some(message) when the code does not compile.  The
      Python step runs the program on the first run case; an exercise with
      no run cases makes it fail on the list lookup. */
  function Compile(lang: Language, ex: Exercise, source: string, tc: CodeRun.Toolchain)
    : (r: Result<Option<string>, Failure>)
    ensures lang == Python && ex.runCases == [] ==> r == Failure(Crashed(CodeRun.IndexOutOfBoundsException))
    ensures lang == Java ==> r == Success(CodeRun.CompileJavaCode(tc, source))
    ensures lang == Python && ex.runCases != [] ==>
              var first := CodeRun.RunPythonCode(tc, source, ex.runCases[0].input);
              (first.Failure? ==> r == Failure(Raised(first.error))) &&
              (first.Success? ==> r == Success(PythonCompileError(first.value)))
    ensures lang == Cpp ==>
              var g := CodeRun.CompileCppCode(tc, source);
              (g.Failure? ==> r == Failure(Raised(g.error))) && (g.Success? ==> r == Success(g.value))
    ensures lang == C ==>
              var g := CodeRun.CompileCCode(tc, source);
              (g.Failure? ==> r == Failure(Raised(g.error))) && (g.Success? ==> r == Success(g.value))
    ensures r.Failure? ==> r.error.Raised? || r.error == Crashed(CodeRun.IndexOutOfBoundsException)
  {
    match lang
    case Java => Success(CodeRun.CompileJavaCode(tc, source))
    case Python =>
      if ex.runCases == [] then Failure(Crashed(CodeRun.IndexOutOfBoundsException))
      else
        (match CodeRun.RunPythonCode(tc, source, ex.runCases[0].input)
         case Failure(t) => Failure(Raised(t))
         case Success(out) => Success(PythonCompileError(out)))
    case Cpp =>
      (match CodeRun.CompileCppCode(tc, source)
       case Failure(t) => Failure(Raised(t))
       case Success(err) => Success(err))
    case C =>
      (match CodeRun.CompileCCode(tc, source)
       case Failure(t) => Failure(Raised(t))
       case Success(err) => Success(err))
  }

  /** One run of the compiled code on one case input, by the runner of
      the chosen language. */
  function RunCase(lang: Language, tc: CodeRun.Toolchain, source: string, input: string)
    : (r: Result<string, CodeRun.Thrown>)
    ensures lang == Java ==> r == CodeRun.RunJavaClass(tc, source, input)
    ensures lang == Python ==> r == CodeRun.RunPythonCode(tc, source, input)
    ensures lang == Cpp ==> r == CodeRun.RunCppCode(tc, source, input)
    ensures lang == C ==> r == CodeRun.RunCCode(tc, source, input)
  {
    match lang
    case Java => CodeRun.RunJavaClass(tc, source, input)
    case Python => CodeRun.RunPythonCode(tc, source, input)
    case Cpp => CodeRun.RunCppCode(tc, source, input)
    case C => CodeRun.RunCCode(tc, source, input)
  }

  /** The case runner handed to the case loop. */
  function Runner(lang: Language, tc: CodeRun.Toolchain, source: string): (run: string -> Result<string, CodeRun.Thrown>)
    ensures forall input :: run(input) == RunCase(lang, tc, source, input)
  {
    input => RunCase(lang, tc, source, input)
  }

  /** A response is one of two shapes: an error with no reports and
      nothing passed, or reports and no error. */
  predicate WellFormed(st: CodeExecutionStatus) {
    (st.error.Some? <==> st.reports.None?) &&
    (st.error.Some? ==> st.totalCases == 0 && st.passedCases == 0 && !st.isPassed) &&
    (st.reports.Some? ==> st.passedCases == Evaluation.PassedCount(st.reports.value) <= |st.reports.value|)
  }

  /** A saved attempt row is either a failed compilation scored zero, or a
      graded run whose verdict follows the pass threshold on its reports. */
  predicate RecordFits(rec: AttemptRecord, ex: Exercise) {
    (rec.error.Some? ==> !rec.isPassed && rec.passedCases == 0 && rec.score == 0 &&
                         rec.percentageScore == 0.0 && rec.reports.None?) &&
    (rec.error.None? ==> rec.reports.Some? && |rec.reports.value| == |ex.submitCases| > 0 &&
                         rec.passedCases == Evaluation.PassedCount(rec.reports.value) &&
                         (rec.isPassed <==> 100 * rec.passedCases >= ex.minimumPercentageToPass * |ex.submitCases|) &&
                         (0 <= ex.marks && rec.passedCases <= ex.totalSubmitCases ==> 0 <= rec.score <= ex.marks))
  }

  predicate Notified(writes: seq<Write>) {
    exists i :: 0 <= i < |writes| && writes[i].NotifyFirstPass?
  }

  predicate SavedPassingRecord(writes: seq<Write>) {
    exists i :: 0 <= i < |writes| && writes[i].SaveRecord? && writes[i].record.isPassed
  }

  /** The history each save writes is numbered one past the prior one,
      keeps the best of it, and was admitted by the gate. */
  predicate HistorySavesFit(writes: seq<Write>, prior: Option<Ledger.History>, maxAttempts: int) {
    forall i :: 0 <= i < |writes| && writes[i].SaveHistory? ==>
      writes[i].history.attemptCount == Ledger.AttemptNumber(prior) &&
      Ledger.KeepsBest(prior, writes[i].history) && !Ledger.Exhausted(prior, maxAttempts)
  }

  function FirstPass(verdict: bool, prior: Option<Ledger.History>): bool {
    verdict && (prior.None? || !prior.value.isPassed)
  }

  /** What a submission that does not compile yields: a zero response
      carrying the error; for a graded run, the history counting the
      attempt, a failed row scored zero that keeps the error, and the
      streak, in that order; for a trial, no writes.  Like the other
      outcome predicates below, this is the observable effect list of the
      branch; the invariants that give it meaning are stated separately
      (HistorySavesFit, RecordFits, the notification clauses, and the
      ledger's replay lemmas). */
  predicate CompileErrorOutcome(e: Execution, ex: Exercise, prior: Option<Ledger.History>, code: Code,
                                clock: Clock, err: string) {
    e.outcome == Success(Some(CodeExecutionStatus(0, 0, clock.compileTime, false,
                                                  ex.maxAttempts - Ledger.AttemptNumber(prior), ex.maxAttempts,
                                                  Some(err), None))) &&
    (code.executionType == Some(SubmitCases) ==>
       e.writes == [SaveHistory(Ledger.RecordCompileError(prior, clock.now, ex.totalSubmitCases,
                                                          code.duration, clock.compileTime)),
                    SaveRecord(AttemptRecord(clock.now, false, ex.totalSubmitCases, 0, code.duration,
                                             clock.compileTime, Some(err), code.source, None, ex.marks, 0, 0.0)),
                    UpdateStreak(code.duration)]) &&
    (code.executionType != Some(SubmitCases) ==> e.writes == [])
  }

  /** What a trial run yields, in terms of the case loop over the run
      cases: the first exception a case throws; a division by zero when
      there are no run cases; otherwise the loop's reports and passed
      count under the verdict on them.  Nothing is written.  This is the
      observable effect list of a trial. */
  predicate TrialOutcome(e: Execution, ex: Exercise, prior: Option<Ledger.History>,
                         run: string -> Result<string, CodeRun.Thrown>, clock: Clock) {
    var r := Evaluation.Evaluate(ex.runCases, run);
    e.writes == [] &&
    (r.Failure? ==> e.outcome == Failure(Raised(r.error))) &&
    (r.Success? && ex.runCases == [] ==> e.outcome == Failure(Crashed(CodeRun.ArithmeticException))) &&
    (r.Success? && ex.runCases != [] ==>
       e.outcome == Success(Some(CodeExecutionStatus(
         ex.totalRunCases, r.value.passed, clock.compileTime + clock.runTime,
         Scoring.PassVerdict(r.value.passed, |ex.runCases|, ex.minimumPercentageToPass),
         ex.maxAttempts, ex.maxAttempts - Ledger.AttemptNumber(prior), None, Some(r.value.reports)))))
  }

  /** What a graded run yields once the submit cases have evaluated to ev
      (at least one case, a non-zero stored total).  A first pass looks up
      the course to report; if that lookup fails nothing is written.
      Otherwise the writes are, in order: the first-pass notice (only on a
      first pass), the history merged with this attempt's verdict, passed
      count, time and rank, the attempt row with this run's reports, score
      and percentage, the streak, and, when the exercise has a course of
      its own, the two course updates; without one the request then fails
      on the null course.  This is the observable effect list of a graded
      run. */
  predicate GradedOutcome(e: Execution, ex: Exercise, prior: Option<Ledger.History>, ev: Evaluation.Evaluation,
                          code: Code, clock: Clock, rankScore: RankScore) {
    ex.submitCases != [] && ex.totalSubmitCases != 0 &&
    var verdict := Scoring.PassVerdict(ev.passed, |ex.submitCases|, ex.minimumPercentageToPass);
    var score := Scoring.Score(ex.marks, ev.passed, ex.totalSubmitCases);
    var pct := Scoring.PercentageScore(ex.marks, score);
    var rank := rankScore(pct, RankWindow, code.duration, ex.maxAttempts, Ledger.AttemptNumber(prior));
    var elapsed := clock.compileTime + clock.runTime;
    var first := FirstPass(verdict, prior);
    var lookup := PassedCourse(ex);
    if first && lookup.Failure? then e == Execution([], Failure(lookup.error))
    else
      var n := if first then 1 else 0;
      |e.writes| == n + 3 + (if ex.course.Some? then 2 else 0) &&
      (first ==> e.writes[0] == NotifyFirstPass(lookup.value)) &&
      e.writes[n] == SaveHistory(Ledger.RecordGraded(prior, clock.now, verdict, ex.totalSubmitCases, ev.passed,
                                                     code.duration, elapsed, rank)) &&
      e.writes[n + 1] == SaveRecord(AttemptRecord(clock.now, verdict, ex.totalSubmitCases, ev.passed, code.duration,
                                                  elapsed, None, code.source, Some(ev.reports), ex.marks, score, pct)) &&
      e.writes[n + 2] == UpdateStreak(code.duration) &&
      (ex.course.None? ==> e.outcome == Failure(Crashed(CodeRun.NullPointerException))) &&
      (ex.course.Some? ==>
         e.writes[n + 3] == UpdateOngoingActivity(ex.course.value, ex.name) &&
         e.writes[n + 4] == MarkCourseInProgress(ex.course.value) &&
         e.outcome == Success(Some(CodeExecutionStatus(ex.totalSubmitCases, ev.passed, elapsed, verdict,
                                                       ex.maxAttempts, ex.maxAttempts - Ledger.AttemptNumber(prior),
                                                       None, Some(ev.reports)))))
  }

  /** What a graded run yields, in terms of the case loop over the submit
      cases: the first exception a case throws, or a division by zero
      before anything is saved when either case count is zero, or else
      the graded outcome of the loop's evaluation. */
  predicate GradedRunOutcome(e: Execution, ex: Exercise, prior: Option<Ledger.History>,
                             run: string -> Result<string, CodeRun.Thrown>, code: Code, clock: Clock,
                             rankScore: RankScore) {
    var r := Evaluation.Evaluate(ex.submitCases, run);
    (r.Failure? ==> e == Execution([], Failure(Raised(r.error)))) &&
    (r.Success? && (ex.submitCases == [] || ex.totalSubmitCases == 0) ==>
       e == Execution([], Failure(Crashed(CodeRun.ArithmeticException)))) &&
    (r.Success? && ex.submitCases != [] && ex.totalSubmitCases != 0 ==>
       GradedOutcome(e, ex, prior, r.value, code, clock, rankScore))
  }

  /** The code did not compile.  A graded submission still counts as an
      attempt: the history and a zero-scored row are saved and the streak
      updated; a trial saves nothing. */
  function CompileErrorBranch(ex: Exercise, prior: Option<Ledger.History>, code: Code,
                              clock: Clock, err: string): (e: Execution)
    requires !Ledger.Exhausted(prior, ex.maxAttempts)
    ensures e.outcome.Success? && e.outcome.value.Some?
    ensures WellFormed(e.outcome.value.value) && e.outcome.value.value.error == Some(err)
    ensures e.outcome.value.value.timeTaken == clock.compileTime
    ensures e.outcome.value.value.attemptsFirst == ex.maxAttempts - Ledger.AttemptNumber(prior)
    ensures e.outcome.value.value.attemptsSecond == ex.maxAttempts
    ensures e.writes != [] <==> code.executionType == Some(SubmitCases)
    ensures HistorySavesFit(e.writes, prior, ex.maxAttempts)
    ensures forall i :: 0 <= i < |e.writes| && e.writes[i].SaveRecord? ==>
              RecordFits(e.writes[i].record, ex) && e.writes[i].record.error == Some(err)
    ensures !Notified(e.writes) && !SavedPassingRecord(e.writes)
    ensures CompileErrorOutcome(e, ex, prior, code, clock, err)
  {
    var attempt := Ledger.AttemptNumber(prior);
    var status := CodeExecutionStatus(0, 0, clock.compileTime, false, ex.maxAttempts - attempt,
                                      ex.maxAttempts, Some(err), None);
    if code.executionType == Some(SubmitCases) then
      var history := Ledger.RecordCompileError(prior, clock.now, ex.totalSubmitCases, code.duration, clock.compileTime);
      var record := AttemptRecord(clock.now, false, ex.totalSubmitCases, 0, code.duration, clock.compileTime,
                                  Some(err), code.source, None, ex.marks, 0, 0.0);
      Execution([SaveHistory(history), SaveRecord(record), UpdateStreak(code.duration)], Success(Some(status)))
    else
      Execution([], Success(Some(status)))
  }

  /** A trial run: every run case, graded against the run-case count, and
      nothing saved. */
  function TrialBranch(ex: Exercise, prior: Option<Ledger.History>, run: string -> Result<string, CodeRun.Thrown>,
                       clock: Clock): (e: Execution)
    ensures e.writes == []
    ensures e.outcome.Success? ==> e.outcome.value.Some? && WellFormed(e.outcome.value.value)
    ensures e.outcome.Success? ==>
              var st := e.outcome.value.value;
              st.reports.Some? && |st.reports.value| == |ex.runCases| > 0 &&
              st.totalCases == ex.totalRunCases && st.timeTaken == clock.compileTime + clock.runTime &&
              (st.isPassed <==> 100 * st.passedCases >= ex.minimumPercentageToPass * |ex.runCases|) &&
              st.attemptsFirst == ex.maxAttempts && st.attemptsSecond == ex.maxAttempts - Ledger.AttemptNumber(prior)
    ensures ex.runCases == [] ==> e.outcome == Failure(Crashed(CodeRun.ArithmeticException))
    ensures TrialOutcome(e, ex, prior, run, clock)
  {
    match Evaluation.Evaluate(ex.runCases, run)
    case Failure(t) => Execution([], Failure(Raised(t)))
    case Success(ev) =>
      if ex.runCases == [] then Execution([], Failure(Crashed(CodeRun.ArithmeticException)))
      else
        Evaluation.EvaluateReports(ex.runCases, run);
        var verdict := Scoring.PassVerdict(ev.passed, |ex.runCases|, ex.minimumPercentageToPass);
        Execution([], Success(Some(CodeExecutionStatus(
          ex.totalRunCases, ev.passed, clock.compileTime + clock.runTime, verdict,
          ex.maxAttempts, ex.maxAttempts - Ledger.AttemptNumber(prior), None, Some(ev.reports)))))
  }

  /** The course a first pass is reported against: the exercise's own
      course, else its chapter's, else none.  A chapter without a course
      fails on the dereference. */
  function PassedCourse(ex: Exercise): (r: Result<Option<int>, Failure>)
    ensures r.Failure? <==> ex.course.None? && ex.chapter.Some? && ex.chapter.value.course.None?
    ensures r.Failure? ==> r.error == Crashed(CodeRun.NullPointerException)
    ensures r.Success? ==> r.value == (if ex.course.Some? then ex.course
                                       else if ex.chapter.Some? then ex.chapter.value.course else None)
  {
    if ex.course.Some? then Success(ex.course)
    else if ex.chapter.Some? then
      (if ex.chapter.value.course.Some? then Success(ex.chapter.value.course)
       else Failure(Crashed(CodeRun.NullPointerException)))
    else Success(None)
  }

  /** The writes of a graded run once its result is known: the first-pass
      notification if due, then the history, the attempt row and the
      streak. */
  function GradedWrites(ex: Exercise, prior: Option<Ledger.History>, code: Code, clock: Clock,
                        ev: Evaluation.Evaluation, verdict: bool, score: int, pct: real,
                        notify: Option<int>, rank: real): (writes: seq<Write>)
  {
    var elapsed := clock.compileTime + clock.runTime;
    var history := Ledger.RecordGraded(prior, clock.now, verdict, ex.totalSubmitCases, ev.passed,
                                       code.duration, elapsed, rank);
    var record := AttemptRecord(clock.now, verdict, ex.totalSubmitCases, ev.passed, code.duration, elapsed,
                                None, code.source, Some(ev.reports), ex.marks, score, pct);
    (if FirstPass(verdict, prior) then [NotifyFirstPass(notify)] else [])
      + [SaveHistory(history), SaveRecord(record), UpdateStreak(code.duration)]
  }

  /** A graded run over the submit cases.  The verdict divides by the
      number of submit cases, the score by the stored submit-case total;
      either being zero fails the request before anything is saved.  The
      last two writes dereference the exercise's course, so an exercise
      reached only through a chapter fails after its attempt was saved. */
  function GradedBranch(ex: Exercise, prior: Option<Ledger.History>, run: string -> Result<string, CodeRun.Thrown>,
                        code: Code, clock: Clock, rankScore: RankScore): (e: Execution)
    requires !Ledger.Exhausted(prior, ex.maxAttempts)
    ensures HistorySavesFit(e.writes, prior, ex.maxAttempts)
    ensures forall i :: 0 <= i < |e.writes| && e.writes[i].SaveRecord? ==>
              RecordFits(e.writes[i].record, ex)
    ensures Notified(e.writes) <==> (prior.None? || !prior.value.isPassed) && SavedPassingRecord(e.writes)
    ensures e.outcome.Success? ==> e.outcome.value.Some? && WellFormed(e.outcome.value.value)
    ensures e.outcome.Success? ==> GradedStatus(e.outcome.value.value, ex, prior)
    ensures e.outcome.Success? <==> Evaluation.AllReturn(ex.submitCases, run) && ex.submitCases != [] &&
                                    ex.totalSubmitCases != 0 && ex.course.Some?
    ensures ex.submitCases == [] || ex.totalSubmitCases == 0 ==> e.writes == []
    ensures GradedRunOutcome(e, ex, prior, run, code, clock, rankScore)
  {
    Evaluation.EvaluateSucceeds(ex.submitCases, run);
    match Evaluation.Evaluate(ex.submitCases, run)
    case Failure(t) => Execution([], Failure(Raised(t)))
    case Success(ev) =>
      if ex.submitCases == [] then Execution([], Failure(Crashed(CodeRun.ArithmeticException)))
      else
        Evaluation.EvaluateReports(ex.submitCases, run);
        GradeEvaluated(ex, prior, ev, code, clock, rankScore)
  }

  /** The graded response: one report per submit case, the verdict by the
      pass threshold, and the attempt fields in graded order. */
  predicate GradedStatus(st: CodeExecutionStatus, ex: Exercise, prior: Option<Ledger.History>) {
    st.reports.Some? && |st.reports.value| == |ex.submitCases| > 0 &&
    st.totalCases == ex.totalSubmitCases &&
    (st.isPassed <==> 100 * st.passedCases >= ex.minimumPercentageToPass * |ex.submitCases|) &&
    st.attemptsFirst == ex.maxAttempts && st.attemptsSecond == ex.maxAttempts - Ledger.AttemptNumber(prior)
  }

  /** The graded run once every submit case has a report. */
  function GradeEvaluated(ex: Exercise, prior: Option<Ledger.History>, ev: Evaluation.Evaluation,
                          code: Code, clock: Clock, rankScore: RankScore): (e: Execution)
    requires !Ledger.Exhausted(prior, ex.maxAttempts)
    requires |ev.reports| == |ex.submitCases| > 0 && ev.passed == Evaluation.PassedCount(ev.reports)
    ensures HistorySavesFit(e.writes, prior, ex.maxAttempts)
    ensures forall i :: 0 <= i < |e.writes| && e.writes[i].SaveRecord? ==>
              RecordFits(e.writes[i].record, ex)
    ensures Notified(e.writes) <==> (prior.None? || !prior.value.isPassed) && SavedPassingRecord(e.writes)
    ensures e.outcome.Success? ==> e.outcome.value.Some? && WellFormed(e.outcome.value.value)
    ensures e.outcome.Success? ==> GradedStatus(e.outcome.value.value, ex, prior)
    ensures e.outcome.Success? <==> ex.totalSubmitCases != 0 && ex.course.Some?
    ensures ex.totalSubmitCases == 0 ==> e.writes == []
    ensures ex.totalSubmitCases != 0 && ex.course.None? && (ex.chapter.None? || ex.chapter.value.course.Some?) ==>
              e.outcome == Failure(Crashed(CodeRun.NullPointerException)) &&
              exists i :: 0 <= i < |e.writes| && e.writes[i].SaveRecord?
    ensures ex.totalSubmitCases != 0 ==> GradedOutcome(e, ex, prior, ev, code, clock, rankScore)
    ensures e.writes != [] ==>
              (Notified(e.writes) <==>
                 FirstPass(Scoring.PassVerdict(ev.passed, |ex.submitCases|, ex.minimumPercentageToPass), prior))
  {
    var verdict := Scoring.PassVerdict(ev.passed, |ex.submitCases|, ex.minimumPercentageToPass);
    if ex.totalSubmitCases == 0 then Execution([], Failure(Crashed(CodeRun.ArithmeticException)))
    else
      var notify := if FirstPass(verdict, prior) then PassedCourse(ex) else Success(None);
      if notify.Failure? then Execution([], Failure(notify.error))
      else SaveGraded(ex, prior, ev, code, clock, rankScore, notify.value)
  }

  /** The saves of a graded run whose course lookup, if a first pass made
      one, found `notify`: the attempt is recorded, and the request then
      finishes or fails on a missing course. */
  function SaveGraded(ex: Exercise, prior: Option<Ledger.History>, ev: Evaluation.Evaluation,
                      code: Code, clock: Clock, rankScore: RankScore, notify: Option<int>): (e: Execution)
    requires !Ledger.Exhausted(prior, ex.maxAttempts) && ex.totalSubmitCases != 0
    requires |ev.reports| == |ex.submitCases| > 0 && ev.passed == Evaluation.PassedCount(ev.reports)
    requires FirstPass(Scoring.PassVerdict(ev.passed, |ex.submitCases|, ex.minimumPercentageToPass), prior) ==>
               PassedCourse(ex) == Success(notify)
    ensures HistorySavesFit(e.writes, prior, ex.maxAttempts)
    ensures forall i :: 0 <= i < |e.writes| && e.writes[i].SaveRecord? ==>
              RecordFits(e.writes[i].record, ex)
    ensures Notified(e.writes) <==> (prior.None? || !prior.value.isPassed) && SavedPassingRecord(e.writes)
    ensures Notified(e.writes) <==>
              FirstPass(Scoring.PassVerdict(ev.passed, |ex.submitCases|, ex.minimumPercentageToPass), prior)
    ensures e.outcome.Success? ==> e.outcome.value.Some? && WellFormed(e.outcome.value.value)
    ensures e.outcome.Success? ==> GradedStatus(e.outcome.value.value, ex, prior)
    ensures e.outcome.Success? <==> ex.course.Some?
    ensures ex.course.None? ==> e.outcome == Failure(Crashed(CodeRun.NullPointerException)) &&
                                exists i :: 0 <= i < |e.writes| && e.writes[i].SaveRecord?
    ensures GradedOutcome(e, ex, prior, ev, code, clock, rankScore)
  {
    var verdict := Scoring.PassVerdict(ev.passed, |ex.submitCases|, ex.minimumPercentageToPass);
    var score := Scoring.Score(ex.marks, ev.passed, ex.totalSubmitCases);
    var pct := Scoring.PercentageScore(ex.marks, score);
    var rank := rankScore(pct, RankWindow, code.duration, ex.maxAttempts, Ledger.AttemptNumber(prior));
    var writes := GradedWrites(ex, prior, code, clock, ev, verdict, score, pct, notify, rank);
    GradedWritesFacts(ex, prior, code, clock, ev, verdict, score, pct, notify, rank);
    GradedWritesLayout(ex, prior, code, clock, ev, verdict, score, pct, notify, rank);
    if ex.course.None? then
      assert writes[|writes| - 2].SaveRecord?;
      Execution(writes, Failure(Crashed(CodeRun.NullPointerException)))
    else
      var status := CodeExecutionStatus(ex.totalSubmitCases, ev.passed, clock.compileTime + clock.runTime,
                                        verdict, ex.maxAttempts, ex.maxAttempts - Ledger.AttemptNumber(prior),
                                        None, Some(ev.reports));
      FinishedWritesFacts(ex, prior, writes, ex.course.value);
      Execution(writes + [UpdateOngoingActivity(ex.course.value, ex.name), MarkCourseInProgress(ex.course.value)],
                Success(Some(status)))
  }

  /** The two course writes after the attempt is saved change none of the
      facts about saves and notifications. */
  lemma FinishedWritesFacts(ex: Exercise, prior: Option<Ledger.History>, writes: seq<Write>, course: int)
    requires HistorySavesFit(writes, prior, ex.maxAttempts)
    requires forall i :: 0 <= i < |writes| && writes[i].SaveRecord? ==> RecordFits(writes[i].record, ex)
    requires Notified(writes) <==> (prior.None? || !prior.value.isPassed) && SavedPassingRecord(writes)
    ensures var all := writes + [UpdateOngoingActivity(course, ex.name), MarkCourseInProgress(course)];
            HistorySavesFit(all, prior, ex.maxAttempts) &&
            (forall i :: 0 <= i < |all| && all[i].SaveRecord? ==> RecordFits(all[i].record, ex)) &&
            (Notified(all) <==> (prior.None? || !prior.value.isPassed) && SavedPassingRecord(all)) &&
            (Notified(all) <==> Notified(writes))
  {
    var all := writes + [UpdateOngoingActivity(course, ex.name), MarkCourseInProgress(course)];
    assert forall i :: 0 <= i < |writes| ==> all[i] == writes[i];
    if Notified(all) {
      var i :| 0 <= i < |all| && all[i].NotifyFirstPass?;
      assert i < |writes|;
    }
    if SavedPassingRecord(all) {
      var i :| 0 <= i < |all| && all[i].SaveRecord? && all[i].record.isPassed;
      assert i < |writes|;
    }
  }

  lemma GradedWritesFacts(ex: Exercise, prior: Option<Ledger.History>, code: Code, clock: Clock,
                          ev: Evaluation.Evaluation, verdict: bool, score: int, pct: real,
                          notify: Option<int>, rank: real)
    requires !Ledger.Exhausted(prior, ex.maxAttempts)
    requires |ev.reports| == |ex.submitCases| > 0 && ev.passed == Evaluation.PassedCount(ev.reports)
    requires verdict <==> 100 * ev.passed >= ex.minimumPercentageToPass * |ex.submitCases|
    requires 0 <= ex.marks && ev.passed <= ex.totalSubmitCases ==> 0 <= score <= ex.marks
    ensures var writes := GradedWrites(ex, prior, code, clock, ev, verdict, score, pct, notify, rank);
            HistorySavesFit(writes, prior, ex.maxAttempts) &&
            (forall i :: 0 <= i < |writes| && writes[i].SaveRecord? ==> RecordFits(writes[i].record, ex)) &&
            (Notified(writes) <==> (prior.None? || !prior.value.isPassed) && SavedPassingRecord(writes))
  {
    var writes := GradedWrites(ex, prior, code, clock, ev, verdict, score, pct, notify, rank);
    if FirstPass(verdict, prior) {
      assert writes[0].NotifyFirstPass? && writes[2].SaveRecord? && writes[2].record.isPassed;
    } else {
      assert |writes| == 3 && writes[1].SaveRecord?;
    }
  }

  /** Where each write of a graded run sits: the notice first on a first
      pass, then the history, the row and the streak. */
  lemma GradedWritesLayout(ex: Exercise, prior: Option<Ledger.History>, code: Code, clock: Clock,
                           ev: Evaluation.Evaluation, verdict: bool, score: int, pct: real,
                           notify: Option<int>, rank: real)
    ensures var writes := GradedWrites(ex, prior, code, clock, ev, verdict, score, pct, notify, rank);
            var elapsed := clock.compileTime + clock.runTime;
            var n := if FirstPass(verdict, prior) then 1 else 0;
            |writes| == n + 3 &&
            (FirstPass(verdict, prior) ==> writes[0] == NotifyFirstPass(notify)) &&
            writes[n] == SaveHistory(Ledger.RecordGraded(prior, clock.now, verdict, ex.totalSubmitCases, ev.passed,
                                                         code.duration, elapsed, rank)) &&
            writes[n + 1] == SaveRecord(AttemptRecord(clock.now, verdict, ex.totalSubmitCases, ev.passed,
                                                      code.duration, elapsed, None, code.source, Some(ev.reports),
                                                      ex.marks, score, pct)) &&
            writes[n + 2] == UpdateStreak(code.duration) &&
            (Notified(writes) <==> FirstPass(verdict, prior))
  {
    var writes := GradedWrites(ex, prior, code, clock, ev, verdict, score, pct, notify, rank);
    if !FirstPass(verdict, prior) {
      assert |writes| == 3 && !writes[0].NotifyFirstPass? && !writes[1].NotifyFirstPass? && !writes[2].NotifyFirstPass?;
    } else {
      assert writes[0].NotifyFirstPass?;
    }
  }

  /** The code compiled: run the cases the execution type selects. */
  function RunCompiled(ex: Exercise, prior: Option<Ledger.History>, lang: Language, code: Code,
                       tc: CodeRun.Toolchain, clock: Clock, rankScore: RankScore): (e: Execution)
    requires !Ledger.Exhausted(prior, ex.maxAttempts)
    ensures e.writes != [] ==> code.executionType == Some(SubmitCases)
    ensures HistorySavesFit(e.writes, prior, ex.maxAttempts)
    ensures forall i :: 0 <= i < |e.writes| && e.writes[i].SaveRecord? ==> RecordFits(e.writes[i].record, ex)
    ensures Notified(e.writes) <==> (prior.None? || !prior.value.isPassed) && SavedPassingRecord(e.writes)
    ensures e.outcome.Success? && e.outcome.value.Some? ==> WellFormed(e.outcome.value.value)
    ensures e.outcome.Success? && e.outcome.value.Some? ==> e.outcome.value.value.error.None?
    ensures e.outcome == Success(None) <==> code.executionType.None?
    ensures e.outcome.Failure? ==> e.outcome.error.Raised? || e.outcome.error.Crashed?
    ensures code.executionType == Some(TestCases) ==> TrialOutcome(e, ex, prior, Runner(lang, tc, code.source), clock)
    ensures code.executionType == Some(SubmitCases) ==>
              GradedRunOutcome(e, ex, prior, Runner(lang, tc, code.source), code, clock, rankScore)
  {
    match code.executionType
    case None => Execution([], Success(None))
    case Some(TestCases) => TrialBranch(ex, prior, Runner(lang, tc, code.source), clock)
    case Some(SubmitCases) => GradedBranch(ex, prior, Runner(lang, tc, code.source), code, clock, rankScore)
  }

  /** The whole request. */
  function ExecuteUserCode(exercise: Option<Exercise>, prior: Option<Ledger.History>, languageName: Option<string>,
                           code: Code, tc: CodeRun.Toolchain, clock: Clock, rankScore: RankScore): (e: Execution)
    ensures e.outcome == Failure(ExerciseNotFound) <==> exercise.None?
    ensures e.outcome == Failure(MaxAttemptsExceeded) <==>
              exercise.Some? && Ledger.Exhausted(prior, exercise.value.maxAttempts)
    ensures e.outcome == Failure(LanguageNotFound) <==>
              exercise.Some? && !Ledger.Exhausted(prior, exercise.value.maxAttempts) && languageName.None?
    ensures e.writes != [] ==> exercise.Some? && languageName.Some? && code.executionType == Some(SubmitCases)
    ensures e.outcome.Failure? && e.outcome.error in {ExerciseNotFound, MaxAttemptsExceeded, LanguageNotFound} ==>
              e.writes == []
    ensures exercise.Some? ==> HistorySavesFit(e.writes, prior, exercise.value.maxAttempts)
    ensures exercise.Some? ==> forall i :: 0 <= i < |e.writes| && e.writes[i].SaveRecord? ==>
              RecordFits(e.writes[i].record, exercise.value)
    ensures Notified(e.writes) <==> (prior.None? || !prior.value.isPassed) && SavedPassingRecord(e.writes)
    ensures e.outcome.Success? && e.outcome.value.Some? ==> WellFormed(e.outcome.value.value)
    ensures exercise.Some? && !Ledger.Exhausted(prior, exercise.value.maxAttempts) && languageName.Some? ==>
              var ex := exercise.value;
              var lang := LanguageOf(languageName.value);
              var compiled := Compile(lang, ex, code.source, tc);
              var run := Runner(lang, tc, code.source);
              (compiled.Failure? ==> e == Execution([], Failure(compiled.error))) &&
              (compiled.Success? && compiled.value.Some? ==>
                 CompileErrorOutcome(e, ex, prior, code, clock, compiled.value.value)) &&
              (compiled == Success(None) && code.executionType.None? ==> e == Execution([], Success(None))) &&
              (compiled == Success(None) && code.executionType == Some(TestCases) ==>
                 TrialOutcome(e, ex, prior, run, clock)) &&
              (compiled == Success(None) && code.executionType == Some(SubmitCases) ==>
                 GradedRunOutcome(e, ex, prior, run, code, clock, rankScore))
  {
    if exercise.None? then Execution([], Failure(ExerciseNotFound))
    else
      var ex := exercise.value;
      if Ledger.Exhausted(prior, ex.maxAttempts) then Execution([], Failure(MaxAttemptsExceeded))
      else if languageName.None? then Execution([], Failure(LanguageNotFound))
      else
        var lang := LanguageOf(languageName.value);
        match Compile(lang, ex, code.source, tc)
        case Failure(f) => Execution([], Failure(f))
        case Success(Some(err)) => CompileErrorBranch(ex, prior, code, clock, err)
        case Success(None) => RunCompiled(ex, prior, lang, code, tc, clock, rankScore)
  }
}
