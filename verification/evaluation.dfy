/** The case loop of executeUserCode: run every case of a list in order,
    trim what the program printed, compare it with the stored expected
    output, and report each case. */
module Evaluation {
  import opened Wrappers
  import Text
  import JavaText
  import CodeRun

  /** A stored test case: its id, the raw input, the expected output. */
  datatype CodeCase = CodeCase(id: int, input: string, output: string)

  /** The per-case report handed back to the user. */
  datatype CaseReport = CaseReport(caseId: int, input: string, expectedOutput: string,
                                   actualOutput: string, isPassed: bool)

  /** Outcome of a whole case list: matching cases and the reports. */
  datatype Evaluation = Evaluation(passed: nat, reports: seq<CaseReport>)

  /** The report for one case given what the runner returned: the output is
      trimmed, the expected output is used exactly as stored. */
  function ReportFor(c: CodeCase, printed: string): CaseReport {
    var actual := JavaText.Trim(printed);
    CaseReport(c.id, c.input, c.output, actual, actual == c.output)
  }

  /** Number of passing reports. */
  function PassedCount(reports: seq<CaseReport>): (n: nat)
    ensures n <= |reports|
  {
    if reports == [] then 0
    else (if reports[0].isPassed then 1 else 0) + PassedCount(reports[1..])
  }

  /** The case loop.  The first case whose run throws aborts the loop and
      the exception propagates; otherwise every case gets one report, in
      order, and `passed` counts the matching ones (EvaluateSucceeds,
      EvaluateReports and EvaluateFails state this). */
  function Evaluate(cases: seq<CodeCase>, run: string -> Result<string, CodeRun.Thrown>)
    : (r: Result<Evaluation, CodeRun.Thrown>)
    ensures r.Success? ==> |r.value.reports| == |cases| && r.value.passed <= |cases|
    decreases |cases|
  {
    if cases == [] then Success(Evaluation(0, []))
    else
      match run(cases[0].input)
      case Failure(e) => Failure(e)
      case Success(printed) =>
        match Evaluate(cases[1..], run)
        case Failure(e) => Failure(e)
        case Success(rest) =>
          var report := ReportFor(cases[0], printed);
          Success(Evaluation((if report.isPassed then 1 else 0) + rest.passed, [report] + rest.reports))
  }

  /** Every case's run returns normally. */
  predicate AllReturn(cases: seq<CodeCase>, run: string -> Result<string, CodeRun.Thrown>) {
    forall i :: 0 <= i < |cases| ==> run(cases[i].input).Success?
  }

  /** The loop completes exactly when no case's run throws. */
  lemma {:induction false} EvaluateSucceeds(cases: seq<CodeCase>, run: string -> Result<string, CodeRun.Thrown>)
    ensures Evaluate(cases, run).Success? <==> AllReturn(cases, run)
    decreases |cases|
  {
    if cases != [] {
      EvaluateSucceeds(cases[1..], run);
      assert forall j :: 1 <= j < |cases| ==> cases[1..][j - 1] == cases[j];
    }
  }

  /** When the loop completes, report i is the report of case i on what its
      run printed, and `passed` counts the passing reports. */
  lemma {:induction false} EvaluateReports(cases: seq<CodeCase>, run: string -> Result<string, CodeRun.Thrown>)
    requires Evaluate(cases, run).Success?
    ensures forall i :: 0 <= i < |cases| ==>
              run(cases[i].input).Success? &&
              Evaluate(cases, run).value.reports[i] == ReportFor(cases[i], run(cases[i].input).value)
    ensures Evaluate(cases, run).value.passed == PassedCount(Evaluate(cases, run).value.reports)
    decreases |cases|
  {
    if cases != [] {
      var rest := Evaluate(cases[1..], run);
      EvaluateReports(cases[1..], run);
      var reports := Evaluate(cases, run).value.reports;
      assert reports == [ReportFor(cases[0], run(cases[0].input).value)] + rest.value.reports;
      assert reports[1..] == rest.value.reports;
      forall i | 1 <= i < |cases|
        ensures run(cases[i].input).Success? && reports[i] == ReportFor(cases[i], run(cases[i].input).value)
      {
        assert cases[1..][i - 1] == cases[i];
        assert reports[i] == rest.value.reports[i - 1];
      }
    }
  }

  /** When the loop aborts, it is with the exception of the first case whose
      run throws. */
  lemma {:induction false} EvaluateFails(cases: seq<CodeCase>, run: string -> Result<string, CodeRun.Thrown>)
    requires Evaluate(cases, run).Failure?
    ensures exists i :: 0 <= i < |cases| && run(cases[i].input) == Failure(Evaluate(cases, run).error)
                        && AllReturn(cases[..i], run)
    decreases |cases|
  {
    if run(cases[0].input).Failure? {
      assert run(cases[0].input) == Failure(Evaluate(cases, run).error);
      assert AllReturn(cases[..0], run);
    } else {
      EvaluateFails(cases[1..], run);
      var i :| 0 <= i < |cases[1..]| && run(cases[1..][i].input) == Failure(Evaluate(cases[1..], run).error)
               && AllReturn(cases[1..][..i], run);
      assert cases[1..][i] == cases[i + 1];
      assert cases[..i + 1] == [cases[0]] + cases[1..][..i];
      assert AllReturn(cases[..i + 1], run) by {
        var prefix := cases[..i + 1];
        forall j | 0 <= j < i + 1 ensures run(prefix[j].input).Success? {
          if j > 0 { assert prefix[j] == cases[1..][..i][j - 1]; }
        }
      }
    }
  }

  /** A case passes exactly when what the program printed is the expected
      output with nothing but whitespace (characters up to U+0020) around
      it, and the expected output itself has no such padding.  In
      particular a trailing newline printed by the program does not matter,
      while "5.0" for an expected "5" fails. */
  lemma PassesIffPaddedExpectation(c: CodeCase, printed: string)
    ensures ReportFor(c, printed).isPassed <==>
              Text.Unpadded(c.output, Text.JavaSpace) &&
              exists a, b :: Text.Surrounds(printed, a, b, c.output, Text.JavaSpace)
  {
    Text.TrimWhereIff(printed, c.output, Text.JavaSpace);
  }
}
