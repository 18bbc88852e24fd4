/** CodeRunService: compiling and running a submission in C, C++, Java or
    Python.  The compilers, the produced binary, the JVM and the embedded
    interpreter are outside the model; each is a parameter (a Toolchain)
    describing what it does for a given source and standard input.  What is
    modelled is how the service turns their streams, exit codes and
    exceptions into the strings that are compared with the expected outputs. */
module CodeRun {
  import opened Wrappers
  import Text
  import JavaText

  /** The exception classes the service raises or inspects. */
  datatype ExceptionClass =
    | InputMismatchException      // java.util; a subclass of NoSuchElementException
    | NoSuchElementException
    | NullPointerException
    | ArithmeticException
    | IndexOutOfBoundsException
    | Exception                   // java.lang.Exception and every class not listed above

  /** Java's `instanceof` over the classes above. */
  predicate InstanceOf(c: ExceptionClass, of: ExceptionClass) {
    || c == of
    || (c == InputMismatchException && of == NoSuchElementException)
    || of == Exception
  }

  /** An exception object: its class and its message. */
  datatype Thrown = Thrown(cls: ExceptionClass, message: string)

  /** A child process after its standard output and error were read to the
      end, line by line, and it exited. */
  datatype Process = Process(exitCode: int, stdoutLines: seq<string>, stderrLines: seq<string>)

  /** Starting a process (and writing its input) either works or fails with
      an IOException. */
  datatype Spawn = Started(process: Process) | IoFailed(ioMessage: string)

  /** The in-process Java compiler's return code and captured error text. */
  datatype JavacRun = JavacRun(exitCode: int, errorText: string)

  /** Invoking `Solution.main`: it completes with what it printed, its body
      throws (the reflective call wraps the cause), or loading fails. */
  datatype JvmRun = Completed(stdout: string) | InvocationFailed(cause: Thrown) | LoadFailed(error: Thrown)

  /** Executing the source in a fresh Python interpreter: it finishes with the
      captured stdout and stderr, the interpreter raises a JepException, or
      some other exception escapes. */
  datatype PyRun = Executed(stdout: string, stderr: string) | JepFailed(jepMessage: string) | HostFailed(hostMessage: string)

  /** The outside world the service drives. */
  datatype Toolchain = Toolchain(
    javac: string -> JavacRun,            // source -> compiler result
    gpp: (string, string) -> Spawn,       // (file name, source) -> g++ process
    binary: (string, string) -> Spawn,    // (source it was built from, stdin) -> ./solution process
    jvm: (string, string) -> JvmRun,      // (source it was built from, stdin) -> Solution.main
    python: (string, string) -> PyRun,    // (source, stdin) -> interpreter run
    lineSeparator: string)                // System.lineSeparator(), what newLine() writes

  /** What a StringBuilder holds after appending every line read and a "\n". */
  function Drain(lines: seq<string>): string {
    if lines == [] then [] else lines[0] + "\n" + Drain(lines[1..])
  }

  /** The drained text is blank exactly when every line read is blank. */
  lemma {:induction false} DrainBlank(lines: seq<string>)
    ensures Text.All(Drain(lines), Text.JavaSpace)
        <==> forall i :: 0 <= i < |lines| ==> Text.All(lines[i], Text.JavaSpace)
    decreases |lines|
  {
    if lines != [] {
      DrainBlank(lines[1..]);
      var d := Drain(lines);
      var n := |lines[0]|;
      assert d == lines[0] + ("\n" + Drain(lines[1..]));
      if Text.All(d, Text.JavaSpace) {
        assert forall j :: 0 <= j < n ==> lines[0][j] == d[j];
        assert forall j :: 0 <= j < |Drain(lines[1..])| ==> Drain(lines[1..])[j] == d[n + 1 + j];
        forall i | 0 <= i < |lines| ensures Text.All(lines[i], Text.JavaSpace) {
          if i > 0 { assert lines[i] == lines[1..][i - 1]; }
        }
      }
      if forall i :: 0 <= i < |lines| ==> Text.All(lines[i], Text.JavaSpace) {
        assert Text.All(lines[0], Text.JavaSpace);
        assert forall i :: 0 <= i < |lines[1..]| ==> Text.All(lines[1..][i], Text.JavaSpace) by {
          forall i | 0 <= i < |lines[1..]| ensures Text.All(lines[1..][i], Text.JavaSpace) {
            assert lines[1..][i] == lines[i + 1];
          }
        }
        forall j | 0 <= j < |d| ensures Text.IsPad(Text.JavaSpace, d[j]) {
          if j < n { assert d[j] == lines[0][j]; }
          else if j > n { assert d[j] == Drain(lines[1..])[j - n - 1]; }
        }
      }
    }
  }

  /** The verdict of compileCCode/compileCppCode on the compiler's stderr:
      any non-blank output, warnings included, is a compilation error; the
      exit code is never consulted. */
  function NativeCompileError(stderrLines: seq<string>): (r: Option<string>)
    ensures r.None? <==> forall i :: 0 <= i < |stderrLines| ==> Text.All(stderrLines[i], Text.JavaSpace)
    ensures r.Some? ==> Text.StartsWith(r.value, "Compilation Error: ")
                        && r.value[|"Compilation Error: "|..] == JavaText.Trim(Drain(stderrLines))
  {
    DrainBlank(stderrLines);
    var diagnostics := JavaText.Trim(Drain(stderrLines));
    if diagnostics != [] then Some("Compilation Error: " + diagnostics) else None
  }

  /** compileCCode: g++ over solution.c.  Success(None) is the Java null
      (compiled); a failure to start g++ is rethrown. */
  function CompileCCode(tc: Toolchain, source: string): (r: Result<Option<string>, Thrown>)
    ensures tc.gpp("solution.c", source).IoFailed? <==> r.Failure?
    ensures r.Failure? ==> r.error == Thrown(Exception, "Compilation Error: " + tc.gpp("solution.c", source).ioMessage)
    ensures r.Success? ==> r.value == NativeCompileError(tc.gpp("solution.c", source).process.stderrLines)
  {
    match tc.gpp("solution.c", source)
    case IoFailed(m) => Failure(Thrown(Exception, "Compilation Error: " + m))
    case Started(p) => Success(NativeCompileError(p.stderrLines))
  }

  /** compileCppCode: g++ over solution.cpp; a failure to start it is rethrown
      with a different prefix than for C. */
  function CompileCppCode(tc: Toolchain, source: string): (r: Result<Option<string>, Thrown>)
    ensures tc.gpp("solution.cpp", source).IoFailed? <==> r.Failure?
    ensures r.Failure? ==> r.error == Thrown(Exception, "Compilation failed: " + tc.gpp("solution.cpp", source).ioMessage)
    ensures r.Success? ==> r.value == NativeCompileError(tc.gpp("solution.cpp", source).process.stderrLines)
  {
    match tc.gpp("solution.cpp", source)
    case IoFailed(m) => Failure(Thrown(Exception, "Compilation failed: " + m))
    case Started(p) => Success(NativeCompileError(p.stderrLines))
  }

  /** compileJavaCode: the compiler's return code alone decides; the captured
      error text is returned as is, whatever it contains. */
  function CompileJavaCode(tc: Toolchain, source: string): (r: Option<string>)
    ensures r.Some? <==> tc.javac(source).exitCode != 0
    ensures r.Some? ==> r.value == tc.javac(source).errorText
  {
    var run := tc.javac(source);
    if run.exitCode != 0 then Some(run.errorText) else None
  }

  /** What runCCode/runCppCode return once the program ran: non-blank stderr
      wins and stdout is dropped; otherwise the trimmed stdout. */
  function NativeRunOutput(p: Process): (out: string)
    ensures (forall i :: 0 <= i < |p.stderrLines| ==> Text.All(p.stderrLines[i], Text.JavaSpace))
            ==> out == JavaText.Trim(Drain(p.stdoutLines))
    ensures !(forall i :: 0 <= i < |p.stderrLines| ==> Text.All(p.stderrLines[i], Text.JavaSpace))
            ==> out == "Runtime Error:\n" + JavaText.Trim(Drain(p.stderrLines))
  {
    DrainBlank(p.stderrLines);
    var errors := JavaText.Trim(Drain(p.stderrLines));
    if errors != [] then "Runtime Error:\n" + errors
    else JavaText.Trim(Drain(p.stdoutLines))
  }

  /** The standard input a native program reads: the normalised input and
      the platform line separator `newLine()` writes after it. */
  function NativeStdin(input: string, separator: string): string {
    JavaText.NormaliseInput(input) + separator
  }

  /** runCCode: run ./solution on the normalised input. */
  function RunCCode(tc: Toolchain, source: string, input: string): (r: Result<string, Thrown>)
    ensures r.Failure? <==> tc.binary(source, NativeStdin(input, tc.lineSeparator)).IoFailed?
    ensures r.Failure? ==> r.error == Thrown(Exception, "Solution.exe does not exist: " + tc.binary(source, NativeStdin(input, tc.lineSeparator)).ioMessage)
    ensures r.Success? ==> r.value == NativeRunOutput(tc.binary(source, NativeStdin(input, tc.lineSeparator)).process)
  {
    match tc.binary(source, NativeStdin(input, tc.lineSeparator))
    case IoFailed(m) => Failure(Thrown(Exception, "Solution.exe does not exist: " + m))
    case Started(p) => Success(NativeRunOutput(p))
  }

  /** runCppCode: as runCCode, with a different message when ./solution
      cannot be started. */
  function RunCppCode(tc: Toolchain, source: string, input: string): (r: Result<string, Thrown>)
    ensures r.Failure? <==> tc.binary(source, NativeStdin(input, tc.lineSeparator)).IoFailed?
    ensures r.Failure? ==> r.error == Thrown(Exception, "Execution failed: " + tc.binary(source, NativeStdin(input, tc.lineSeparator)).ioMessage)
    ensures r.Success? ==> r.value == NativeRunOutput(tc.binary(source, NativeStdin(input, tc.lineSeparator)).process)
  {
    match tc.binary(source, NativeStdin(input, tc.lineSeparator))
    case IoFailed(m) => Failure(Thrown(Exception, "Execution failed: " + m))
    case Started(p) => Success(NativeRunOutput(p))
  }

  /** The exception runJavaClass rethrows for the cause of a failed `main`.
      The classes are checked in a fixed order, the subclass
      InputMismatchException before its superclass NoSuchElementException. */
  function ClassifyCause(cause: Thrown): (t: Thrown)
    ensures cause.cls == InputMismatchException ==> t == Thrown(InputMismatchException, "The input is of an incorrect type.")
    ensures cause.cls == NoSuchElementException ==> t == Thrown(NoSuchElementException, "Scanner tried to read but no input was provided.")
    ensures cause.cls == NullPointerException ==> t == Thrown(NullPointerException, "A null object was accessed in the executed code.")
    ensures cause.cls !in {InputMismatchException, NoSuchElementException, NullPointerException}
            ==> t == Thrown(Exception, "Error in execution: " + cause.message)
  {
    if InstanceOf(cause.cls, InputMismatchException) then
      Thrown(InputMismatchException, "The input is of an incorrect type.")
    else if InstanceOf(cause.cls, NoSuchElementException) then
      Thrown(NoSuchElementException, "Scanner tried to read but no input was provided.")
    else if InstanceOf(cause.cls, NullPointerException) then
      Thrown(NullPointerException, "A null object was accessed in the executed code.")
    else
      Thrown(Exception, "Error in execution: " + cause.message)
  }

  /** runJavaClass: the raw input bytes become System.in (no normalisation)
      and the untrimmed text `main` printed is returned. */
  function RunJavaClass(tc: Toolchain, source: string, input: string): (r: Result<string, Thrown>)
    ensures tc.jvm(source, input).Completed? <==> r.Success?
    ensures r.Success? ==> r.value == tc.jvm(source, input).stdout
    ensures tc.jvm(source, input).InvocationFailed? ==> r == Failure(ClassifyCause(tc.jvm(source, input).cause))
    ensures tc.jvm(source, input).LoadFailed? ==> r == Failure(tc.jvm(source, input).error)
  {
    match tc.jvm(source, input)
    case Completed(out) => Success(out)
    case InvocationFailed(cause) => Failure(ClassifyCause(cause))
    case LoadFailed(e) => Failure(e)
  }

  /** What runPythonCode returns once the interpreter ran: any stderr output
      at all, even blank, is an error; otherwise the trimmed stdout. */
  function PythonRunOutput(stdout: string, stderr: string): (out: string)
    ensures stderr != [] ==> Text.StartsWith(out, "ERROR: PythonError: ")
                             && out[|"ERROR: PythonError: "|..] == JavaText.Trim(stderr)
    ensures stderr == [] ==> out == JavaText.Trim(stdout)
  {
    if stderr != [] then "ERROR: PythonError: " + JavaText.Trim(stderr) else JavaText.Trim(stdout)
  }

  /** runPythonCode: the interpreter reads the normalised input; interpreter
      errors come back as text, other failures are rethrown. */
  function RunPythonCode(tc: Toolchain, source: string, input: string): (r: Result<string, Thrown>)
    ensures r.Failure? <==> tc.python(source, JavaText.NormaliseInput(input)).HostFailed?
    ensures r.Failure? ==> r.error == Thrown(Exception, "Error in execution: " + tc.python(source, JavaText.NormaliseInput(input)).hostMessage)
    ensures tc.python(source, JavaText.NormaliseInput(input)).JepFailed? ==>
              r == Success("ERROR: JepError: " + tc.python(source, JavaText.NormaliseInput(input)).jepMessage)
    ensures tc.python(source, JavaText.NormaliseInput(input)).Executed? ==>
              var run := tc.python(source, JavaText.NormaliseInput(input));
              r == Success(PythonRunOutput(run.stdout, run.stderr))
  {
    match tc.python(source, JavaText.NormaliseInput(input))
    case Executed(out, err) => Success(PythonRunOutput(out, err))
    case JepFailed(m) => Success("ERROR: JepError: " + m)
    case HostFailed(m) => Failure(Thrown(Exception, "Error in execution: " + m))
  }
}
