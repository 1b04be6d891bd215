/** The outcome of one command execution and its rendering as the text report the tools
    hand back to their caller. */
module Results {
  import opened Wrappers
  import opened Text

  /** `exitCode` is meaningful only for a normal exit; `errorMessage` marks a run that never
      reached a normal exit (missing executable, failed pre-flight check, timeout, exception). */
  datatype ExecutionResult = ExecutionResult(
    exitCode: int,
    output: string,
    error: string,
    timedOut: bool,
    errorMessage: Option<string>)

  /** A result whose properties were left at their defaults. */
  const Empty: ExecutionResult := ExecutionResult(0, "", "", false, None)

  /** A result that carries only an error message. */
  function Fatal(message: string): ExecutionResult {
    Empty.(errorMessage := Some(message))
  }

  /** `ExecutionResult.Success` as the source defines it: the exit code is zero. */
  predicate Success(r: ExecutionResult) {
    r.exitCode == 0
  }

  /** Success in the strict sense: no error message, no timeout, and exit code zero. */
  predicate Succeeded(r: ExecutionResult) {
    r.errorMessage.None? && !r.timedOut && r.exitCode == 0
  }

  /** A result that only carries an error message reports `Success`, since its exit code is
      left at zero: the source's `Success` does not tell such a result from a clean run. */
  lemma FatalReportsSuccess(message: string)
    ensures Success(Fatal(message)) && !Succeeded(Fatal(message))
  {
  }

  const ErrorPrefix: string := "Error: "
  const ExitCodePrefix: string := "Exit Code: "
  const TimeoutBanner: string := "\n=== Execution Timed Out ===" + NewLine
  const OutputHeader: string := "\n=== Output ===" + NewLine
  const ErrorsHeader: string := "\n=== Errors/Warnings ===" + NewLine

  function ExitCodeLine(code: int): string {
    ExitCodePrefix + IntToString(code) + NewLine
  }

  /** A titled block, left out when the body is blank. */
  function Block(header: string, body: string): string {
    if IsBlank(body) then "" else header + body + NewLine
  }

  /** The report of a result that is not an error: the exit-code line, then the timeout
      banner, the output block and the errors block, each only when it applies. */
  function Report(r: ExecutionResult): string {
    ExitCodeLine(r.exitCode) + (if r.timedOut then TimeoutBanner else "") + Block(OutputHeader, r.output) + Block(ErrorsHeader, r.error)
  }

  /** Concatenation regrouped. */
  lemma Regroup(a: string, b: string, c: string, d: string)
    ensures a + b + c + d == a + (b + c + d)
  {
  }

  /** What follows a prefix. */
  lemma AfterPrefix(prefix: string, rest: string)
    ensures (prefix + rest)[|prefix|..] == rest
  {
  }

  /** `ExecutionResult.ToString`: a lone `Error:` line when the error message is not blank,
      the full report otherwise. */
  function Render(r: ExecutionResult): (text: string)
    ensures !IsNullOrWhiteSpace(r.errorMessage) ==> text == ErrorPrefix + r.errorMessage.value + NewLine
    ensures IsNullOrWhiteSpace(r.errorMessage) ==> text == Report(r)
  {
    if !IsNullOrWhiteSpace(r.errorMessage) then ErrorPrefix + r.errorMessage.value + NewLine
    else Report(r)
  }

  /** `ToString` as the source writes it: appends to a builder, returning early with the
      error line. */
  method ToText(r: ExecutionResult) returns (text: string)
    ensures text == Render(r)
  {
    text := "";
    if !IsNullOrWhiteSpace(r.errorMessage) {
      text := text + (ErrorPrefix + r.errorMessage.value) + NewLine;
      return;
    }
    text := text + (ExitCodePrefix + IntToString(r.exitCode)) + NewLine;
    assert text == ExitCodeLine(r.exitCode);
    if r.timedOut {
      text := text + TimeoutBanner;
    } else {
      assert text == text + "";
    }
    assert text == ExitCodeLine(r.exitCode) + (if r.timedOut then TimeoutBanner else "");
    text := AppendBlock(text, OutputHeader, r.output);
    text := AppendBlock(text, ErrorsHeader, r.error);
  }

  /** Appends a titled block unless its body is blank. */
  method AppendBlock(text: string, header: string, body: string) returns (result: string)
    ensures result == text + Block(header, body)
  {
    result := text;
    if !IsBlank(body) {
      result := result + header;
      result := result + body + NewLine;
    }
  }


  /** The report is an error report exactly when the result has a non-blank error message. */
  lemma RenderErrorIff(r: ExecutionResult)
    ensures |Render(r)| >= |ErrorPrefix|
    ensures Render(r)[..|ErrorPrefix|] == ErrorPrefix <==> !IsNullOrWhiteSpace(r.errorMessage)
  {
    if IsNullOrWhiteSpace(r.errorMessage) {
      assert Report(r)[1] == ExitCodeLine(r.exitCode)[1] == 'x';
    }
  }

  /** Right after the exit-code line, the report shows the timeout banner exactly when the
      result timed out. */
  lemma TimeoutBannerIff(r: ExecutionResult)
    ensures var rest := Report(r)[|ExitCodeLine(r.exitCode)|..];
      (|rest| >= |TimeoutBanner| && rest[..|TimeoutBanner|] == TimeoutBanner) <==> r.timedOut
  {
    ReportAfterLine(r);
    BlocksDoNotStartWithBanner(r.output, r.error);
    OptionalPrefix(TimeoutBanner, Block(OutputHeader, r.output) + Block(ErrorsHeader, r.error), r.timedOut);
  }

  /** A text that does not start with `p` starts with it once `p` is put in front, and only then. */
  lemma OptionalPrefix(p: string, body: string, present: bool)
    requires !(|body| >= |p| && body[..|p|] == p)
    ensures var s := (if present then p else "") + body;
      (|s| >= |p| && s[..|p|] == p) <==> present
  {
    if present {
      assert (p + body)[..|p|] == p;
    } else {
      assert "" + body == body;
    }
  }

  /** What the report holds after the exit-code line. */
  function AfterLine(r: ExecutionResult): string {
    (if r.timedOut then TimeoutBanner else "") + (Block(OutputHeader, r.output) + Block(ErrorsHeader, r.error))
  }

  /** The report is the exit-code line followed by the rest. */
  lemma ReportSplit(r: ExecutionResult)
    ensures Report(r) == ExitCodeLine(r.exitCode) + AfterLine(r)
  {
    Regroup(ExitCodeLine(r.exitCode), if r.timedOut then TimeoutBanner else "",
      Block(OutputHeader, r.output), Block(ErrorsHeader, r.error));
    Associate(if r.timedOut then TimeoutBanner else "", Block(OutputHeader, r.output), Block(ErrorsHeader, r.error));
  }

  lemma Associate(a: string, b: string, c: string)
    ensures a + b + c == a + (b + c)
  {
  }

  lemma ReportAfterLine(r: ExecutionResult)
    ensures Report(r)[|ExitCodeLine(r.exitCode)|..] == AfterLine(r)
  {
    ReportSplit(r);
    AfterPrefix(ExitCodeLine(r.exitCode), AfterLine(r));
  }

  /** The output and errors blocks never start like the timeout banner. */
  lemma BlocksDoNotStartWithBanner(output: string, error: string)
    ensures var body := Block(OutputHeader, output) + Block(ErrorsHeader, error);
      !(|body| >= |TimeoutBanner| && body[..|TimeoutBanner|] == TimeoutBanner)
  {
    var body := Block(OutputHeader, output) + Block(ErrorsHeader, error);
    if |body| >= |TimeoutBanner| {
      if !IsBlank(output) {
        assert body[5] == OutputHeader[5];
      } else {
        assert body[6] == ErrorsHeader[6];
      }
    }
  }

  /** A line ended by a carriage return is fixed by the text it starts, when it holds no
      carriage return itself. */
  lemma LineUnique(a: string, b: string, restA: string, restB: string)
    requires forall i :: 0 <= i < |a| ==> a[i] != '\r'
    requires forall i :: 0 <= i < |b| ==> b[i] != '\r'
    requires a + "\r" + restA == b + "\r" + restB
    ensures a == b
  {
    var s := a + "\r" + restA;
    assert s[|a|] == '\r';
    assert (b + "\r" + restB)[|b|] == '\r';
    assert |a| == |b|;
    assert a == s[..|a|];
    assert b == (b + "\r" + restB)[..|b|];
  }

  /** A line break splits into its carriage return and line feed. */
  lemma SplitNewLine(a: string, t: string)
    ensures a + NewLine + t == a + "\r" + ("\n" + t)
  {
    assert NewLine == "\r" + "\n";
  }

  /** The exit-code line holds no carriage return before its line break. */
  lemma NoCarriageReturn(n: string)
    requires forall k :: 0 <= k < |n| ==> IsDigit(n[k]) || n[k] == '-'
    ensures forall i :: 0 <= i < |ExitCodePrefix + n| ==> (ExitCodePrefix + n)[i] != '\r'
  {
    forall i | 0 <= i < |ExitCodePrefix + n|
      ensures (ExitCodePrefix + n)[i] != '\r'
    {
      if i >= |ExitCodePrefix| {
        assert (ExitCodePrefix + n)[i] == n[i - |ExitCodePrefix|];
      }
    }
  }

  /** Two results that are not errors and render to the same report have the same exit code
      and the same timeout flag: the report keeps both. */
  lemma RenderKeepsExitCodeAndTimeout(r1: ExecutionResult, r2: ExecutionResult)
    requires IsNullOrWhiteSpace(r1.errorMessage) && IsNullOrWhiteSpace(r2.errorMessage)
    requires Render(r1) == Render(r2)
    ensures r1.exitCode == r2.exitCode && r1.timedOut == r2.timedOut
  {
    var n1, n2 := IntToString(r1.exitCode), IntToString(r2.exitCode);
    var a1, a2 := ExitCodePrefix + n1, ExitCodePrefix + n2;
    ReportSplit(r1);
    ReportSplit(r2);
    SplitNewLine(a1, AfterLine(r1));
    SplitNewLine(a2, AfterLine(r2));
    NoCarriageReturn(n1);
    NoCarriageReturn(n2);
    LineUnique(a1, a2, "\n" + AfterLine(r1), "\n" + AfterLine(r2));
    AfterPrefix(ExitCodePrefix, n1);
    AfterPrefix(ExitCodePrefix, n2);
    IntToStringInjective(r1.exitCode, r2.exitCode);
    TimeoutBannerIff(r1);
    TimeoutBannerIff(r2);
  }

  /** Output that is blank renders exactly as no output at all. */
  lemma BlankOutputOmitted(r: ExecutionResult)
    requires IsBlank(r.output)
    ensures Render(r) == Render(r.(output := ""))
  {
  }

  /** Non-blank output appears, under its header, between the timeout banner and the
      errors block. */
  lemma OutputBlockShown(r: ExecutionResult)
    requires !IsBlank(r.output)
    ensures Report(r) == Report(r.(output := "", error := "")) + OutputHeader + r.output + NewLine + Block(ErrorsHeader, r.error)
  {
  }

  /** A non-blank error stream closes the report under its header; a blank one is omitted. */
  lemma ErrorsBlockLast(r: ExecutionResult)
    ensures !IsBlank(r.error) ==> Report(r) == Report(r.(error := "")) + ErrorsHeader + r.error + NewLine
    ensures IsBlank(r.error) ==> Report(r) == Report(r.(error := ""))
  {
  }

  /** A clean run that printed `ok` reports its exit code and an output block, and no errors block. */
  lemma RenderOkExample()
    ensures Render(ExecutionResult(0, "ok", "", false, None))
      == "Exit Code: 0\r\n" + "\n=== Output ===\r\n" + "ok\r\n"
  {
    var r := ExecutionResult(0, "ok", "", false, None);
    assert ExitCodeLine(0) == "Exit Code: 0\r\n" by {
      assert IntToString(0) == "0";
    }
    assert Block(OutputHeader, "ok") == "\n=== Output ===\r\n" + "ok\r\n" by {
      NotBlankAt("ok", 0);
    }
    assert Block(ErrorsHeader, "") == "";
    assert Render(r) == ExitCodeLine(0) + "" + Block(OutputHeader, "ok") + Block(ErrorsHeader, "");
  }
}
