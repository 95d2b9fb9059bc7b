/** The code-execution judge shared by the three runners
    (`evaluateCppCode`, `evaluateJavaCode`, `evaluatePythonCode`).

    The Docker calls are an oracle: the compile (or syntax-check) command
    yields one `CmdResult`, and running the program on the case at position
    `i` yields `run(i)`. What remains is the compile gate, the per-case
    classification, and the fold of the per-case results into `passed`,
    `maxTime`, `finalVerdict` and `firstError`.

    The fold is specified here by definitions that look at the whole list
    of case results at once (a count, a maximum, the first failing case);
    the loop in `RunCases` is proved to compute exactly them. */
module Judge {
  import opened Wrappers
  import opened Text
  import opened TimingMarker

  datatype Language = Cpp | Java | Python

  datatype Verdict =
    | Accepted
    | WrongAnswer
    | TimeLimitExceeded
    | RuntimeError
    | CompilationError
    | SyntaxError
    | SystemError
  {
    /** The verdict string the runners return. */
    function Name(): string {
      match this
      case Accepted => "Accepted"
      case WrongAnswer => "Wrong Answer"
      case TimeLimitExceeded => "Time Limit Exceeded"
      case RuntimeError => "Runtime Error"
      case CompilationError => "Compilation Error"
      case SyntaxError => "Syntax Error"
      case SystemError => "System Error"
    }
  }

  /** One hidden test case, `{ input, output }`. */
  datatype TestCase = TestCase(input: string, output: string)

  /** What a command run in the worker container reports. */
  datatype CmdResult = CmdResult(code: int, stdout: string, stderr: string)

  /** The exit status `timeout` gives a program it had to stop. */
  const TimeoutExitCode: int := 124

  /** The object a runner returns: either the full record, or, when an
      exception escaped, only `{ verdict: "System Error", error }`. */
  datatype Report =
    | Judged(verdict: Verdict, passed: nat, total: nat, executionTimeMs: nat, error: Option<string>)
    | Failed(message: string)
  {
    function VerdictName(): string {
      if Judged? then verdict.Name() else SystemError.Name()
    }
  }

  // ----- what differs between the three runners -----

  /** The verdict of a failed compile step: `py_compile` reports a
      "Syntax Error", `g++` and `javac` a "Compilation Error". */
  function CompileFailureVerdict(lang: Language): (v: Verdict)
    ensures v == SyntaxError <==> lang == Python
    ensures v == CompilationError <==> lang != Python
  {
    if lang == Python then SyntaxError else CompilationError
  }

  /** The output comparison. `userOutput` is the marker-stripped, trimmed
      stdout. The C++ runner removes every carriage return from both sides
      and trims them; the Java and Python runners only trim the expected
      output. */
  predicate OutputMatches(lang: Language, userOutput: string, expected: string) {
    match lang
    case Cpp => Trim(StripCR(userOutput)) == Trim(StripCR(expected))
    case Java => userOutput == Trim(expected)
    case Python => userOutput == Trim(expected)
  }

  // ----- one test case -----

  datatype CaseStatus = Passed | TimedOut | Crashed(stderr: string) | Mismatch

  /** Exit code 124 is a timeout, checked before any other non-zero code;
      a clean exit passes when the output matches. */
  function Classify(lang: Language, tc: TestCase, r: CmdResult): CaseStatus {
    Outcome(r.code, r.stderr, OutputMatches(lang, UserOutput(r.stdout), tc.output))
  }

  /** The status of a case from its exit code, its stderr and whether its
      output matched. */
  function Outcome(code: int, stderr: string, matched: bool): CaseStatus {
    if code == TimeoutExitCode then TimedOut
    else if code != 0 then Crashed(stderr)
    else if matched then Passed
    else Mismatch
  }

  /** A case times out exactly on exit code 124, crashes exactly on any
      other non-zero code (keeping its stderr), and passes exactly when it
      exits cleanly with matching output. */
  lemma ClassifyCases(lang: Language, tc: TestCase, r: CmdResult)
    ensures var st := Classify(lang, tc, r);
      && (st == TimedOut <==> r.code == TimeoutExitCode)
      && (st.Crashed? <==> r.code != 0 && r.code != TimeoutExitCode)
      && (st.Crashed? ==> st.stderr == r.stderr)
      && (st == Passed <==> r.code == 0 && OutputMatches(lang, UserOutput(r.stdout), tc.output))
  {
  }

  /** The verdict a failing case stands for. */
  function FailureVerdict(st: CaseStatus): Verdict {
    match st
    case Passed => Accepted
    case TimedOut => TimeLimitExceeded
    case Crashed(_) => RuntimeError
    case Mismatch => WrongAnswer
  }

  /** The status of every case, in order. */
  function Statuses(lang: Language, cases: seq<TestCase>, run: nat -> CmdResult): (st: seq<CaseStatus>)
    ensures |st| == |cases|
  {
    seq(|cases|, k requires 0 <= k < |cases| => Classify(lang, cases[k], run(k)))
  }

  /** The time every run reported, in order. */
  function Times(cases: seq<TestCase>, run: nat -> CmdResult): (ts: seq<nat>)
    ensures |ts| == |cases|
  {
    seq<nat>(|cases|, k requires 0 <= k < |cases| => ParseTime(run(k).stdout))
  }

  // ----- the aggregate, defined over the whole list -----

  function CountPassed(st: seq<CaseStatus>): (n: nat)
    ensures n <= |st|
  {
    if st == [] then 0 else (if st[0] == Passed then 1 else 0) + CountPassed(st[1..])
  }

  function MaxOf(ts: seq<nat>): (m: nat)
    ensures forall k :: 0 <= k < |ts| ==> ts[k] <= m
    ensures ts == [] ==> m == 0
    ensures ts != [] ==> m in ts
  {
    if ts == [] then 0
    else
      var rest := MaxOf(ts[1..]);
      assert rest != 0 ==> rest in ts[1..];
      if ts[0] >= rest then ts[0] else rest
  }

  /** The position of the first case that did not pass. */
  function FirstFailure(st: seq<CaseStatus>): (r: Option<nat>)
    ensures r.None? <==> forall k :: 0 <= k < |st| ==> st[k] == Passed
    ensures r.Some? ==> r.value < |st| && st[r.value] != Passed
    ensures r.Some? ==> forall k :: 0 <= k < r.value ==> st[k] == Passed
  {
    if st == [] then None
    else if st[0] != Passed then Some(0)
    else match FirstFailure(st[1..])
      case None => None
      case Some(i) => Some(i + 1)
  }

  /** "Accepted" unless some case failed; then the kind of the first failure. */
  function VerdictOf(st: seq<CaseStatus>): Verdict {
    match FirstFailure(st)
    case None => Accepted
    case Some(i) => FailureVerdict(st[i])
  }

  /** The stderr of the first failing case, when that case crashed. */
  function ErrorOf(st: seq<CaseStatus>): Option<string> {
    match FirstFailure(st)
    case Some(i) => if st[i].Crashed? then Some(st[i].stderr) else None
    case None => None
  }

  /** The runner's result, from the compile outcome and the per-case outcomes. */
  function Evaluation(lang: Language, cases: seq<TestCase>, compile: CmdResult, run: nat -> CmdResult): Report {
    if compile.code != 0 then
      Judged(CompileFailureVerdict(lang), 0, |cases|, 0, Some(Trim(compile.stderr)))
    else
      var st := Statuses(lang, cases, run);
      Judged(VerdictOf(st), CountPassed(st), |cases|, MaxOf(Times(cases, run)), ErrorOf(st))
  }

  // ----- the loop -----

  function Indices(n: nat): (s: seq<nat>)
    ensures |s| == n && forall i :: 0 <= i < n ==> s[i] == i
  {
    seq(n, i requires 0 <= i < n => i)
  }

  /** The four accumulators of the test-case loop. */
  datatype Tally = Tally(passed: nat, maxTime: nat, verdict: Verdict, error: Option<string>)

  /** One case folded into the accumulators: a pass counts, the time
      raises the maximum, and only the first failure sets the verdict (and,
      for a crash, the error). */
  function Step(t: Tally, x: CaseStatus, time: nat): Tally {
    Tally(
      t.passed + (if x == Passed then 1 else 0),
      if t.maxTime >= time then t.maxTime else time,
      if t.verdict == Accepted then FailureVerdict(x) else t.verdict,
      if t.verdict == Accepted && x.Crashed? then Some(x.stderr) else t.error)
  }

  /** The accumulators after the first `n` cases, given every case's
      status and time. */
  function Fold(st: seq<CaseStatus>, ts: seq<nat>, n: nat): Tally
    requires n <= |st| && n <= |ts|
  {
    if n == 0 then Tally(0, 0, Accepted, None)
    else Step(Fold(st, ts, n - 1), st[n - 1], ts[n - 1])
  }

  /** One pass of the loop body: the exit code 124 is a timeout, any other
      non-zero code a crash, and a clean exit passes when the output
      matches. */
  method ScoreCase(lang: Language, tc: TestCase, result: CmdResult, t: Tally) returns (t': Tally)
    ensures t' == Step(t, Classify(lang, tc, result), ParseTime(result.stdout))
  {
    var executionTime := ParseTime(result.stdout);
    var userOutput := UserOutput(result.stdout);
    t' := Record(t, result.code, result.stderr, OutputMatches(lang, userOutput, tc.output), executionTime);
  }

  method Record(t: Tally, code: int, stderr: string, matched: bool, executionTime: nat) returns (t': Tally)
    ensures t' == Step(t, Outcome(code, stderr, matched), executionTime)
  {
    var passed, maxTime, finalVerdict, firstError := t.passed, t.maxTime, t.verdict, t.error;
    maxTime := if maxTime >= executionTime then maxTime else executionTime;
    if code == TimeoutExitCode {
      if finalVerdict == Accepted {
        finalVerdict := TimeLimitExceeded;
      }
    } else if code != 0 {
      if finalVerdict == Accepted {
        finalVerdict := RuntimeError;
        firstError := Some(stderr);
      }
    } else if matched {
      passed := passed + 1;
    } else {
      if finalVerdict == Accepted {
        finalVerdict := WrongAnswer;
      }
    }
    t' := Tally(passed, maxTime, finalVerdict, firstError);
  }

  /** The test-case loop of every runner: each case is run once, in order,
      with no early exit. `attempted` lists the positions handed to the
      oracle, in call order. */
  method RunCases(lang: Language, cases: seq<TestCase>, run: nat -> CmdResult)
    returns (passed: nat, maxTime: nat, finalVerdict: Verdict, firstError: Option<string>, attempted: seq<nat>)
    ensures attempted == Indices(|cases|)
    ensures passed == CountPassed(Statuses(lang, cases, run))
    ensures maxTime == MaxOf(Times(cases, run))
    ensures finalVerdict == VerdictOf(Statuses(lang, cases, run))
    ensures firstError == ErrorOf(Statuses(lang, cases, run))
  {
    ghost var st := Statuses(lang, cases, run);
    ghost var ts := Times(cases, run);
    var t := Tally(0, 0, Accepted, None);
    attempted := [];
    var i := 0;
    while i < |cases|
      invariant 0 <= i <= |cases|
      invariant attempted == Indices(i)
      invariant t == Fold(st, ts, i)
    {
      var result := run(i);
      t := ScoreCase(lang, cases[i], result, t);
      IndicesSnoc(i);
      attempted := attempted + [i];
      i := i + 1;
    }
    FoldAggregates(st, ts, |cases|);
    PrefixAll(st);
    PrefixAll(ts);
    passed, maxTime, finalVerdict, firstError := t.passed, t.maxTime, t.verdict, t.error;
  }

  /** The fold of a prefix computes the whole-list aggregates of that prefix. */
  lemma {:induction false} FoldAggregates(st: seq<CaseStatus>, ts: seq<nat>, n: nat)
    requires n <= |st| && n <= |ts|
    ensures Fold(st, ts, n) == Tally(CountPassed(st[..n]), MaxOf(ts[..n]), VerdictOf(st[..n]), ErrorOf(st[..n]))
  {
    if n > 0 {
      FoldAggregates(st, ts, n - 1);
      PrefixSnoc(st, n - 1);
      PrefixSnoc(ts, n - 1);
      StepAggregates(st[..n - 1], ts[..n - 1], st[n - 1], ts[n - 1]);
    }
  }

  lemma PrefixSnoc<T>(s: seq<T>, i: nat)
    requires i < |s|
    ensures s[..i + 1] == s[..i] + [s[i]]
  {
  }

  lemma PrefixAll<T>(s: seq<T>)
    ensures s[..|s|] == s
  {
  }

  /** Folding one more case into the aggregates of a prefix gives the
      aggregates of the longer list. */
  lemma StepAggregates(p: seq<CaseStatus>, ts: seq<nat>, x: CaseStatus, time: nat)
    ensures Step(Tally(CountPassed(p), MaxOf(ts), VerdictOf(p), ErrorOf(p)), x, time)
      == Tally(CountPassed(p + [x]), MaxOf(ts + [time]), VerdictOf(p + [x]), ErrorOf(p + [x]))
  {
    CountPassedSnoc(p, x);
    VerdictOfSnoc(p, x);
    ErrorOfSnoc(p, x);
    if VerdictOf(p) == Accepted {
      ErrorOfAccepted(p);
    }
    MaxOfSnoc(ts, time);
  }

  /** While every case so far passed, no error is reported. */
  lemma ErrorOfAccepted(p: seq<CaseStatus>)
    requires VerdictOf(p) == Accepted
    ensures ErrorOf(p) == None
  {
  }

  lemma IndicesSnoc(n: nat)
    ensures Indices(n) + [n] == Indices(n + 1)
  {
  }

  // ----- lemmas about the aggregate -----

  lemma {:induction false} CountPassedSnoc(st: seq<CaseStatus>, x: CaseStatus)
    ensures CountPassed(st + [x]) == CountPassed(st) + (if x == Passed then 1 else 0)
  {
    if st != [] {
      assert (st + [x])[1..] == st[1..] + [x];
      CountPassedSnoc(st[1..], x);
    } else {
      assert (st + [x])[1..] == [];
    }
  }

  lemma MaxOfSnoc(ts: seq<nat>, x: nat)
    ensures MaxOf(ts + [x]) == if MaxOf(ts) >= x then MaxOf(ts) else x
  {
    var m := MaxOf(ts + [x]);
    assert forall k :: 0 <= k < |ts| ==> ts[k] == (ts + [x])[k];
    assert (ts + [x])[|ts|] == x;
    if ts != [] {
      var j :| 0 <= j < |ts| && ts[j] == MaxOf(ts);
      assert (ts + [x])[j] == MaxOf(ts);
    }
  }

  lemma FirstFailureAt(s: seq<CaseStatus>, j: nat)
    requires j < |s| && s[j] != Passed
    requires forall k :: 0 <= k < j ==> s[k] == Passed
    ensures FirstFailure(s) == Some(j)
  {
  }

  lemma FirstFailureSnoc(st: seq<CaseStatus>, x: CaseStatus)
    ensures FirstFailure(st + [x]) ==
      if FirstFailure(st).Some? then FirstFailure(st)
      else if x == Passed then None
      else Some(|st|)
  {
    var s := st + [x];
    assert forall k :: 0 <= k < |st| ==> s[k] == st[k];
    assert s[|st|] == x;
    if FirstFailure(st).Some? {
      FirstFailureAt(s, FirstFailure(st).value);
    } else if x != Passed {
      FirstFailureAt(s, |st|);
    } else {
      assert forall k :: 0 <= k < |s| ==> s[k] == Passed;
    }
  }

  lemma VerdictOfSnoc(p: seq<CaseStatus>, x: CaseStatus)
    ensures VerdictOf(p + [x]) == if VerdictOf(p) == Accepted then FailureVerdict(x) else VerdictOf(p)
  {
    FirstFailureSnoc(p, x);
    if FirstFailure(p).Some? {
      var j := FirstFailure(p).value;
      assert (p + [x])[j] == p[j];
    } else {
      assert (p + [x])[|p|] == x;
    }
  }

  lemma ErrorOfSnoc(p: seq<CaseStatus>, x: CaseStatus)
    ensures ErrorOf(p + [x]) ==
      if VerdictOf(p) != Accepted then ErrorOf(p)
      else if x.Crashed? then Some(x.stderr)
      else None
  {
    FirstFailureSnoc(p, x);
    if FirstFailure(p).Some? {
      var j := FirstFailure(p).value;
      assert (p + [x])[j] == p[j];
    } else {
      assert (p + [x])[|p|] == x;
    }
  }

  /** Every case passed exactly when the count of passed cases is the number of cases. */
  lemma {:induction false} CountPassedAll(st: seq<CaseStatus>)
    ensures CountPassed(st) == |st| <==> forall k :: 0 <= k < |st| ==> st[k] == Passed
  {
    if st != [] {
      CountPassedAll(st[1..]);
      assert forall k :: 1 <= k < |st| ==> st[k] == st[1..][k - 1];
    }
  }

  /** The final verdict stays "Accepted" if and only if passed == total. */
  lemma AcceptedIffAllPassed(st: seq<CaseStatus>)
    ensures VerdictOf(st) == Accepted <==> CountPassed(st) == |st|
  {
    CountPassedAll(st);
  }

  /** `error` is set only for a "Runtime Error" verdict, and it is the
      stderr of the first failing case. */
  lemma ErrorOnlyForRuntimeError(st: seq<CaseStatus>)
    ensures ErrorOf(st).Some? <==> VerdictOf(st) == RuntimeError
    ensures ErrorOf(st).Some? ==>
      exists i :: 0 <= i < |st| && st[i] == Crashed(ErrorOf(st).value)
        && forall k :: 0 <= k < i ==> st[k] == Passed
  {
    if ErrorOf(st).Some? {
      var i := FirstFailure(st).value;
      assert st[i] == Crashed(ErrorOf(st).value);
    }
  }

  /** First failure wins: once the verdict has left "Accepted", later cases
      change neither the verdict nor the error. */
  lemma {:induction false} FirstFailureWins(p: seq<CaseStatus>, q: seq<CaseStatus>)
    requires VerdictOf(p) != Accepted
    ensures VerdictOf(p + q) == VerdictOf(p)
    ensures ErrorOf(p + q) == ErrorOf(p)
    decreases |q|
  {
    if q != [] {
      var q' := q[..|q| - 1];
      FirstFailureWins(p, q');
      assert p + q == (p + q') + [q[|q| - 1]];
      FirstFailureSnoc(p + q', q[|q| - 1]);
      var i := FirstFailure(p).value;
      assert (p + q)[i] == p[i] && (p + q')[i] == p[i];
    } else {
      assert p + q == p;
    }
  }

  /** On the normal path the report counts every case: `total` is the
      number of cases, `passed` never exceeds it, "Accepted" holds exactly
      when every case passed, and the reported time bounds every case's time. */
  lemma JudgeAfterCompile(lang: Language, cases: seq<TestCase>, compile: CmdResult, run: nat -> CmdResult)
    requires compile.code == 0
    ensures var r := Evaluation(lang, cases, compile, run);
      && r.Judged?
      && r.total == |cases|
      && r.passed <= r.total
      && (r.verdict == Accepted <==> r.passed == r.total)
      && (r.error.Some? <==> r.verdict == RuntimeError)
      && (forall i :: 0 <= i < |cases| ==> ParseTime(run(i).stdout) <= r.executionTimeMs)
      && (cases == [] ==> r.executionTimeMs == 0)
  {
    var st := Statuses(lang, cases, run);
    AcceptedIffAllPassed(st);
    ErrorOnlyForRuntimeError(st);
    var ts := Times(cases, run);
    assert forall i :: 0 <= i < |cases| ==> ts[i] == ParseTime(run(i).stdout);
  }

  /** The compile gate: a failed compile step reports passed 0, total the
      number of cases, time 0, the trimmed compiler stderr, and no case verdict. */
  lemma JudgeCompileFailure(lang: Language, cases: seq<TestCase>, compile: CmdResult, run: nat -> CmdResult)
    requires compile.code != 0
    ensures var r := Evaluation(lang, cases, compile, run);
      && r.Judged?
      && r.verdict == CompileFailureVerdict(lang)
      && r.verdict !in {Accepted, WrongAnswer, TimeLimitExceeded, RuntimeError}
      && r.passed == 0 && r.total == |cases| && r.executionTimeMs == 0
      && r.error == Some(Trim(compile.stderr))
  {
  }

  /** The C++ comparison accepts whatever the trim-only comparison accepts. */
  lemma TrimOnlyMatchImpliesCppMatch(stdout: string, expected: string)
    requires OutputMatches(Java, UserOutput(stdout), expected)
    ensures OutputMatches(Cpp, UserOutput(stdout), expected)
  {
    CppNormalizeOfTrim(expected);
  }

  /** Removing carriage returns and trimming gives the same result whether
      or not the string was trimmed first. */
  lemma CppNormalizeOfTrim(s: string)
    ensures Trim(StripCR(Trim(s))) == Trim(StripCR(s))
  {
    var ij := TrimDecomposeWitness(s);
    var a, m, b := s[..ij.0], s[ij.0..ij.1], s[ij.1..];
    assert s == a + m + b;
    assert AllSpace(a) && AllSpace(b) by {
      var t := TrimStart(s);
      TrimStartSuffix(s);
      TrimEndPrefix(t);
      assert a == s[..|s| - |t|];
      assert b == t[|TrimEnd(t)|..];
    }
    StripCRConcat(a + m, b);
    StripCRConcat(a, m);
    StripCRAllSpace(a);
    StripCRAllSpace(b);
    TrimPadded(StripCR(a), StripCR(m), StripCR(b));
  }

  /** Java and Python judge every case the same way. */
  lemma JavaPythonAgree(tc: TestCase, r: CmdResult)
    ensures Classify(Java, tc, r) == Classify(Python, tc, r)
  {
  }

  /** Where the runners differ: a carriage return inside the output is
      ignored by the C++ runner and is a wrong answer for the others. */
  lemma InnerCarriageReturn()
    ensures OutputMatches(Cpp, "1\r\n2", "1\n2")
    ensures !OutputMatches(Java, "1\r\n2", "1\n2")
  {
    assert StripCR("1\r\n2") == "1\n2";
    StripCRNoCR("1\n2");
    assert "1\n2"[0] == '1' && "1\n2"[2] == '2';
    TrimOfTrimmed("1\n2");
    assert "1\r\n2" != "1\n2";
  }

  /** A string with no whitespace at its ends, followed by whitespace, trims to itself. */
  lemma TrimTrailing(m: string, pad: string)
    requires Trimmed(m) && AllSpace(pad)
    ensures Trim(m + pad) == m
  {
    assert m + pad == [] + m + pad;
    TrimPadded([], m, pad);
    TrimOfTrimmed(m);
  }

  /** A program's own output, free of markers and followed by the timing
      line, reads as that output with its trailing whitespace dropped. */
  lemma UserOutputOfPadded(m: string, pad: string, ms: nat)
    requires Trimmed(m) && AllSpace(pad) && NoMarker(m + pad)
    ensures UserOutput(m + pad + Marker(ms)) == m
  {
    MarkerRoundTrip(m + pad, ms);
    TrimTrailing(m, pad);
  }

  /** The program output "42\r\n" reads as "42", and "43\n" as "43". */
  lemma UserOutputExamples(ms: nat)
    ensures UserOutput("42\r\n" + Marker(ms)) == "42"
    ensures UserOutput("43\n" + Marker(ms)) == "43"
  {
    NoMarkerShort("42\r\n");
    NoMarkerShort("43\n");
    assert "42\r\n" == "42" + "\r\n";
    assert "43\n" == "43" + "\n";
    UserOutputOfPadded("42", "\r\n", ms);
    UserOutputOfPadded("43", "\n", ms);
  }

  /** The expected output "42\n" normalises to "42" in every runner. */
  lemma ExpectedExample()
    ensures Trim("42\n") == "42"
    ensures Trim(StripCR("42\n")) == "42"
  {
    assert "42\n" == "42" + "\n";
    TrimTrailing("42", "\n");
    StripCRNoCR("42\n");
  }

  /** "42" matches an expected "42\n" in every runner, and "43" does not. */
  lemma MatchExamples(lang: Language)
    ensures OutputMatches(lang, "42", "42\n")
    ensures !OutputMatches(lang, "43", "42\n")
  {
    ExpectedExample();
    StripCRNoCR("42");
    StripCRNoCR("43");
    TrimOfTrimmed("42");
    TrimOfTrimmed("43");
    assert "42" != "43" by { assert "42"[1] != "43"[1]; }
  }

  /** A program that prints "42\r\n" passes a case expecting "42\n" in
      every runner; one that prints "43" does not. */
  lemma TrailingCarriageReturnPasses(lang: Language, input: string, ms: nat)
    ensures Classify(lang, TestCase(input, "42\n"), CmdResult(0, "42\r\n" + Marker(ms), "")) == Passed
    ensures Classify(lang, TestCase(input, "42\n"), CmdResult(0, "43\n" + Marker(ms), "")) == Mismatch
  {
    UserOutputExamples(ms);
    MatchExamples(lang);
  }

  lemma NoMarkerShort(s: string)
    requires |s| <= |Prefix|
    ensures NoMarker(s)
  {
  }
}
