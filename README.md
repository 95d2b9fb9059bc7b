# ProCtrl exam backend: judge, attempt lifecycle and test administration

This project models the core of the ProCtrl proctored-exam server in Dafny and proves properties of that model. It covers three parts.

- **The code-execution judge.** `evaluateCppCode`, `evaluateJavaCode` and `evaluatePythonCode` are one runner parametrised by language, with three instantiations.
  - Each call draws a fresh submission id.
  - It stages the source locally, copies it into the worker container, then compiles it (or syntax-checks it).
  - It runs every hidden test case, folds the per-case outcomes into `passed`, `maxTime`, `finalVerdict` and `firstError`, and removes its workspace.
  - The Docker calls are an oracle: the compile step gives one `(exitCode, stdout, stderr)`, and case `i` gives `run(i)`.
  - The loop (`Judge.RunCases`) is proved to compute whole-list definitions: a count, a maximum, and the first failing case.
- **The exam-attempt lifecycle** (`attempt.routes.js`). It covers:
  - the join route's ordered guard chain;
  - the verify, start and submit transitions of an attempt object;
  - the `/save` loop that merges incoming answers into the stored list in place;
  - the my-attempts formatting.

  Bcrypt, email validation and the face-matching service are parameters.
- **Test administration** (`test.routes.js`). It covers:
  - create-time validation, with its candidate loop and test-id regeneration loop;
  - the metadata-update guard;
  - the de-duplicating candidate append and the filter-based candidate removal;
  - the order-preserving question-id union and the question removal;
  - the live/expired partition.

  The tests collection is a class holding a map from document id to test.

Files:

| file | module | what it holds |
|---|---|---|
| `wrappers.dfy` | `Wrappers` | `Option`, `Result` |
| `seqs.dfy` | `Seqs` | JavaScript's `filter` and `find` (first match) on sequences, with their lemmas |
| `text.dfy` | `Text` | `String.prototype.trim`, carriage-return stripping, ASCII lower-casing, email normalisation, decimal numerals |
| `marker.dfy` | `TimingMarker` | the `===TIME: <ms>` marker: its parse, its removal and the user output |
| `judge.dfy` | `Judge` | verdicts, per-case classification, the fold and its specification, per-language differences |
| `runner.dfy` | `Runner` | the submission-id supply, the workspace names, the `Worker` class with `Evaluate` and the three runners |
| `tests.dfy` | `TestRoutes` | the test routes and the `TestStore` class |
| `attempts.dfy` | `Attempts` | the attempt routes and the `Attempt` class |

Where the code and its design description disagree, the model follows the code:

- **Cleanup.** The design says no workspace artefact is left after any call. The code does not do this:
  - an exception (write or copy failure) skips every removal;
  - a failed compile removes only the copied source and leaves the local staging file;
  - the Java runner leaves its job folder behind when the copy into it fails;
  - after a clean Python syntax check, `python3 -m py_compile` has written the bytecode file `/__pycache__/script_<id>.cpython-311.pyc`, and the cleanup removes only `/script_<id>.py`, so every compiling Python submission leaves that file in the container.

  `Runner.Worker.Evaluate` states what is left on each path, in terms of the names the model tracks (see "## Left out" for the `__pycache__` directory itself).
- **Error text.** The design says the diagnostic is present for the first non-accepted case. The code sets `error` only for a first-failure runtime error. It is the raw stderr of that case, while a compile failure reports the trimmed compiler stderr.

## Model

| member | source | states |
|---|---|---|
| Judge.CompileFailureVerdict | backend/server/src/services/codeRunner/evaluatePython.js:43-52 | a failed compile step is "Syntax Error" exactly for Python and "Compilation Error" exactly for C++ and Java |
| Judge.ClassifyCases | backend/server/src/services/codeRunner/evaluateCpp.js:162-182 | exit code 124 is a timeout; any other non-zero code is a crash that keeps its stderr; a case passes exactly when it exits 0 with matching output |
| Judge.ScoreCase | backend/server/src/services/codeRunner/evaluateCpp.js:153-182 | one loop pass parses the case time and the user output, then adds the case's classification to the accumulators |
| Judge.Record | backend/server/src/services/codeRunner/evaluateCpp.js:160-182 | the accumulator updates of one case: the max time rises, a pass counts, and only the first failure sets the verdict (and, for a crash, the error) |
| Judge.RunCases | backend/server/src/services/codeRunner/evaluateCpp.js:106-183 | every case is run once, in order, with no early exit; passed, maxTime, finalVerdict and firstError equal the count of passes, the maximum time, the first failure's verdict and a first-failure crash's stderr |
| Judge.FoldAggregates | backend/server/src/services/codeRunner/evaluateJava.js:54-109 | the accumulators after n cases equal the whole-list aggregates of those n cases |
| Judge.StepAggregates | backend/server/src/services/codeRunner/evaluatePython.js:94-107 | folding one more case into the aggregates of a prefix gives the aggregates of the longer prefix |
| Judge.CountPassedAll | backend/server/src/services/codeRunner/evaluateCpp.js:177-178 | every case passed exactly when the pass count equals the number of cases |
| Judge.AcceptedIffAllPassed | backend/server/src/services/codeRunner/evaluateJava.js:54-57 | the verdict stays "Accepted" exactly when passed equals total |
| Judge.ErrorOnlyForRuntimeError | backend/server/src/services/codeRunner/evaluateCpp.js:166-172 | error is set exactly when the verdict is "Runtime Error", and it is the stderr of the first failing case, all earlier cases having passed |
| Judge.FirstFailureWins | backend/server/src/services/codeRunner/evaluateCpp.js:164 | once the verdict is not "Accepted", later cases change neither the verdict nor the error |
| Judge.FirstFailure | backend/server/src/services/codeRunner/evaluateJava.js:97-108 | the position of the first case that did not pass: all earlier cases passed; None exactly when all passed |
| Judge.MaxOf | backend/server/src/services/codeRunner/evaluatePython.js:90-94 | the maximum is at least every case time, is one of them, and is 0 for no cases |
| Judge.JudgeAfterCompile | backend/server/src/services/codeRunner/evaluateCpp.js:107-192 | after a clean compile: total is the number of cases, passed is at most total, "Accepted" holds exactly when passed equals total, error is set exactly on a runtime error, and the time bounds every parsed case time (0 for no cases) |
| Judge.JudgeCompileFailure | backend/server/src/services/codeRunner/evaluateCpp.js:94-104 | after a failed compile: the compile-failure verdict, passed 0, total equal to the number of cases, time 0, and the trimmed compiler stderr |
| Judge.TrimOnlyMatchImpliesCppMatch | backend/server/src/services/codeRunner/evaluateJava.js:104 | an output the trim-only comparison accepts is also accepted by the C++ comparison |
| Judge.CppNormalizeOfTrim | backend/server/src/services/codeRunner/evaluateCpp.js:175 | normalising an already trimmed output is the same as normalising the raw output |
| Judge.JavaPythonAgree | backend/server/src/services/codeRunner/evaluatePython.js:96-107 | the Java and Python runners classify every case alike |
| Judge.InnerCarriageReturn | backend/server/src/services/codeRunner/evaluateCpp.js:175-177 | a carriage return inside the output is ignored by the C++ comparison but not by the Java comparison |
| Judge.UserOutputOfPadded | backend/server/src/services/codeRunner/evaluateCpp.js:158 | trimmed program output followed by whitespace and the marker reads back as the program output |
| Judge.UserOutputExamples | backend/server/src/services/codeRunner/evaluateCpp.js:154-158 | "42\r\n" and "43\n" followed by the marker read back as "42" and "43" |
| Judge.MatchExamples | backend/server/src/services/codeRunner/evaluateJava.js:104 | "42" matches an expected "42\n" in every runner, and "43" does not |
| Judge.TrailingCarriageReturnPasses | backend/server/src/services/codeRunner/evaluateCpp.js:163-177 | a clean exit printing "42\r\n" passes against "42\n" in every runner, and one printing "43\n" is a mismatch |
| TimingMarker.FindMarkerLeftmost | backend/server/src/services/codeRunner/evaluateCpp.js:154 | the marker found is the leftmost occurrence, with no marker before it |
| TimingMarker.MarkerAbsent | backend/server/src/services/codeRunner/evaluateCpp.js:155 | with no marker the time is 0 and nothing is removed; with a marker, something is removed |
| TimingMarker.FirstMarkerDecides | backend/server/src/services/codeRunner/evaluateJava.js:91-93 | when program output contains no marker, the first marker decides the time, and removing it gives back the text around it |
| TimingMarker.MarkerRoundTrip | backend/server/src/services/codeRunner/evaluateCpp.js:127 | printing `===TIME: n` after marker-free output parses back to n, and stripping gives back the output |
| Text.Trim | backend/server/src/services/codeRunner/evaluateCpp.js:158 | the result has no leading or trailing whitespace and is no longer than the input |
| Text.TrimIdempotent | backend/server/src/services/codeRunner/evaluateCpp.js:175 | trimming twice is trimming once |
| Text.TrimPadded | backend/server/src/services/codeRunner/evaluateJava.js:104 | whitespace around a string does not change its trim |
| Text.StripCRKeeps | backend/server/src/services/codeRunner/evaluateCpp.js:175 | removing carriage returns keeps exactly the other characters |
| Text.StripCRConcat | backend/server/src/services/codeRunner/evaluateCpp.js:175 | removing carriage returns distributes over concatenation |
| Text.NormalizeEmail | backend/server/src/routes/test.routes.js:85 | a normalised email is trimmed and has no upper-case letter |
| Text.NormalizeEmailIdempotent | backend/server/src/routes/test.routes.js:247 | normalising twice is normalising once |
| Text.DecimalRoundTrip | backend/server/src/services/codeRunner/evaluateCpp.js:155 | reading back a printed numeral gives the number |
| Text.DecimalStringInjective | backend/server/src/services/codeRunner/evaluateCpp.js:66-68 | distinct numbers print as distinct numerals |
| Runner.TokenSupply.Fresh | backend/server/src/services/codeRunner/evaluateCpp.js:66 | every submission id drawn is new |
| Runner.WorkspacesDisjoint | backend/server/src/services/codeRunner/evaluateJava.js:25-27 | distinct ids give distinct local files and disjoint container entries |
| Runner.Worker.Evaluate | backend/server/src/services/codeRunner/evaluateCpp.js:60-205 | a write or copy exception gives a "System Error" record and leaves what was staged; otherwise the result is the judge's, a failed compile removes only the copied source, and a clean compile runs every case and removes the workspace except its residue (the Python bytecode file) |
| Runner.Residue | backend/server/src/services/codeRunner/evaluatePython.js:40-42 | what a clean compile leaves after the cleanup is part of the workspace, disjoint from what the cleanup removes, and non-empty exactly for Python |
| Runner.Worker.Cleanup | backend/server/src/services/codeRunner/evaluatePython.js:119-124 | the cleanup removes the container's source entry (and the C++ binary) and the local file, and nothing else |
| Runner.Worker.Stage | backend/server/src/services/codeRunner/evaluateJava.js:29-39 | staging adds the local file, then the job folder (Java) and the copied source, stopping at the first exception |
| Runner.Worker.EvaluateCpp | backend/server/src/services/codeRunner/evaluateCpp.js:94-199 | "Compilation Error" on a failed `g++`; after the cases `src_<id>.cpp` and `bin_<id>` are removed |
| Runner.Worker.EvaluateJava | backend/server/src/services/codeRunner/evaluateJava.js:42-125 | "Compilation Error" on a failed `javac`; the `job_<id>` folder is removed on that path and after the cases |
| Runner.Worker.EvaluatePython | backend/server/src/services/codeRunner/evaluatePython.js:40-124 | "Syntax Error" on a failed `py_compile`; `script_<id>.py` is removed after the cases, while the bytecode file `py_compile` wrote stays in the container |
| Seqs.FilterMembers | backend/server/src/routes/test.routes.js:305-307 | a filter keeps exactly the elements that pass its test |
| Seqs.FilterConcat | backend/server/src/routes/test.routes.js:395-397 | filtering distributes over concatenation, so order is kept |
| Seqs.FilterKeepsAll | backend/server/src/routes/test.routes.js:309 | a filter leaves the length unchanged exactly when every element passes |
| Seqs.FilterIdempotent | backend/server/src/routes/test.routes.js:395-397 | filtering twice is filtering once |
| Seqs.FilterPartition | backend/server/src/routes/test.routes.js:145-151 | a test and its negation split a sequence as a multiset |
| Seqs.FilterPartitionLength | backend/server/src/routes/test.routes.js:145-151 | the two filters' lengths add up to the whole |
| Seqs.IndexOf | backend/server/src/routes/attempt.routes.js:151-153 | the index returned is the first element passing the test; None when none does |
| Seqs.IndexOfUpdate | backend/server/src/routes/attempt.routes.js:431 | replacing an element by one the test judges alike does not move the first match |
| TestRoutes.CreateCheck | backend/server/src/routes/test.routes.js:31-62 | creation passes validation exactly when the title is present, the duration non-zero, the questions and candidates non-empty, and activeTill a valid future date; every rejection is 400 |
| TestRoutes.Enrol | backend/server/src/routes/test.routes.js:84-88 | a stored candidate has a trimmed lower-case email and has not attempted |
| TestRoutes.ProcessedOk | backend/server/src/routes/test.routes.js:67-89 | the whitelist is accepted exactly when no entry lacks an email or passcode or has an invalid email |
| TestRoutes.ProcessedValues | backend/server/src/routes/test.routes.js:84-88 | an accepted whitelist has one stored candidate per entry, in order, each the entry's normalised email and hash |
| TestRoutes.ProcessedFirstError | backend/server/src/routes/test.routes.js:70-80 | a rejected whitelist reports the message of its first bad entry, every earlier entry being good |
| TestRoutes.ProcessedErrSticks | backend/server/src/routes/test.routes.js:71 | once a prefix is rejected, later entries do not matter |
| TestRoutes.ProcessCandidates | backend/server/src/routes/test.routes.js:65-89 | the loop yields the processed whitelist or the first error |
| TestRoutes.NewTestId | backend/server/src/routes/test.routes.js:92-98 | the id drawn is not in use, and every earlier draw was |
| TestRoutes.Updated | backend/server/src/routes/test.routes.js:183-192 | an update never touches the id, testId, owner, questions, whitelist or languages |
| TestRoutes.UpdatedIdempotent | backend/server/src/routes/test.routes.js:178-199 | applying an update twice is applying it once; an empty update changes nothing |
| TestRoutes.NewCandidatesSound | backend/server/src/routes/test.routes.js:243-260 | every added candidate has a valid, normalised email that was not already on the whitelist and has not attempted |
| TestRoutes.NewCandidatesComplete | backend/server/src/routes/test.routes.js:243-260 | every admissible entry is added |
| TestRoutes.BatchDuplicatesKept | backend/server/src/routes/test.routes.js:248 | the same admissible entry twice in one request is added twice |
| TestRoutes.CollectCandidates | backend/server/src/routes/test.routes.js:241-260 | the loop collects exactly the admissible entries, in order |
| TestRoutes.RemovalEffect | backend/server/src/routes/test.routes.js:304-311 | removal keeps exactly the entries with another email; the length is unchanged exactly when the email was not on the whitelist |
| TestRoutes.InsertAllMembers | backend/server/src/routes/test.routes.js:350-352 | the union holds exactly the existing ids and the requested ids |
| TestRoutes.InsertAllDistinct | backend/server/src/routes/test.routes.js:350-352 | inserting into a duplicate-free list keeps it duplicate-free |
| TestRoutes.InsertAllAppends | backend/server/src/routes/test.routes.js:351 | insertion keeps the list and appends the new ids in request order |
| TestRoutes.QuestionUnion | backend/server/src/routes/test.routes.js:350-352 | for any stored list, the new question list is the stored ids with repeats dropped in first-occurrence order, followed by the requested ids not stored, in request order; no id twice; exactly the stored and the requested ids |
| TestRoutes.QuestionUnionOfDistinct | backend/server/src/routes/test.routes.js:350-352 | a stored list without repeats is kept verbatim, with the new requested ids after it |
| TestRoutes.QuestionRemoval | backend/server/src/routes/test.routes.js:395-397 | removal deletes every occurrence of the id, keeps the rest in order, and is idempotent |
| TestRoutes.Categorize | backend/server/src/routes/test.routes.js:140-151 | the loop yields the live and the expired filters of the fetched tests |
| TestRoutes.Partition | backend/server/src/routes/test.routes.js:145-151 | each test lands in exactly one list, live exactly when activeTill is not before now, and both lists keep the fetched order |
| TestRoutes.TestStore.Create | backend/server/src/routes/test.routes.js:19-117 | validation errors and whitelist errors change nothing; otherwise a test with a fresh testId, the processed whitelist and the default languages is stored (201) |
| TestRoutes.TestStore.UpdateMetadata | backend/server/src/routes/test.routes.js:178-205 | a bad expiry is 400 before the ownership lookup (404); otherwise the owned test is updated |
| TestRoutes.TestStore.AddCandidates | backend/server/src/routes/test.routes.js:223-270 | no candidates is 400 and a foreign test 404; otherwise the admissible entries are appended and the reply counts them |
| TestRoutes.TestStore.RemoveCandidate | backend/server/src/routes/test.routes.js:289-315 | a missing email is 400, a foreign test 404, an absent candidate 404 with nothing saved; otherwise the filtered whitelist is stored |
| TestRoutes.TestStore.AddQuestions | backend/server/src/routes/test.routes.js:334-365 | no ids is 400 and a foreign test 404; otherwise the question union is stored |
| TestRoutes.TestStore.RemoveQuestion | backend/server/src/routes/test.routes.js:384-410 | a foreign test is 404; otherwise the filtered question list is stored |
| Attempts.View | backend/server/src/routes/attempt.routes.js:202-221 | a question view keeps the id, text, marks and kind, and has a coding part exactly for coding questions |
| Attempts.ViewHidesEvaluation | backend/server/src/routes/attempt.routes.js:209-219 | the view does not depend on hidden test cases or limits |
| Attempts.ViewKeepsMcqAnswer | backend/server/src/routes/attempt.routes.js:207 | the multiple-choice part is sent whole, correct answer included |
| Attempts.JoinAdmits | backend/server/src/routes/attempt.routes.js:122-229 | a join is admitted exactly when all fields are present, the email is valid, the test exists and is open, the name is not blank once trimmed (the attempt schema requires `candidateName`, so a blank one makes the create throw into the 500 catch), and the normalised email is whitelisted with a matching passcode and no attempt |
| Attempts.JoinAdmission | backend/server/src/routes/attempt.routes.js:186-221 | an admission records the test, the trimmed, non-empty name and the normalised, whitelisted email, and returns the view of every question |
| Attempts.Attempt.constructor | backend/server/src/routes/attempt.routes.js:186-192 | a new attempt is "joined", with no answers, no violations and no timestamps |
| Attempts.JoinTest | backend/server/src/routes/attempt.routes.js:117-223 | a refused join returns the guard's reply and creates nothing; an admitted one creates a fresh "joined" attempt |
| Attempts.VerifyCheck | backend/server/src/routes/attempt.routes.js:250-300 | verification goes through exactly when the test exists and is open, a reference image is present, the account has an ID card on disk, and the service reports a match |
| Attempts.Verify | backend/server/src/routes/attempt.routes.js:245-310 | a refusal leaves the status and the image; a match stores the image and sets "verified"; no other field of the attempt changes |
| Attempts.StartCheck | backend/server/src/routes/attempt.routes.js:390-427 | a start goes through exactly when the attempt is "verified", the test exists and is open, the candidate is whitelisted, and the candidate's first whitelist entry has not attempted; the admitted position is that entry |
| Attempts.StartMissingAttempt | backend/server/src/routes/attempt.routes.js:388-392 | as written, a missing attempt answers 500; corrected, it answers 404 |
| Attempts.MarkAttempted | backend/server/src/routes/attempt.routes.js:431 | only the candidate's entry changes, to attempted; emails and the rest of the test are kept |
| Attempts.Start | backend/server/src/routes/attempt.routes.js:386-442 | a refusal changes neither the attempt nor the tests; otherwise the attempt is "in progress" with startedAt set, the candidate is marked attempted, and no other field of the attempt changes |
| Attempts.StartClosesJoin | backend/server/src/routes/attempt.routes.js:174-179 | once started, the same join request is refused with 409 |
| Attempts.StartOnce | backend/server/src/routes/attempt.routes.js:423-427 | once started, a second start for the candidate is refused with 403 |
| Attempts.Revised | backend/server/src/routes/attempt.routes.js:356-372 | a revised answer keeps its question, and an answer with nothing defined changes nothing |
| Attempts.MergeOneEffect | backend/server/src/routes/attempt.routes.js:351-376 | one merge step answers the question, keeps other answers in place, appends only for a new question, and never duplicates a question |
| Attempts.MergeOneIdempotent | backend/server/src/routes/attempt.routes.js:351-376 | sending the same answer twice is sending it once |
| Attempts.MergeAllQuestions | backend/server/src/routes/attempt.routes.js:351-376 | after a save, the answered questions are the earlier ones plus the incoming ones |
| Attempts.MergeAllKeeps | backend/server/src/routes/attempt.routes.js:351-376 | a save drops no stored answer, and an answer to a question the request does not mention stays unchanged and in place |
| Attempts.MergeAllDistinct | backend/server/src/routes/attempt.routes.js:352-374 | a save never gives a question two answers |
| Attempts.Save | backend/server/src/routes/attempt.routes.js:333-383 | only an attempt in progress (else 400), with its test present (else 500) and open (else 403), and a request carrying `answers` (else the loop throws: 500), is saved; the stored answers become the merge of the incoming ones, and no other field of the attempt changes |
| Attempts.MergeAnswers | backend/server/src/routes/attempt.routes.js:351-376 | the loop leaves the stored answers equal to the sequential merge of the incoming ones, and changes nothing but the answer list |
| Attempts.SubmitCheck | backend/server/src/routes/attempt.routes.js:460-462 | a submit goes through exactly from "in progress" |
| Attempts.SubmitReplyAsWritten | backend/server/src/routes/attempt.routes.js:456-480 | as written, no submit succeeds |
| Attempts.Submit | backend/server/src/routes/attempt.routes.js:456-476 | from "in progress" the attempt becomes "submitted" with submittedAt set; otherwise 400 and nothing changes; no other field changes on either path |
| Attempts.Summarize | backend/server/src/routes/attempt.routes.js:79-94 | a summary keeps the id, status, timestamps and score, and its title is never empty |
| Attempts.SummaryDefaults | backend/server/src/routes/attempt.routes.js:85-93 | the defaults are title "Assessment", duration null, totalMarks 0 and integrityScore 100, and violations are reported as a count (0 if absent) |
| Attempts.MyAttempts | backend/server/src/routes/attempt.routes.js:59-94 | anyone but a candidate account gets 403; a candidate gets one summary per attempt, in order |

## Left out

- Docker and the shell are not modelled: container start-up, `runInContainer`, `exec` and `spawn` streams, `docker cp`, base64 and heredoc input piping, and the `timeout` seconds string. Each command is an oracle result. Because the oracle is indexed by case position, the input text is not passed to it.
- Wall-clock timing is not modelled. A case's time is whatever number its stdout marker carries.
- `uuid()` is a supply of fresh natural numbers printed in decimal, not a UUID string.
- Concurrent submissions sharing one container are left out. The model is sequential.
- Cleanup is fire-and-forget in the code. The model treats a scheduled removal as done and models the file systems only as sets of names.
- Runner.Worker.Evaluate: the `__pycache__` directory that `py_compile` creates at the container's root is not tracked, only the bytecode file in it; the interpreter's cache tag is fixed as `cpython-311`, while the real tag follows the container's Python version.
- Runner.Worker.Evaluate: the runners' `catch` also turns an exception thrown after the copy into "System Error". The model has no such exception, because the oracle cannot fail.
- The database is not modelled:
  - a lookup is a `map` or an `Option` parameter;
  - `populate`, `select` and `sort` are left out (the routes receive already-populated, ordered values);
  - `Test.calculateTotalScore` and `calculateTotalMarks` are left out;
  - every catch path that answers 500 on a database error is left out, except the ones the code reaches by its own logic (`Attempts.Save`, `Attempts.StartCheckAsWritten`, `Attempts.SubmitReplyAsWritten`).
- Bcrypt hashing and comparison, `validateEmail`, `generateTestId` and the face-matching service are parameters (`hash`, `matches`, `valid`, `draws`, `ml`). `validateEmail.js` and `generateTestId.js` are not part of this model.
- TestRoutes.NewTestId: the method assumes some draw is free. Without that assumption the loop of the source may not end.
- Lower-casing is ASCII only. `toLowerCase` on other letters is not modelled.
- JavaScript truthiness is modelled as present and non-empty for strings. A `duration` is rejected exactly at 0; `NaN` and non-numeric values are not modelled.
- Attempts.Revised: a `null` mcqAnswer (defined but null) is treated like a number. The answer schema's cast of such values is not modelled.
- Attempts.Revised: a `null` descriptiveAnswer is not modelled. The source tests only `!== undefined`, so a null overwrites the stored text; the model's answers have no null, so a field is either undefined or a string.
- Attempts.Save: an `answers` value that is neither absent, null nor an array is not modelled; an absent or null one is the model's None (the 500 from the loop). A `null` descriptiveAnswer that erases the stored text is not modelled (see Attempts.Revised).
- Attempts.Verify: Mongoose drops `referenceImage` on save, because the attempt schema does not declare it. The model keeps it on the attempt object.
- Attempts.JoinTest: the `idCardImage` of the account and the `systemInfo` are not modelled.
- The verify route does not look at the attempt's status. So a submitted attempt can be reset to "verified", and the model keeps that behaviour.
- The routes not named here are left out: feedback, ID upload, `/verify-face`, `GET /:id`, and the authentication middleware.

## Findings

| source | as written | input that shows it | evidently intended | confidence | as-written member | corrected member |
|---|---|---|---|---|---|---|
| backend/server/src/routes/attempt.routes.js:388-392 | `attempt.status` is read before the `!attempt` test | an attemptId with no attempt: the read throws and the catch answers 500 "Failed to start test" | 404 "Attempt not found" | high, not executed | Attempts.StartCheckAsWritten | Attempts.StartCheck |
| backend/server/src/routes/attempt.routes.js:464 | `attempt.calculateScore()` is called, but the attempt schema (backend/server/src/models/TestAttempt.js:26-64) defines no methods | any submit of an attempt in progress: the call throws and the catch answers 500 | the attempt becomes "submitted" with submittedAt set and 200 | medium (a schema method added by a plugin or another module would change this), not executed | Attempts.SubmitReplyAsWritten | Attempts.Submit |
