/** The candidate's side of a test: joining with the whitelist and a
    passcode, identity verification, starting, auto-saving answers,
    submitting, and the candidate's list of past attempts.

    An attempt is an object whose fields the routes assign; tests are read
    from the test collection and, when an attempt starts, written back to
    it. bcrypt's compare, the email validator, the face-matching service
    and the presence of the candidate's ID-card image are parameters. */
module Attempts {
  import opened Wrappers
  import opened Text
  import opened Seqs
  import opened TestRoutes

  datatype Status = Joined | Verified | InProgress | Submitted | Terminated

  // ----- questions as the candidate sees them -----

  datatype Mcq = Mcq(options: seq<string>, correctAnswer: int)
  datatype Descriptive = Descriptive(sampleAnswer: Option<string>)
  datatype Sample = Sample(input: string, output: string, explanation: string)
  datatype HiddenCase = HiddenCase(input: string, output: string)
  datatype Boilerplate = Boilerplate(cpp: string, python: string, java: string)
  datatype Coding = Coding(
    problemStatement: string,
    constraints: string,
    inputFormat: string,
    outputFormat: string,
    sampleTestCases: seq<Sample>,
    hiddenTestCases: seq<HiddenCase>,
    timeLimitMs: nat,
    memoryLimitMb: nat,
    supportedLanguages: seq<string>,
    boilerplateCode: Boilerplate)

  /** A question's type decides which sub-document it carries. */
  datatype Body = McqBody(mcq: Mcq) | DescriptiveBody(descriptive: Descriptive) | CodingBody(coding: Coding)

  datatype Question = Question(id: QuestionId, questionText: string, marks: int, body: Body)

  /** The part of a coding question sent to candidates. */
  datatype CodingView = CodingView(
    problemStatement: string,
    constraints: string,
    inputFormat: string,
    outputFormat: string,
    sampleTestCases: seq<Sample>,
    supportedLanguages: seq<string>,
    boilerplateCode: Boilerplate)

  datatype QuestionView = QuestionView(
    id: QuestionId,
    questionText: string,
    kind: string,
    marks: int,
    mcq: Option<Mcq>,
    descriptive: Option<Descriptive>,
    coding: Option<CodingView>)

  function KindName(b: Body): string {
    match b
    case McqBody(_) => "mcq"
    case DescriptiveBody(_) => "descriptive"
    case CodingBody(_) => "coding"
  }

  /** A question as the join route returns it. */
  function View(q: Question): (v: QuestionView)
    ensures v.id == q.id && v.questionText == q.questionText && v.marks == q.marks
    ensures v.kind == KindName(q.body)
    ensures v.coding.Some? <==> q.body.CodingBody?
  {
    QuestionView(q.id, q.questionText, KindName(q.body), q.marks,
      if q.body.McqBody? then Some(q.body.mcq) else None,
      if q.body.DescriptiveBody? then Some(q.body.descriptive) else None,
      if q.body.CodingBody? then
        var c := q.body.coding;
        Some(CodingView(c.problemStatement, c.constraints, c.inputFormat, c.outputFormat,
                        c.sampleTestCases, c.supportedLanguages, c.boilerplateCode))
      else None)
  }

  /** The views of a test's questions, in order. */
  function Views(qs: seq<Question>): (vs: seq<QuestionView>)
    ensures |vs| == |qs| && forall i :: 0 <= i < |qs| ==> vs[i] == View(qs[i])
  {
    seq(|qs|, i requires 0 <= i < |qs| => View(qs[i]))
  }

  /** The view does not depend on a coding question's hidden cases or its
      limits, so nothing about them reaches the candidate. The multiple
      choice sub-document, on the other hand, is passed whole, correct
      answer included. */
  lemma ViewHidesEvaluation(q: Question, hidden: seq<HiddenCase>, timeLimitMs: nat, memoryLimitMb: nat)
    requires q.body.CodingBody?
    ensures View(q.(body := CodingBody(q.body.coding.(hiddenTestCases := hidden,
                                                      timeLimitMs := timeLimitMs,
                                                      memoryLimitMb := memoryLimitMb)))) == View(q)
  {
  }

  lemma ViewKeepsMcqAnswer(q: Question)
    requires q.body.McqBody?
    ensures View(q).mcq == Some(q.body.mcq)
    ensures View(q).mcq.value.correctAnswer == q.body.mcq.correctAnswer
  {
  }

  // ----- joining -----

  datatype JoinRequest = JoinRequest(
    name: Option<string>,
    email: Option<string>,
    testId: Option<string>,
    passcode: Option<string>)

  /** What a successful join records and returns. */
  datatype Admission = Admission(test: DocId, candidateName: string, candidateEmail: string, questions: seq<QuestionView>)

  /** The position of the whitelist entry for `email` (the first one). */
  function WhitelistIndex(cs: seq<Candidate>, email: string): Option<nat> {
    IndexOf(cs, (c: Candidate) => c.email == email)
  }

  /** The join route's guards, in order. `found` is the test the request's
      testId names, if any, `populated` its questions and `matches(p, h)`
      bcrypt's comparison of a passcode with a hash. The email is validated
      as sent and looked up normalised. A name of only whitespace passes the
      presence check but trims to the empty string, which the attempt
      schema's required `candidateName` rejects: the create throws and the
      catch answers 500. */
  function Join(req: JoinRequest, found: Option<Test>, populated: seq<Question>, now: int,
                valid: string -> bool, matches: (string, string) -> bool)
    : Result<Admission, Reply>
  {
    if !Present(req.name) || !Present(req.email) || !Present(req.testId) || !Present(req.passcode) then
      Err(Reply(400, "Missing required fields"))
    else if !valid(req.email.value) then
      Err(Reply(400, "Invalid email address"))
    else if found.None? then
      Err(Reply(404, "Invalid Test ID"))
    else if found.value.activeTill < now then
      Err(Reply(403, "This test has expired and is no longer accepting attempts"))
    else
      var cs := found.value.allowedCandidates;
      var email := NormalizeEmail(req.email.value);
      match WhitelistIndex(cs, email)
      case None =>
        Err(Reply(403, "This email is not authorized to access the test. Please contact the administrator."))
      case Some(k) =>
        if !matches(req.passcode.value, cs[k].passcodeHash) then
          Err(Reply(401, "Invalid access passcode"))
        else if cs[k].hasAttempted then
          Err(Reply(409, "An attempt has already been recorded for this email address."))
        else if Trim(req.name.value) == "" then
          // the stored name is required, so creating the attempt throws
          Err(Reply(500, "Failed to join test"))
        else
          Ok(Admission(found.value.id, Trim(req.name.value), email, Views(populated)))
  }

  /** A join is admitted exactly when every field is present, the email is
      valid, the test exists and is open, the normalised email is on its
      whitelist with a matching passcode and no attempt yet, and the name is
      not blank. */
  lemma JoinAdmits(req: JoinRequest, found: Option<Test>, populated: seq<Question>, now: int,
                   valid: string -> bool, matches: (string, string) -> bool)
    ensures Join(req, found, populated, now, valid, matches).Ok? <==>
      && Present(req.name) && Present(req.email) && Present(req.testId) && Present(req.passcode)
      && valid(req.email.value) && found.Some? && found.value.activeTill >= now
      && Trim(req.name.value) != ""
      && var k := WhitelistIndex(found.value.allowedCandidates, NormalizeEmail(req.email.value));
         && k.Some?
         && matches(req.passcode.value, found.value.allowedCandidates[k.value].passcodeHash)
         && !found.value.allowedCandidates[k.value].hasAttempted
  {
  }

  /** An admission names the found test, the trimmed name and the
      normalised, whitelisted email, and carries one view per question. */
  lemma JoinAdmission(req: JoinRequest, found: Option<Test>, populated: seq<Question>, now: int,
                      valid: string -> bool, matches: (string, string) -> bool)
    requires Join(req, found, populated, now, valid, matches).Ok?
    ensures var a := Join(req, found, populated, now, valid, matches).value;
      && found.Some? && req.name.Some? && req.email.Some?
      && a.test == found.value.id
      && a.candidateName == Trim(req.name.value) && a.candidateName != ""
      && a.candidateEmail == NormalizeEmail(req.email.value)
      && a.candidateEmail in EmailsOf(found.value.allowedCandidates)
      && a.questions == Views(populated)
  {
    var k := WhitelistIndex(found.value.allowedCandidates, NormalizeEmail(req.email.value)).value;
    assert found.value.allowedCandidates[k] in found.value.allowedCandidates;
  }

  // ----- the attempt object -----

  datatype CodingAnswer = CodingAnswer(code: Option<string>, language: Option<string>)

  /** One saved answer; None is a field the client left undefined. */
  datatype Answer = Answer(
    question: QuestionId,
    mcqAnswer: Option<int>,
    descriptiveAnswer: Option<string>,
    codingAnswer: Option<CodingAnswer>)

  datatype Violation = Violation(kind: string, timestamp: int)

  class Attempt {
    var test: DocId
    var candidateName: string
    var candidateEmail: string
    var status: Status
    var answers: seq<Answer>
    var violations: seq<Violation>
    var startedAt: Option<int>
    var submittedAt: Option<int>
    var referenceImage: Option<string>

    /** `TestAttempt.create` on a successful join. */
    constructor (a: Admission)
      ensures test == a.test && candidateName == a.candidateName && candidateEmail == a.candidateEmail
      ensures status == Joined && answers == [] && violations == []
      ensures startedAt.None? && submittedAt.None? && referenceImage.None?
    {
      test, candidateName, candidateEmail := a.test, a.candidateName, a.candidateEmail;
      status, answers, violations := Joined, [], [];
      startedAt, submittedAt, referenceImage := None, None, None;
    }
  }

  /** POST /join: the guards, then a new attempt in the "joined" state. */
  method JoinTest(req: JoinRequest, found: Option<Test>, populated: seq<Question>, now: int,
                  valid: string -> bool, matches: (string, string) -> bool)
    returns (reply: Reply, attempt: Attempt?, questions: seq<QuestionView>)
    ensures Join(req, found, populated, now, valid, matches).Err? ==>
      reply == Join(req, found, populated, now, valid, matches).error && attempt == null
    ensures Join(req, found, populated, now, valid, matches).Ok? ==>
      var a := Join(req, found, populated, now, valid, matches).value;
      && reply.status == 200 && attempt != null && fresh(attempt)
      && attempt.status == Joined && attempt.test == a.test
      && attempt.candidateName == a.candidateName && attempt.candidateEmail == a.candidateEmail
      && attempt.answers == [] && questions == a.questions
  {
    var r := Join(req, found, populated, now, valid, matches);
    if r.Err? {
      return r.error, null, [];
    }
    attempt := new Attempt(r.value);
    reply, questions := Reply(200, ""), r.value.questions;
  }

  /** The test an attempt belongs to, if it still exists. */
  function Lookup(tests: map<DocId, Test>, id: DocId): Option<Test> {
    if id in tests then Some(tests[id]) else None
  }

  // ----- verifying -----

  /** What the face-matching service answers; an exception calling it is
      `Unavailable`. */
  datatype MatchOutcome = Match | Mismatch | Unavailable

  /** The verify route's checks on an existing attempt, in order. The
      attempt's own status is not among them. `idCard` is the image path
      recorded for the candidate's account, `onDisk` whether that file
      exists. */
  function VerifyCheck(found: Option<Test>, now: int, referenceImage: Option<string>,
                       idCard: Option<string>, onDisk: bool, ml: MatchOutcome)
    : (r: Option<Reply>)
    ensures r.None? <==>
      found.Some? && found.value.activeTill >= now && Present(referenceImage)
      && Present(idCard) && onDisk && ml.Match?
  {
    if found.None? then Some(Reply(404, "Test not found"))
    else if found.value.activeTill < now then
      Some(Reply(403, "Test has expired. Verification is no longer allowed."))
    else if !Present(referenceImage) then
      Some(Reply(400, "Reference image (face capture) is required."))
    else if !Present(idCard) then
      Some(Reply(400, "ID Card not found. Please upload ID card first."))
    else if !onDisk then
      Some(Reply(404, "ID Card file missing on server"))
    else if ml.Mismatch? then
      Some(Reply(403, "Face verification FAILED. Face does not match ID Card."))
    else if ml.Unavailable? then
      Some(Reply(500, "Face verification service unavailable. Please try again."))
    else None
  }

  /** POST /verify/:attemptId. */
  method Verify(attempt: Attempt?, tests: map<DocId, Test>, now: int, referenceImage: Option<string>,
                idCard: Option<string>, onDisk: bool, ml: MatchOutcome)
    returns (reply: Reply)
    modifies attempt
    ensures attempt == null ==> reply == Reply(404, "Attempt not found")
    ensures attempt != null ==>
      && attempt.test == old(attempt.test) && attempt.candidateEmail == old(attempt.candidateEmail)
      && attempt.answers == old(attempt.answers) && attempt.startedAt == old(attempt.startedAt)
      && attempt.submittedAt == old(attempt.submittedAt)
      && attempt.candidateName == old(attempt.candidateName) && attempt.violations == old(attempt.violations)
    ensures attempt != null ==>
      var c := VerifyCheck(Lookup(tests, old(attempt.test)), now, referenceImage, idCard, onDisk, ml);
      && (c.Some? ==> reply == c.value && attempt.status == old(attempt.status)
                      && attempt.referenceImage == old(attempt.referenceImage))
      && (c.None? ==> reply == Reply(200, "Candidate verified successfully")
                      && attempt.status == Verified && attempt.referenceImage == referenceImage)
  {
    if attempt == null {
      return Reply(404, "Attempt not found");
    }
    var c := VerifyCheck(Lookup(tests, attempt.test), now, referenceImage, idCard, onDisk, ml);
    if c.Some? {
      return c.value;
    }
    attempt.referenceImage := referenceImage;
    attempt.status := Verified;
    reply := Reply(200, "Candidate verified successfully");
  }

  // ----- starting -----

  /** The start route's checks, in order; `status` is None when no attempt
      has the id. Ok(j) is the whitelist position of the attempt's
      candidate. */
  function StartCheck(status: Option<Status>, found: Option<Test>, email: string, now: int)
    : (r: Result<nat, Reply>)
    ensures r.Ok? ==>
      && status == Some(Verified) && found.Some? && found.value.activeTill >= now
      && WhitelistIndex(found.value.allowedCandidates, email) == Some(r.value)
      && r.value < |found.value.allowedCandidates|
      && found.value.allowedCandidates[r.value].email == email
      && !found.value.allowedCandidates[r.value].hasAttempted
    ensures
      && status == Some(Verified) && found.Some? && found.value.activeTill >= now
      && WhitelistIndex(found.value.allowedCandidates, email).Some?
      && !found.value.allowedCandidates[WhitelistIndex(found.value.allowedCandidates, email).value].hasAttempted
      ==> r.Ok?
  {
    if status.None? then Err(Reply(404, "Attempt not found"))
    else if status.value != Verified then
      Err(Reply(403, "Candidate verification required before starting test"))
    else if found.None? then Err(Reply(404, "Test not found"))
    else if found.value.activeTill < now then
      Err(Reply(403, "Test has expired and can no longer be started"))
    else
      var cs := found.value.allowedCandidates;
      match WhitelistIndex(cs, email)
      case None => Err(Reply(403, "Candidate not authorized for this test"))
      case Some(j) =>
        if cs[j].hasAttempted then Err(Reply(403, "Test has already been attempted by this candidate"))
        else Ok(j)
  }

  /** The start route as written: it reads the attempt's status before
      testing for a missing attempt, so the read throws and the catch
      answers 500; the 404 branch is never reached. */
  function StartCheckAsWritten(status: Option<Status>, found: Option<Test>, email: string, now: int)
    : (r: Result<nat, Reply>)
    ensures status.Some? ==> r == StartCheck(status, found, email, now)
  {
    if status.None? then Err(Reply(500, "Failed to start test"))
    else StartCheck(status, found, email, now)
  }

  lemma StartMissingAttempt(found: Option<Test>, email: string, now: int)
    ensures StartCheckAsWritten(None, found, email, now) == Err(Reply(500, "Failed to start test"))
    ensures StartCheck(None, found, email, now) == Err(Reply(404, "Attempt not found"))
  {
  }

  /** The test with the whitelist entry at `j` marked as attempted. */
  function MarkAttempted(t: Test, j: nat): (u: Test)
    requires j < |t.allowedCandidates|
    ensures |u.allowedCandidates| == |t.allowedCandidates|
    ensures u.allowedCandidates[j].hasAttempted
    ensures forall i :: 0 <= i < |t.allowedCandidates| ==> u.allowedCandidates[i].email == t.allowedCandidates[i].email
    ensures forall i :: 0 <= i < |t.allowedCandidates| && i != j ==> u.allowedCandidates[i] == t.allowedCandidates[i]
    ensures u.(allowedCandidates := t.allowedCandidates) == t
  {
    var cs := t.allowedCandidates;
    t.(allowedCandidates := cs[j := cs[j].(hasAttempted := true)])
  }

  /** POST /start/:attemptId, with a missing attempt answered 404 (see
      StartCheckAsWritten for the route as written). */
  method Start(attempt: Attempt?, store: TestStore, now: int) returns (reply: Reply)
    requires store.Valid()
    modifies attempt, store
    ensures store.Valid()
    ensures attempt == null ==> reply == Reply(404, "Attempt not found") && store.tests == old(store.tests)
    ensures attempt != null ==>
      && attempt.test == old(attempt.test) && attempt.candidateEmail == old(attempt.candidateEmail)
      && attempt.answers == old(attempt.answers) && attempt.submittedAt == old(attempt.submittedAt)
      && attempt.candidateName == old(attempt.candidateName) && attempt.violations == old(attempt.violations)
      && attempt.referenceImage == old(attempt.referenceImage)
    ensures attempt != null ==>
      var c := StartCheck(Some(old(attempt.status)), Lookup(old(store.tests), old(attempt.test)),
                          old(attempt.candidateEmail), now);
      && (c.Err? ==> && reply == c.error && store.tests == old(store.tests)
                     && attempt.status == old(attempt.status) && attempt.startedAt == old(attempt.startedAt))
      && (c.Ok? ==> && reply == Reply(200, "Test started successfully")
                    && attempt.status == InProgress && attempt.startedAt == Some(now)
                    && store.tests == old(store.tests)[old(attempt.test) := MarkAttempted(old(store.tests)[old(attempt.test)], c.value)])
  {
    if attempt == null {
      return Reply(404, "Attempt not found");
    }
    var found := Lookup(store.tests, attempt.test);
    var c := StartCheck(Some(attempt.status), found, attempt.candidateEmail, now);
    if c.Err? {
      return c.error;
    }
    attempt.status := InProgress;
    attempt.startedAt := Some(now);
    var t := MarkAttempted(found.value, c.value);
    store.tests := store.tests[attempt.test := t];
    reply := Reply(200, "Test started successfully");
  }

  /** One attempt per candidate: once a start has marked the candidate's
      whitelist entry, the same join request is refused with 409. */
  lemma StartClosesJoin(req: JoinRequest, t: Test, populated: seq<Question>, now: int,
                        valid: string -> bool, matches: (string, string) -> bool)
    requires Join(req, Some(t), populated, now, valid, matches).Ok?
    ensures var j := WhitelistIndex(t.allowedCandidates, NormalizeEmail(req.email.value)).value;
      Join(req, Some(MarkAttempted(t, j)), populated, now, valid, matches)
      == Err(Reply(409, "An attempt has already been recorded for this email address."))
  {
    var email := NormalizeEmail(req.email.value);
    var cs := t.allowedCandidates;
    var j := WhitelistIndex(cs, email).value;
    IndexOfUpdate(cs, (c: Candidate) => c.email == email, j, cs[j].(hasAttempted := true));
  }

  /** A second start for the same candidate is refused with 403. */
  lemma StartOnce(t: Test, email: string, now: int)
    requires StartCheck(Some(Verified), Some(t), email, now).Ok?
    ensures var j := StartCheck(Some(Verified), Some(t), email, now).value;
      StartCheck(Some(Verified), Some(MarkAttempted(t, j)), email, now)
      == Err(Reply(403, "Test has already been attempted by this candidate"))
  {
    var cs := t.allowedCandidates;
    var j := StartCheck(Some(Verified), Some(t), email, now).value;
    IndexOfUpdate(cs, (c: Candidate) => c.email == email, j, cs[j].(hasAttempted := true));
  }

  // ----- saving answers -----

  /** The stored answer after an incoming one for the same question: a
      defined choice or text overwrites, and a coding answer with non-empty
      code replaces code and language (the answer schema has no other
      coding fields). */
  function Revised(e: Answer, a: Answer): (r: Answer)
    ensures r.question == e.question
    ensures a.mcqAnswer.None? && a.descriptiveAnswer.None? && !(a.codingAnswer.Some? && Present(a.codingAnswer.value.code))
            ==> r == e
  {
    e.(mcqAnswer := if a.mcqAnswer.Some? then a.mcqAnswer else e.mcqAnswer,
       descriptiveAnswer := if a.descriptiveAnswer.Some? then a.descriptiveAnswer else e.descriptiveAnswer,
       codingAnswer :=
         if a.codingAnswer.Some? && Present(a.codingAnswer.value.code) then
           Some(CodingAnswer(a.codingAnswer.value.code, a.codingAnswer.value.language))
         else e.codingAnswer)
  }

  /** The position of the first stored answer to question `q`. */
  function AnswerIndex(s: seq<Answer>, q: QuestionId): Option<nat> {
    IndexOf(s, (x: Answer) => x.question == q)
  }

  /** One step of the save loop. */
  function MergeOne(s: seq<Answer>, a: Answer): seq<Answer> {
    match AnswerIndex(s, a.question)
    case None => s + [a]
    case Some(j) => s[j := Revised(s[j], a)]
  }

  /** The stored answers after a whole save request. */
  function MergeAll(s: seq<Answer>, xs: seq<Answer>): seq<Answer> {
    if xs == [] then s else MergeOne(MergeAll(s, xs[..|xs| - 1]), xs[|xs| - 1])
  }

  function QuestionsOf(s: seq<Answer>): set<QuestionId> {
    set x | x in s :: x.question
  }

  predicate DistinctQuestions(s: seq<Answer>) {
    forall i, j :: 0 <= i < j < |s| ==> s[i].question != s[j].question
  }

  /** A save step answers the question, keeps every answer to another
      question where it was, and appends only when the question had no
      answer yet. */
  lemma MergeOneEffect(s: seq<Answer>, a: Answer)
    ensures QuestionsOf(MergeOne(s, a)) == QuestionsOf(s) + {a.question}
    ensures |MergeOne(s, a)| == if a.question in QuestionsOf(s) then |s| else |s| + 1
    ensures forall k :: 0 <= k < |s| && s[k].question != a.question ==> MergeOne(s, a)[k] == s[k]
    ensures DistinctQuestions(s) ==> DistinctQuestions(MergeOne(s, a))
  {
    var p := (x: Answer) => x.question == a.question;
    var r := MergeOne(s, a);
    match AnswerIndex(s, a.question)
    case None =>
      assert a.question !in QuestionsOf(s);
      assert QuestionsOf(r) == QuestionsOf(s) + {a.question} by {
        assert forall x :: x in r <==> x in s || x == a;
      }
    case Some(j) =>
      assert s[j] in s;
      assert QuestionsOf(r) == QuestionsOf(s) by {
        forall x | x in r ensures x.question in QuestionsOf(s) {
          var k :| 0 <= k < |r| && r[k] == x;
          assert s[k] in s;
        }
        forall q | q in QuestionsOf(s) ensures q in QuestionsOf(r) {
          var x :| x in s && x.question == q;
          var k :| 0 <= k < |s| && s[k] == x;
          assert r[k] in r && r[k].question == q;
        }
      }
  }

  /** Sending the same answer again changes nothing. */
  lemma MergeOneIdempotent(s: seq<Answer>, a: Answer)
    ensures MergeOne(MergeOne(s, a), a) == MergeOne(s, a)
  {
    var p := (x: Answer) => x.question == a.question;
    match AnswerIndex(s, a.question)
    case None =>
      IndexOfAppend(s, p, a);
      assert (s + [a])[|s| := Revised(a, a)] == s + [a];
    case Some(j) =>
      IndexOfUpdate(s, p, j, Revised(s[j], a));
  }

  /** A whole save answers every incoming question and no other. */
  lemma {:induction false} MergeAllQuestions(s: seq<Answer>, xs: seq<Answer>)
    ensures QuestionsOf(MergeAll(s, xs)) == QuestionsOf(s) + QuestionsOf(xs)
  {
    if xs != [] {
      var init, last := xs[..|xs| - 1], xs[|xs| - 1];
      MergeAllQuestions(s, init);
      MergeOneEffect(MergeAll(s, init), last);
      QuestionsOfSnoc(init, last);
      assert xs == init + [last];
    }
  }

  lemma QuestionsOfSnoc(s: seq<Answer>, a: Answer)
    ensures QuestionsOf(s + [a]) == QuestionsOf(s) + {a.question}
  {
    assert forall x :: x in s + [a] <==> x in s || x == a;
  }

  /** A whole save never drops a stored answer, and leaves every answer to a
      question it does not mention where it was, unchanged. */
  lemma {:induction false} MergeAllKeeps(s: seq<Answer>, xs: seq<Answer>)
    ensures |MergeAll(s, xs)| >= |s|
    ensures forall k :: 0 <= k < |s| && s[k].question !in QuestionsOf(xs) ==> MergeAll(s, xs)[k] == s[k]
  {
    if xs != [] {
      var init, last := xs[..|xs| - 1], xs[|xs| - 1];
      MergeAllKeeps(s, init);
      MergeOneEffect(MergeAll(s, init), last);
      QuestionsOfSnoc(init, last);
      assert xs == init + [last];
    }
  }

  /** A whole save never gives a question two answers. */
  lemma {:induction false} MergeAllDistinct(s: seq<Answer>, xs: seq<Answer>)
    requires DistinctQuestions(s)
    ensures DistinctQuestions(MergeAll(s, xs))
  {
    if xs != [] {
      var init, last := xs[..|xs| - 1], xs[|xs| - 1];
      MergeAllDistinct(s, init);
      MergeOneEffect(MergeAll(s, init), last);
    }
  }

  /** The save loop: each incoming answer revises the stored answer to its
      question, or is appended. Only the answer list changes. */
  method MergeAnswers(attempt: Attempt, xs: seq<Answer>)
    modifies attempt`answers
    ensures attempt.answers == MergeAll(old(attempt.answers), xs)
  {
    for i := 0 to |xs|
      invariant attempt.answers == MergeAll(old(attempt.answers), xs[..i])
    {
      assert xs[..i + 1][..i] == xs[..i];
      var a := xs[i];
      var found := AnswerIndex(attempt.answers, a.question);
      if found.Some? {
        var e := attempt.answers[found.value];
        if a.mcqAnswer.Some? {
          e := e.(mcqAnswer := a.mcqAnswer);
        }
        if a.descriptiveAnswer.Some? {
          e := e.(descriptiveAnswer := a.descriptiveAnswer);
        }
        if a.codingAnswer.Some? && Present(a.codingAnswer.value.code) {
          e := e.(codingAnswer := Some(CodingAnswer(a.codingAnswer.value.code, a.codingAnswer.value.language)));
        }
        attempt.answers := attempt.answers[found.value := e];
      } else {
        attempt.answers := attempt.answers + [a];
      }
    }
    assert xs[..|xs|] == xs;
  }

  /** POST /save/:attemptId: only an attempt in progress, only before the
      test closes; a vanished test makes the expiry read throw (500), and
      so does a request without `answers`, which the loop cannot iterate.
      `incoming` is None when the body's `answers` is absent or null. */
  method Save(attempt: Attempt?, tests: map<DocId, Test>, now: int, incoming: Option<seq<Answer>>)
    returns (reply: Reply)
    modifies attempt
    ensures attempt != null ==>
      && attempt.test == old(attempt.test) && attempt.status == old(attempt.status)
      && attempt.candidateEmail == old(attempt.candidateEmail) && attempt.candidateName == old(attempt.candidateName)
      && attempt.startedAt == old(attempt.startedAt) && attempt.submittedAt == old(attempt.submittedAt)
      && attempt.violations == old(attempt.violations) && attempt.referenceImage == old(attempt.referenceImage)
    ensures attempt == null || old(attempt.status) != InProgress ==>
      reply == Reply(400, "Invalid attempt") && (attempt != null ==> attempt.answers == old(attempt.answers))
    ensures attempt != null && old(attempt.status) == InProgress && old(attempt.test) !in tests ==>
      reply == Reply(500, "Auto-save failed") && attempt.answers == old(attempt.answers)
    ensures attempt != null && old(attempt.status) == InProgress && old(attempt.test) in tests
            && tests[old(attempt.test)].activeTill < now ==>
      reply == Reply(403, "Test time window has expired. Auto-save disabled.")
      && attempt.answers == old(attempt.answers)
    ensures attempt != null && old(attempt.status) == InProgress && old(attempt.test) in tests
            && tests[old(attempt.test)].activeTill >= now && incoming.None? ==>
      reply == Reply(500, "Auto-save failed") && attempt.answers == old(attempt.answers)
    ensures attempt != null && old(attempt.status) == InProgress && old(attempt.test) in tests
            && tests[old(attempt.test)].activeTill >= now && incoming.Some? ==>
      reply == Reply(200, "Saved successfully") && attempt.answers == MergeAll(old(attempt.answers), incoming.value)
  {
    if attempt == null || attempt.status != InProgress {
      return Reply(400, "Invalid attempt");
    }
    if attempt.test !in tests {
      return Reply(500, "Auto-save failed");
    }
    if tests[attempt.test].activeTill < now {
      return Reply(403, "Test time window has expired. Auto-save disabled.");
    }
    if incoming.None? {
      return Reply(500, "Auto-save failed");
    }
    MergeAnswers(attempt, incoming.value);
    reply := Reply(200, "Saved successfully");
  }

  // ----- submitting -----

  /** The submit route's check; `status` is None when no attempt has the id. */
  function SubmitCheck(status: Option<Status>): (r: Option<Reply>)
    ensures r.None? <==> status == Some(InProgress)
  {
    if status != Some(InProgress) then Some(Reply(400, "Test not in progress")) else None
  }

  /** The submit route as written: past the check it calls the attempt's
      `calculateScore`, which the attempt schema does not define, so the
      call throws and the catch answers 500. */
  function SubmitReplyAsWritten(status: Option<Status>): (r: Reply)
    ensures r.status != 200
    ensures SubmitCheck(status).Some? ==> r == SubmitCheck(status).value
  {
    if status != Some(InProgress) then Reply(400, "Test not in progress")
    else Reply(500, "Failed to submit test")
  }

  /** POST /submit/:attemptId, with the score computation left out (see
      SubmitReplyAsWritten for the route as written). */
  method Submit(attempt: Attempt?, now: int) returns (reply: Reply)
    modifies attempt
    ensures attempt == null ==> reply == Reply(400, "Test not in progress")
    ensures attempt != null ==>
      && attempt.test == old(attempt.test) && attempt.answers == old(attempt.answers)
      && attempt.startedAt == old(attempt.startedAt)
      && attempt.candidateEmail == old(attempt.candidateEmail) && attempt.candidateName == old(attempt.candidateName)
      && attempt.violations == old(attempt.violations) && attempt.referenceImage == old(attempt.referenceImage)
    ensures attempt != null && old(attempt.status) != InProgress ==>
      reply == Reply(400, "Test not in progress")
      && attempt.status == old(attempt.status) && attempt.submittedAt == old(attempt.submittedAt)
    ensures attempt != null && old(attempt.status) == InProgress ==>
      reply == Reply(200, "Test submitted successfully")
      && attempt.status == Submitted && attempt.submittedAt == Some(now)
  {
    var c := SubmitCheck(if attempt == null then None else Some(attempt.status));
    if c.Some? {
      return c.value;
    }
    attempt.status := Submitted;
    attempt.submittedAt := Some(now);
    reply := Reply(200, "Test submitted successfully");
  }

  // ----- the candidate's attempts -----

  datatype Account = Account(email: string, role: string)

  /** The populated test of a fetched attempt (None when it no longer exists). */
  datatype TestInfo = TestInfo(title: Option<string>, duration: Option<int>)

  /** A fetched attempt as the my-attempts route reads it; None is a field
      the document lacks. */
  datatype AttemptRecord = AttemptRecord(
    id: string,
    status: Status,
    startedAt: Option<int>,
    submittedAt: Option<int>,
    test: Option<TestInfo>,
    score: Option<int>,
    totalMarks: Option<int>,
    violations: Option<seq<Violation>>,
    integrityScore: Option<int>)

  datatype Summary = Summary(
    id: string,
    status: Status,
    startedAt: Option<int>,
    submittedAt: Option<int>,
    title: string,
    duration: Option<int>,
    score: Option<int>,
    totalMarks: int,
    violations: nat,
    integrityScore: int)

  const DefaultTitle := "Assessment"
  const DefaultIntegrityScore := 100

  /** One entry of the my-attempts list. */
  function Summarize(a: AttemptRecord): (s: Summary)
    ensures s.id == a.id && s.status == a.status
    ensures s.startedAt == a.startedAt && s.submittedAt == a.submittedAt && s.score == a.score
    ensures s.title != ""
  {
    Summary(a.id, a.status, a.startedAt, a.submittedAt,
      if a.test.Some? && Present(a.test.value.title) then a.test.value.title.value else DefaultTitle,
      if a.test.Some? then a.test.value.duration else None,
      a.score,
      if a.totalMarks.Some? then a.totalMarks.value else 0,
      if a.violations.Some? then |a.violations.value| else 0,
      if a.integrityScore.Some? then a.integrityScore.value else DefaultIntegrityScore)
  }

  /** The defaults of a summary, and the values it passes through. */
  lemma SummaryDefaults(a: AttemptRecord)
    ensures a.test.None? ==> Summarize(a).title == DefaultTitle && Summarize(a).duration.None?
    ensures a.test.Some? && Present(a.test.value.title) ==> Summarize(a).title == a.test.value.title.value
    ensures a.totalMarks.None? ==> Summarize(a).totalMarks == 0
    ensures a.totalMarks.Some? ==> Summarize(a).totalMarks == a.totalMarks.value
    ensures Summarize(a).violations == if a.violations.Some? then |a.violations.value| else 0
    ensures a.integrityScore.None? ==> Summarize(a).integrityScore == DefaultIntegrityScore
    ensures a.integrityScore.Some? ==> Summarize(a).integrityScore == a.integrityScore.value
  {
  }

  /** GET /my-attempts over the candidate's fetched attempts, in fetched
      order. */
  function MyAttempts(user: Option<Account>, attempts: seq<AttemptRecord>): (r: Result<seq<Summary>, Reply>)
    ensures r.Err? <==> user.None? || user.value.role != "candidate"
    ensures r.Err? ==> r.error == Reply(403, "Unauthorized access")
    ensures r.Ok? ==> |r.value| == |attempts| && forall i :: 0 <= i < |attempts| ==> r.value[i] == Summarize(attempts[i])
  {
    if user.None? || user.value.role != "candidate" then Err(Reply(403, "Unauthorized access"))
    else Ok(seq(|attempts|, i requires 0 <= i < |attempts| => Summarize(attempts[i])))
  }
}
