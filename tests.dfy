/** The administrator's test routes: creating a test with its whitelist of
    candidates, editing its metadata, maintaining the whitelist and the
    question list, and listing an administrator's tests as live or expired.

    The test collection is a map from document id to test document. bcrypt,
    the email validator and the test-id generator are parameters; dates are
    milliseconds since the epoch and `now` is the clock reading. */
module TestRoutes {
  import opened Wrappers
  import opened Text
  import opened Seqs

  type DocId = string
  type UserId = string
  type QuestionId = string

  /** One whitelist entry; its email is stored lower-cased and trimmed. */
  datatype Candidate = Candidate(email: string, passcodeHash: string, hasAttempted: bool)

  datatype Test = Test(
    id: DocId,
    testId: string,
    title: string,
    duration: int,
    activeTill: int,
    supportedLanguages: seq<string>,
    questions: seq<QuestionId>,
    allowedCandidates: seq<Candidate>,
    createdBy: UserId)

  /** An HTTP status and the `message` of the JSON body. */
  datatype Reply = Reply(status: nat, message: string)

  /** What `new Date(x)` makes of a request value. */
  datatype DateValue = Instant(ms: int) | InvalidDate

  /** A request's `{email, passcode}` entry; None is an absent field. */
  datatype Entry = Entry(email: Option<string>, passcode: Option<string>)

  /** JavaScript truthiness of an optional string. */
  predicate Present(s: Option<string>) {
    s.Some? && s.value != ""
  }

  const DefaultLanguages: seq<string> := ["cpp", "python", "java"]

  // ----- creating a test -----

  /** The body of a create request; None is an absent (or falsy) field,
      and an `allowedCandidates` that is not an array. */
  datatype CreateRequest = CreateRequest(
    title: Option<string>,
    duration: Option<int>,
    questions: Option<seq<QuestionId>>,
    allowedCandidates: Option<seq<Entry>>,
    activeTill: Option<DateValue>,
    supportedLanguages: Option<seq<string>>)

  /** The first validation a create request fails, in the route's order,
      before any whitelist entry is looked at. */
  function CreateCheck(req: CreateRequest, now: int): (r: Option<Reply>)
    ensures r.None? <==>
      && Present(req.title) && req.duration.Some? && req.duration.value != 0
      && req.questions.Some? && |req.questions.value| > 0
      && req.allowedCandidates.Some? && |req.allowedCandidates.value| > 0
      && req.activeTill.Some? && req.activeTill.value.Instant? && req.activeTill.value.ms > now
    ensures r.Some? ==> r.value.status == 400
  {
    if !Present(req.title) || req.duration.None? || req.duration.value == 0
       || req.questions.None? || |req.questions.value| == 0 then
      Some(Reply(400, "Title, duration, and at least one question are required"))
    else if req.allowedCandidates.None? || |req.allowedCandidates.value| == 0 then
      Some(Reply(400, "At least one allowed candidate is required"))
    else if req.activeTill.None? then
      Some(Reply(400, "Active till date is required"))
    else if req.activeTill.value.InvalidDate? then
      Some(Reply(400, "Invalid activeTill date"))
    else if req.activeTill.value.ms <= now then
      Some(Reply(400, "activeTill must be a future date"))
    else None
  }

  /** Why the create route rejects one whitelist entry, if it does; the
      validator sees the email as sent. */
  function EntryError(e: Entry, valid: string -> bool): Option<string> {
    if !Present(e.email) || !Present(e.passcode) then
      Some("Each candidate must have an email and passcode")
    else if !valid(e.email.value) then
      Some("Invalid email format: " + e.email.value)
    else None
  }

  /** The stored form of an accepted entry: normalised email, hashed
      passcode, not yet attempted. */
  function Enrol(email: string, passcode: string, hash: string -> string): (c: Candidate)
    ensures Trimmed(c.email) && NoUpper(c.email) && !c.hasAttempted
  {
    Candidate(NormalizeEmail(email), hash(passcode), false)
  }

  /** The whitelist a create request yields, or the message of its first
      bad entry. */
  function Processed(es: seq<Entry>, valid: string -> bool, hash: string -> string)
    : Result<seq<Candidate>, string>
  {
    if es == [] then Ok([])
    else
      match Processed(es[..|es| - 1], valid, hash)
      case Err(m) => Err(m)
      case Ok(cs) =>
        var e := es[|es| - 1];
        if EntryError(e, valid).Some? then Err(EntryError(e, valid).value)
        else Ok(cs + [Enrol(e.email.value, e.passcode.value, hash)])
  }

  /** Creation succeeds exactly when every entry is acceptable. */
  lemma {:induction false} ProcessedOk(es: seq<Entry>, valid: string -> bool, hash: string -> string)
    ensures Processed(es, valid, hash).Ok? <==> forall i :: 0 <= i < |es| ==> EntryError(es[i], valid).None?
  {
    if es != [] {
      var init, last := es[..|es| - 1], es[|es| - 1];
      ProcessedOk(init, valid, hash);
      assert es == init + [last];
      if Processed(init, valid, hash).Ok? && EntryError(last, valid).None? {
        assert Processed(es, valid, hash).Ok?;
      } else {
        assert Processed(es, valid, hash).Err?;
      }
    }
  }

  /** An accepted whitelist holds one stored entry per request entry, in order. */
  lemma {:induction false} ProcessedValues(es: seq<Entry>, valid: string -> bool, hash: string -> string)
    requires Processed(es, valid, hash).Ok?
    ensures |Processed(es, valid, hash).value| == |es|
    ensures forall i :: 0 <= i < |es| ==>
      EntryError(es[i], valid).None? &&
      Processed(es, valid, hash).value[i] == Enrol(es[i].email.value, es[i].passcode.value, hash)
  {
    if es != [] {
      var init := es[..|es| - 1];
      ProcessedValues(init, valid, hash);
      var cs := Processed(init, valid, hash).value;
      assert Processed(es, valid, hash).value == cs + [Enrol(es[|es| - 1].email.value, es[|es| - 1].passcode.value, hash)];
      assert forall i :: 0 <= i < |init| ==> init[i] == es[i];
    }
  }

  /** A rejected creation reports the first bad entry. */
  lemma {:induction false} ProcessedFirstError(es: seq<Entry>, valid: string -> bool, hash: string -> string)
    ensures Processed(es, valid, hash).Err? ==>
      exists k :: 0 <= k < |es|
        && (forall j :: 0 <= j < k ==> EntryError(es[j], valid).None?)
        && EntryError(es[k], valid) == Some(Processed(es, valid, hash).error)
  {
    if es != [] {
      var init := es[..|es| - 1];
      ProcessedFirstError(init, valid, hash);
      ProcessedOk(init, valid, hash);
      assert forall i :: 0 <= i < |init| ==> init[i] == es[i];
      if Processed(init, valid, hash).Ok? && Processed(es, valid, hash).Err? {
        var k := |es| - 1;
        assert EntryError(es[k], valid) == Some(Processed(es, valid, hash).error);
      }
    }
  }

  /** Once a prefix is rejected, so is the whole list, with the same message. */
  lemma {:induction false} ProcessedErrSticks(es: seq<Entry>, k: nat, valid: string -> bool, hash: string -> string)
    requires k <= |es| && Processed(es[..k], valid, hash).Err?
    ensures Processed(es, valid, hash) == Processed(es[..k], valid, hash)
    decreases |es|
  {
    if k == |es| {
      assert es[..k] == es;
    } else {
      var init := es[..|es| - 1];
      assert init[..k] == es[..k];
      ProcessedErrSticks(init, k, valid, hash);
    }
  }

  /** The candidate loop of the create route: stops at the first bad entry. */
  method ProcessCandidates(entries: seq<Entry>, valid: string -> bool, hash: string -> string)
    returns (r: Result<seq<Candidate>, string>)
    ensures r == Processed(entries, valid, hash)
  {
    var processed: seq<Candidate> := [];
    for i := 0 to |entries|
      invariant Processed(entries[..i], valid, hash) == Ok(processed)
    {
      var e := entries[i];
      assert entries[..i + 1][..i] == entries[..i];
      if !Present(e.email) || !Present(e.passcode) {
        ProcessedErrSticks(entries, i + 1, valid, hash);
        return Err("Each candidate must have an email and passcode");
      }
      if !valid(e.email.value) {
        ProcessedErrSticks(entries, i + 1, valid, hash);
        return Err("Invalid email format: " + e.email.value);
      }
      var passcodeHash := hash(e.passcode.value);
      processed := processed + [Candidate(NormalizeEmail(e.email.value), passcodeHash, false)];
    }
    assert entries[..|entries|] == entries;
    r := Ok(processed);
  }

  /** The test-id loop: draw ids until one is not in use. `draws(k)` is the
      k-th id the generator returns. */
  method NewTestId(draws: nat -> string, taken: set<string>) returns (id: string, k: nat)
    requires exists n :: draws(n) !in taken
    ensures id == draws(k) && id !in taken
    ensures forall j :: 0 <= j < k ==> draws(j) in taken
  {
    ghost var n: nat :| draws(n) !in taken;
    k := 0;
    id := draws(0);
    var inUse := id in taken;
    while inUse
      invariant id == draws(k) && inUse == (id in taken)
      invariant forall j :: 0 <= j < k ==> draws(j) in taken
      invariant k <= n
      decreases n - k
    {
      k := k + 1;
      id := draws(k);
      inUse := id in taken;
    }
  }

  // ----- editing a test -----

  /** The body of an update request; None is an absent or falsy field. */
  datatype UpdateRequest = UpdateRequest(title: Option<string>, duration: Option<int>, activeTill: Option<DateValue>)

  /** The update route's date check: an activeTill that is given must parse
      and lie in the future. */
  predicate BadExpiry(req: UpdateRequest, now: int) {
    req.activeTill.Some? && (req.activeTill.value.InvalidDate? || req.activeTill.value.ms <= now)
  }

  /** The test with the request's given fields applied. */
  function Updated(t: Test, req: UpdateRequest): (u: Test)
    ensures u.id == t.id && u.testId == t.testId && u.createdBy == t.createdBy
    ensures u.questions == t.questions && u.allowedCandidates == t.allowedCandidates
    ensures u.supportedLanguages == t.supportedLanguages
  {
    t.(title := if Present(req.title) then req.title.value else t.title,
       duration := if req.duration.Some? && req.duration.value != 0 then req.duration.value else t.duration,
       activeTill := if req.activeTill.Some? && req.activeTill.value.Instant? then req.activeTill.value.ms else t.activeTill)
  }

  /** Repeating an update changes nothing more, and an empty update changes
      nothing. */
  lemma UpdatedIdempotent(t: Test, req: UpdateRequest)
    ensures Updated(Updated(t, req), req) == Updated(t, req)
    ensures req == UpdateRequest(None, None, None) ==> Updated(t, req) == t
  {
  }

  // ----- the whitelist -----

  function EmailsOf(cs: seq<Candidate>): set<string> {
    set c | c in cs :: c.email
  }

  /** What the add-candidates route makes of one request entry: nothing for
      an absent field, for an email already on the list before the call or
      for an invalid normalised email, and otherwise a fresh entry. */
  function Admitted(e: Entry, existing: set<string>, valid: string -> bool, hash: string -> string)
    : (r: seq<Candidate>)
    ensures |r| <= 1
  {
    if !Present(e.email) || !Present(e.passcode) then []
    else
      var email := NormalizeEmail(e.email.value);
      if email in existing || !valid(email) then []
      else [Candidate(email, hash(e.passcode.value), false)]
  }

  /** The entries the add-candidates route appends, in request order. */
  function NewCandidates(es: seq<Entry>, existing: set<string>, valid: string -> bool, hash: string -> string)
    : (r: seq<Candidate>)
    ensures |r| <= |es|
  {
    if es == [] then []
    else NewCandidates(es[..|es| - 1], existing, valid, hash) + Admitted(es[|es| - 1], existing, valid, hash)
  }

  /** Every appended entry is new to the list, valid, normalised and not
      yet attempted. */
  lemma {:induction false} NewCandidatesSound(es: seq<Entry>, existing: set<string>, valid: string -> bool, hash: string -> string)
    ensures forall c :: c in NewCandidates(es, existing, valid, hash) ==>
      c.email !in existing && valid(c.email) && !c.hasAttempted && Trimmed(c.email) && NoUpper(c.email)
  {
    if es != [] {
      NewCandidatesSound(es[..|es| - 1], existing, valid, hash);
    }
  }

  /** Every acceptable entry is appended. */
  lemma {:induction false} NewCandidatesComplete(es: seq<Entry>, existing: set<string>, valid: string -> bool, hash: string -> string)
    ensures forall i :: 0 <= i < |es| && Admitted(es[i], existing, valid, hash) != [] ==>
      Admitted(es[i], existing, valid, hash)[0] in NewCandidates(es, existing, valid, hash)
  {
    if es != [] {
      var init := es[..|es| - 1];
      NewCandidatesComplete(init, existing, valid, hash);
      assert forall i :: 0 <= i < |init| ==> init[i] == es[i];
    }
  }

  /** Duplicates inside one request are not checked against each other:
      the same acceptable entry twice is appended twice. */
  lemma BatchDuplicatesKept(e: Entry, existing: set<string>, valid: string -> bool, hash: string -> string)
    requires Admitted(e, existing, valid, hash) != []
    ensures NewCandidates([e, e], existing, valid, hash) == Admitted(e, existing, valid, hash) + Admitted(e, existing, valid, hash)
  {
    assert [e, e][..1] == [e];
    assert [e][..0] == [];
  }

  /** The add-candidates loop, against the snapshot of emails taken before it. */
  method CollectCandidates(entries: seq<Entry>, existing: set<string>, valid: string -> bool, hash: string -> string)
    returns (news: seq<Candidate>)
    ensures news == NewCandidates(entries, existing, valid, hash)
  {
    news := [];
    for i := 0 to |entries|
      invariant news == NewCandidates(entries[..i], existing, valid, hash)
    {
      assert entries[..i + 1][..i] == entries[..i];
      var e := entries[i];
      if !Present(e.email) || !Present(e.passcode) {
        continue;
      }
      var email := NormalizeEmail(e.email.value);
      if email in existing {
        continue;
      }
      if !valid(email) {
        continue;
      }
      var passcodeHash := hash(e.passcode.value);
      news := news + [Candidate(email, passcodeHash, false)];
    }
    assert entries[..|entries|] == entries;
  }

  /** The whitelist without the entries whose email is `email`. */
  function WithoutEmail(cs: seq<Candidate>, email: string): seq<Candidate> {
    Filter(cs, (c: Candidate) => c.email != email)
  }

  /** Removal deletes every entry with that email and keeps the others;
      it removes nothing exactly when no entry has that email. */
  lemma RemovalEffect(cs: seq<Candidate>, email: string)
    ensures forall c :: c in WithoutEmail(cs, email) <==> c in cs && c.email != email
    ensures |WithoutEmail(cs, email)| == |cs| <==> email !in EmailsOf(cs)
  {
    var p := (c: Candidate) => c.email != email;
    FilterMembers(cs, p);
    FilterKeepsAll(cs, p);
    if email in EmailsOf(cs) {
      var c :| c in cs && c.email == email;
      var i :| 0 <= i < |cs| && cs[i] == c;
      assert !p(cs[i]);
    }
  }

  // ----- the question list -----

  /** Adding one id to a JavaScript Set kept as its insertion-ordered array. */
  function Insert(s: seq<QuestionId>, x: QuestionId): seq<QuestionId> {
    if x in s then s else s + [x]
  }

  function InsertAll(s: seq<QuestionId>, xs: seq<QuestionId>): seq<QuestionId> {
    if xs == [] then s else Insert(InsertAll(s, xs[..|xs| - 1]), xs[|xs| - 1])
  }

  /** `Array.from(new Set(existing))` after adding every requested id. */
  function MergeQuestionIds(existing: seq<QuestionId>, ids: seq<QuestionId>): seq<QuestionId> {
    InsertAll(InsertAll([], existing), ids)
  }

  lemma {:induction false} InsertAllMembers(s: seq<QuestionId>, xs: seq<QuestionId>)
    ensures forall x :: x in InsertAll(s, xs) <==> x in s || x in xs
  {
    if xs != [] {
      InsertAllMembers(s, xs[..|xs| - 1]);
      assert xs == xs[..|xs| - 1] + [xs[|xs| - 1]];
    }
  }

  lemma {:induction false} InsertAllDistinct(s: seq<QuestionId>, xs: seq<QuestionId>)
    requires Distinct(s)
    ensures Distinct(InsertAll(s, xs))
  {
    if xs != [] {
      InsertAllDistinct(s, xs[..|xs| - 1]);
    }
  }

  /** Ids already present keep their place; new ids go to the end in the
      order of their first occurrence. */
  lemma {:induction false} InsertAllAppends(s: seq<QuestionId>, xs: seq<QuestionId>)
    ensures InsertAll(s, xs) == s + InsertAll([], Filter(xs, (x: QuestionId) => x !in s))
  {
    var p := (x: QuestionId) => x !in s;
    if xs != [] {
      var init, last := xs[..|xs| - 1], xs[|xs| - 1];
      InsertAllAppends(s, init);
      var rest := InsertAll([], Filter(init, p));
      assert InsertAll(s, init) == s + rest;
      InsertAllMembers(s, init);
      InsertAllMembers([], Filter(init, p));
      FilterMembers(init, p);
      if last in s {
        assert Filter(xs, p) == Filter(init, p);
      } else {
        assert Filter(xs, p) == Filter(init, p) + [last];
        assert last in s + rest <==> last in rest;
        assert InsertAll(s, xs) == Insert(s + rest, last);
        assert InsertAll([], Filter(xs, p)) == Insert(rest, last);
        if last !in rest {
          assert s + rest + [last] == s + (rest + [last]);
        }
      }
    }
  }

  lemma {:induction false} InsertAllOfDistinct(s: seq<QuestionId>)
    requires Distinct(s)
    ensures InsertAll([], s) == s
  {
    if s != [] {
      var init := s[..|s| - 1];
      assert Distinct(init);
      InsertAllOfDistinct(init);
      assert s[|s| - 1] !in init;
      assert s == init + [s[|s| - 1]];
    }
  }

  /** The add-questions union over any stored list: the stored ids with
      their repeats dropped, in first-occurrence order, then the requested
      ids not already stored, in request order, with no id twice. */
  lemma QuestionUnion(existing: seq<QuestionId>, ids: seq<QuestionId>)
    ensures MergeQuestionIds(existing, ids)
         == InsertAll([], existing) + InsertAll([], Filter(ids, (x: QuestionId) => x !in existing))
    ensures Distinct(MergeQuestionIds(existing, ids))
    ensures forall x :: x in MergeQuestionIds(existing, ids) <==> x in existing || x in ids
  {
    var base := InsertAll([], existing);
    InsertAllMembers([], existing);
    InsertAllAppends(base, ids);
    FilterSame(ids, (x: QuestionId) => x !in base, (x: QuestionId) => x !in existing);
    InsertAllDistinct([], existing);
    InsertAllDistinct(base, ids);
    InsertAllMembers(base, ids);
  }

  /** When the stored list has no repeats, as the create form produces, it
      is kept verbatim and the new ids follow it. */
  lemma QuestionUnionOfDistinct(existing: seq<QuestionId>, ids: seq<QuestionId>)
    requires Distinct(existing)
    ensures MergeQuestionIds(existing, ids) == existing + InsertAll([], Filter(ids, (x: QuestionId) => x !in existing))
  {
    QuestionUnion(existing, ids);
    InsertAllOfDistinct(existing);
  }

  /** The question list without every occurrence of `id`. */
  function WithoutQuestion(qs: seq<QuestionId>, id: QuestionId): seq<QuestionId> {
    Filter(qs, (q: QuestionId) => q != id)
  }

  /** Removal deletes every occurrence, keeps the other ids in their order,
      and removing again changes nothing. */
  lemma QuestionRemoval(qs: seq<QuestionId>, id: QuestionId)
    ensures forall q :: q in WithoutQuestion(qs, id) <==> q in qs && q != id
    ensures forall a, b :: qs == a + b ==> WithoutQuestion(qs, id) == WithoutQuestion(a, id) + WithoutQuestion(b, id)
    ensures WithoutQuestion(WithoutQuestion(qs, id), id) == WithoutQuestion(qs, id)
  {
    var p := (q: QuestionId) => q != id;
    FilterMembers(qs, p);
    FilterIdempotent(qs, p);
    forall a, b | qs == a + b
      ensures WithoutQuestion(qs, id) == WithoutQuestion(a, id) + WithoutQuestion(b, id)
    {
      FilterConcat(a, b, p);
    }
  }

  // ----- listing -----

  function Live(ts: seq<Test>, now: int): seq<Test> {
    Filter(ts, (t: Test) => t.activeTill >= now)
  }

  function Expired(ts: seq<Test>, now: int): seq<Test> {
    Filter(ts, (t: Test) => t.activeTill < now)
  }

  /** The my-tests loop: a test whose window has not yet closed is live. */
  method Categorize(ts: seq<Test>, now: int) returns (live: seq<Test>, expired: seq<Test>)
    ensures live == Live(ts, now) && expired == Expired(ts, now)
  {
    live, expired := [], [];
    for i := 0 to |ts|
      invariant live == Live(ts[..i], now) && expired == Expired(ts[..i], now)
    {
      assert ts[..i + 1][..i] == ts[..i];
      if ts[i].activeTill >= now {
        live := live + [ts[i]];
      } else {
        expired := expired + [ts[i]];
      }
    }
    assert ts[..|ts|] == ts;
  }

  /** Each fetched test lands in exactly one of the two lists, on the side
      its expiry decides, and both lists keep the fetched order. */
  lemma Partition(ts: seq<Test>, now: int)
    ensures multiset(Live(ts, now)) + multiset(Expired(ts, now)) == multiset(ts)
    ensures |Live(ts, now)| + |Expired(ts, now)| == |ts|
    ensures forall t :: t in Live(ts, now) <==> t in ts && t.activeTill >= now
    ensures forall t :: t in Expired(ts, now) <==> t in ts && t.activeTill < now
    ensures forall a, b :: ts == a + b ==>
      Live(ts, now) == Live(a, now) + Live(b, now) && Expired(ts, now) == Expired(a, now) + Expired(b, now)
  {
    var p := (t: Test) => t.activeTill >= now;
    var q := (t: Test) => t.activeTill < now;
    FilterPartition(ts, p, q);
    FilterPartitionLength(ts, p, q);
    FilterMembers(ts, p);
    FilterMembers(ts, q);
    forall a, b | ts == a + b
      ensures Live(ts, now) == Live(a, now) + Live(b, now) && Expired(ts, now) == Expired(a, now) + Expired(b, now)
    {
      FilterConcat(a, b, p);
      FilterConcat(a, b, q);
    }
  }

  // ----- the collection -----

  class TestStore {
    var tests: map<DocId, Test>

    /** Each document sits under its own id, and test ids are unique. */
    ghost predicate Valid()
      reads this
    {
      && (forall d :: d in tests ==> tests[d].id == d)
      && (forall d, e :: d in tests && e in tests && tests[d].testId == tests[e].testId ==> d == e)
    }

    constructor ()
      ensures Valid() && tests == map[]
    {
      tests := map[];
    }

    function TestIds(): set<string>
      reads this
    {
      set d | d in tests :: tests[d].testId
    }

    /** `findOne({_id: id, createdBy: owner})` finds a document. */
    predicate Owns(owner: UserId, id: DocId)
      reads this
    {
      id in tests && tests[id].createdBy == owner
    }

    /** POST /: validation, the whitelist, a fresh test id, the new document
        under the fresh document id `doc`. */
    method Create(owner: UserId, doc: DocId, req: CreateRequest, now: int,
                  valid: string -> bool, hash: string -> string, draws: nat -> string)
      returns (reply: Reply, testId: Option<string>)
      requires Valid() && doc !in tests
      requires exists n :: draws(n) !in TestIds()
      modifies this
      ensures Valid()
      ensures CreateCheck(req, now).Some? ==>
        reply == CreateCheck(req, now).value && testId.None? && tests == old(tests)
      ensures CreateCheck(req, now).None? && Processed(req.allowedCandidates.value, valid, hash).Err? ==>
        && reply == Reply(400, Processed(req.allowedCandidates.value, valid, hash).error)
        && testId.None? && tests == old(tests)
      ensures CreateCheck(req, now).None? && Processed(req.allowedCandidates.value, valid, hash).Ok? ==>
        && reply == Reply(201, "Test created successfully")
        && testId.Some? && testId.value !in old(TestIds())
        && tests == old(tests)[doc := Test(doc, testId.value, req.title.value, req.duration.value,
                                           req.activeTill.value.ms,
                                           if req.supportedLanguages.Some? then req.supportedLanguages.value
                                           else DefaultLanguages,
                                           req.questions.value,
                                           Processed(req.allowedCandidates.value, valid, hash).value,
                                           owner)]
    {
      var check := CreateCheck(req, now);
      if check.Some? {
        return check.value, None;
      }
      var processed := ProcessCandidates(req.allowedCandidates.value, valid, hash);
      if processed.Err? {
        return Reply(400, processed.error), None;
      }
      var id, _ := NewTestId(draws, TestIds());
      var languages := if req.supportedLanguages.Some? then req.supportedLanguages.value else DefaultLanguages;
      var t := Test(doc, id, req.title.value, req.duration.value, req.activeTill.value.ms,
                    languages, req.questions.value, processed.value, owner);
      forall d | d in tests
        ensures tests[d].testId != id
      {
        assert tests[d].testId in TestIds();
      }
      tests := tests[doc := t];
      reply, testId := Reply(201, "Test created successfully"), Some(id);
    }

    /** PUT /:id: the date check comes before the lookup. */
    method UpdateMetadata(owner: UserId, id: DocId, req: UpdateRequest, now: int) returns (reply: Reply)
      requires Valid()
      modifies this
      ensures Valid()
      ensures BadExpiry(req, now) ==>
        reply == Reply(400, "Invalid or past activeTill date") && tests == old(tests)
      ensures !BadExpiry(req, now) && !old(Owns(owner, id)) ==>
        reply == Reply(404, "Test not found") && tests == old(tests)
      ensures !BadExpiry(req, now) && old(Owns(owner, id)) ==>
        && reply == Reply(200, "Test updated successfully")
        && tests == old(tests)[id := Updated(old(tests)[id], req)]
    {
      if BadExpiry(req, now) {
        return Reply(400, "Invalid or past activeTill date");
      }
      if !Owns(owner, id) {
        return Reply(404, "Test not found");
      }
      tests := tests[id := Updated(tests[id], req)];
      reply := Reply(200, "Test updated successfully");
    }

    /** POST /:id/candidates: existing entries stay as they are and the
        admitted ones are appended; the document is written only when at
        least one was admitted. */
    method AddCandidates(owner: UserId, id: DocId, candidates: Option<seq<Entry>>,
                         valid: string -> bool, hash: string -> string)
      returns (reply: Reply)
      requires Valid()
      modifies this
      ensures Valid()
      ensures candidates.None? || |candidates.value| == 0 ==>
        reply == Reply(400, "No candidates provided") && tests == old(tests)
      ensures candidates.Some? && |candidates.value| > 0 && !old(Owns(owner, id)) ==>
        reply == Reply(404, "Test not found") && tests == old(tests)
      ensures candidates.Some? && |candidates.value| > 0 && old(Owns(owner, id)) ==>
        var t := old(tests)[id];
        var news := NewCandidates(candidates.value, EmailsOf(t.allowedCandidates), valid, hash);
        && reply == Reply(200, "Added " + DecimalString(|news|) + " candidates")
        && tests == old(tests)[id := t.(allowedCandidates := t.allowedCandidates + news)]
    {
      if candidates.None? || |candidates.value| == 0 {
        return Reply(400, "No candidates provided");
      }
      if !Owns(owner, id) {
        return Reply(404, "Test not found");
      }
      var t := tests[id];
      var news := CollectCandidates(candidates.value, EmailsOf(t.allowedCandidates), valid, hash);
      if |news| > 0 {
        tests := tests[id := t.(allowedCandidates := t.allowedCandidates + news)];
      } else {
        assert t.allowedCandidates + news == t.allowedCandidates;
      }
      reply := Reply(200, "Added " + DecimalString(|news|) + " candidates");
    }

    /** DELETE /:id/candidates: nothing is written when no entry matched. */
    method RemoveCandidate(owner: UserId, id: DocId, email: Option<string>) returns (reply: Reply)
      requires Valid()
      modifies this
      ensures Valid()
      ensures !Present(email) ==> reply == Reply(400, "Email is required") && tests == old(tests)
      ensures Present(email) && !old(Owns(owner, id)) ==>
        reply == Reply(404, "Test not found") && tests == old(tests)
      ensures Present(email) && old(Owns(owner, id)) ==>
        var t := old(tests)[id];
        var target := NormalizeEmail(email.value);
        && (target !in EmailsOf(t.allowedCandidates) ==>
              reply == Reply(404, "Candidate not found") && tests == old(tests))
        && (target in EmailsOf(t.allowedCandidates) ==>
              && reply == Reply(200, "Candidate removed successfully")
              && tests == old(tests)[id := t.(allowedCandidates := WithoutEmail(t.allowedCandidates, target))])
    {
      if !Present(email) {
        return Reply(400, "Email is required");
      }
      if !Owns(owner, id) {
        return Reply(404, "Test not found");
      }
      var t := tests[id];
      var target := NormalizeEmail(email.value);
      var kept := WithoutEmail(t.allowedCandidates, target);
      RemovalEffect(t.allowedCandidates, target);
      if |kept| == |t.allowedCandidates| {
        return Reply(404, "Candidate not found");
      }
      tests := tests[id := t.(allowedCandidates := kept)];
      reply := Reply(200, "Candidate removed successfully");
    }

    /** POST /:id/questions. */
    method AddQuestions(owner: UserId, id: DocId, questionIds: Option<seq<QuestionId>>) returns (reply: Reply)
      requires Valid()
      modifies this
      ensures Valid()
      ensures questionIds.None? || |questionIds.value| == 0 ==>
        reply == Reply(400, "No questions provided") && tests == old(tests)
      ensures questionIds.Some? && |questionIds.value| > 0 && !old(Owns(owner, id)) ==>
        reply == Reply(404, "Test not found") && tests == old(tests)
      ensures questionIds.Some? && |questionIds.value| > 0 && old(Owns(owner, id)) ==>
        var t := old(tests)[id];
        && reply == Reply(200, "Questions added successfully")
        && tests == old(tests)[id := t.(questions := MergeQuestionIds(t.questions, questionIds.value))]
    {
      if questionIds.None? || |questionIds.value| == 0 {
        return Reply(400, "No questions provided");
      }
      if !Owns(owner, id) {
        return Reply(404, "Test not found");
      }
      var t := tests[id];
      tests := tests[id := t.(questions := MergeQuestionIds(t.questions, questionIds.value))];
      reply := Reply(200, "Questions added successfully");
    }

    /** DELETE /:id/questions/:questionId. */
    method RemoveQuestion(owner: UserId, id: DocId, questionId: QuestionId) returns (reply: Reply)
      requires Valid()
      modifies this
      ensures Valid()
      ensures !old(Owns(owner, id)) ==> reply == Reply(404, "Test not found") && tests == old(tests)
      ensures old(Owns(owner, id)) ==>
        var t := old(tests)[id];
        && reply == Reply(200, "Question removed successfully")
        && tests == old(tests)[id := t.(questions := WithoutQuestion(t.questions, questionId))]
    {
      if !Owns(owner, id) {
        return Reply(404, "Test not found");
      }
      var t := tests[id];
      tests := tests[id := t.(questions := WithoutQuestion(t.questions, questionId))];
      reply := Reply(200, "Question removed successfully");
    }
  }
}
