/**
  `createProblem` and `updateProblem` (src/controllers/problem.controller.js): an
  admin's problem is stored only after its reference solution, run by Judge0 with
  the expected outputs attached, is accepted on every test case. The service's
  `status.id == 3` is the only pass signal here; no output is compared locally.
 */
module ProblemController {
  import opened Wrappers
  import opened JsString
  import opened Judge0
  import opened Db

  datatype User = User(id: UserId, role: string)

  /** How the handlers answer. */
  datatype ProblemOutcome =
    | Forbidden                                       // 403
    | NotFound                                        // 404, update only
    | UnsupportedLanguage(language: string)           // 400 "Unsupported language: <language>"
    | TestcaseFailed(number: nat, language: string)   // 400 "Testcase <number> failed for language <language>"
    | InternalError                                   // 500 from the catch
    | NoResponse                                      // no reference solutions: the handler never answers
    | Created(id: ProblemId, problem: Problem)        // 201
    | Updated(id: ProblemId, problem: Problem)        // 200

  /** The HTTP status sent, None when the handler returns without sending one. */
  function HttpStatus(outcome: ProblemOutcome): (code: Option<nat>)
    ensures code.None? <==> outcome.NoResponse?
    ensures code == Some(403) <==> outcome.Forbidden?
    ensures code == Some(404) <==> outcome.NotFound?
    ensures code == Some(400) <==> outcome.UnsupportedLanguage? || outcome.TestcaseFailed?
    ensures code == Some(500) <==> outcome.InternalError?
    ensures code == Some(201) <==> outcome.Created?
    ensures code == Some(200) <==> outcome.Updated?
  {
    match outcome
    case Forbidden => Some(403)
    case NotFound => Some(404)
    case UnsupportedLanguage(_) => Some(400)
    case TestcaseFailed(_, _) => Some(400)
    case InternalError => Some(500)
    case NoResponse => None
    case Created(_, _) => Some(201)
    case Updated(_, _) => Some(200)
  }

  /** `testcases.map(...)`: one entry per test case, with its input and its expected output. */
  function ValidationBatch(code: string, languageId: int, testcases: seq<TestCase>): (batch: seq<BatchEntry>)
    ensures |batch| == |testcases|
    ensures forall k :: 0 <= k < |testcases| ==>
      batch[k] == BatchEntry(code, languageId, testcases[k].input, Some(testcases[k].output))
  {
    if testcases == [] then []
    else [BatchEntry(code, languageId, testcases[0].input, Some(testcases[0].output))]
         + ValidationBatch(code, languageId, testcases[1..])
  }

  /** The index of the first result not accepted by the service, if any. */
  function FirstRejected(results: seq<ExecResult>): (r: Option<nat>)
    ensures r.None? <==> forall k :: 0 <= k < |results| ==> results[k].status.id == 3
    ensures r.Some? ==> r.value < |results| && results[r.value].status.id != 3
                        && forall k :: 0 <= k < r.value ==> results[k].status.id == 3
  {
    if results == [] then None
    else if results[0].status.id != 3 then Some(0)
    else match FirstRejected(results[1..])
      case None => None
      case Some(k) => Some(k + 1)
  }

  /** The scan over the polled results, returning at the first one whose status is not 3. */
  method ScanResults(results: seq<ExecResult>) returns (failed: Option<nat>)
    ensures failed == FirstRejected(results)
  {
    for i := 0 to |results|
      invariant forall k :: 0 <= k < i ==> results[k].status.id == 3
    {
      var result := results[i];
      if result.status.id != 3 {
        return Some(i);
      }
    }
    return None;
  }

  /** Whether the reference solutions let the handler go on to store the problem. */
  datatype Gate = Proceed | Stop(outcome: ProblemOutcome)

  /** The validation of one reference solution against all test cases. */
  ghost function SolutionGate(
    language: string, code: string, testcases: seq<TestCase>, post: BatchRequest -> PostReply,
    fetch: (string, nat) -> GetReply, settle: string -> nat): Gate
    requires EventuallySettles(fetch, settle)
  {
    match LanguageId(language)
    case None => Stop(UnsupportedLanguage(language))
    case Some(languageId) =>
      match SubmitBatch(post, ValidationBatch(code, languageId, testcases))
      // `undefined.map(...)` throws
      case None => Stop(InternalError)
      case Some(tokens) =>
        assert SettlesBy(fetch, settle, TokensQuery(tokens));
        match PollReply(fetch, settle, TokensQuery(tokens))
        case GetFailed => Stop(InternalError)
        case Fetched(results) =>
          match FirstRejected(results)
          case Some(i) => Stop(TestcaseFailed(i + 1, language))
          case None => Proceed
  }

  /**
    The `for ... of Object.entries(referenceSolutions)` loop. Every path through its
    body returns, so only the first entry is ever validated; with no entry the loop
    does not run and the handler falls off its end.
   */
  ghost function ReferenceGate(
    body: ProblemBody, post: BatchRequest -> PostReply,
    fetch: (string, nat) -> GetReply, settle: string -> nat): Gate
    requires EventuallySettles(fetch, settle)
  {
    if |body.referenceSolutions| == 0 then Stop(NoResponse)
    else
      var (language, code) := body.referenceSolutions[0];
      SolutionGate(language, code, body.testcases, post, fetch, settle)
  }

  /** `createProblem` as a function of its inputs; `nextId` is the id the new problem gets. */
  ghost function CreateSpec(
    user: User, body: ProblemBody, post: BatchRequest -> PostReply,
    fetch: (string, nat) -> GetReply, settle: string -> nat, nextId: ProblemId): ProblemOutcome
    requires EventuallySettles(fetch, settle)
  {
    if user.role != "ADMIN" then Forbidden
    else match ReferenceGate(body, post, fetch, settle)
      case Stop(outcome) => outcome
      case Proceed => Created(nextId, Problem(body, user.id))
  }

  /** `updateProblem` as a function of its inputs and the stored problems. */
  ghost function UpdateSpec(
    user: User, id: ProblemId, body: ProblemBody, problems: seq<Problem>,
    post: BatchRequest -> PostReply, fetch: (string, nat) -> GetReply, settle: string -> nat): ProblemOutcome
    requires EventuallySettles(fetch, settle)
  {
    if user.role != "ADMIN" then Forbidden
    else if id >= |problems| then NotFound
    else match ReferenceGate(body, post, fetch, settle)
      case Stop(outcome) => outcome
      case Proceed => Updated(id, Problem(body, problems[id].userId))
  }

  /** The body of the languages loop up to the store call; `None` when every test case passed. */
  method ValidateSolution(
    language: string, code: string, testcases: seq<TestCase>,
    post: BatchRequest -> PostReply, fetch: (string, nat) -> GetReply, ghost settle: string -> nat)
    returns (stop: Option<ProblemOutcome>)
    requires EventuallySettles(fetch, settle)
    ensures stop.None? <==> SolutionGate(language, code, testcases, post, fetch, settle).Proceed?
    ensures stop.Some? ==> SolutionGate(language, code, testcases, post, fetch, settle) == Stop(stop.value)
  {
    var languageId := LanguageId(language);
    if languageId.None? {
      return Some(UnsupportedLanguage(language));
    }
    var submissions := ValidationBatch(code, languageId.value, testcases);
    var submissionResults := SubmitBatch(post, submissions);
    if submissionResults.None? {
      return Some(InternalError);
    }
    var tokens := submissionResults.value;
    assert SettlesBy(fetch, settle, TokensQuery(tokens));
    var reply, _ := PollBatchResults(tokens, fetch, settle);
    if reply.GetFailed? {
      return Some(InternalError);
    }
    var failed := ScanResults(reply.submissions);
    if failed.Some? {
      return Some(TestcaseFailed(failed.value + 1, language));
    }
    return None;
  }

  /** Whatever follows the first reference solution never changes the verdict. */
  lemma GateReadsFirstSolutionOnly(
    a: ProblemBody, b: ProblemBody, post: BatchRequest -> PostReply,
    fetch: (string, nat) -> GetReply, settle: string -> nat)
    requires EventuallySettles(fetch, settle)
    requires a.testcases == b.testcases
    requires |a.referenceSolutions| > 0 && |b.referenceSolutions| > 0
    requires a.referenceSolutions[0] == b.referenceSolutions[0]
    ensures ReferenceGate(a, post, fetch, settle) == ReferenceGate(b, post, fetch, settle)
  {
  }

  /** A user who is not an admin is refused before anything is looked at or sent. */
  lemma NonAdminForbidden(
    user: User, id: ProblemId, body: ProblemBody, problems: seq<Problem>, nextId: ProblemId,
    post: BatchRequest -> PostReply, fetch: (string, nat) -> GetReply, settle: string -> nat)
    requires EventuallySettles(fetch, settle)
    ensures CreateSpec(user, body, post, fetch, settle, nextId) == Forbidden <==> user.role != "ADMIN"
    ensures UpdateSpec(user, id, body, problems, post, fetch, settle) == Forbidden <==> user.role != "ADMIN"
  {
  }

  /** An admin updating a missing problem gets 404, whatever the body says. */
  lemma UpdateMissingNotFound(
    user: User, id: ProblemId, body: ProblemBody, problems: seq<Problem>,
    post: BatchRequest -> PostReply, fetch: (string, nat) -> GetReply, settle: string -> nat)
    requires EventuallySettles(fetch, settle)
    requires user.role == "ADMIN"
    ensures UpdateSpec(user, id, body, problems, post, fetch, settle) == NotFound <==> id >= |problems|
  {
  }

  /** A first reference solution in a language without a Judge0 id is refused before submitting. */
  lemma UnsupportedLanguageRefused(
    body: ProblemBody, post: BatchRequest -> PostReply, fetch: (string, nat) -> GetReply, settle: string -> nat)
    requires EventuallySettles(fetch, settle)
    requires |body.referenceSolutions| > 0
    ensures ReferenceGate(body, post, fetch, settle) == Stop(UnsupportedLanguage(body.referenceSolutions[0].0))
            <==> ToUpperCase(body.referenceSolutions[0].0) !in {Python, Java, JavaScript}
  {
  }

  /** With no reference solution the loop does not run, and the handler never answers. */
  lemma NoReferenceSolutionNoResponse(
    body: ProblemBody, post: BatchRequest -> PostReply, fetch: (string, nat) -> GetReply, settle: string -> nat)
    requires EventuallySettles(fetch, settle)
    ensures ReferenceGate(body, post, fetch, settle) == Stop(NoResponse) <==> |body.referenceSolutions| == 0
  {
  }

  /**
    A supported first solution whose batch post threw (so `submitBatch` gave
    undefined), or whose status request threw, ends in the catch with a 500.
   */
  lemma ServiceFailureIsInternalError(
    body: ProblemBody, post: BatchRequest -> PostReply, fetch: (string, nat) -> GetReply, settle: string -> nat,
    languageId: int)
    requires EventuallySettles(fetch, settle)
    requires |body.referenceSolutions| > 0
    requires LanguageId(body.referenceSolutions[0].0) == Some(languageId)
    ensures var reply := post(BatchRequest(ValidationBatch(body.referenceSolutions[0].1, languageId, body.testcases)));
      && (reply.PostFailed? ==> ReferenceGate(body, post, fetch, settle) == Stop(InternalError))
      && (reply.Posted? && PollReply(fetch, settle, TokensQuery(reply.tokens)).GetFailed? ==>
            ReferenceGate(body, post, fetch, settle) == Stop(InternalError))
  {
    var reply := post(BatchRequest(ValidationBatch(body.referenceSolutions[0].1, languageId, body.testcases)));
    if reply.Posted? {
      assert SettlesBy(fetch, settle, TokensQuery(reply.tokens));
    }
  }

  /**
    Once the first solution's batch was posted and polled, the gate lets the
    handler go on exactly when every result has status 3; otherwise it stops
    with the message naming the first result that does not, counting from 1.
   */
  lemma ReferenceGateVerdict(
    body: ProblemBody, post: BatchRequest -> PostReply, fetch: (string, nat) -> GetReply, settle: string -> nat,
    languageId: int, tokens: seq<Token>, results: seq<ExecResult>)
    requires EventuallySettles(fetch, settle)
    requires |body.referenceSolutions| > 0
    requires LanguageId(body.referenceSolutions[0].0) == Some(languageId)
    requires post(BatchRequest(ValidationBatch(body.referenceSolutions[0].1, languageId, body.testcases))) == Posted(tokens)
    requires PollReply(fetch, settle, TokensQuery(tokens)) == Fetched(results)
    ensures ReferenceGate(body, post, fetch, settle).Proceed?
            <==> forall k :: 0 <= k < |results| ==> results[k].status.id == 3
    ensures !ReferenceGate(body, post, fetch, settle).Proceed? ==>
              && FirstRejected(results).Some?
              && ReferenceGate(body, post, fetch, settle)
                 == Stop(TestcaseFailed(FirstRejected(results).value + 1, body.referenceSolutions[0].0))
  {
    var (language, code) := body.referenceSolutions[0];
    assert SubmitBatch(post, ValidationBatch(code, languageId, body.testcases)) == Some(tokens);
  }

  /**
    `createProblem`: once the first solution's batch was posted and polled, the
    problem is stored exactly when every result has status 3. Otherwise the
    message names the first result that does not, counting from 1.
   */
  lemma StoredOnlyIfAllAccepted(
    user: User, body: ProblemBody, nextId: ProblemId,
    post: BatchRequest -> PostReply, fetch: (string, nat) -> GetReply, settle: string -> nat,
    languageId: int, tokens: seq<Token>, results: seq<ExecResult>)
    requires EventuallySettles(fetch, settle)
    requires user.role == "ADMIN"
    requires |body.referenceSolutions| > 0
    requires LanguageId(body.referenceSolutions[0].0) == Some(languageId)
    requires post(BatchRequest(ValidationBatch(body.referenceSolutions[0].1, languageId, body.testcases))) == Posted(tokens)
    requires PollReply(fetch, settle, TokensQuery(tokens)) == Fetched(results)
    ensures var outcome := CreateSpec(user, body, post, fetch, settle, nextId);
      && (outcome.Created? <==> forall k :: 0 <= k < |results| ==> results[k].status.id == 3)
      && (outcome.Created? ==> outcome == Created(nextId, Problem(body, user.id)))
      && (!outcome.Created? ==>
            && outcome.TestcaseFailed?
            && outcome.language == body.referenceSolutions[0].0
            && 1 <= outcome.number <= |results|
            && results[outcome.number - 1].status.id != 3
            && forall k :: 0 <= k < outcome.number - 1 ==> results[k].status.id == 3)
  {
    ReferenceGateVerdict(body, post, fetch, settle, languageId, tokens, results);
  }

  /**
    `updateProblem`: for an admin and a stored problem, once the first solution's
    batch was posted and polled, the problem is updated exactly when every result
    has status 3, keeping its author. Otherwise the message names the first
    result that does not, counting from 1.
   */
  lemma UpdatedOnlyIfAllAccepted(
    user: User, id: ProblemId, body: ProblemBody, problems: seq<Problem>,
    post: BatchRequest -> PostReply, fetch: (string, nat) -> GetReply, settle: string -> nat,
    languageId: int, tokens: seq<Token>, results: seq<ExecResult>)
    requires EventuallySettles(fetch, settle)
    requires user.role == "ADMIN"
    requires id < |problems|
    requires |body.referenceSolutions| > 0
    requires LanguageId(body.referenceSolutions[0].0) == Some(languageId)
    requires post(BatchRequest(ValidationBatch(body.referenceSolutions[0].1, languageId, body.testcases))) == Posted(tokens)
    requires PollReply(fetch, settle, TokensQuery(tokens)) == Fetched(results)
    ensures var outcome := UpdateSpec(user, id, body, problems, post, fetch, settle);
      && (outcome.Updated? <==> forall k :: 0 <= k < |results| ==> results[k].status.id == 3)
      && (outcome.Updated? ==> outcome == Updated(id, Problem(body, problems[id].userId)))
      && (!outcome.Updated? ==>
            && outcome.TestcaseFailed?
            && outcome.language == body.referenceSolutions[0].0
            && 1 <= outcome.number <= |results|
            && results[outcome.number - 1].status.id != 3
            && forall k :: 0 <= k < outcome.number - 1 ==> results[k].status.id == 3)
  {
    ReferenceGateVerdict(body, post, fetch, settle, languageId, tokens, results);
  }

  /** `createProblem`. */
  method CreateProblem(
    db: Database, user: User, body: ProblemBody,
    post: BatchRequest -> PostReply, fetch: (string, nat) -> GetReply, ghost settle: string -> nat)
    returns (outcome: ProblemOutcome)
    requires db.Valid()
    requires EventuallySettles(fetch, settle)
    modifies db
    ensures db.Valid()
    ensures outcome == CreateSpec(user, body, post, fetch, settle, old(|db.problems|))
    ensures outcome.Created? ==> db.problems == old(db.problems) + [outcome.problem]
    ensures !outcome.Created? ==> db.problems == old(db.problems)
    ensures db.submissions == old(db.submissions) && db.testCaseResults == old(db.testCaseResults)
    ensures db.problemsSolved == old(db.problemsSolved)
  {
    if user.role != "ADMIN" {
      return Forbidden;
    }
    for i := 0 to |body.referenceSolutions|
      invariant i == 0
    {
      var (language, code) := body.referenceSolutions[i];
      var stop := ValidateSolution(language, code, body.testcases, post, fetch, settle);
      if stop.Some? {
        return stop.value;
      }
      var problem := Problem(body, user.id);
      var id := db.CreateProblem(problem);
      return Created(id, problem);
    }
    return NoResponse;
  }

  /** `updateProblem`. */
  method UpdateProblem(
    db: Database, user: User, id: ProblemId, body: ProblemBody,
    post: BatchRequest -> PostReply, fetch: (string, nat) -> GetReply, ghost settle: string -> nat)
    returns (outcome: ProblemOutcome)
    requires db.Valid()
    requires EventuallySettles(fetch, settle)
    modifies db
    ensures db.Valid()
    ensures outcome == UpdateSpec(user, id, body, old(db.problems), post, fetch, settle)
    ensures outcome.Updated? ==> db.problems == old(db.problems)[id := outcome.problem]
    ensures !outcome.Updated? ==> db.problems == old(db.problems)
    ensures db.submissions == old(db.submissions) && db.testCaseResults == old(db.testCaseResults)
    ensures db.problemsSolved == old(db.problemsSolved)
  {
    if user.role != "ADMIN" {
      return Forbidden;
    }
    var existProblem := db.FindProblem(id);
    if existProblem.None? {
      return NotFound;
    }
    for i := 0 to |body.referenceSolutions|
      invariant i == 0
    {
      var (language, code) := body.referenceSolutions[i];
      var stop := ValidateSolution(language, code, body.testcases, post, fetch, settle);
      if stop.Some? {
        return stop.value;
      }
      db.UpdateProblem(id, body);
      return Updated(id, Problem(body, existProblem.value.userId));
    }
    return NoResponse;
  }
}
