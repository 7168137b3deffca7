/**
  `executeCode` (src/controllers/executeCode.controller.js): run a user's code on
  every stdin of a request, compare each stdout with the expected output after
  trimming, record the submission with one row per result, and mark the problem
  solved for the user when every output matched.
 */
module ExecuteCodeController {
  import opened Wrappers
  import opened JsString
  import opened Judge0
  import opened Db

  /**
    The request body. `stdin` and `expectedOutput` are None when the JSON value is
    not an array.
   */
  datatype ExecuteRequest = ExecuteRequest(
    sourceCode: string,
    languageId: int,
    stdin: Option<seq<string>>,
    expectedOutput: Option<seq<string>>,
    problemId: ProblemId)

  /** How the handler answers. */
  datatype ExecOutcome =
    | InvalidInput                   // 400 "Invalid input format"
    | SubmitFailed                   // 500 "Failed to submit code for execution"
    | PollFailed                     // 500 from the catch: the status request threw
    | NoResults                      // 500 "Failed to get results from Judge0"
    | Executed(submissionId: nat, submission: SubmissionRecord, testCases: seq<TestCaseRow>)  // 200

  function HttpStatus(outcome: ExecOutcome): (code: nat)
    ensures code == 200 <==> outcome.Executed?
    ensures code == 400 <==> outcome.InvalidInput?
    ensures code == 500 <==> outcome.SubmitFailed? || outcome.PollFailed? || outcome.NoResults?
  {
    match outcome
    case InvalidInput => 400
    case Executed(_, _, _) => 200
    case _ => 500
  }

  /** The shape check: `stdin` a non-empty array, `expected_output` an array of the same length. */
  predicate ValidInput(req: ExecuteRequest) {
    && req.stdin.Some?
    && |req.stdin.value| != 0
    && req.expectedOutput.Some?
    && |req.expectedOutput.value| == |req.stdin.value|
  }

  /** `stdin.map(...)`: the batch that runs the code on every input, without expected output. */
  function RunBatch(sourceCode: string, languageId: int, stdin: seq<string>): (batch: seq<BatchEntry>)
    ensures |batch| == |stdin|
    ensures forall k :: 0 <= k < |stdin| ==> batch[k] == BatchEntry(sourceCode, languageId, stdin[k], None)
  {
    if stdin == [] then []
    else [BatchEntry(sourceCode, languageId, stdin[0], None)] + RunBatch(sourceCode, languageId, stdin[1..])
  }

  /** `expected_output[i]`: undefined past the end of the array. */
  function ExpectedAt(expected: seq<string>, i: nat): (r: Option<string>)
    ensures r.Some? <==> i < |expected|
    ensures r.Some? ==> r.value == expected[i]
  {
    if i < |expected| then Some(expected[i]) else None
  }

  /** `x?.trim()`: undefined stays undefined. */
  function TrimOrUndefined(x: Option<string>): Option<string> {
    match x
    case Some(s) => Some(Trim(s))
    case None => None
  }

  /** `result.stdout?.trim() === expected?.trim()`. */
  predicate OutputMatches(stdout: Option<string>, expected: Option<string>) {
    TrimOrUndefined(stdout) == TrimOrUndefined(expected)
  }

  /** The aggregate verdict: every result's output matches the expected output at its index. */
  predicate AllPassed(results: seq<ExecResult>, expected: seq<string>) {
    forall i :: 0 <= i < |results| ==> OutputMatches(results[i].stdout, ExpectedAt(expected, i))
  }

  /** The comparison loop: starts from true and clears the flag at every mismatch. */
  method CompareOutputs(results: seq<ExecResult>, expected: seq<string>) returns (allPassed: bool)
    ensures allPassed <==> AllPassed(results, expected)
    ensures !allPassed <==> exists i :: 0 <= i < |results| && !OutputMatches(results[i].stdout, ExpectedAt(expected, i))
  {
    allPassed := true;
    for i := 0 to |results|
      invariant allPassed <==> forall j :: 0 <= j < i ==> OutputMatches(results[j].stdout, ExpectedAt(expected, j))
    {
      var result := results[i];
      if TrimOrUndefined(result.stdout) != TrimOrUndefined(ExpectedAt(expected, i)) {
        allPassed := false;
      }
    }
  }

  /** Outputs that differ only in surrounding whitespace match; internal whitespace counts. */
  lemma OutputMatchesExamples()
    ensures OutputMatches(Some("42\n"), Some("42"))
    ensures !OutputMatches(Some("4 2"), Some("42"))
    ensures !OutputMatches(None, Some("42"))
    ensures OutputMatches(None, None)
  {
    TrimOfPadded([], "42", "\n");
    assert [] + "42" + "\n" == "42\n";
    TrimOfPadded([], "42", []);
    assert [] + "42" + [] == "42";
    TrimOfPadded([], "4 2", []);
    assert [] + "4 2" + [] == "4 2";
  }

  /**
    An undefined output matches only an undefined expected output, and
    surrounding whitespace on either side never changes whether two outputs match.
   */
  lemma OutputMatchesIgnoresPadding(out: string, exp: string, w1: string, w2: string, w3: string, w4: string)
    requires AllWhitespace(w1) && AllWhitespace(w2) && AllWhitespace(w3) && AllWhitespace(w4)
    ensures OutputMatches(Some(w1 + out + w2), Some(w3 + exp + w4)) <==> OutputMatches(Some(out), Some(exp))
    ensures OutputMatches(Some(out), Some(exp)) <==> Trim(out) == Trim(exp)
    ensures !OutputMatches(None, Some(exp)) && !OutputMatches(Some(out), None)
  {
    TrimIgnoresPadding(w1, out, w2);
    TrimIgnoresPadding(w3, exp, w4);
  }

  /** Padding any output with whitespace never changes the verdict. */
  lemma AllPassedIgnoresPadding(results: seq<ExecResult>, padded: seq<ExecResult>, expected: seq<string>)
    requires |padded| == |results|
    requires forall i :: 0 <= i < |results| ==>
      (results[i].stdout.None? <==> padded[i].stdout.None?)
    requires forall i :: 0 <= i < |results| && results[i].stdout.Some? ==>
      exists w1, w2 :: AllWhitespace(w1) && AllWhitespace(w2) && padded[i].stdout.value == w1 + results[i].stdout.value + w2
    ensures AllPassed(padded, expected) <==> AllPassed(results, expected)
  {
    forall i | 0 <= i < |results| && results[i].stdout.Some?
      ensures Trim(padded[i].stdout.value) == Trim(results[i].stdout.value)
    {
      var w1, w2 :| AllWhitespace(w1) && AllWhitespace(w2) && padded[i].stdout.value == w1 + results[i].stdout.value + w2;
      TrimIgnoresPadding(w1, results[i].stdout.value, w2);
    }
    assert forall i :: 0 <= i < |results| ==> TrimOrUndefined(padded[i].stdout) == TrimOrUndefined(results[i].stdout);
  }

  /** The `status` text of the submission and of every row. */
  function StatusText(allPassed: bool): (s: string)
    ensures s == "Accepted" <==> allPassed
    ensures s == "Wrong Answer" <==> !allPassed
  {
    if allPassed then "Accepted" else "Wrong Answer"
  }

  /** A result's memory as `+` sees it: a null memory adds 0. */
  function MemoryOf(result: ExecResult): nat {
    result.memory.GetOr(0)
  }

  /** `results.reduce((acc, r) => acc + r.memory, 0)`, folded from the left. */
  function MemoryTotal(results: seq<ExecResult>): (total: nat)
    ensures forall i :: 0 <= i < |results| ==> MemoryOf(results[i]) <= total
    ensures (forall i :: 0 <= i < |results| ==> MemoryOf(results[i]) == 0) ==> total == 0
  {
    if results == [] then 0
    else MemoryTotal(results[..|results| - 1]) + MemoryOf(results[|results| - 1])
  }

  /** A result whose memory is null adds nothing to the sum, wherever it stands. */
  lemma MemoryTotalSkipsNull(before: seq<ExecResult>, r: ExecResult, after: seq<ExecResult>)
    requires r.memory.None?
    ensures MemoryTotal(before + [r] + after) == MemoryTotal(before + after)
  {
    MemoryTotalAppend(before + [r], after);
    MemoryTotalAppend(before, [r]);
    MemoryTotalAppend(before, after);
    assert [r][..0] == [];
  }

  /** The sum over a list of results is the sum over its parts. */
  lemma {:induction false} MemoryTotalAppend(a: seq<ExecResult>, b: seq<ExecResult>)
    ensures MemoryTotal(a + b) == MemoryTotal(a) + MemoryTotal(b)
    decreases |b|
  {
    if b != [] {
      var init := b[..|b| - 1];
      assert (a + b)[..|a + b| - 1] == a + init;
      assert (a + b)[|a + b| - 1] == b[|b| - 1];
      MemoryTotalAppend(a, init);
    } else {
      assert a + b == a;
    }
  }

  /** `results.map(r => r.stdout || "")`, the submission's `stdout` list before JSON encoding. */
  function StdoutList(results: seq<ExecResult>): (out: seq<string>)
    ensures |out| == |results|
    ensures forall i :: 0 <= i < |results| ==> out[i] == results[i].stdout.GetOr([])
  {
    if results == [] then [] else [results[0].stdout.GetOr([])] + StdoutList(results[1..])
  }

  /** The submission row. `languageName` stands for `getLanguageName`. */
  function SubmissionFor(
    req: ExecuteRequest, userId: UserId, languageName: int -> string,
    stdin: seq<string>, results: seq<ExecResult>, allPassed: bool): (record: SubmissionRecord)
    ensures record.problemId == req.problemId && record.userId == userId
    ensures record.sourceCode == req.sourceCode && record.language == languageName(req.languageId)
    ensures record.stdin == Join(stdin, '\n')
    ensures record.stdout == StdoutList(results)
    ensures record.status == "Accepted" <==> allPassed
    ensures record.memory == MemoryTotal(results)
  {
    SubmissionRecord(req.problemId, userId, req.sourceCode, languageName(req.languageId),
      Join(stdin, '\n'), StdoutList(results), StatusText(allPassed), MemoryTotal(results))
  }

  /** The row of one result; `passed` is the aggregate verdict, not this case's own. */
  function RowFor(submissionId: nat, result: ExecResult, expected: Option<string>, allPassed: bool): TestCaseRow {
    TestCaseRow(submissionId, if allPassed then 3 else 2, allPassed, result.stdout, expected,
      result.stderr, result.compileOutput, StatusText(allPassed), result.time, result.memory)
  }

  /** `results.map((result, index) => ...)` from `from` on. */
  function TestCaseRowsFrom(submissionId: nat, results: seq<ExecResult>, expected: seq<string>, allPassed: bool, from: nat): (rows: seq<TestCaseRow>)
    requires from <= |results|
    ensures |rows| == |results| - from
    ensures forall k :: 0 <= k < |rows| ==> rows[k] == RowFor(submissionId, results[from + k], ExpectedAt(expected, from + k), allPassed)
    decreases |results| - from
  {
    if from == |results| then []
    else [RowFor(submissionId, results[from], ExpectedAt(expected, from), allPassed)]
         + TestCaseRowsFrom(submissionId, results, expected, allPassed, from + 1)
  }

  /** One row per result, index-aligned with the expected outputs, all carrying the aggregate verdict. */
  function TestCaseRows(submissionId: nat, results: seq<ExecResult>, expected: seq<string>, allPassed: bool): (rows: seq<TestCaseRow>)
    ensures |rows| == |results|
    ensures forall k :: 0 <= k < |rows| ==>
      && rows[k].submissionId == submissionId
      && rows[k].passed == allPassed
      && (rows[k].testCaseId == 3 <==> allPassed)
      && (rows[k].testCaseId == 2 <==> !allPassed)
      && (rows[k].status == "Accepted" <==> allPassed)
      && (rows[k].status == "Wrong Answer" <==> !allPassed)
      && rows[k].stdout == results[k].stdout
      && rows[k].expectedOutput == ExpectedAt(expected, k)
      && rows[k].stderr == results[k].stderr
      && rows[k].compileOutput == results[k].compileOutput
      && rows[k].time == results[k].time
      && rows[k].memory == results[k].memory
  {
    TestCaseRowsFrom(submissionId, results, expected, allPassed, 0)
  }

  /** The whole handler as a function of its inputs; `nextId` is the id the new submission gets. */
  ghost function ExecuteSpec(
    req: ExecuteRequest, userId: UserId, languageName: int -> string,
    post: BatchRequest -> PostReply, fetch: (string, nat) -> GetReply, settle: string -> nat,
    nextId: nat): ExecOutcome
    requires EventuallySettles(fetch, settle)
  {
    if !ValidInput(req) then InvalidInput
    else
      var stdin, expected := req.stdin.value, req.expectedOutput.value;
      var submitted := SubmitBatch(post, RunBatch(req.sourceCode, req.languageId, stdin));
      if submitted.None? || |submitted.value| == 0 then SubmitFailed
      else
        assert SettlesBy(fetch, settle, TokensQuery(submitted.value));
        match PollReply(fetch, settle, TokensQuery(submitted.value))
        case GetFailed => PollFailed
        case Fetched(results) =>
          if |results| == 0 then NoResults
          else
            var allPassed := AllPassed(results, expected);
            Executed(nextId, SubmissionFor(req, userId, languageName, stdin, results, allPassed),
                     TestCaseRows(nextId, results, expected, allPassed))
  }

  /**
    The handler. It writes the submission, then (only when every output matched)
    the solved pair, then the rows; on every other outcome the store is untouched.
   */
  method ExecuteCode(
    db: Database, req: ExecuteRequest, userId: UserId, languageName: int -> string,
    post: BatchRequest -> PostReply, fetch: (string, nat) -> GetReply, ghost settle: string -> nat)
    returns (outcome: ExecOutcome)
    requires db.Valid()
    requires EventuallySettles(fetch, settle)
    modifies db
    ensures db.Valid()
    ensures outcome == ExecuteSpec(req, userId, languageName, post, fetch, settle, old(|db.submissions|))
    ensures db.problems == old(db.problems)
    ensures outcome.Executed? ==>
      && db.submissions == old(db.submissions) + [outcome.submission]
      && db.testCaseResults == old(db.testCaseResults) + outcome.testCases
      && db.problemsSolved == (if outcome.submission.status == "Accepted"
                               then Upsert(old(db.problemsSolved), SolvedKey(userId, req.problemId))
                               else old(db.problemsSolved))
    ensures !outcome.Executed? ==> unchanged(db)
  {
    if !ValidInput(req) {
      return InvalidInput;
    }
    var stdin, expected := req.stdin.value, req.expectedOutput.value;
    var submissions := RunBatch(req.sourceCode, req.languageId, stdin);
    var submitted := SubmitBatch(post, submissions);
    if submitted.None? || |submitted.value| == 0 {
      return SubmitFailed;
    }
    var tokens := submitted.value;
    assert SettlesBy(fetch, settle, TokensQuery(tokens));
    var reply, _ := PollBatchResults(tokens, fetch, settle);
    if reply.GetFailed? {
      return PollFailed;
    }
    var results := reply.submissions;
    if |results| == 0 {
      return NoResults;
    }
    var allPassed := CompareOutputs(results, expected);
    var record := SubmissionFor(req, userId, languageName, stdin, results, allPassed);
    var submissionId := db.CreateSubmission(record);
    if allPassed {
      db.UpsertProblemSolved(SolvedKey(userId, req.problemId));
    }
    var rows := TestCaseRows(submissionId, results, expected, allPassed);
    db.CreateTestCaseResults(rows);
    outcome := Executed(submissionId, record, rows);
  }

  /** A request of the wrong shape is refused before anything is sent. */
  lemma InvalidInputRefused(
    req: ExecuteRequest, userId: UserId, languageName: int -> string,
    post: BatchRequest -> PostReply, fetch: (string, nat) -> GetReply, settle: string -> nat, nextId: nat)
    requires EventuallySettles(fetch, settle)
    ensures ExecuteSpec(req, userId, languageName, post, fetch, settle, nextId) == InvalidInput
            <==> (req.stdin.None? || |req.stdin.value| == 0 || req.expectedOutput.None?
                  || |req.expectedOutput.value| != |req.stdin.value|)
  {
  }

  /**
    A failed or empty batch submission ends with SubmitFailed, and an empty poll
    result with NoResults; neither reaches the store (see ExecuteCode).
   */
  lemma FailuresBeforeRecording(
    req: ExecuteRequest, userId: UserId, languageName: int -> string,
    post: BatchRequest -> PostReply, fetch: (string, nat) -> GetReply, settle: string -> nat, nextId: nat)
    requires EventuallySettles(fetch, settle)
    requires ValidInput(req)
    ensures var reply := post(BatchRequest(RunBatch(req.sourceCode, req.languageId, req.stdin.value)));
      && ((reply.PostFailed? || reply.tokens == []) ==>
            ExecuteSpec(req, userId, languageName, post, fetch, settle, nextId) == SubmitFailed)
      && (reply.Posted? && reply.tokens != [] && PollReply(fetch, settle, TokensQuery(reply.tokens)) == Fetched([]) ==>
            ExecuteSpec(req, userId, languageName, post, fetch, settle, nextId) == NoResults)
  {
    var reply := post(BatchRequest(RunBatch(req.sourceCode, req.languageId, req.stdin.value)));
    if reply.Posted? {
      assert SettlesBy(fetch, settle, TokensQuery(reply.tokens));
    }
  }

  /**
    When the batch was accepted and the poll produced results, the handler records
    exactly the verdict of the trimmed comparison: "Accepted" iff every output
    matched, the summed memory, and one row per result carrying that verdict.
   */
  lemma ExecutedVerdict(
    req: ExecuteRequest, userId: UserId, languageName: int -> string,
    post: BatchRequest -> PostReply, fetch: (string, nat) -> GetReply, settle: string -> nat, nextId: nat,
    tokens: seq<Token>, results: seq<ExecResult>)
    requires EventuallySettles(fetch, settle)
    requires ValidInput(req)
    requires post(BatchRequest(RunBatch(req.sourceCode, req.languageId, req.stdin.value))) == Posted(tokens)
    requires |tokens| != 0
    requires PollReply(fetch, settle, TokensQuery(tokens)) == Fetched(results)
    requires |results| != 0
    ensures var outcome := ExecuteSpec(req, userId, languageName, post, fetch, settle, nextId);
      && outcome.Executed?
      && outcome.submissionId == nextId
      && outcome.submission.problemId == req.problemId && outcome.submission.userId == userId
      && outcome.submission.sourceCode == req.sourceCode
      && outcome.submission.language == languageName(req.languageId)
      && outcome.submission.stdin == Join(req.stdin.value, '\n')
      && outcome.submission.stdout == StdoutList(results)
      && (outcome.submission.status == "Accepted" <==> AllPassed(results, req.expectedOutput.value))
      && (outcome.submission.status == "Wrong Answer" <==> !AllPassed(results, req.expectedOutput.value))
      && outcome.submission.memory == MemoryTotal(results)
      && |outcome.testCases| == |results|
      && forall k :: 0 <= k < |results| ==>
           && outcome.testCases[k].passed == AllPassed(results, req.expectedOutput.value)
           && outcome.testCases[k].expectedOutput == ExpectedAt(req.expectedOutput.value, k)
  {
    var stdin, expected := req.stdin.value, req.expectedOutput.value;
    assert SubmitBatch(post, RunBatch(req.sourceCode, req.languageId, stdin)) == Some(tokens);
    assert SettlesBy(fetch, settle, TokensQuery(tokens));
    var allPassed := AllPassed(results, expected);
    assert ExecuteSpec(req, userId, languageName, post, fetch, settle, nextId)
        == Executed(nextId, SubmissionFor(req, userId, languageName, stdin, results, allPassed),
                    TestCaseRows(nextId, results, expected, allPassed));
  }

  /**
    The submission's `stdin` text gives the inputs back when split on newlines,
    provided no input holds a newline itself.
   */
  lemma RecordedStdinRoundTrip(
    req: ExecuteRequest, userId: UserId, languageName: int -> string,
    post: BatchRequest -> PostReply, fetch: (string, nat) -> GetReply, settle: string -> nat, nextId: nat,
    tokens: seq<Token>, results: seq<ExecResult>)
    requires EventuallySettles(fetch, settle)
    requires ValidInput(req)
    requires forall k :: 0 <= k < |req.stdin.value| ==> '\n' !in req.stdin.value[k]
    requires post(BatchRequest(RunBatch(req.sourceCode, req.languageId, req.stdin.value))) == Posted(tokens)
    requires |tokens| != 0
    requires PollReply(fetch, settle, TokensQuery(tokens)) == Fetched(results)
    requires |results| != 0
    ensures ExecuteSpec(req, userId, languageName, post, fetch, settle, nextId).Executed?
    ensures Split(ExecuteSpec(req, userId, languageName, post, fetch, settle, nextId).submission.stdin, '\n')
            == req.stdin.value
  {
    ExecutedVerdict(req, userId, languageName, post, fetch, settle, nextId, tokens, results);
    SplitJoin(req.stdin.value, '\n');
  }

  /** The results of the end-to-end examples: stdout "3" and then `second`. */
  function ScenarioResults(second: string): seq<ExecResult> {
    [ ExecResult(Status(3, "Accepted"), Some("3"), None, None, Some("0.01"), Some(1024)),
      ExecResult(Status(3, "Accepted"), Some(second), None, None, Some("0.01"), Some(2048)) ]
  }

  function ScenarioRequest(problemId: ProblemId): ExecuteRequest {
    ExecuteRequest("print(sum)", 71, Some(["1 2", "3 4"]), Some(["3", "7"]), problemId)
  }

  /** The end-to-end example through the oracles: the service prints `second` for "3 4". */
  ghost function Scenario(userId: UserId, languageName: int -> string, problemId: ProblemId, second: string): ExecOutcome {
    var fetch := (q: string, n: nat) => Fetched(ScenarioResults(second));
    var settle := (q: string) => 0;
    assert EventuallySettles(fetch, settle) by {
      forall q ensures SettlesBy(fetch, settle, q) {
        assert IsAllDone(ScenarioResults(second));
      }
    }
    ExecuteSpec(ScenarioRequest(problemId), userId, languageName, (b: BatchRequest) => Posted(["t1", "t2"]),
      fetch, settle, 0)
  }

  lemma ScenarioExecuted(userId: UserId, languageName: int -> string, problemId: ProblemId, second: string)
    ensures var outcome := Scenario(userId, languageName, problemId, second);
      && outcome.Executed?
      && (outcome.submission.status == "Accepted" <==> AllPassed(ScenarioResults(second), ["3", "7"]))
      && outcome.submission.memory == 3072
      && |outcome.testCases| == 2
      && outcome.testCases[0].passed == outcome.testCases[1].passed == AllPassed(ScenarioResults(second), ["3", "7"])
  {
    var fetch := (q: string, n: nat) => Fetched(ScenarioResults(second));
    var settle := (q: string) => 0;
    assert EventuallySettles(fetch, settle) by {
      forall q ensures SettlesBy(fetch, settle, q) {
        assert IsAllDone(ScenarioResults(second));
      }
    }
    var post := (b: BatchRequest) => Posted(["t1", "t2"]);
    var q := TokensQuery(["t1", "t2"]);
    assert SettlesBy(fetch, settle, q);
    assert PollReply(fetch, settle, q) == Fetched(ScenarioResults(second));
    assert MemoryTotal(ScenarioResults(second)) == 3072 by {
      assert ScenarioResults(second)[..1] == [ScenarioResults(second)[0]];
    }
    ExecutedVerdict(ScenarioRequest(problemId), userId, languageName, post, fetch, settle, 0,
      ["t1", "t2"], ScenarioResults(second));
  }

  /** Printed "3" and "7" against expected "3" and "7": every output matches. */
  lemma ScenarioMatches()
    ensures AllPassed(ScenarioResults("7"), ["3", "7"])
  {
    var results, expected := ScenarioResults("7"), ["3", "7"];
    assert forall i :: 0 <= i < |results| ==> results[i].stdout == ExpectedAt(expected, i);
  }

  /** Printed "8" where "7" is expected: not every output matches. */
  lemma ScenarioMismatches()
    ensures !AllPassed(ScenarioResults("8"), ["3", "7"])
  {
    assert Trim("7") == "7" by {
      assert [] + "7" + [] == "7";
      TrimOfPadded([], "7", []);
    }
    assert Trim("8") == "8" by {
      assert [] + "8" + [] == "8";
      TrimOfPadded([], "8", []);
    }
    assert !OutputMatches(ScenarioResults("8")[1].stdout, ExpectedAt(["3", "7"], 1));
  }

  /** stdin ["1 2", "3 4"], expected ["3", "7"], printed "3" and "7": Accepted, and both rows pass. */
  lemma EndToEndAccepted(userId: UserId, languageName: int -> string, problemId: ProblemId)
    ensures Scenario(userId, languageName, problemId, "7").submission.status == "Accepted"
    ensures Scenario(userId, languageName, problemId, "7").testCases[0].passed
    ensures Scenario(userId, languageName, problemId, "7").testCases[1].passed
  {
    ScenarioExecuted(userId, languageName, problemId, "7");
    ScenarioMatches();
  }

  /** The same request, printed "3" and "8": Wrong Answer, and both rows fail, the first one too. */
  lemma EndToEndWrongAnswer(userId: UserId, languageName: int -> string, problemId: ProblemId)
    ensures Scenario(userId, languageName, problemId, "8").submission.status == "Wrong Answer"
    ensures !Scenario(userId, languageName, problemId, "8").testCases[0].passed
    ensures !Scenario(userId, languageName, problemId, "8").testCases[1].passed
  {
    ScenarioExecuted(userId, languageName, problemId, "8");
    ScenarioMismatches();
  }
}
