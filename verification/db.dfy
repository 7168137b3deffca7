/**
  The part of the Prisma store the judging pipeline touches, as an object whose
  tables are sequences. Generated ids (submission, problem) are modelled as the
  position of the row in its table.
 */
module Db {
  import opened Wrappers

  type UserId = string
  type ProblemId = nat

  /** A `submission` row as `executeCode` creates it. */
  datatype SubmissionRecord = SubmissionRecord(
    problemId: ProblemId,
    userId: UserId,
    sourceCode: string,
    language: string,
    stdin: string,
    stdout: seq<string>,
    status: string,
    memory: nat)

  /** A `testCaseResult` row. */
  datatype TestCaseRow = TestCaseRow(
    submissionId: nat,
    testCaseId: int,
    passed: bool,
    stdout: Option<string>,
    expectedOutput: Option<string>,
    stderr: Option<string>,
    compileOutput: Option<string>,
    status: string,
    time: Option<string>,
    memory: Option<nat>)

  /** The unique key `userId_problemId` of a `problemSolved` row (its only columns). */
  datatype SolvedKey = SolvedKey(userId: UserId, problemId: ProblemId)

  datatype TestCase = TestCase(input: string, output: string)

  /**
    The fields of a problem as the request body gives them. JSON-valued fields are
    kept as their text; `referenceSolutions` is the list of its entries in
    `Object.entries` order: (language name, solution code).
   */
  datatype ProblemBody = ProblemBody(
    title: string,
    description: string,
    difficulty: string,
    tags: seq<string>,
    examples: string,
    constraints: string,
    testcases: seq<TestCase>,
    codeSnippets: string,
    referenceSolutions: seq<(string, string)>)

  /** A `problem` row: the fields and the id of the admin who created it. */
  datatype Problem = Problem(body: ProblemBody, userId: UserId)

  /** How many rows of `keys` carry `key`. */
  function Count(keys: seq<SolvedKey>, key: SolvedKey): nat
  {
    if keys == [] then 0
    else Count(keys[..|keys| - 1], key) + (if keys[|keys| - 1] == key then 1 else 0)
  }

  predicate NoDuplicates(keys: seq<SolvedKey>) {
    forall i, j :: 0 <= i < j < |keys| ==> keys[i] != keys[j]
  }

  /**
    `problemSolved.upsert` on the key: a missing key is inserted; an existing row is
    "updated" with the very values it already holds, so nothing changes.
   */
  function Upsert(keys: seq<SolvedKey>, key: SolvedKey): (r: seq<SolvedKey>)
    ensures key in r
    ensures forall k :: k in r <==> k in keys || k == key
    ensures NoDuplicates(keys) ==> NoDuplicates(r)
    ensures |r| <= |keys| + 1
  {
    if key in keys then keys else keys + [key]
  }

  /** Without duplicates, a key occurs once if present and not at all otherwise. */
  lemma {:induction false} CountWithoutDuplicates(keys: seq<SolvedKey>, key: SolvedKey)
    requires NoDuplicates(keys)
    ensures Count(keys, key) == if key in keys then 1 else 0
  {
    if keys != [] {
      var init, last := keys[..|keys| - 1], keys[|keys| - 1];
      assert keys == init + [last];
      CountWithoutDuplicates(init, key);
      assert key in keys <==> key in init || key == last;
      if last == key {
        assert key !in init by {
          forall i | 0 <= i < |init| ensures init[i] != key {
            assert init[i] == keys[i];
          }
        }
      }
    }
  }

  /** After an upsert the key has exactly one row. */
  lemma UpsertLeavesOneRow(keys: seq<SolvedKey>, key: SolvedKey)
    requires NoDuplicates(keys)
    ensures Count(Upsert(keys, key), key) == 1
  {
    CountWithoutDuplicates(Upsert(keys, key), key);
  }

  /** However many accepted runs upsert the same pair, one row remains. */
  lemma RepeatedUpsertLeavesOneRow(keys: seq<SolvedKey>, key: SolvedKey, times: nat)
    requires NoDuplicates(keys)
    ensures Count(UpsertTimes(keys, key, times), key) == (if times == 0 && key !in keys then 0 else 1)
  {
    CountWithoutDuplicates(UpsertTimes(keys, key, times), key);
  }

  /** `times` upserts of the same key in a row. */
  function UpsertTimes(keys: seq<SolvedKey>, key: SolvedKey, times: nat): (r: seq<SolvedKey>)
    ensures NoDuplicates(keys) ==> NoDuplicates(r)
    ensures times > 0 ==> r == Upsert(keys, key)
    ensures times == 0 ==> r == keys
  {
    if times == 0 then keys else Upsert(UpsertTimes(keys, key, times - 1), key)
  }

  /** The store: the four tables the pipeline reads or writes. */
  class Database {
    var problems: seq<Problem>
    var submissions: seq<SubmissionRecord>
    var testCaseResults: seq<TestCaseRow>
    var problemsSolved: seq<SolvedKey>

    /** The `userId_problemId` key is unique in `problemSolved`. */
    ghost predicate Valid()
      reads this
    {
      NoDuplicates(problemsSolved)
    }

    constructor ()
      ensures Valid()
      ensures problems == [] && submissions == [] && testCaseResults == [] && problemsSolved == []
    {
      problems, submissions, testCaseResults, problemsSolved := [], [], [], [];
    }

    /** `problem.findUnique({ where: { id } })`. */
    function FindProblem(id: ProblemId): (r: Option<Problem>)
      reads this
      ensures r.Some? <==> id < |problems|
      ensures r.Some? ==> r.value == problems[id]
    {
      if id < |problems| then Some(problems[id]) else None
    }

    /** `submission.create`: appends the row and returns its id. */
    method CreateSubmission(record: SubmissionRecord) returns (id: nat)
      requires Valid()
      modifies this
      ensures Valid()
      ensures id == old(|submissions|) && submissions == old(submissions) + [record]
      ensures problems == old(problems) && testCaseResults == old(testCaseResults)
      ensures problemsSolved == old(problemsSolved)
    {
      id := |submissions|;
      submissions := submissions + [record];
    }

    /** `problemSolved.upsert` on `userId_problemId`. */
    method UpsertProblemSolved(key: SolvedKey)
      requires Valid()
      modifies this
      ensures Valid()
      ensures problemsSolved == Upsert(old(problemsSolved), key)
      ensures problems == old(problems) && submissions == old(submissions)
      ensures testCaseResults == old(testCaseResults)
    {
      problemsSolved := Upsert(problemsSolved, key);
    }

    /** `testCaseResult.createMany`: appends the rows in order. */
    method CreateTestCaseResults(rows: seq<TestCaseRow>)
      requires Valid()
      modifies this
      ensures Valid()
      ensures testCaseResults == old(testCaseResults) + rows
      ensures problems == old(problems) && submissions == old(submissions)
      ensures problemsSolved == old(problemsSolved)
    {
      testCaseResults := testCaseResults + rows;
    }

    /** `problem.create`: appends the row and returns its id. */
    method CreateProblem(problem: Problem) returns (id: ProblemId)
      requires Valid()
      modifies this
      ensures Valid()
      ensures id == old(|problems|) && problems == old(problems) + [problem]
      ensures submissions == old(submissions) && testCaseResults == old(testCaseResults)
      ensures problemsSolved == old(problemsSolved)
    {
      id := |problems|;
      problems := problems + [problem];
    }

    /** `problem.update`: replaces the fields of an existing problem; its author stays. */
    method UpdateProblem(id: ProblemId, body: ProblemBody)
      requires Valid()
      requires id < |problems|
      modifies this
      ensures Valid()
      ensures problems == old(problems)[id := Problem(body, old(problems[id].userId))]
      ensures submissions == old(submissions) && testCaseResults == old(testCaseResults)
      ensures problemsSolved == old(problemsSolved)
    {
      problems := problems[id := Problem(body, problems[id].userId)];
    }
  }
}
