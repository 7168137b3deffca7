# Judging pipeline around Judge0, modelled in Dafny

This project models the judging core of a code-judging backend: the adapter to the
Judge0 execution service (`src/libs/judge0.lib.js`), the `executeCode` handler that
runs a user's code on a list of inputs and records a verdict
(`src/controllers/executeCode.controller.js`), and the `createProblem` /
`updateProblem` handlers that accept a problem only when its reference solution
passes every test case on Judge0 (`src/controllers/problem.controller.js`).

HTTP calls to Judge0 are abstract oracles passed in as function values:
`post` answers the batch submission, and `fetch(q, n)` answers the `n`-th status
request for the token query `q`. The one-second sleep is a step that does nothing.
The Prisma store is a `Database` object holding four tables as sequences
(`problems`, `submissions`, `testCaseResults`, `problemsSolved`), and generated ids
are positions in those sequences.

Files:

- `wrappers.dfy`: `Option`, for JavaScript's `null`/`undefined`.
- `js_string.dfy`: the JavaScript string operations the pipeline uses. These are `trim` (with its exact whitespace set), `toUpperCase`, `join` and `split`.
- `judge0.dfy`: language lookup, token query string, `submitBatch`, and the poll loop as a method with invariants.
- `db.dfy`: the store. Includes the `problemSolved` upsert and its "one row per key" invariant.
- `execute_code.dfy`: `executeCode` as a specification function (`ExecuteSpec`) and as the imperative handler (`ExecuteCode`) proved equal to it.
- `problem.dfy`: the reference-solution gate and the two handlers, specified the same way.

The model keeps these behaviours of the code as written:

- Every test-case row's `passed` is the aggregate verdict, not the case's own. With outputs "3" and "8" against "3" and "7", both rows are marked failed.
- Polling has no deadline.
- The submission status is only ever "Accepted" or "Wrong Answer".
- A swallowed submit error comes back as `undefined`.
- The problem handlers return from inside the first iteration of their loop over the reference solutions, so only the first solution is validated. When there is no reference solution at all, the loop never runs, and the handler ends without sending any response (`NoResponse`).

## Model

| member | source | states |
|---|---|---|
| `JsString.SkipLeading` | src/controllers/executeCode.controller.js:65 | the scan from an index stops at the first non-whitespace character or at the end, passing only whitespace. |
| `JsString.SkipTrailing` | src/controllers/executeCode.controller.js:65 | the backward scan stops just after the last non-whitespace character, passing only whitespace. |
| `JsString.SkipLeadingAt` | src/controllers/executeCode.controller.js:65 | any index reached over whitespace and followed by non-whitespace or the end is where the forward scan stops. |
| `JsString.SkipTrailingAt` | src/controllers/executeCode.controller.js:65 | any index reached backwards over whitespace and preceded by non-whitespace or the lower bound is where the backward scan stops. |
| `JsString.Trim` | src/controllers/executeCode.controller.js:65 | the result is the slice of the input between its leading and its trailing whitespace, and it neither starts nor ends with whitespace. |
| `JsString.TrimOfPadded` | src/controllers/executeCode.controller.js:65 | whitespace + core + whitespace trims to the core when the core neither starts nor ends with whitespace. |
| `JsString.TrimIdempotent` | src/controllers/executeCode.controller.js:65 | trimming twice equals trimming once. |
| `JsString.PaddedScans` | src/controllers/executeCode.controller.js:65 | on a string padded with whitespace, both scans stop where they stop on the string itself, shifted by the left padding. |
| `JsString.TrimIgnoresPadding` | src/controllers/executeCode.controller.js:65 | surrounding a string with whitespace does not change its trim. |
| `JsString.UpperChar` | src/libs/judge0.lib.js:10 | ASCII lower-case letters map to upper case, and every character other than ASCII letters, U+0131 and U+017F is unchanged. |
| `JsString.ToUpperCase` | src/libs/judge0.lib.js:10 | applies `UpperChar` to each character, so the length is kept (see "Left out" for the mappings this leaves aside). |
| `JsString.ToUpperCaseIdempotent` | src/libs/judge0.lib.js:10 | upper-casing twice equals upper-casing once. |
| `JsString.ToUpperCaseOfLower` | src/libs/judge0.lib.js:10 | lower-casing ASCII letters first does not change the upper-case form. |
| `JsString.Join` | src/libs/judge0.lib.js:36 | a single part joins to itself; when no part holds the separator, the result holds as many separators as there are neighbouring pairs of parts (that they sit between the parts follows from `SplitJoin`). |
| `JsString.Split` | src/libs/judge0.lib.js:36 | never empty, even for the empty string. |
| `JsString.SplitCount` | src/libs/judge0.lib.js:36 | there is one piece more than there are separators. |
| `JsString.SplitJoin` | src/libs/judge0.lib.js:36 | splitting the join of a non-empty list of separator-free parts gives the list back. |
| `JsString.SplitJoinEmpty` | src/libs/judge0.lib.js:36 | the empty list joins to "", which splits into [""], so the round trip needs at least one part. |
| `Judge0.LanguageId` | src/libs/judge0.lib.js:3-11 | Some(71), Some(62) or Some(63) exactly when the upper-cased name is PYTHON, JAVA or JAVASCRIPT; None for every other name; never any other id. |
| `Judge0.LanguageIdIgnoresCase` | src/libs/judge0.lib.js:10 | names that agree character by character after upper-casing get the same id. |
| `Judge0.AnyCasingUpperCases` | src/libs/judge0.lib.js:10 | any mixture of upper- and lower-case letters of an upper-case word upper-cases back to that word. |
| `Judge0.LanguageIdAnyCasing` | src/libs/judge0.lib.js:4-10 | every casing of a supported name gets that name's id. |
| `Judge0.LanguageIdOfLowerCase` | src/libs/judge0.lib.js:10 | the lower-case name gets the same answer as the name. |
| `Judge0.TokensQueryRoundTrip` | src/libs/judge0.lib.js:36 | when there is at least one token and none contains ",", splitting the `tokens` query on "," gives back the token list. |
| `Judge0.TokensQueryInjective` | src/libs/judge0.lib.js:36 | different non-empty lists of comma-free tokens never give the same `tokens` query. |
| `Judge0.IsAllDoneByParts` | src/libs/judge0.lib.js:46-48 | a batch is done exactly when no result is in status 1 or 2: the empty batch is done, one pending result keeps it pending, and a concatenation is done exactly when both parts are. |
| `Judge0.SubmitBatch` | src/libs/judge0.lib.js:13-26 | the list is posted unchanged under `submissions`; a failed post gives None (undefined) instead of an exception, and a successful one gives the reply's tokens unchanged. |
| `Judge0.FirstSettledFrom` | src/libs/judge0.lib.js:31-54 | the first round from k on whose reply threw or has no result in status 1 or 2; every round before it was neither. |
| `Judge0.PollBatchResults` | src/libs/judge0.lib.js:30-55 | returns the reply of the first round with no result in status 1 or 2, unchanged in length and order, or the error of a request that threw. Every earlier round was fetched and still had a result in status 1 or 2. |
| `Db.Upsert` | src/controllers/executeCode.controller.js:113-127 | the key is present afterwards; no other key is added or removed; no duplicates are introduced. |
| `Db.CountWithoutDuplicates` | src/controllers/executeCode.controller.js:113-127 | in a table without duplicate keys, a key occurs once if present and not at all otherwise. |
| `Db.UpsertLeavesOneRow` | src/controllers/executeCode.controller.js:113-127 | after an upsert, the (user, problem) key has exactly one row. |
| `Db.UpsertTimes` | src/controllers/executeCode.controller.js:113-127 | upserting the same key any positive number of times equals upserting it once. |
| `Db.RepeatedUpsertLeavesOneRow` | src/controllers/executeCode.controller.js:113-127 | however many accepted runs upsert the same pair, exactly one row remains. |
| `Db.Database.CreateSubmission` | src/controllers/executeCode.controller.js:84-108 | appends the row and returns its id; other tables unchanged. |
| `Db.Database.UpsertProblemSolved` | src/controllers/executeCode.controller.js:114-126 | the solved table becomes the upsert of the key and stays duplicate-free; other tables unchanged. |
| `Db.Database.CreateTestCaseResults` | src/controllers/executeCode.controller.js:144-147 | appends the rows in order; other tables unchanged. |
| `Db.Database.CreateProblem` | src/controllers/problem.controller.js:70-83 | appends the problem and returns its id. |
| `Db.Database.UpdateProblem` | src/controllers/problem.controller.js:231-247 | replaces the fields of the problem with that id and keeps its author. |
| `ExecuteCodeController.HttpStatus` | src/controllers/executeCode.controller.js:17-57 | 200 exactly for an executed request, 400 exactly for a malformed one, 500 exactly for a failed submit, a failed status request or an empty result list. |
| `ExecuteCodeController.RunBatch` | src/controllers/executeCode.controller.js:27-33 | one entry per stdin, in order: entry i carries stdin[i], the shared code and language id, and no expected output. |
| `ExecuteCodeController.CompareOutputs` | src/controllers/executeCode.controller.js:62-80 | the flag is true iff, at every result index, the trimmed stdout equals the trimmed expected output (undefined equal to undefined); false iff some index differs. |
| `ExecuteCodeController.OutputMatchesExamples` | src/controllers/executeCode.controller.js:65 | "42\n" matches "42"; "4 2" does not; a null stdout matches only an absent expected output. |
| `ExecuteCodeController.OutputMatchesIgnoresPadding` | src/controllers/executeCode.controller.js:65 | two outputs match exactly when their trims are equal; whitespace around either never changes that; an undefined output never matches a defined one. |
| `ExecuteCodeController.AllPassedIgnoresPadding` | src/controllers/executeCode.controller.js:65 | padding outputs with whitespace never changes the aggregate verdict. |
| `ExecuteCodeController.MemoryTotal` | src/controllers/executeCode.controller.js:104-106 | the sum bounds every result's memory; it is 0 when no result uses memory. |
| `ExecuteCodeController.MemoryTotalSkipsNull` | src/controllers/executeCode.controller.js:104-106 | a result whose memory is null adds nothing to the sum, wherever it stands in the list. |
| `ExecuteCodeController.MemoryTotalAppend` | src/controllers/executeCode.controller.js:104-106 | the sum over a concatenation is the sum of the sums. |
| `ExecuteCodeController.StdoutList` | src/controllers/executeCode.controller.js:91 | one entry per result, its stdout or "" when null. |
| `ExecuteCodeController.TestCaseRowsFrom` | src/controllers/executeCode.controller.js:131-142 | the rows of the results from an index on, each built from its own result and the expected output at its index. |
| `ExecuteCodeController.TestCaseRows` | src/controllers/executeCode.controller.js:131-142 | one row per result, index-aligned with `expected_output`. Every row's `passed` is the aggregate flag; its testCaseId is 3 and its status "Accepted" when the flag holds, 2 and "Wrong Answer" when it does not; its stdout, stderr, compile output, time and memory are its result's. |
| `ExecuteCodeController.ExecuteCode` | src/controllers/executeCode.controller.js:9-176 | the answer is `ExecuteSpec`. On success, the submission and rows are appended and the (user, problem) pair is upserted only when "Accepted". On every other answer the store is unchanged. |
| `ExecuteCodeController.InvalidInputRefused` | src/controllers/executeCode.controller.js:17-24 | the shape check (`ValidInput`) refuses exactly when stdin is not a non-empty array or `expected_output` is not an array of the same length, and then nothing is sent. |
| `ExecuteCodeController.FailuresBeforeRecording` | src/controllers/executeCode.controller.js:37-57 | a failed or empty submit gives SubmitFailed; an empty poll result gives NoResults. |
| `ExecuteCodeController.ExecutedVerdict` | src/controllers/executeCode.controller.js:62-142 | once results exist, the submission carries the request's problem, user, code and language name, the inputs joined by newlines and the stdout list. It is "Accepted" iff every trimmed output matched and "Wrong Answer" otherwise. Its memory is the summed memory. Every one of the index-aligned rows carries that same verdict. |
| `ExecuteCodeController.RecordedStdinRoundTrip` | src/controllers/executeCode.controller.js:90 | when no input holds a newline, splitting the recorded `stdin` text on newlines gives the inputs back. |
| `ExecuteCodeController.ScenarioExecuted` | src/controllers/executeCode.controller.js:62-142 | the two-case example is executed with memory 3072 and two rows sharing the aggregate verdict. |
| `ExecuteCodeController.EndToEndAccepted` | src/controllers/executeCode.controller.js:62-142 | stdin ["1 2","3 4"], expected ["3","7"], printed "3","7": "Accepted", and both rows pass. |
| `ExecuteCodeController.EndToEndWrongAnswer` | src/controllers/executeCode.controller.js:62-142 | the same request printing "3","8": "Wrong Answer", and both rows fail, including the matching first one. |
| `ProblemController.HttpStatus` | src/controllers/problem.controller.js:23-97 | no status exactly when the handler never answers; 403 exactly for a non-admin; 404 exactly for a missing problem; 400 exactly for an unsupported language or a failed test case; 500 exactly for an error caught from the service; 201 exactly on creation and 200 exactly on update. |
| `ProblemController.ValidationBatch` | src/controllers/problem.controller.js:41-46 | one entry per test case, in order, with stdin = input, expected_output = output, and the solution's code and language id. |
| `ProblemController.FirstRejected` | src/controllers/problem.controller.js:58-68 | None iff every result has status 3; otherwise the least index whose status is not 3. |
| `ProblemController.ScanResults` | src/controllers/problem.controller.js:58-68 | the scan returns at the first result whose status is not 3, or finishes with none. |
| `ProblemController.ValidateSolution` | src/controllers/problem.controller.js:34-68 | the verdict for one reference solution. An unsupported language gives 400 before submitting. A swallowed submit or a failed poll gives 500. The first result not in status 3 gives "Testcase i+1 failed". Otherwise it proceeds. |
| `ProblemController.GateReadsFirstSolutionOnly` | src/controllers/problem.controller.js:31-89 | two bodies with the same test cases and the same first reference solution get the same gate, whatever follows. |
| `ProblemController.NonAdminForbidden` | src/controllers/problem.controller.js:23-28 | create and update both answer 403 exactly when the role is not ADMIN. |
| `ProblemController.UpdateMissingNotFound` | src/controllers/problem.controller.js:177-189 | for an admin, update answers 404 exactly when the problem does not exist. |
| `ProblemController.UnsupportedLanguageRefused` | src/controllers/problem.controller.js:34-40 | the gate stops with "Unsupported language" exactly when the first solution's upper-cased language is not PYTHON, JAVA or JAVASCRIPT. |
| `ProblemController.NoReferenceSolutionNoResponse` | src/controllers/problem.controller.js:31-89 | the gate ends without an answer exactly when there is no reference solution. |
| `ProblemController.ServiceFailureIsInternalError` | src/controllers/problem.controller.js:50-54 | a supported first solution whose batch post threw, or whose status request threw, ends in the catch (500). |
| `ProblemController.ReferenceGateVerdict` | src/controllers/problem.controller.js:31-68 | after the first solution's poll, the gate lets the handler store the problem iff every result has status 3; otherwise it stops with "Testcase i+1 failed" for the first result i that does not. |
| `ProblemController.StoredOnlyIfAllAccepted` | src/controllers/problem.controller.js:58-88 | after a poll, `createProblem` creates the problem iff every result has status 3. Otherwise the answer names the first result that does not, numbered from 1. |
| `ProblemController.UpdatedOnlyIfAllAccepted` | src/controllers/problem.controller.js:220-253 | for an admin and a stored problem, after a poll, `updateProblem` updates it, keeping its author, iff every result has status 3. Otherwise the answer names the first result that does not, numbered from 1. |
| `ProblemController.CreateProblem` | src/controllers/problem.controller.js:9-98 | the answer is `CreateSpec`. The problem is appended only on Created. The other tables never change. |
| `ProblemController.UpdateProblem` | src/controllers/problem.controller.js:157-263 | the answer is `UpdateSpec`. The problem's fields are replaced, keeping its author, only on Updated. |

## Left out

- Judge0.PollBatchResults: only runs that end are modelled. The method requires the service to settle the query by a round given as a ghost argument. A service that never settles makes the source loop forever, which a terminating method cannot express.
- ExecuteCodeController.ExecuteCode, ProblemController.CreateProblem, ProblemController.UpdateProblem, ProblemController.ValidateSolution: for the same reason, each requires that the service settles every token query by some round (`EventuallySettles`).
- JsString.UpperChar, JsString.ToUpperCase: only the ASCII letters and U+0131/U+017F are mapped. Other characters keep their case, so the model keeps the length of the string, where JavaScript turns "ß" into "SS", "ﬁ" into "FI" and "é" into "É". This cannot change a language lookup: the other JavaScript case mappings yield a non-ASCII character, or ASCII text (SS, FF, FI, FL, FFI, FFL, ST) that occurs in no supported name.
- Strings are sequences of code points, not UTF-16 code units.
- `getLanguageName` is imported by the handler, but `src/libs/judge0.lib.js` does not define it. It is the parameter `languageName`.
- ExecuteCodeController.MemoryTotal: numbers are unbounded integers. JavaScript adds doubles, which are exact only up to 2^53.
- The submission's `time` sum and its `stderr`/`compileOutput` expressions are not modelled. These depend on string and float `+` and on truthiness. Per-row `time`, `stderr` and `compileOutput` are copied through unchanged.
- `JSON.stringify` of the stdout list and of the memory sum is not modelled: the record holds the list and the number. `String(result.memory) || null` in a row is kept as the number, and a null memory is kept as None, whereas JavaScript stores the text "null" (`String(null)` is not empty, so `|| null` never applies).
- `createMany(..., skipDuplicates)` appends every row. No unique constraint on test-case rows is visible, so nothing is skipped.
- Store failures are not modelled. Every Prisma call of the three handlers sits inside the handler's `try`, so a call that throws (a missing foreign key, a lost connection) would end in its catch with a 500, except `findUnique` in `updateProblem`, which runs before the `try` and whose failure the handler does not catch.
- Db.Database.UpdateProblem: every field of the problem is replaced. In Prisma's `update`, a field the request leaves out (undefined) keeps its stored value; the body here cannot express a missing field.
- Hydrating the answer with `findUnique`/`include` is not modelled. The Executed answer carries the created record and rows instead.
- Request fields of other JavaScript types are not modelled. `referenceSolutions` is taken to be an object from language name to code: a string or array would yield index keys such as "0", and a number or boolean no entries at all. `testcases` is taken to be an array, and every `expected_output[i]` a string: a null one would read as undefined through `?.`. For `executeCode`, "not an array" is modelled, because the handler checks it.
- Reply shapes from Judge0 beyond "a list of tokens" and "a list of results" are not modelled. An example is an entry without a token.
- `console.log` output, HTTP bodies beyond their status and error kind, and every other file of the repository (auth, middleware, routes, playlist and submission CRUD) are not part of this model.
