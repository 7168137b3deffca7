/**
  The adapter around the Judge0 execution service (src/libs/judge0.lib.js).
  The two HTTP calls are abstract oracles passed in as functions: `post` answers
  the batch submission, and `fetch(q, n)` is the service's answer to the n-th
  status request (counting from 0) for the token query string `q`. The one-second
  sleep between rounds is a step that does nothing.
 */
module Judge0 {
  import opened Wrappers
  import opened JsString

  type Token = string

  /** Judge0's `status` object; id 1 is "In Queue", 2 "Processing", 3 "Accepted". */
  datatype Status = Status(id: int, description: string)

  /** One element of `data.submissions` in the status reply. */
  datatype ExecResult = ExecResult(
    status: Status,
    stdout: Option<string>,
    stderr: Option<string>,
    compileOutput: Option<string>,
    time: Option<string>,
    memory: Option<nat>)

  /** One element of the `submissions` array sent to `/submissions/batch`. */
  datatype BatchEntry = BatchEntry(
    sourceCode: string,
    languageId: int,
    stdin: string,
    expectedOutput: Option<string>)

  /** The body of the batch POST: `{ submissions }`. */
  datatype BatchRequest = BatchRequest(submissions: seq<BatchEntry>)

  /** What the batch POST gives: the issued tokens, in request order, or a thrown error. */
  datatype PostReply = Posted(tokens: seq<Token>) | PostFailed

  /** What a status GET gives: `data.submissions`, or a thrown error. */
  datatype GetReply = Fetched(submissions: seq<ExecResult>) | GetFailed

  const Python := "PYTHON"
  const Java := "JAVA"
  const JavaScript := "JAVASCRIPT"

  const LanguageMap: map<string, int> := map[Python := 71, Java := 62, JavaScript := 63]

  /** `getJudge0LanguageId`: the Judge0 id of a language name, whatever its case, or null. */
  function LanguageId(language: string): (r: Option<int>)
    ensures r == Some(71) <==> ToUpperCase(language) == Python
    ensures r == Some(62) <==> ToUpperCase(language) == Java
    ensures r == Some(63) <==> ToUpperCase(language) == JavaScript
    ensures r.None? <==> ToUpperCase(language) !in {Python, Java, JavaScript}
    ensures r.None? || r.value in {71, 62, 63}
  {
    var key := ToUpperCase(language);
    if key in LanguageMap then Some(LanguageMap[key]) else None
  }

  /** The lookup depends only on the upper-case form of the name. */
  lemma LanguageIdIgnoresCase(a: string, b: string)
    requires |a| == |b|
    requires forall k :: 0 <= k < |a| ==> UpperChar(a[k]) == UpperChar(b[k])
    ensures LanguageId(a) == LanguageId(b)
  {
    assert ToUpperCase(a) == ToUpperCase(b);
  }

  predicate UpperAsciiWord(name: string) {
    forall k :: 0 <= k < |name| ==> 'A' <= name[k] <= 'Z'
  }

  /** A mixture of upper- and lower-case letters of an upper-case word upper-cases back to that word. */
  lemma {:induction false} AnyCasingUpperCases(name: string, variant: string)
    requires UpperAsciiWord(name)
    requires |variant| == |name|
    requires forall k :: 0 <= k < |name| ==> variant[k] == name[k] || variant[k] == LowerAscii(name[k])
    ensures ToUpperCase(variant) == name
  {
    var u := ToUpperCase(variant);
    forall k | 0 <= k < |name| ensures u[k] == name[k] {
      assert 'A' <= name[k] <= 'Z';
    }
  }

  /** Every mixture of upper- and lower-case letters of a supported name finds that name's id. */
  lemma LanguageIdAnyCasing(name: string, variant: string)
    requires name in {Python, Java, JavaScript}
    requires |variant| == |name|
    requires forall k :: 0 <= k < |name| ==> variant[k] == name[k] || variant[k] == LowerAscii(name[k])
    ensures LanguageId(variant) == Some(LanguageMap[name])
  {
    assert UpperAsciiWord(Python) && UpperAsciiWord(Java) && UpperAsciiWord(JavaScript);
    AnyCasingUpperCases(name, variant);
  }

  /** The lookup of the ASCII lower-case form of a name agrees with the lookup of the name. */
  lemma LanguageIdOfLowerCase(language: string)
    ensures LanguageId(ToLowerAscii(language)) == LanguageId(language)
  {
    ToUpperCaseOfLower(language);
  }

  /** `tokens.join(",")`, the `tokens` query parameter of the status request. */
  function TokensQuery(tokens: seq<Token>): string {
    Join(tokens, ',')
  }

  /** The service reads the query back by splitting on ","; that recovers the token list. */
  lemma TokensQueryRoundTrip(tokens: seq<Token>)
    requires |tokens| >= 1
    requires forall k :: 0 <= k < |tokens| ==> ',' !in tokens[k]
    ensures Split(TokensQuery(tokens), ',') == tokens
  {
    SplitJoin(tokens, ',');
  }

  /** Different non-empty lists of comma-free tokens never share a status query. */
  lemma TokensQueryInjective(a: seq<Token>, b: seq<Token>)
    requires |a| >= 1 && |b| >= 1
    requires forall k :: 0 <= k < |a| ==> ',' !in a[k]
    requires forall k :: 0 <= k < |b| ==> ',' !in b[k]
    requires TokensQuery(a) == TokensQuery(b)
    ensures a == b
  {
    TokensQueryRoundTrip(a);
    TokensQueryRoundTrip(b);
  }

  /**
    `submitBatch`: posts `{ submissions }` unchanged; the reply data comes back as is,
    and any error is swallowed, so the caller sees `undefined` (None).
   */
  function SubmitBatch(post: BatchRequest -> PostReply, submissions: seq<BatchEntry>): (r: Option<seq<Token>>)
    ensures r.None? <==> post(BatchRequest(submissions)).PostFailed?
    ensures r.Some? ==> r.value == post(BatchRequest(submissions)).tokens
  {
    match post(BatchRequest(submissions))
    case Posted(tokens) => Some(tokens)
    case PostFailed => None
  }

  /** `isAllDone`: no result is still queued (1) or processing (2). */
  predicate IsAllDone(results: seq<ExecResult>) {
    forall k :: 0 <= k < |results| ==> results[k].status.id != 1 && results[k].status.id != 2
  }

  /**
    A batch is done exactly when no result is in status 1 or 2: an empty batch is
    done, one pending result keeps the whole batch pending, and a batch is done
    exactly when both of its parts are.
   */
  lemma IsAllDoneByParts(a: seq<ExecResult>, b: seq<ExecResult>, k: nat)
    ensures IsAllDone([])
    ensures IsAllDone(a + b) <==> IsAllDone(a) && IsAllDone(b)
    ensures k < |a| && a[k].status.id in {1, 2} ==> !IsAllDone(a)
  {
    if !IsAllDone(a) {
      var j :| 0 <= j < |a| && a[j].status.id in {1, 2};
      assert (a + b)[j] == a[j];
    }
    if !IsAllDone(b) {
      var j :| 0 <= j < |b| && b[j].status.id in {1, 2};
      assert (a + b)[|a| + j] == b[j];
    }
  }

  /** A round ends the loop when its request threw or every result is done. */
  predicate Settled(reply: GetReply) {
    reply.GetFailed? || IsAllDone(reply.submissions)
  }

  /**
    The service settles the query `q` no later than round `settle(q)`. The source
    polls without a deadline; only runs that end are modelled, and this is what
    makes them end.
   */
  ghost predicate SettlesBy(fetch: (string, nat) -> GetReply, settle: string -> nat, q: string) {
    Settled(fetch(q, settle(q)))
  }

  ghost predicate EventuallySettles(fetch: (string, nat) -> GetReply, settle: string -> nat) {
    forall q :: SettlesBy(fetch, settle, q)
  }

  /** The first round, from `k` on, that ends the loop. */
  function FirstSettledFrom(fetch: (string, nat) -> GetReply, q: string, k: nat, bound: nat): (r: nat)
    requires k <= bound && Settled(fetch(q, bound))
    ensures k <= r <= bound && Settled(fetch(q, r))
    ensures forall j :: k <= j < r ==> !Settled(fetch(q, j))
    decreases bound - k
  {
    if Settled(fetch(q, k)) then k else FirstSettledFrom(fetch, q, k + 1, bound)
  }

  /** What the poll loop ends with for the query `q`. */
  ghost function PollReply(fetch: (string, nat) -> GetReply, settle: string -> nat, q: string): GetReply
    requires SettlesBy(fetch, settle, q)
  {
    fetch(q, FirstSettledFrom(fetch, q, 0, settle(q)))
  }

  /** Any round that settles while every earlier one did not is the round FirstSettledFrom finds. */
  lemma FirstSettledUnique(fetch: (string, nat) -> GetReply, q: string, bound: nat, r: nat)
    requires Settled(fetch(q, bound)) && Settled(fetch(q, r))
    requires forall j :: 0 <= j < r ==> !Settled(fetch(q, j))
    ensures FirstSettledFrom(fetch, q, 0, bound) == r
  {
  }

  /**
    `pollBatchResults`: fetch the status of every token, again and again, until a
    reply has no result in status 1 or 2, and return that reply's list as it is.
    A request that throws ends the loop with the error (GetFailed).
   */
  method PollBatchResults(tokens: seq<Token>, fetch: (string, nat) -> GetReply, ghost settle: string -> nat)
    returns (reply: GetReply, rounds: nat)
    requires SettlesBy(fetch, settle, TokensQuery(tokens))
    ensures reply == fetch(TokensQuery(tokens), rounds)
    ensures reply.Fetched? ==> IsAllDone(reply.submissions)
    ensures forall j :: 0 <= j < rounds ==> fetch(TokensQuery(tokens), j).Fetched?
                                            && !IsAllDone(fetch(TokensQuery(tokens), j).submissions)
    ensures reply == PollReply(fetch, settle, TokensQuery(tokens))
  {
    var query := TokensQuery(tokens);
    ghost var bound := settle(query);
    rounds := 0;
    while true
      invariant rounds <= bound
      invariant forall j :: 0 <= j < rounds ==> !Settled(fetch(query, j))
      decreases bound - rounds
    {
      reply := fetch(query, rounds);
      if reply.GetFailed? {
        // the axios call threw: the exception leaves the loop
        break;
      }
      var isAllDone := IsAllDone(reply.submissions);
      if isAllDone {
        break;
      }
      // sleep(1000)
      rounds := rounds + 1;
    }
    FirstSettledUnique(fetch, query, bound, rounds);
  }
}
