/** frontend/pages/api/runner/execute.js: the mock code runner. It does not
    run code; it checks the submission for an expected snippet and
    reports three tests and a score. The `/print\(.*hello/i` greeting
    test is a parameter `printsHello`; the response delay and time stamp
    are not modelled. */
module Runner {
  import opened Wrappers
  import opened Strings

  datatype TestStatus = Passed | Failed | Warning

  datatype TestReport = TestReport(name: string, status: TestStatus, detail: string)

  /** The challenge fields the runner reads; None is a missing or empty
      field. */
  datatype Challenge = Challenge(expectedSnippet: Option<string>, sampleOutput: Option<string>)

  datatype RunResult = RunResult(success: bool, stdout: string, stderr: string, tests: seq<TestReport>, score: int)

  const DefaultSnippet: string := "return"
  const CodeSubmitted: string := "Code submitted"
  const EmptyInput: string := "Пустой ввод"
  const SnippetFound: string := "Основная функция найдена"
  const SnippetMissingPrefix: string := "Нет ожидаемого фрагмента: "
  const GreetingFound: string := "Приветствие найдено"
  const GreetingHint: string := "Совет: добавь print('Hello Adventurer')"
  const AllPassed: string := "🎉 Все испытания пройдены"
  const NotFoundPrefix: string := "❌ Не найден ожидаемый фрагмент: "

  /** A string option that is present and non-empty. */
  predicate Given(v: Option<string>)
  {
    v.Some? && v.value != ""
  }

  /** The lower-cased expected snippet, "return" when the challenge has
      none. */
  function ExpectedSnippet(challenge: Challenge): string
  {
    Lower(if Given(challenge.expectedSnippet) then challenge.expectedSnippet.value else DefaultSnippet)
  }

  /** `summarizeTests(code, challenge)`. */
  function SummarizeTests(code: string, challenge: Challenge, printsHello: bool): (r: RunResult)
    ensures r.success <==> Contains(Lower(code), ExpectedSnippet(challenge))
    ensures r.score == if r.success then 100 else 45
    ensures r.stderr == "" <==> r.success
    ensures !r.success ==> r.stdout == ""
    ensures r.success ==> r.stdout != ""
    ensures r.success ==> r.stdout == if Given(challenge.sampleOutput) then challenge.sampleOutput.value else AllPassed
    ensures !r.success ==> r.stderr == NotFoundPrefix + ExpectedSnippet(challenge)
    ensures |r.tests| == 3
    ensures r.tests[0].name == "Syntax" && r.tests[1].name == "Snippet" && r.tests[2].name == "Greeting"
    ensures r.tests[0].status == Passed <==> JsHasText(code)
    ensures r.tests[0].status != Warning
    ensures r.tests[1].status == Passed <==> r.success
    ensures r.tests[1].status != Warning
    ensures r.tests[2].status == (if printsHello then Passed else Warning)
  {
    var snippet := ExpectedSnippet(challenge);
    var found := Contains(Lower(code), snippet);
    var nonBlank := JsHasText(code);
    var tests := [
      TestReport("Syntax", if nonBlank then Passed else Failed, if nonBlank then CodeSubmitted else EmptyInput),
      TestReport("Snippet", if found then Passed else Failed,
                 if found then SnippetFound else SnippetMissingPrefix + snippet),
      TestReport("Greeting", if printsHello then Passed else Warning,
                 if printsHello then GreetingFound else GreetingHint)
    ];
    RunResult(
      found,
      if found then (if Given(challenge.sampleOutput) then challenge.sampleOutput.value else AllPassed) else "",
      if found then "" else NotFoundPrefix + snippet,
      tests,
      if found then 100 else 45)
  }

  /** A code that contains the expected snippet, in any letter case,
      passes, and the default snippet is "return". */
  lemma SnippetInCodePasses(before: string, after: string, challenge: Challenge, printsHello: bool)
    ensures SummarizeTests(before + ExpectedSnippet(challenge) + after, challenge, printsHello).success
  {
    var snippet := ExpectedSnippet(challenge);
    var code := before + snippet + after;
    var lowered := Lower(code);
    assert forall k :: 0 <= k < |snippet| ==> 'A' > snippet[k] || snippet[k] > 'Z';
    assert lowered[|before|..|before| + |snippet|] == snippet by {
      forall k | 0 <= k < |snippet|
        ensures lowered[|before|..|before| + |snippet|][k] == snippet[k]
      {
        assert code[|before| + k] == snippet[k];
      }
    }
    assert OccursAt(lowered, snippet, |before|);
    ContainsIff(lowered, snippet);
  }

  /** An empty submission fails both the syntax and the snippet test. */
  lemma EmptyCodeFails(challenge: Challenge, printsHello: bool)
    ensures SummarizeTests("", challenge, printsHello).tests[0].status == Failed
    ensures !SummarizeTests("", challenge, printsHello).success
  {
    var snippet := ExpectedSnippet(challenge);
    assert snippet != [] by {
      assert |snippet| == |if Given(challenge.expectedSnippet) then challenge.expectedSnippet.value else DefaultSnippet|;
    }
    ContainsIff(Lower(""), snippet);
  }

  // ---------------------------------------------------------------------
  // handler
  // ---------------------------------------------------------------------

  /** The request body fields; None is a missing field. */
  datatype Body = Body(language: Option<string>, code: Option<string>, challenge: Option<Challenge>)

  datatype Reply =
    | MethodNotAllowed(detail: string)
    | Ran(language: string, result: RunResult)

  /** The submitted code, "" when the body or the field is missing. */
  function CodeOf(body: Option<Body>): string
  {
    if body.Some? && body.value.code.Some? then body.value.code.value else ""
  }

  /** The submitted challenge, `{}` when the body or the field is missing. */
  function ChallengeOf(body: Option<Body>): Challenge
  {
    if body.Some? && body.value.challenge.Some? then body.value.challenge.value else Challenge(None, None)
  }

  /** `handler(req, res)`: any method but POST gets 405; otherwise the
      fields default to "python", "" and an empty challenge and the
      submission is summarized. */
  function Handle(httpMethod: string, body: Option<Body>, printsHello: bool): (r: Reply)
    ensures httpMethod != "POST" <==> r.MethodNotAllowed?
    ensures r.MethodNotAllowed? ==> r.detail == "Method not allowed"
    ensures r.Ran? && (body.None? || body.value.language.None?) ==> r.language == "python"
    ensures r.Ran? && body.Some? && body.value.language.Some? ==> r.language == body.value.language.value
    ensures r.Ran? ==> r.result == SummarizeTests(CodeOf(body), ChallengeOf(body), printsHello)
  {
    if httpMethod != "POST" then MethodNotAllowed("Method not allowed")
    else
      var b := if body.Some? then body.value else Body(None, None, None);
      var challenge := if b.challenge.Some? then b.challenge.value else Challenge(None, None);
      Ran(b.language.GetOr("python"), SummarizeTests(b.code.GetOr(""), challenge, printsHello))
  }

  /** A POST without a body runs the empty Python submission against the
      default snippet: it fails, with the empty-input syntax verdict. */
  lemma EmptyPostFails(printsHello: bool)
    ensures var r := Handle("POST", None, printsHello);
            r.Ran? && r.language == "python" && !r.result.success && r.result.score == 45
            && r.result.tests[0].status == Failed
            && r.result.stderr == NotFoundPrefix + DefaultSnippet
  {
    EmptyCodeFails(Challenge(None, None), printsHello);
    assert ExpectedSnippet(Challenge(None, None)) == DefaultSnippet by {
      LowerOfLower(DefaultSnippet);
    }
  }

  /** The status code of a reply. */
  function Status(r: Reply): (code: int)
    ensures code == 405 <==> r.MethodNotAllowed?
  {
    if r.MethodNotAllowed? then 405 else 200
  }
}
