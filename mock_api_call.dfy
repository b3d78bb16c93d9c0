/**
 * The preview-generation route `POST /api/mockapicall`: an authentication gate,
 * a daily quota kept per (user, day) row, a prompt sent to a language model, and
 * the model's reply cut down to its outermost `{...}` span, parsed as JSON and
 * printed again with a two-space indent.
 *
 * The quota table is the state of `QuotaTable`; the language model is a function
 * from the two chat messages to an outcome, so every reply it could give is covered.
 */
module MockApiCall {
  import opened Wrappers
  import opened Text
  import opened Json
  import opened JsonParse
  import opened JsonRoundTrip

  type UserId = string

  /** A calendar day as the route keys it (`YYYY-MM-DD`). */
  type Day = string

  /** The `requests_used` and `requests_limit` columns of a `usage_quotas` row. */
  datatype Quota = Quota(used: int, limit: int)

  const PlanLimit: int := 10

  /* ---------- Quota ---------- */

  function Lookup(rows: map<(UserId, Day), Quota>, key: (UserId, Day)): Option<Quota>
  {
    if key in rows then Some(rows[key]) else None
  }

  /** The quota in force: the stored row, or nothing used out of the plan limit when there is no row. */
  function Effective(row: Option<Quota>): (q: Quota)
    ensures row.None? ==> q == Quota(0, PlanLimit)
    ensures row.Some? ==> q == row.value
  {
    Quota(if row.Some? then row.value.used else 0, if row.Some? then row.value.limit else PlanLimit)
  }

  /** The request is refused when the requests used have reached the limit. */
  predicate Exhausted(q: Quota)
  {
    q.used >= q.limit
  }

  /** The row after an admitted request: one more request used, the limit untouched, or a fresh row. */
  function Consumed(row: Option<Quota>): (q: Quota)
    requires !Exhausted(Effective(row))
    ensures q.used == Effective(row).used + 1 && q.limit == Effective(row).limit
    ensures row.None? ==> q == Quota(1, PlanLimit)
    ensures q.used <= q.limit
  {
    match row
    case Some(r) => Quota(r.used + 1, r.limit)
    case None => Quota(1, PlanLimit)
  }

  /** No row records more requests than its limit, nor a negative count. */
  predicate Bounded(rows: map<(UserId, Day), Quota>)
  {
    forall key :: key in rows ==> 0 <= rows[key].used <= rows[key].limit
  }

  /** A fresh user can be admitted exactly `PlanLimit` times on a day: the count climbs 1, 2, ..., 10 and then stops. */
  lemma {:induction false} DailyAllowance(n: nat)
    requires n <= PlanLimit
    ensures n > 0 ==> Admissions(None, n) == Some(Quota(n, PlanLimit))
    ensures n == PlanLimit ==> Exhausted(Effective(Admissions(None, n)))
    ensures n < PlanLimit ==> !Exhausted(Effective(Admissions(None, n)))
  {
    if n > 0 {
      DailyAllowance(n - 1);
    }
  }

  /** The row after `n` requests that each pass the quota check, from `row`; a refused request stops the count. */
  function Admissions(row: Option<Quota>, n: nat): Option<Quota>
  {
    if n == 0 then row
    else
      var before := Admissions(row, n - 1);
      if Exhausted(Effective(before)) then before else Some(Consumed(before))
  }

  /** Once a day's row is exhausted, further requests change nothing. */
  lemma {:induction false} ExhaustedStays(row: Option<Quota>, n: nat)
    requires Exhausted(Effective(row))
    ensures Admissions(row, n) == row
  {
    if n > 0 {
      ExhaustedStays(row, n - 1);
    }
  }

  /* ---------- Responses ---------- */

  datatype ResponseBody =
    | ErrorJson(message: string)                        // `{ error: message }`
    | PlainText(text: string)                           // a `text/plain` body
    | GenerateJson(result: string, error: Option<string>) // `{ result, error? }`

  datatype Response = Response(status: int, body: ResponseBody)

  const Unauthorized: Response := Response(401, ErrorJson("Unauthorized"))

  const QuotaFinished: Response := Response(429, PlainText("Today's API quota is finished"))

  const ParseErrorPrefix: string := "Failed to parse response as JSON: "

  const ProviderErrorPrefix: string := "OpenAI API error: "

  /* ---------- Request body and model ---------- */

  /** The fields of the request body the route reads. */
  datatype GenerateRequest = GenerateRequest(name: string, description: string, schema: Json)

  /** `request.json()`: a body, or the message of the error reading it. */
  datatype RequestBody = Valid(request: GenerateRequest) | Malformed(message: string)

  /** What the chat-completion call gives: the first choice's content (possibly null), or a thrown error. */
  datatype ModelOutcome = Completion(content: Option<string>) | ProviderError(message: string)

  const SystemMessage: string := "You are a mock API service that generates realistic data according to JSON schemas."

  const PromptHead: string := "\n      You are a mock API that returns data according to a specific JSON schema.\n      \n      API Name: "

  const PromptAfterName: string := "\n      API Description: "

  const PromptAfterDescription: string := "\n      \n      Return JSON data that exactly matches this schema structure:\n      "

  const PromptTail: string := "\n      \n      Only respond with valid JSON matching the schema. Do not include any explanations or markdown formatting.\n      Generate realistic, diverse and contextually appropriate data for each field based on the field names.\n      For arrays, include 1-4 items.\n    "

  /** The user message: the name, the description and the schema printed with a two-space indent. */
  function Prompt(req: GenerateRequest): string
  {
    PromptHead + req.name + PromptAfterName + req.description + PromptAfterDescription + Print(req.schema) + PromptTail
  }

  /** Where the printed schema starts in the prompt. */
  function SchemaOffset(req: GenerateRequest): nat
  {
    |PromptHead + req.name + PromptAfterName + req.description + PromptAfterDescription|
  }

  /** The prompt holds the schema's text verbatim, and reading that text back gives the schema. */
  lemma PromptCarriesSchema(req: GenerateRequest)
    requires WellFormed(req.schema)
    ensures SchemaOffset(req) + |Print(req.schema)| <= |Prompt(req)|
    ensures Prompt(req)[SchemaOffset(req)..SchemaOffset(req) + |Print(req.schema)|] == Print(req.schema)
    ensures Parse(Prompt(req)[SchemaOffset(req)..SchemaOffset(req) + |Print(req.schema)|]) == Some(req.schema)
  {
    var head := PromptHead + req.name + PromptAfterName + req.description + PromptAfterDescription;
    var p := Print(req.schema);
    assert Prompt(req) == head + p + PromptTail;
    assert (head + p + PromptTail)[|head|..|head| + |p|] == p;
    PrintParse(req.schema);
  }

  /* ---------- Extracting the JSON span ---------- */

  /** The first position of `c` in `s`. */
  function IndexOf(s: string, c: char): (r: Option<nat>)
    ensures r.Some? ==> r.value < |s| && s[r.value] == c && c !in s[..r.value]
    ensures r.None? ==> c !in s
  {
    if s == [] then None
    else if s[0] == c then Some(0)
    else match IndexOf(s[1..], c)
      case None => None
      case Some(i) => assert s[..i + 1] == [s[0]] + s[1..][..i]; Some(i + 1)
  }

  /** The last position of `c` in `s`. */
  function LastIndexOf(s: string, c: char): (r: Option<nat>)
    ensures r.Some? ==> r.value < |s| && s[r.value] == c && c !in s[r.value + 1..]
    ensures r.None? ==> c !in s
  {
    if s == [] then None
    else if s[|s| - 1] == c then Some(|s| - 1)
    else match LastIndexOf(s[..|s| - 1], c)
      case None => None
      case Some(i) => assert s[i + 1..] == s[..|s| - 1][i + 1..] + [s[|s| - 1]]; Some(i)
  }

  /**
   * `text.match(/\{[\s\S]*\}/)?.[0] ?? text`: the span from the first `{` through
   * the last `}` when that `}` comes after the `{`, otherwise the whole text.
   */
  function Candidate(text: string): string
  {
    match (IndexOf(text, '{'), LastIndexOf(text, '}'))
    case (Some(i), Some(j)) => if i < j then text[i..j + 1] else text
    case _ => text
  }

  /**
   * The match the regular expression finds: it starts at the leftmost `{` from
   * which a `}` can be reached, and the greedy `[\s\S]*` stretches it to the last `}`.
   */
  predicate GreedyMatch(text: string, i: nat, j: nat)
  {
    i < j < |text| && text[i] == '{' && text[j] == '}' && '{' !in text[..i] && '}' !in text[j + 1..]
  }

  /** Whenever the text has a `{` with a `}` after it, the candidate is the greedy match, which encloses both. */
  lemma CandidateIsGreedyMatch(text: string, a: nat, b: nat)
    requires a < b < |text| && text[a] == '{' && text[b] == '}'
    ensures exists i: nat, j: nat :: GreedyMatch(text, i, j) && i <= a && b <= j && Candidate(text) == text[i..j + 1]
  {
    var i, j := IndexOf(text, '{').value, LastIndexOf(text, '}').value;
    assert GreedyMatch(text, i, j);
  }

  /** Without a `{` followed somewhere by a `}`, the whole text is the candidate. */
  lemma CandidateWithoutMatch(text: string)
    requires forall a, b :: 0 <= a < b < |text| && text[a] == '{' ==> text[b] != '}'
    ensures Candidate(text) == text
  {
  }

  /** A candidate cut from the text starts with `{`, ends with `}`, and is a contiguous part of the text. */
  lemma CandidateShape(text: string)
    ensures Candidate(text) == text
         || (exists i: nat, j: nat :: GreedyMatch(text, i, j) && Candidate(text) == text[i..j + 1])
    ensures Candidate(text) != text ==> |Candidate(text)| >= 2 && Candidate(text)[0] == '{' && Candidate(text)[|Candidate(text)| - 1] == '}'
  {
    match (IndexOf(text, '{'), LastIndexOf(text, '}'))
    case (Some(i), Some(j)) =>
      if i < j { assert GreedyMatch(text, i, j); }
    case _ =>
  }

  /** Cutting a second time changes nothing. */
  lemma CandidateIdempotent(text: string)
    ensures Candidate(Candidate(text)) == Candidate(text)
  {
    var c := Candidate(text);
    match (IndexOf(text, '{'), LastIndexOf(text, '}'))
    case (Some(i), Some(j)) =>
      if i < j {
        assert c[0] == '{' && c[|c| - 1] == '}';
        assert IndexOf(c, '{') == Some(0);
      }
    case _ =>
  }

  /* ---------- Generation ---------- */

  /**
   * Everything after the quota update: read the body, ask the model, cut the
   * reply down to its JSON span, parse it and print it again. `describe` is the
   * message of the `SyntaxError` the parser raises on a text.
   */
  function Generate(body: RequestBody, model: (string, string) -> ModelOutcome, describe: string -> string): Response
  {
    match body
    case Malformed(message) => Response(500, GenerateJson("", Some(message)))
    case Valid(req) =>
      match model(SystemMessage, Prompt(req))
      case ProviderError(message) => Response(500, GenerateJson("", Some(ProviderErrorPrefix + message)))
      case Completion(content) =>
        var candidate := Candidate(content.GetOr(""));
        match Parse(candidate)
        case None => Response(400, GenerateJson("", Some(ParseErrorPrefix + describe(candidate))))
        case Some(v) => Response(200, GenerateJson(Print(v), None))
  }

  /** The reply text the route works on: the first choice's content, or `""` when it is null. */
  function ReplyText(outcome: ModelOutcome): string
    requires outcome.Completion?
  {
    outcome.content.GetOr("")
  }

  /** Generation answers 200, 400 or 500 with a `{ result, error? }` body, and the result is empty unless it is 200. */
  lemma GenerateStatuses(body: RequestBody, model: (string, string) -> ModelOutcome, describe: string -> string)
    ensures Generate(body, model, describe).status in {200, 400, 500}
    ensures Generate(body, model, describe).body.GenerateJson?
    ensures Generate(body, model, describe).status != 200 ==>
      Generate(body, model, describe).body.result == "" && Generate(body, model, describe).body.error.Some?
  {
  }

  /**
   * 200 exactly when the body is read, the model answers and the candidate
   * parses; the result is then the parsed value printed again, it reads back as
   * that same value, and no error is reported.
   */
  lemma GenerateSuccess(body: RequestBody, model: (string, string) -> ModelOutcome, describe: string -> string)
    ensures var r := Generate(body, model, describe);
      r.status == 200 <==>
        body.Valid? && model(SystemMessage, Prompt(body.request)).Completion?
        && Parse(Candidate(ReplyText(model(SystemMessage, Prompt(body.request))))).Some?
    ensures var r := Generate(body, model, describe);
      r.status == 200 ==>
        var v := Parse(Candidate(ReplyText(model(SystemMessage, Prompt(body.request))))).value;
        r.body == GenerateJson(Print(v), None) && Parse(r.body.result) == Some(v)
  {
    var r := Generate(body, model, describe);
    if r.status == 200 {
      var v := Parse(Candidate(ReplyText(model(SystemMessage, Prompt(body.request))))).value;
      PrintParse(v);
    }
  }

  /** 400 exactly when the model answered but the candidate is not JSON; the error names the parse failure. */
  lemma GenerateParseFailure(body: RequestBody, model: (string, string) -> ModelOutcome, describe: string -> string)
    ensures var r := Generate(body, model, describe);
      r.status == 400 <==>
        body.Valid? && model(SystemMessage, Prompt(body.request)).Completion?
        && Parse(Candidate(ReplyText(model(SystemMessage, Prompt(body.request))))).None?
    ensures var r := Generate(body, model, describe);
      r.status == 400 ==>
        var candidate := Candidate(ReplyText(model(SystemMessage, Prompt(body.request))));
        r.body == GenerateJson("", Some(ParseErrorPrefix + describe(candidate)))
  {
  }

  /** 500 exactly when the body cannot be read or the model call fails; a model failure is reported with its message. */
  lemma GenerateServerError(body: RequestBody, model: (string, string) -> ModelOutcome, describe: string -> string)
    ensures var r := Generate(body, model, describe);
      r.status == 500 <==> body.Malformed? || model(SystemMessage, Prompt(body.request)).ProviderError?
    ensures var r := Generate(body, model, describe);
      body.Valid? && model(SystemMessage, Prompt(body.request)).ProviderError? ==>
        r.body == GenerateJson("", Some(ProviderErrorPrefix + model(SystemMessage, Prompt(body.request)).message))
  {
  }

  /* ---------- The route ---------- */

  /** The `usage_quotas` table, one row per (user, day). */
  class QuotaTable {
    var rows: map<(UserId, Day), Quota>

    constructor (initial: map<(UserId, Day), Quota>)
      ensures rows == initial
    {
      rows := initial;
    }

    /**
     * `POST`: with no signed-in user, 401 and no quota access; over quota, 429
     * and no change; otherwise one request is recorded for (user, today) before
     * generating, and stays recorded whatever generation returns.
     */
    method Post(user: Option<UserId>, today: Day, body: RequestBody,
                model: (string, string) -> ModelOutcome, describe: string -> string)
      returns (resp: Response)
      modifies this
      ensures user.None? ==> resp == Unauthorized && rows == old(rows)
      ensures user.Some? && Exhausted(Effective(Lookup(old(rows), (user.value, today)))) ==>
        resp == QuotaFinished && rows == old(rows)
      ensures user.Some? && !Exhausted(Effective(Lookup(old(rows), (user.value, today)))) ==>
        rows == old(rows)[(user.value, today) := Consumed(Lookup(old(rows), (user.value, today)))]
        && resp == Generate(body, model, describe)
      ensures Bounded(old(rows)) ==> Bounded(rows)
      ensures resp == Route(old(rows), user, today, body, model, describe)
    {
      if user.None? {
        return Unauthorized;
      }
      var key := (user.value, today);
      var existing := Lookup(rows, key);
      var used := if existing.Some? then existing.value.used else 0;
      var limit := if existing.Some? then existing.value.limit else PlanLimit;
      if used >= limit {
        return QuotaFinished;
      }
      if existing.Some? {
        rows := rows[key := Quota(used + 1, existing.value.limit)];
      } else {
        rows := rows[key := Quota(1, PlanLimit)];
      }
      resp := Generate(body, model, describe);
    }
  }

  /** The route's whole answer, as one function of the table: what `Post` returns. */
  function Route(rows: map<(UserId, Day), Quota>, user: Option<UserId>, today: Day, body: RequestBody,
                 model: (string, string) -> ModelOutcome, describe: string -> string): Response
  {
    if user.None? then Unauthorized
    else if Exhausted(Effective(Lookup(rows, (user.value, today)))) then QuotaFinished
    else Generate(body, model, describe)
  }

  /** The statuses the route can answer with, and which of them reach the model. */
  lemma RouteStatuses(rows: map<(UserId, Day), Quota>, user: Option<UserId>, today: Day, body: RequestBody,
                      model: (string, string) -> ModelOutcome, describe: string -> string)
    ensures var r := Route(rows, user, today, body, model, describe);
      r.status in {200, 400, 401, 429, 500}
    ensures var r := Route(rows, user, today, body, model, describe);
      r.status == 401 <==> user.None?
    ensures var r := Route(rows, user, today, body, model, describe);
      r.status == 429 <==> user.Some? && Exhausted(Effective(Lookup(rows, (user.value, today))))
  {
    GenerateStatuses(body, model, describe);
  }
}
