/**
 * The "Create a Spineless API" form (app/dashboard/create/page.tsx): the
 * endpoint path it normalises, the endpoint row it inserts, the schema row
 * that follows that insert, and the guards on submitting and on generating a
 * test response.
 *
 * The database is the sequence of inserts the form has sent, each with the
 * answer it got; the answers themselves come from oracle parameters.
 */
module CreateApi {
  import opened Wrappers
  import opened Text
  import opened Json
  import JsonParse
  import MockApiCall

  type UserId = string

  const InvalidSchemaMessage: string := "Invalid JSON format. Please check for syntax errors."

  /** The endpoint path as stored: lower case, with a `/` put in front when it has none. */
  function FormatPath(path: string): string
  {
    if |path| > 0 && path[0] == '/' then LowerString(path) else "/" + LowerString(path)
  }

  /**
   * The stored path starts with `/`, has no upper-case letter, and ends with
   * the typed path lower-cased; the `/` is added exactly when the typed path
   * does not already start with one.
   */
  lemma FormatPathShape(path: string)
    ensures |FormatPath(path)| > 0 && FormatPath(path)[0] == '/'
    ensures NoUpperCase(FormatPath(path))
    ensures |path| > 0 && path[0] == '/' ==> |FormatPath(path)| == |path|
    ensures !(|path| > 0 && path[0] == '/') ==> |FormatPath(path)| == |path| + 1
    ensures forall i :: 0 <= i < |path| ==> FormatPath(path)[|FormatPath(path)| - |path| + i] == Lower(path[i])
  {
  }

  /** Formatting a formatted path changes nothing: no second `/` is put in front. */
  lemma FormatPathIdempotent(path: string)
    ensures FormatPath(FormatPath(path)) == FormatPath(path)
  {
    var p := FormatPath(path);
    assert p[0] == '/';
    if |path| > 0 && path[0] == '/' {
      LowerStringIdempotent(path);
    } else {
      LowerStringIdempotent(path);
      assert LowerString(p) == [Lower('/')] + LowerString(LowerString(path));
    }
  }

  /** What `!schema` lets through: JavaScript's truthiness of the parsed value. */
  predicate Truthy(v: Json)
  {
    match v
    case Null => false
    case Bool(b) => b
    case Num(n) => n != 0
    case Str(s) => s != ""
    case _ => true
  }

  /** `validateSchema` followed by the `!schema` test: the schema the form goes on with. */
  function AcceptedSchema(text: string): (schema: Option<Json>)
    ensures schema.Some? ==> JsonParse.Parse(text) == schema && Truthy(schema.value) && WellFormed(schema.value)
    ensures schema.None? ==> JsonParse.Parse(text).None? || !Truthy(JsonParse.Parse(text).value)
  {
    match JsonParse.Parse(text)
    case Some(v) => if Truthy(v) then Some(v) else None
    case None => None
  }

  /** A text made of white space only does not parse, so it never yields a schema. */
  lemma BlankSchemaRejected(text: string)
    requires Trim(text) == []
    ensures JsonParse.Parse(text) == None
    ensures AcceptedSchema(text) == None
  {
    TrimEmpty(text);
    var t := JsonParse.SkipWs(text);
    SkipWsSuffix(text);
    if t != [] {
      assert t[0] == text[|text| - |t|];
      assert IsTrimmedSpace(t[0]);
    }
  }

  lemma {:induction false} SkipWsSuffix(s: string)
    ensures JsonParse.SkipWs(s) == s[|s| - |JsonParse.SkipWs(s)|..]
  {
    if s != [] && JsonParse.IsWs(s[0]) {
      SkipWsSuffix(s[1..]);
    }
  }

  /** The values typed into the form. */
  datatype Draft = Draft(
    name: string,
    description: string,
    httpMethod: string,
    endpointPath: string,
    statusCode: int,
    delay: int,
    schemaText: string)

  /** A row of `api_endpoints`. */
  datatype EndpointRow = EndpointRow(
    userId: UserId,
    name: string,
    description: string,
    endpointPath: string,
    httpMethod: string,
    responseType: string,
    responseBody: Json,
    statusCode: int,
    delayMs: int,
    isActive: bool)

  /** A row of `api_schemas`. */
  datatype SchemaRow = SchemaRow(endpointId: string, definition: Json)

  /** What `.insert(...).select().single()` answers: the created row's id, no data, or an error. */
  datatype EndpointAnswer = Created(id: string) | NoData | Failed(message: string)

  /** One insert the form sent, with the answer it got (`None` when the schema insert succeeded). */
  datatype Insert =
    | EndpointInsert(endpoint: EndpointRow, answer: EndpointAnswer)
    | SchemaInsert(schema: SchemaRow, error: Option<string>)

  /** The endpoint row the form inserts for `user`. */
  function NewEndpoint(user: UserId, draft: Draft, schema: Json): (row: EndpointRow)
    ensures |row.endpointPath| > 0 && row.endpointPath[0] == '/' && NoUpperCase(row.endpointPath)
    ensures NoLowerCase(row.httpMethod) && |row.httpMethod| == |draft.httpMethod|
    ensures row.responseType == "JSON" && row.isActive
    ensures row.userId == user && row.responseBody == schema
    ensures row.endpointPath == FormatPath(draft.endpointPath)
    ensures row.httpMethod == UpperString(draft.httpMethod)
    ensures row.name == draft.name && row.description == draft.description
    ensures row.statusCode == draft.statusCode && row.delayMs == draft.delay
  {
    FormatPathShape(draft.endpointPath);
    EndpointRow(user, draft.name, draft.description, FormatPath(draft.endpointPath),
                UpperString(draft.httpMethod), "JSON", schema, draft.statusCode, draft.delay, true)
  }

  /**
   * Every schema insert comes right after an endpoint insert that returned
   * data, names the id that insert returned, and stores the schema that
   * endpoint was created with.
   */
  predicate SchemasFollowEndpoints(log: seq<Insert>)
  {
    forall i :: 0 <= i < |log| && log[i].SchemaInsert? ==>
      i > 0 && log[i - 1].EndpointInsert? && log[i - 1].answer == Created(log[i].schema.endpointId)
      && log[i].schema.definition == log[i - 1].endpoint.responseBody
  }

  /**
   * Sending an endpoint insert, followed by the schema insert for the id it
   * returned when it returned one, keeps every schema insert behind its
   * endpoint insert.
   */
  lemma SubmissionKeepsOrder(log: seq<Insert>, row: EndpointRow, answer: EndpointAnswer, err: Option<string>)
    ensures SchemasFollowEndpoints(log) ==> SchemasFollowEndpoints(log + [EndpointInsert(row, answer)])
    ensures SchemasFollowEndpoints(log) && answer.Created? ==>
      SchemasFollowEndpoints(log + [EndpointInsert(row, answer)] + [SchemaInsert(SchemaRow(answer.id, row.responseBody), err)])
  {
    var l1 := log + [EndpointInsert(row, answer)];
    assert forall i :: 0 <= i < |log| ==> l1[i] == log[i];
    if answer.Created? {
      var l2 := l1 + [SchemaInsert(SchemaRow(answer.id, row.responseBody), err)];
      assert forall i :: 0 <= i < |l1| ==> l2[i] == l1[i];
    }
  }

  /** What the submission answers once the endpoint insert has been sent. */
  predicate Succeeded(answer: EndpointAnswer, schemaError: Option<string>)
  {
    answer.NoData? || (answer.Created? && schemaError.None?)
  }

  /** The reply `generateAIResponse` hands back for a response of the preview route: its `result`, or nothing when it throws. */
  function ServiceReply(response: MockApiCall.Response): (reply: Option<string>)
  {
    if 200 <= response.status < 300 && response.body.GenerateJson? then Some(response.body.result) else None
  }

  /**
   * A test response the form shows is the preview route's successful answer,
   * and that text parses back as JSON.
   */
  lemma ServiceReplyParses(rows: map<(MockApiCall.UserId, MockApiCall.Day), MockApiCall.Quota>,
                           user: Option<MockApiCall.UserId>, today: MockApiCall.Day,
                           body: MockApiCall.RequestBody, model: (string, string) -> MockApiCall.ModelOutcome,
                           describe: string -> string)
    ensures var reply := ServiceReply(MockApiCall.Route(rows, user, today, body, model, describe));
      reply.Some? <==> MockApiCall.Route(rows, user, today, body, model, describe).status == 200
    ensures var reply := ServiceReply(MockApiCall.Route(rows, user, today, body, model, describe));
      reply.Some? ==> JsonParse.Parse(reply.value).Some?
  {
    MockApiCall.RouteStatuses(rows, user, today, body, model, describe);
    if user.Some? && !MockApiCall.Exhausted(MockApiCall.Effective(MockApiCall.Lookup(rows, (user.value, today)))) {
      MockApiCall.GenerateStatuses(body, model, describe);
      MockApiCall.GenerateSuccess(body, model, describe);
    }
  }

  class CreateForm {
    var draft: Draft
    var isSubmitting: bool
    var testResponse: string
    var isGenerating: bool
    var schemaError: string
    /** The 800 ms timer that goes to the list of APIs is pending. */
    var redirecting: bool
    /** The inserts sent to `api_endpoints` and `api_schemas`, in order. */
    var inserts: seq<Insert>

    /** A fresh form: nothing sent, nothing in flight. */
    constructor (initial: Draft)
      ensures draft == initial && inserts == []
      ensures !isSubmitting && !isGenerating && !redirecting
      ensures testResponse == "" && schemaError == ""
      ensures SchemasFollowEndpoints(inserts)
    {
      draft := initial;
      isSubmitting := false;
      testResponse := "";
      isGenerating := false;
      schemaError := "";
      redirecting := false;
      inserts := [];
    }

    /** The submit button's `disabled` condition. */
    predicate SubmitDisabled(user: Option<UserId>)
      reads this
    {
      isSubmitting || draft.name == "" || draft.description == "" || draft.schemaText == ""
      || user.None? || draft.endpointPath == ""
    }

    /** The "Generate Test Response" button's `disabled` condition. */
    predicate GenerateDisabled()
      reads this
    {
      isGenerating || Trim(draft.schemaText) == "" || draft.name == "" || draft.description == ""
    }

    /** The schema editor's change handler: new text, and the error message cleared. */
    method OnSchemaChange(text: string)
      modifies this
      ensures draft == old(draft).(schemaText := text) && schemaError == ""
      ensures isSubmitting == old(isSubmitting) && isGenerating == old(isGenerating)
      ensures testResponse == old(testResponse) && redirecting == old(redirecting) && inserts == old(inserts)
    {
      draft := draft.(schemaText := text);
      schemaError := "";
    }

    /** `validateSchema`: the parsed schema, with the error message set or cleared. */
    method ValidateSchema() returns (schema: Option<Json>)
      modifies this
      ensures schema == JsonParse.Parse(draft.schemaText)
      ensures schemaError == if schema.Some? then "" else InvalidSchemaMessage
      ensures draft == old(draft) && isSubmitting == old(isSubmitting) && isGenerating == old(isGenerating)
      ensures testResponse == old(testResponse) && redirecting == old(redirecting) && inserts == old(inserts)
    {
      schema := JsonParse.Parse(draft.schemaText);
      if schema.Some? {
        schemaError := "";
      } else {
        schemaError := InvalidSchemaMessage;
      }
    }

    /**
     * `handleSubmit`. Without a user nothing happens; with a schema text that
     * does not give a truthy JSON value nothing is inserted; otherwise the
     * endpoint row is inserted and, when that insert returns data, the schema
     * row for the returned id right after it.
     */
    method HandleSubmit(user: Option<UserId>, insertEndpoint: EndpointRow -> EndpointAnswer,
                        insertSchema: SchemaRow -> Option<string>)
      modifies this
      ensures user.None? ==> unchanged(this)
      ensures user.Some? ==> draft == old(draft) && isGenerating == old(isGenerating) && testResponse == old(testResponse)
      ensures user.Some? && AcceptedSchema(old(draft.schemaText)).None? ==>
        inserts == old(inserts) && !isSubmitting && redirecting == old(redirecting)
        && schemaError == (if JsonParse.Parse(old(draft.schemaText)).Some? then "" else InvalidSchemaMessage)
      ensures user.Some? && AcceptedSchema(old(draft.schemaText)).Some? ==>
        var schema := AcceptedSchema(old(draft.schemaText)).value;
        var row := NewEndpoint(user.value, old(draft), schema);
        var answer := insertEndpoint(row);
        var schemaRow := SchemaRow(if answer.Created? then answer.id else "", schema);
        var schemaErr := if answer.Created? then insertSchema(schemaRow) else None;
        && schemaError == ""
        && inserts == old(inserts) + [EndpointInsert(row, answer)]
                      + (if answer.Created? then [SchemaInsert(schemaRow, schemaErr)] else [])
        && (Succeeded(answer, schemaErr) ==> isSubmitting && redirecting)
        && (!Succeeded(answer, schemaErr) ==> !isSubmitting && redirecting == old(redirecting))
      ensures SchemasFollowEndpoints(old(inserts)) ==> SchemasFollowEndpoints(inserts)
    {
      if user.None? {
        return;
      }
      isSubmitting := true;
      var parsed := ValidateSchema();
      if parsed.None? || !Truthy(parsed.value) {
        isSubmitting := false;
        return;
      }
      var schema := parsed.value;
      var row := NewEndpoint(user.value, draft, schema);
      var answer := insertEndpoint(row);
      SubmissionKeepsOrder(inserts, row, answer, if answer.Created? then insertSchema(SchemaRow(answer.id, schema)) else None);
      inserts := inserts + [EndpointInsert(row, answer)];
      if answer.Failed? {
        isSubmitting := false;
        return;
      }
      if answer.Created? {
        var schemaRow := SchemaRow(answer.id, schema);
        var err := insertSchema(schemaRow);
        inserts := inserts + [SchemaInsert(schemaRow, err)];
        if err.Some? {
          isSubmitting := false;
          return;
        }
      }
      redirecting := true;
    }

    /**
     * The part of `generateTestResponse` before its `await`: a call while a
     * generation is in flight returns at once; otherwise the request for the
     * preview route, when the schema text gives a truthy JSON value.
     */
    method StartGeneration() returns (request: Option<MockApiCall.GenerateRequest>)
      modifies this
      ensures old(isGenerating) ==> request.None? && unchanged(this)
      ensures !old(isGenerating) ==>
        && draft == old(draft) && isSubmitting == old(isSubmitting) && testResponse == old(testResponse)
        && redirecting == old(redirecting) && inserts == old(inserts)
        && schemaError == (if JsonParse.Parse(old(draft.schemaText)).Some? then "" else InvalidSchemaMessage)
        && (match AcceptedSchema(old(draft.schemaText))
            case None => request.None? && !isGenerating
            case Some(schema) =>
              request == Some(MockApiCall.GenerateRequest(old(draft.name), old(draft.description), schema))
              && isGenerating)
    {
      if isGenerating {
        return None;
      }
      isGenerating := true;
      var parsed := ValidateSchema();
      if parsed.None? || !Truthy(parsed.value) {
        isGenerating := false;
        return None;
      }
      request := Some(MockApiCall.GenerateRequest(draft.name, draft.description, parsed.value));
    }

    /** The part after the `await`: the reply is shown when there is one, and the flag is cleared in `finally`. */
    method FinishGeneration(reply: Option<string>)
      modifies this
      ensures testResponse == (if reply.Some? then reply.value else old(testResponse))
      ensures !isGenerating
      ensures draft == old(draft) && isSubmitting == old(isSubmitting) && schemaError == old(schemaError)
      ensures redirecting == old(redirecting) && inserts == old(inserts)
    {
      if reply.Some? {
        testResponse := reply.value;
      }
      isGenerating := false;
    }
  }

  /**
   * An enabled submit button means a signed-in user, no submission in flight,
   * and a non-empty name, description, schema text and path.
   */
  lemma SubmitEnabled(form: CreateForm, user: Option<UserId>)
    requires !form.SubmitDisabled(user)
    ensures user.Some? && !form.isSubmitting
    ensures form.draft.name != "" && form.draft.description != ""
    ensures form.draft.schemaText != "" && form.draft.endpointPath != ""
    ensures |FormatPath(form.draft.endpointPath)| == |form.draft.endpointPath| + (if form.draft.endpointPath[0] == '/' then 0 else 1)
  {
    FormatPathShape(form.draft.endpointPath);
  }

  /**
   * An enabled generate button means no generation in flight, a non-empty
   * name and description, and a schema text holding something other than
   * white space; a blank text, which the button excludes, would not parse anyway.
   */
  lemma GenerateEnabled(form: CreateForm)
    requires !form.GenerateDisabled()
    ensures !form.isGenerating
    ensures form.draft.name != "" && form.draft.description != ""
    ensures exists i :: 0 <= i < |form.draft.schemaText| && !IsTrimmedSpace(form.draft.schemaText[i])
  {
    TrimEmpty(form.draft.schemaText);
  }
}
