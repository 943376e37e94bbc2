/** `POST /responses` of the triage service (`handle_responses`) in mock
    mode, as a pure function from the request body, the loaded golden
    table, the request's correlation id and the configured deployment to
    the status, headers and result of the reply. */
module Responses {
  import opened Wrappers
  import opened JsonValue
  import PyText
  import Schemas
  import SchemaMeaning
  import MockRouter
  import Redaction
  import Fences

  /** The reply: an error status raised as `HTTPException` (or an uncaught
      exception, which the framework turns into 500), or a 200 response
      with its JSON object and headers. */
  datatype Reply =
    | Failed(status: int)
    | Answered(result: Fields, headers: map<string, string>)
  {
    function Status(): int {
      if Failed? then status else 200
    }
  }

  /** `MOCK_MODE`: the environment value, `"false"` when unset, lower-cased
      and compared with the accepted spellings. */
  function MockModeOn(env: Option<string>): (r: bool)
    ensures env.None? ==> !r
  {
    var v := Lower(env.GetOr("false"));
    v == "true" || v == "1" || v == "yes"
  }

  function Lower(s: string): (r: string)
    ensures |r| == |s|
  {
    seq(|s|, i requires 0 <= i < |s| => PyText.LowerChar(s[i]))
  }

  /** `MODEL_ROUTER_DEPLOYMENT`, `"model-router"` when unset. */
  function Deployment(env: Option<string>): string {
    env.GetOr("model-router")
  }

  /** `body.get("incident", body)` on a dict body. */
  function Unwrap(body: Fields): Json {
    if "incident" in body then body["incident"] else Obj(body)
  }

  function OptString(v: Option<string>): Json {
    if v.Some? then Str(v.value) else Null
  }

  function OptInt(v: Option<int>): Json {
    if v.Some? then Int(v.value) else Null
  }

  /** The telemetry block the service writes into every answer. */
  function TelemetryBlock(cid: string, deployment: string, selected: Option<string>,
                          prompt: Option<int>, completion: Option<int>): (t: Json)
    ensures t.Obj?
  {
    Obj(map[
      "correlation_id" := Str(cid),
      "model_router_deployment" := Str(deployment),
      "selected_model_if_available" := OptString(selected),
      "tokens_if_available" :=
        if prompt.Some? then Obj(map["prompt_tokens" := Int(prompt.value), "completion_tokens" := OptInt(completion)])
        else Null])
  }

  /** A telemetry block carrying this request's correlation id, deployment
      and selected model. */
  predicate Stamped(t: Json, cid: string, deployment: string, model: string) {
    && t.Obj?
    && "correlation_id" in t.fields && t.fields["correlation_id"] == Str(cid)
    && "model_router_deployment" in t.fields && t.fields["model_router_deployment"] == Str(deployment)
    && "selected_model_if_available" in t.fields && t.fields["selected_model_if_available"] == Str(model)
  }

  const CorrelationHeader: string := "X-Correlation-ID"
  const SchemaValidHeader: string := "X-Schema-Valid"

  /** Everything after the model call: parse the text (502 when that fails),
      overwrite `telemetry` (an uncaught `TypeError`, so 500, when the text
      is JSON but not an object), and answer 200 either way, flagging an
      output that does not conform to the triage schema. */
  function Finish(dec: Decoder, raw: string, cid: string, deployment: string, selected: Option<string>,
                  prompt: Option<int>, completion: Option<int>): (r: Reply)
    ensures Fences.ExtractJson(dec, raw).None? ==> r == Failed(502)
    ensures var p := Fences.ExtractJson(dec, raw);
            p.Some? && !p.value.Obj? ==> r == Failed(500)
    ensures var p := Fences.ExtractJson(dec, raw);
            p.Some? && p.value.Obj? ==>
              && r.Answered?
              && r.result == p.value.fields["telemetry" := TelemetryBlock(cid, deployment, selected, prompt, completion)]
    ensures r.Failed? ==> r.status == 500 || r.status == 502
    ensures r.Answered? ==>
              && "telemetry" in r.result
              && r.result["telemetry"] == TelemetryBlock(cid, deployment, selected, prompt, completion)
    ensures r.Answered? ==>
              ((r.headers == map[CorrelationHeader := cid])
                 <==> Schemas.Conforms(Obj(r.result), Schemas.TriageSchema))
    ensures r.Answered? && !Schemas.Conforms(Obj(r.result), Schemas.TriageSchema) ==>
              r.headers == map[SchemaValidHeader := "false"]
  {
    match Fences.ExtractJson(dec, raw)
    case None => Failed(502)
    case Some(j) =>
      if !j.Obj? then Failed(500)
      else
        var result := j.fields["telemetry" := TelemetryBlock(cid, deployment, selected, prompt, completion)];
        if Schemas.Conforms(Obj(result), Schemas.TriageSchema) then
          Answered(result, map[CorrelationHeader := cid])
        else
          assert SchemaValidHeader in map[SchemaValidHeader := "false"];
          Answered(result, map[SchemaValidHeader := "false"])
  }

  /** `handle_responses` with `MOCK_MODE` on. `body` is None when the request
      body is not JSON; `build` is `build_user_message` and `dumps` is
      `json.dumps`, neither of which is modelled here. A body that is JSON
      but not a dict has no `.get`: an uncaught `AttributeError`, so 500. */
  function HandleResponses(body: Option<Json>, golden: MockRouter.Table, cid: string, deployment: string,
                           build: Json -> string, dumps: Fields -> string, dec: Decoder): (r: Reply)
    ensures body.Some? && !body.value.Obj? ==> r == Failed(500)
    ensures r.Answered? ==>
              && "telemetry" in r.result
              && Stamped(r.result["telemetry"], cid, deployment, MockRouter.MockModel)
  {
    if body.None? then Failed(400)
    else if !body.value.Obj? then Failed(500)
    else
      var incident := Unwrap(body.value.fields);
      if !Schemas.Conforms(incident, Schemas.IncidentSchema) then Failed(422)
      else MockAnswer(incident, golden, cid, deployment, build, dumps, dec)
  }

  /** The mock path for a valid incident: look up the golden response (501
      when there is none), serialise it, and finish as for a model reply. */
  function MockAnswer(incident: Json, golden: MockRouter.Table, cid: string, deployment: string,
                      build: Json -> string, dumps: Fields -> string, dec: Decoder): (r: Reply)
    requires Schemas.Conforms(incident, Schemas.IncidentSchema)
    ensures r.Status() in {200, 500, 501, 502}
  {
    SchemaMeaning.IncidentIdOf(incident);
    var user := Redaction.Redact(build(incident));
    match MockRouter.GetMockResponse(golden, incident.fields["incident_id"].s)
    case None => Failed(501)
    case Some(mock) =>
      var raw := dumps(mock);
      Finish(dec, raw, cid, deployment, Some(MockRouter.MockModel), Some(|user| / 4), Some(|raw| / 4))
  }

  /** The statuses a reply can have; an unparseable body is the only cause
      of 400. */
  lemma StatusCodes(body: Option<Json>, golden: MockRouter.Table, cid: string, deployment: string,
                    build: Json -> string, dumps: Fields -> string, dec: Decoder)
    ensures var r := HandleResponses(body, golden, cid, deployment, build, dumps, dec);
            r.Status() in {200, 400, 422, 500, 501, 502}
    ensures var r := HandleResponses(body, golden, cid, deployment, build, dumps, dec);
            body.None? <==> r == Failed(400)
  {
  }

  /** An object body whose incident is not valid is answered with 422, and
      422 means exactly that. */
  lemma InvalidIncidentIs422(body: Option<Json>, golden: MockRouter.Table, cid: string, deployment: string,
                             build: Json -> string, dumps: Fields -> string, dec: Decoder)
    ensures var r := HandleResponses(body, golden, cid, deployment, build, dumps, dec);
            (body.Some? && body.value.Obj? && !SchemaMeaning.ValidIncident(Unwrap(body.value.fields)))
              <==> r == Failed(422)
  {
    if body.Some? && body.value.Obj? {
      SchemaMeaning.IncidentMeaning(Unwrap(body.value.fields));
    }
  }

  /** `MOCK_MODE` is on exactly when the lower-cased value is one of the
      accepted spellings, so the letter case of the value never matters. */
  lemma MockModeMeaning(s: string)
    ensures MockModeOn(Some(s)) <==> Lower(s) in {"true", "1", "yes"}
    ensures MockModeOn(Some(s)) == MockModeOn(Some(Lower(s)))
  {
    LowerIdempotent(s);
  }

  lemma LowerIdempotent(s: string)
    ensures Lower(Lower(s)) == Lower(s)
  {
    forall i | 0 <= i < |s|
      ensures Lower(Lower(s))[i] == Lower(s)[i]
    {
    }
  }

  /** With an object body whose incident is valid, 501 is answered exactly
      when the golden table has neither the incident's own entry nor the
      `_default` one. */
  lemma MissingGoldenIs501(body: Option<Json>, golden: MockRouter.Table, cid: string, deployment: string,
                           build: Json -> string, dumps: Fields -> string, dec: Decoder)
    requires body.Some? && body.value.Obj?
    requires Schemas.Conforms(Unwrap(body.value.fields), Schemas.IncidentSchema)
    ensures Unwrap(body.value.fields).Obj? && "incident_id" in Unwrap(body.value.fields).fields
    ensures Unwrap(body.value.fields).fields["incident_id"].Str?
    ensures var id := Unwrap(body.value.fields).fields["incident_id"].s;
            (HandleResponses(body, golden, cid, deployment, build, dumps, dec) == Failed(501))
              <==> (MockRouter.Id(id) !in golden && MockRouter.Id("_default") !in golden)
  {
    var incident := Unwrap(body.value.fields);
    SchemaMeaning.IncidentIdOf(incident);
    MockRouter.LookupOrder(golden, incident.fields["incident_id"].s);
    assert HandleResponses(body, golden, cid, deployment, build, dumps, dec)
           == MockAnswer(incident, golden, cid, deployment, build, dumps, dec);
    MockAnswer501(incident, golden, cid, deployment, build, dumps, dec);
  }

  lemma MockAnswer501(incident: Json, golden: MockRouter.Table, cid: string, deployment: string,
                      build: Json -> string, dumps: Fields -> string, dec: Decoder)
    requires Schemas.Conforms(incident, Schemas.IncidentSchema)
    requires incident.Obj? && "incident_id" in incident.fields && incident.fields["incident_id"].Str?
    ensures (MockAnswer(incident, golden, cid, deployment, build, dumps, dec) == Failed(501))
              <==> MockRouter.GetMockResponse(golden, incident.fields["incident_id"].s).None?
  {
    var m := MockRouter.GetMockResponse(golden, incident.fields["incident_id"].s);
    if m.Some? {
      var raw := dumps(m.value);
      var user := Redaction.Redact(build(incident));
      var f := Finish(dec, raw, cid, deployment, Some(MockRouter.MockModel), Some(|user| / 4), Some(|raw| / 4));
      assert MockAnswer(incident, golden, cid, deployment, build, dumps, dec) == f;
    }
  }

  /** An answer is only given for a JSON object body whose incident is
      valid and for which the golden table has a response (its own or the
      `_default` one). */
  lemma AnsweredOnlyForValid(body: Option<Json>, golden: MockRouter.Table, cid: string, deployment: string,
                             build: Json -> string, dumps: Fields -> string, dec: Decoder)
    requires HandleResponses(body, golden, cid, deployment, build, dumps, dec).Answered?
    ensures body.Some? && body.value.Obj?
    ensures SchemaMeaning.ValidIncident(Unwrap(body.value.fields))
    ensures var id := Unwrap(body.value.fields).fields["incident_id"].s;
            MockRouter.Id(id) in golden || MockRouter.Id("_default") in golden
  {
    SchemaMeaning.IncidentMeaning(Unwrap(body.value.fields));
    MockRouter.LookupOrder(golden, Unwrap(body.value.fields).fields["incident_id"].s);
  }

  /** A body `{"incident": x}` is processed as `x`; a body without that key
      is itself the incident. */
  lemma EnvelopeUnwrapped(x: Json, golden: MockRouter.Table, cid: string, deployment: string,
                          build: Json -> string, dumps: Fields -> string, dec: Decoder)
    requires x.Obj? && "incident" !in x.fields
    ensures HandleResponses(Some(Obj(map["incident" := x])), golden, cid, deployment, build, dumps, dec)
            == HandleResponses(Some(x), golden, cid, deployment, build, dumps, dec)
  {
    assert Unwrap(map["incident" := x]) == x;
    assert Unwrap(x.fields) == x;
  }

  /** The tokens entry is null exactly when there is no prompt count. */
  lemma TokensNullIff(cid: string, deployment: string, selected: Option<string>,
                      prompt: Option<int>, completion: Option<int>)
    ensures TelemetryBlock(cid, deployment, selected, prompt, completion).fields["tokens_if_available"].Null?
            <==> prompt.None?
  {
  }

  /** The injected block conforms to the telemetry schema unless there is a
      prompt count without a completion count (a null count is not an
      integer). */
  lemma TelemetryConforms(cid: string, deployment: string, selected: Option<string>,
                          prompt: Option<int>, completion: Option<int>)
    ensures Schemas.Conforms(TelemetryBlock(cid, deployment, selected, prompt, completion), Schemas.TelemetryS)
            <==> prompt.None? || completion.Some?
  {
    var t := TelemetryBlock(cid, deployment, selected, prompt, completion);
    SchemaMeaning.TelemetryMeaning(t);
    if prompt.Some? {
      var tokens := t.fields["tokens_if_available"];
      assert "completion_tokens" in tokens.fields && tokens.fields["completion_tokens"] == OptInt(completion);
    }
  }

  /** Whatever the model returned under `telemetry` is replaced; every other
      key of its object is kept with its value. */
  lemma ModelKeysKept(dec: Decoder, raw: string, cid: string, deployment: string, selected: Option<string>,
                      prompt: Option<int>, completion: Option<int>, k: string)
    requires Finish(dec, raw, cid, deployment, selected, prompt, completion).Answered?
    requires k != "telemetry"
    ensures var parsed := Fences.ExtractJson(dec, raw);
            parsed.Some? && parsed.value.Obj?
    ensures var m := Fences.ExtractJson(dec, raw).value.fields;
            var r := Finish(dec, raw, cid, deployment, selected, prompt, completion).result;
            (k in r <==> k in m) && (k in m ==> r[k] == m[k])
  {
  }

  /** In mock mode the telemetry carries this request's correlation id, the
      configured deployment, the mock model name, and token counts of a
      quarter of the redacted user message and of the golden text. */
  lemma MockTelemetry(body: Option<Json>, golden: MockRouter.Table, cid: string, deployment: string,
                      build: Json -> string, dumps: Fields -> string, dec: Decoder)
    requires HandleResponses(body, golden, cid, deployment, build, dumps, dec).Answered?
    ensures body.Some? && body.value.Obj?
    ensures var r := HandleResponses(body, golden, cid, deployment, build, dumps, dec);
            var incident := Unwrap(body.value.fields);
            SchemaMeaning.ValidIncident(incident)
            && MockRouter.GetMockResponse(golden, incident.fields["incident_id"].s).Some?
            && var raw := dumps(MockRouter.GetMockResponse(golden, incident.fields["incident_id"].s).value);
               var user := Redaction.Redact(build(incident));
               r.result["telemetry"] == Obj(map[
                 "correlation_id" := Str(cid),
                 "model_router_deployment" := Str(deployment),
                 "selected_model_if_available" := Str(MockRouter.MockModel),
                 "tokens_if_available" :=
                   Obj(map["prompt_tokens" := Int(|user| / 4), "completion_tokens" := Int(|raw| / 4)])])
  {
    AnsweredOnlyForValid(body, golden, cid, deployment, build, dumps, dec);
  }

  /** When `json.dumps` writes the golden response as an object text the
      decoder reads back, mock mode answers with that response (private
      keys already removed) and the injected telemetry, never with 502. */
  lemma MockAnswerIsGolden(dec: Decoder, mock: Fields, raw: string, cid: string, deployment: string,
                           prompt: int, completion: int)
    requires |raw| > 0 && raw[0] == '{' && raw[|raw| - 1] == '}'
    requires Loads(dec, raw) == Some(Obj(mock))
    ensures var r := Finish(dec, raw, cid, deployment, Some(MockRouter.MockModel), Some(prompt), Some(completion));
            r.Answered?
            && r.result == mock["telemetry" := TelemetryBlock(cid, deployment, Some(MockRouter.MockModel), Some(prompt), Some(completion))]
  {
    Fences.ObjectTextParsedAsIs(dec, raw);
  }

  /** A 200 answer flags itself: it carries `X-Schema-Valid: false`
      exactly when its result does not conform to the triage schema. */
  lemma HeaderFlagsInvalid(body: Option<Json>, golden: MockRouter.Table, cid: string, deployment: string,
                           build: Json -> string, dumps: Fields -> string, dec: Decoder)
    requires HandleResponses(body, golden, cid, deployment, build, dumps, dec).Answered?
    ensures var r := HandleResponses(body, golden, cid, deployment, build, dumps, dec);
            && (SchemaValidHeader in r.headers <==> !Schemas.Conforms(Obj(r.result), Schemas.TriageSchema))
            && (SchemaValidHeader in r.headers ==> r.headers[SchemaValidHeader] == "false")
  {
    assert SchemaValidHeader != CorrelationHeader;
  }
}
