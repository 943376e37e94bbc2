/** The local end-to-end validator: every selected scenario is posted to
    the triage service running in mock mode, and the reply is checked
    against the triage output schema and for empty content, then tallied
    into the exit status. */
module ValidateScript {
  import opened Wrappers
  import opened JsonValue
  import Schemas
  import SchemaMeaning
  import DataFiles
  import Responses
  import MockRouter
  import ScenarioRuns

  // ------------------------------------------------------------ validation

  /** One entry of `validate_response`'s error list, in the order the
      checks run. The values are those the messages show. */
  datatype Error =
    | SchemaViolation
    | EmptyWhatHappened
    | EmptyCurrentStatus
    | OutOfRange(index: nat, value: Json)
    | NoEvidence(index: nat)
    | BadPriority(index: nat, value: Json)
    | NoCorrelationId
    | NoDeployment
    | HeaderInBody
    | HeaderFalse

  /** `jsonschema.validate`: one error when the reply does not conform. */
  function SchemaErrors(data: Json): (r: seq<Error>)
    ensures r == [] <==> SchemaMeaning.ValidTriage(data)
    ensures r != [] ==> r == [SchemaViolation]
  {
    SchemaMeaning.TriageMeaning(data);
    if Schemas.Conforms(data, Schemas.TriageSchema) then [] else [SchemaViolation]
  }

  /** `if not section.get(key): errors.append(...)` for two keys of a
      section read only when it is present; a section that is not a dict
      has no `.get`. */
  function PairErrors(data: Json, section: string, first: string, second: string, e1: Error, e2: Error)
    : (r: Eval<seq<Error>>)
    ensures data.Obj? && section in data.fields && data.fields[section].Obj? ==>
              var m := data.fields[section].fields;
              r == Done((if first in m && Truthy(m[first]) then [] else [e1])
                        + (if second in m && Truthy(m[second]) then [] else [e2]))
    ensures data.Obj? && section !in data.fields ==> r == Done([])
    ensures r.Done? ==> forall x | x in r.value :: x == e1 || x == e2
  {
    var part :- Member(data, section);
    match part
    case None => Done([])
    case Some(v) =>
      if !v.Obj? then Raised
      else
        var a := if first in v.fields then v.fields[first] else Null;
        var b := if second in v.fields then v.fields[second] else Null;
        Done((if Truthy(a) then [] else [e1]) + (if Truthy(b) then [] else [e2]))
  }

  /** The summary check. */
  function SummaryErrors(data: Json): Eval<seq<Error>> {
    PairErrors(data, "summary", "what_happened", "current_status", EmptyWhatHappened, EmptyCurrentStatus)
  }

  /** The telemetry check. */
  function TelemetryErrors(data: Json): Eval<seq<Error>> {
    PairErrors(data, "telemetry", "correlation_id", "model_router_deployment", NoCorrelationId, NoDeployment)
  }

  /** `rc.get("evidence")` */
  function Evidence(rc: Fields): Json {
    if "evidence" in rc then rc["evidence"] else Null
  }

  /** Checking root cause `i`: its confidence (or -1) outside [0, 1],
      then its evidence empty; comparing a non-number raises. */
  function CauseCheck(i: nat, rc: Fields): (r: Eval<seq<Error>>)
    ensures r.Done? <==> NumericValue(ScenarioRuns.Confidence(rc)).Some?
    ensures r.Done? ==>
              r.value == (if 0.0 <= NumericValue(ScenarioRuns.Confidence(rc)).value <= 1.0 then []
                          else [OutOfRange(i, ScenarioRuns.Confidence(rc))])
                         + (if Truthy(Evidence(rc)) then [] else [NoEvidence(i)])
  {
    var ok :- Between01(ScenarioRuns.Confidence(rc));
    Done((if ok then [] else [OutOfRange(i, ScenarioRuns.Confidence(rc))])
         + (if Truthy(Evidence(rc)) then [] else [NoEvidence(i)]))
  }

  /** Checking action `i`: its priority not one of P0 to P3; a list
      or dict priority is unhashable and raises. */
  function ActionCheck(i: nat, act: Fields): (r: Eval<seq<Error>>)
    ensures r.Done? <==> !(ScenarioRuns.Priority(act).Arr? || ScenarioRuns.Priority(act).Obj?)
    ensures r.Done? ==> (r.value == [] <==> ScenarioRuns.Priority(act).Str? && ScenarioRuns.Priority(act).s in Schemas.Priorities)
    ensures r.Done? && r.value != [] ==> r.value == [BadPriority(i, ScenarioRuns.Priority(act))]
  {
    var ok :- InStrings(ScenarioRuns.Priority(act), Schemas.Priorities);
    Done(if ok then [] else [BadPriority(i, ScenarioRuns.Priority(act))])
  }

  /** The content checks of `validate_response`: summary, root causes,
      actions, telemetry, then a key named like the schema header in the
      body itself. Raised where a check raises on a malformed reply. */
  function ContentErrors(data: Json): (r: Eval<seq<Error>>)
    ensures r.Done? ==> SchemaViolation !in r.value && HeaderFalse !in r.value
    ensures r.Done? ==> (HeaderInBody in r.value <==> In(Responses.SchemaValidHeader, data) == Done(true))
  {
    CauseFindings(data);
    ActionFindings(data);
    var summary :- SummaryErrors(data);
    var causes :- ScenarioRuns.Listed(data, "suspected_root_causes", CauseCheck);
    var actions :- ScenarioRuns.Listed(data, "immediate_actions", ActionCheck);
    var telemetry :- TelemetryErrors(data);
    var header :- In(Responses.SchemaValidHeader, data);
    FindingsKept(summary, causes, actions, telemetry, header);
    Done(summary + causes + actions + telemetry + (if header then [HeaderInBody] else []))
  }

  lemma FindingsKept(summary: seq<Error>, causes: seq<Error>, actions: seq<Error>, telemetry: seq<Error>,
                     header: bool)
    requires forall x | x in summary :: x == EmptyWhatHappened || x == EmptyCurrentStatus
    requires forall x | x in causes :: CauseFinding(x)
    requires forall x | x in actions :: x.BadPriority?
    requires forall x | x in telemetry :: x == NoCorrelationId || x == NoDeployment
    ensures var all := summary + causes + actions + telemetry + (if header then [HeaderInBody] else []);
            && SchemaViolation !in all && HeaderFalse !in all
            && (HeaderInBody in all <==> header)
  {
  }

  /** A root-cause finding: a confidence out of range or missing evidence. */
  predicate CauseFinding(e: Error) {
    e.OutOfRange? || e.NoEvidence?
  }

  lemma CauseFindings(data: Json)
    ensures var r := ScenarioRuns.Listed(data, "suspected_root_causes", CauseCheck);
            r.Done? ==> forall x | x in r.value :: CauseFinding(x)
  {
    var r := ScenarioRuns.Listed(data, "suspected_root_causes", CauseCheck);
    var list := Member(data, "suspected_root_causes");
    if r.Done? && list.Done? && list.value.Some? {
      var recs := Records(list.value.value);
      assert recs.Done?;
      assert r == ScenarioRuns.Collect(recs.value, CauseCheck, 0);
      forall x | x in r.value
        ensures CauseFinding(x)
      {
        var j :| 0 <= j < |recs.value| && CauseCheck(j, recs.value[j]).Done? && x in CauseCheck(j, recs.value[j]).value;
      }
    }
  }

  lemma ActionFindings(data: Json)
    ensures var r := ScenarioRuns.Listed(data, "immediate_actions", ActionCheck);
            r.Done? ==> forall x | x in r.value :: x.BadPriority?
  {
    var r := ScenarioRuns.Listed(data, "immediate_actions", ActionCheck);
    var list := Member(data, "immediate_actions");
    if r.Done? && list.Done? && list.value.Some? {
      var recs := Records(list.value.value);
      assert recs.Done?;
      assert r == ScenarioRuns.Collect(recs.value, ActionCheck, 0);
      forall x | x in r.value
        ensures x.BadPriority?
      {
        var j :| 0 <= j < |recs.value| && ActionCheck(j, recs.value[j]).Done? && x in ActionCheck(j, recs.value[j]).value;
      }
    }
  }

  /** `validate_response(data, name)`: the schema error first, then the
      content errors. */
  function ValidateResponse(data: Json): (r: Eval<seq<Error>>)
    ensures r.Done? <==> ContentErrors(data).Done?
    ensures r.Done? && !SchemaMeaning.ValidTriage(data) ==> |r.value| > 0 && r.value[0] == SchemaViolation
    ensures r.Done? && SchemaMeaning.ValidTriage(data) ==> r.value == ContentErrors(data).value
  {
    var content :- ContentErrors(data);
    Done(SchemaErrors(data) + content)
  }

  // ------------------------------------------- what an accepted reply is

  /** A reply the validator accepts: a valid triage output whose summary
      texts, telemetry identifiers and every root cause's evidence are not
      empty, and which has no key named like the schema header. */
  predicate Acceptable(j: Json) {
    && SchemaMeaning.ValidTriage(j)
    && j.fields["summary"].fields["what_happened"].s != ""
    && j.fields["summary"].fields["current_status"].s != ""
    && (forall i | 0 <= i < |j.fields["suspected_root_causes"].items| ::
          j.fields["suspected_root_causes"].items[i].fields["evidence"].items != [])
    && j.fields["telemetry"].fields["correlation_id"].s != ""
    && j.fields["telemetry"].fields["model_router_deployment"].s != ""
    && Responses.SchemaValidHeader !in j.fields
  }

  /** On a valid triage output the pair checks never raise, and are clean
      exactly when both texts are non-empty. */
  lemma PairsOnValid(j: Json)
    requires SchemaMeaning.ValidTriage(j)
    ensures SummaryErrors(j).Done? && TelemetryErrors(j).Done?
    ensures SummaryErrors(j).value == [] <==>
              j.fields["summary"].fields["what_happened"].s != "" && j.fields["summary"].fields["current_status"].s != ""
    ensures TelemetryErrors(j).value == [] <==>
              j.fields["telemetry"].fields["correlation_id"].s != ""
              && j.fields["telemetry"].fields["model_router_deployment"].s != ""
  {
  }

  /** Whatever the checks give, the collected list is empty exactly when
      every record's list is. */
  lemma CollectEmpty<E>(recs: seq<Fields>, check: (nat, Fields) -> Eval<seq<E>>)
    requires ScenarioRuns.Collect(recs, check, 0).Done?
    ensures forall j | 0 <= j < |recs| :: check(j, recs[j]).Done?
    ensures ScenarioRuns.Collect(recs, check, 0).value == [] <==>
              forall j | 0 <= j < |recs| :: check(j, recs[j]).value == []
  {
    var all := ScenarioRuns.Collect(recs, check, 0).value;
    if all != [] {
      assert all[0] in all;
      var j :| 0 <= j < |recs| && check(j, recs[j]).Done? && all[0] in check(j, recs[j]).value;
      assert check(j, recs[j]).value != [];
    }
    if exists j | 0 <= j < |recs| :: check(j, recs[j]).value != [] {
      var j :| 0 <= j < |recs| && check(j, recs[j]).value != [];
      var x := check(j, recs[j]).value[0];
      assert x in check(j, recs[j]).value;
      assert x in all;
    }
  }

  /** On a valid triage output the root-cause loop never raises and
      reports nothing but empty evidence: every confidence is in range. */
  lemma CausesOnValid(j: Json)
    requires SchemaMeaning.ValidTriage(j)
    ensures var r := ScenarioRuns.Listed(j, "suspected_root_causes", CauseCheck);
            && r.Done?
            && (forall x | x in r.value :: x.NoEvidence?)
            && (r.value == [] <==> forall i | 0 <= i < |j.fields["suspected_root_causes"].items| ::
                  j.fields["suspected_root_causes"].items[i].fields["evidence"].items != [])
  {
    CausesOfValidList(j.fields["suspected_root_causes"].items);
  }

  /** The same for the list itself. */
  lemma CausesOfValidList(items: seq<Json>)
    requires SchemaMeaning.AllRootCauses(Arr(items))
    ensures var r := ScenarioRuns.Collect(Records(Arr(items)).value, CauseCheck, 0);
            && r.Done?
            && (forall x | x in r.value :: x.NoEvidence?)
            && (r.value == [] <==> forall i | 0 <= i < |items| :: items[i].fields["evidence"].items != [])
  {
    var recs := Records(Arr(items)).value;
    forall i | 0 <= i < |recs|
      ensures CauseCheck(i, recs[i]) == Done(if items[i].fields["evidence"].items != [] then [] else [NoEvidence(i)])
    {
      assert items[i] == Obj(recs[i]);
      CauseOfValid(i, recs[i]);
    }
    var r := ScenarioRuns.Collect(recs, CauseCheck, 0);
    assert r.Done?;
    CollectEmpty(recs, CauseCheck);
    forall x | x in r.value
      ensures x.NoEvidence?
    {
      var i :| 0 <= i < |recs| && CauseCheck(i, recs[i]).Done? && x in CauseCheck(i, recs[i]).value;
    }
  }

  /** A valid root cause draws at most the evidence error. */
  lemma CauseOfValid(i: nat, rc: Fields)
    requires SchemaMeaning.RootCauseOk(Obj(rc))
    ensures CauseCheck(i, rc) == Done(if rc["evidence"].items != [] then [] else [NoEvidence(i)])
  {
    var c := ScenarioRuns.Confidence(rc);
    assert c == rc["confidence"] && SchemaMeaning.ConfidenceOk(c);
    assert 0.0 <= NumericValue(c).value <= 1.0;
    var e: seq<Error> := if Truthy(Evidence(rc)) then [] else [NoEvidence(i)];
    assert CauseCheck(i, rc).value == [] + e;
    assert [] + e == e;
  }

  /** On a valid triage output the action loop never raises and reports
      nothing. */
  lemma ActionsOnValid(j: Json)
    requires SchemaMeaning.ValidTriage(j)
    ensures ScenarioRuns.Listed(j, "immediate_actions", ActionCheck) == Done([])
  {
    var items := j.fields["immediate_actions"].items;
    var recs := Records(Arr(items)).value;
    forall i | 0 <= i < |recs|
      ensures ActionCheck(i, recs[i]) == Done([])
    {
      assert items[i] == Obj(recs[i]);
      assert SchemaMeaning.ActionOk(items[i]);
    }
    assert ScenarioRuns.Collect(recs, ActionCheck, 0).Done?;
    CollectEmpty(recs, ActionCheck);
  }

  /** A reply that conforms to the schema never makes the validator raise
      and never draws a confidence or priority error: for such replies
      only emptiness is left to check. */
  lemma ValidNeverRaises(j: Json)
    requires Schemas.Conforms(j, Schemas.TriageSchema)
    ensures ValidateResponse(j).Done?
    ensures forall x | x in ValidateResponse(j).value :: !x.SchemaViolation? && !x.OutOfRange? && !x.BadPriority?
  {
    SchemaMeaning.TriageMeaning(j);
    OnlyEmptinessOnValid(j);
  }

  /** The same, for the predicate the schema stands for. */
  lemma OnlyEmptinessOnValid(j: Json)
    requires SchemaMeaning.ValidTriage(j)
    ensures ValidateResponse(j).Done?
    ensures forall x | x in ValidateResponse(j).value :: !x.SchemaViolation? && !x.OutOfRange? && !x.BadPriority?
  {
    ValidShape(j);
    CausesOnValid(j);
    var summary := SummaryErrors(j).value;
    var causes := ScenarioRuns.Listed(j, "suspected_root_causes", CauseCheck).value;
    var telemetry := TelemetryErrors(j).value;
    var tail: seq<Error> := if Responses.SchemaValidHeader in j.fields then [HeaderInBody] else [];
    assert ValidateResponse(j).value == summary + causes + telemetry + tail;
    forall x: Error | x in summary + causes + telemetry + tail
      ensures !x.SchemaViolation? && !x.OutOfRange? && !x.BadPriority?
    {
      assert x in summary || x in causes || x in telemetry || x in tail;
    }
  }

  /** On a valid triage output every content check completes; the list
      holds the summary, root-cause and telemetry findings and the body
      key, and nothing else. */
  lemma ValidShape(j: Json)
    requires SchemaMeaning.ValidTriage(j)
    ensures ContentErrors(j)
            == Done(SummaryErrors(j).value + ScenarioRuns.Listed(j, "suspected_root_causes", CauseCheck).value
                    + TelemetryErrors(j).value
                    + (if Responses.SchemaValidHeader in j.fields then [HeaderInBody] else []))
  {
    PairsOnValid(j);
    CausesOnValid(j);
    ActionsOnValid(j);
    var summary := SummaryErrors(j).value;
    var causes := ScenarioRuns.Listed(j, "suspected_root_causes", CauseCheck).value;
    var telemetry := TelemetryErrors(j).value;
    var header := Responses.SchemaValidHeader in j.fields;
    assert In(Responses.SchemaValidHeader, j) == Done(header);
    assert ContentErrors(j) == Done(summary + causes + [] + telemetry + (if header then [HeaderInBody] else []));
    assert summary + causes + [] == summary + causes;
  }

  /** The validator reports nothing exactly for the acceptable replies. */
  lemma CleanIffAcceptable(j: Json)
    ensures ValidateResponse(j) == Done([]) <==> Acceptable(j)
  {
    if SchemaMeaning.ValidTriage(j) {
      PairsOnValid(j);
      CausesOnValid(j);
      ActionsOnValid(j);
    }
  }

  // ------------------------------------------------------------- one run

  /** What `requests.post` to the local service gives: a refused
      connection (`ConnectionError`), a read timeout (not caught), or a
      reply with its status, its body when it is JSON, and its
      `X-Schema-Valid` header when present. */
  datatype LocalReply =
    | Refused
    | ReadTimeout
    | Reply(status: int, body: Option<Json>, schemaHeader: Option<string>)

  /** Why a scenario failed. */
  datatype Failure = NoConnection | HttpStatus(code: int) | NotJson | Errors(errors: seq<Error>)

  datatype Verdict = Pass | Fail(why: Failure)

  /** The decision on the reply, in the order `run_scenario` makes it. */
  function Judge(reply: LocalReply): (r: Eval<Verdict>)
    ensures reply.ReadTimeout? ==> r.Raised?
    ensures reply.Reply? && reply.status != 200 ==> r == Done(Fail(HttpStatus(reply.status)))
    ensures reply.Refused? ==> r == Done(Fail(NoConnection))
    ensures reply.Reply? && reply.schemaHeader == Some("false") ==> r != Done(Pass)
  {
    match reply
    case Refused => Done(Fail(NoConnection))
    case ReadTimeout => Raised
    case Reply(status, body, header) =>
      if status != 200 then Done(Fail(HttpStatus(status)))
      else if body.None? then Done(Fail(NotJson))
      else
        var errors :- ValidateResponse(body.value);
        var all := errors + (if header == Some("false") then [HeaderFalse] else []);
        Done(if all == [] then Pass else Fail(Errors(all)))
  }

  /** A scenario passes exactly when the reply is a 200 whose JSON body is
      acceptable and which is not flagged schema-invalid. */
  lemma PassIffAcceptable(reply: LocalReply)
    ensures Judge(reply) == Done(Pass) <==>
              && reply.Reply? && reply.status == 200 && reply.body.Some?
              && Acceptable(reply.body.value) && reply.schemaHeader != Some("false")
  {
    if reply.Reply? && reply.body.Some? {
      CleanIffAcceptable(reply.body.value);
    }
  }

  /** `run_scenario(file)`: the file is read and its `incident_id` looked
      up (both raise on a malformed file), then the payload is posted. */
  function RunScenario(dec: Decoder, f: DataFiles.File, post: Json -> LocalReply): (r: Eval<Verdict>)
    ensures r.Done? ==> DataFiles.Parse(dec, f).Some? && DataFiles.Parse(dec, f).value.Obj?
    ensures r.Done? ==> r == Judge(post(DataFiles.Parse(dec, f).value))
  {
    match DataFiles.Parse(dec, f)
    case None => Raised
    case Some(payload) =>
      var _ :- Get(payload, "incident_id", Str("unknown"));
      Judge(post(payload))
  }

  // ------------------------------------------- against the mock service

  /** The service's reply as the validator sees it. An error reply's body
      is not read, so it is left out. */
  function Received(reply: Responses.Reply): (r: LocalReply)
    ensures r.Reply? && r.status == reply.Status()
  {
    match reply
    case Failed(status) => Reply(status, None, None)
    case Answered(result, headers) =>
      Reply(200, Some(Obj(result)),
            if Responses.SchemaValidHeader in headers then Some(headers[Responses.SchemaValidHeader]) else None)
  }

  /** Against the mock service, a scenario passes exactly when the service
      answers and its answer is acceptable; the header check only repeats
      the schema check. */
  lemma MockScenarioPasses(body: Option<Json>, golden: MockRouter.Table, cid: string, deployment: string,
                           build: Json -> string, dumps: Fields -> string, dec: Decoder)
    ensures var reply := Responses.HandleResponses(body, golden, cid, deployment, build, dumps, dec);
            Judge(Received(reply)) == Done(Pass) <==> reply.Answered? && Acceptable(Obj(reply.result))
  {
    var reply := Responses.HandleResponses(body, golden, cid, deployment, build, dumps, dec);
    PassIffAcceptable(Received(reply));
    if reply.Answered? {
      Responses.HeaderFlagsInvalid(body, golden, cid, deployment, build, dumps, dec);
      SchemaMeaning.TriageMeaning(Obj(reply.result));
    }
  }

  // ------------------------------------------------------------- the run

  /** The loop of `main()` over the selected files and its exit status:
      1 when any scenario failed, 0 when every one passed; Raised where a
      scenario raises. */
  method ValidateAll(files: seq<DataFiles.File>, run: DataFiles.File -> Eval<Verdict>) returns (r: Eval<int>)
    ensures r.Done? ==> r.value == 0 || r.value == 1
    ensures r == Done(0) <==> forall f | f in files :: run(f) == Done(Pass)
    ensures r.Raised? <==> exists f | f in files :: run(f).Raised?
  {
    var outcomes: seq<bool> := [];
    var i := 0;
    while i < |files|
      invariant 0 <= i <= |files|
      invariant |outcomes| == i
      invariant forall j | 0 <= j < i :: run(files[j]).Done? && (outcomes[j] <==> run(files[j]).value == Pass)
    {
      var result := run(files[i]);
      if result.Raised? {
        return Raised;
      }
      outcomes := outcomes + [result.value == Pass];
      i := i + 1;
    }
    var passed, failed := ScenarioRuns.Tally(outcomes);
    r := Done(ScenarioRuns.ExitCode(failed));
    assert (forall j | 0 <= j < |files| :: run(files[j]) == Done(Pass)) <==>
           (forall f | f in files :: run(f) == Done(Pass));
  }

  /** `main()`: the selection (corrected filter; exit 1 when empty), the
      server start (exit 1 when it is not ready in time; `started` says
      whether it was), and the run. */
  method RunValidation(dec: Decoder, only: Option<int>, noServer: bool, started: bool,
                       scenarios: seq<DataFiles.File>, post: Json -> LocalReply) returns (r: Eval<int>)
    ensures r.Done? ==> r.value == 0 || r.value == 1
    ensures var chosen := ScenarioRuns.DiscoverExact(scenarios, only);
            r == Done(0) <==>
              && chosen.Some? && (noServer || started)
              && forall f | f in chosen.value :: RunScenario(dec, f, post) == Done(Pass)
  {
    var chosen := ScenarioRuns.DiscoverExact(scenarios, only);
    if chosen.None? || (!noServer && !started) {
      return Done(1);
    }
    r := ValidateAll(chosen.value, f => RunScenario(dec, f, post));
  }
}
