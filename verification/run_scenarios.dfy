/** The live scenario runner: every selected scenario file is sent to the
    hosted agent, the reply is judged (HTTP status, `error`, `status`, then
    the structure of the agent's output), and the run exits with status 1
    when any scenario failed. */
module RunScenarios {
  import opened Wrappers
  import opened JsonValue
  import PyText
  import DataFiles
  import BlobMerge
  import AgentRequest
  import Agents
  import Schemas
  import ScenarioRuns

  // ------------------------------------------------------------ validation

  /** One entry of `validate_output`'s issue list. The missing keys are
      printed in sorted order; the values are those the message shows. */
  datatype Issue =
    | NotJson
    | MissingKeys(keys: set<string>)
    | BadConfidence(index: nat, value: Json)
    | BadPriority(index: nat, value: Json)

  /** Checking root cause `i`: an issue when its confidence is outside
      [0, 1]; comparing a non-number raises. */
  function ConfidenceCheck(i: nat, rc: Fields): (r: Eval<seq<Issue>>)
    ensures r.Done? <==> NumericValue(ScenarioRuns.Confidence(rc)).Some?
    ensures r.Done? ==> r.value == [] || r.value == [BadConfidence(i, ScenarioRuns.Confidence(rc))]
    ensures r.Done? ==> (r.value == [] <==> 0.0 <= NumericValue(ScenarioRuns.Confidence(rc)).value <= 1.0)
  {
    var ok :- Between01(ScenarioRuns.Confidence(rc));
    Done(if ok then [] else [BadConfidence(i, ScenarioRuns.Confidence(rc))])
  }

  /** Checking action `i`: an issue when its priority is not one of
      P0 to P3; a list or dict priority is unhashable and raises. */
  function PriorityCheck(i: nat, act: Fields): (r: Eval<seq<Issue>>)
    ensures r.Done? <==> !(ScenarioRuns.Priority(act).Arr? || ScenarioRuns.Priority(act).Obj?)
    ensures r.Done? ==> r.value == [] || r.value == [BadPriority(i, ScenarioRuns.Priority(act))]
    ensures r.Done? ==> (r.value == [] <==> ScenarioRuns.Priority(act).Str? && ScenarioRuns.Priority(act).s in Schemas.Priorities)
  {
    var ok :- InStrings(ScenarioRuns.Priority(act), Schemas.Priorities);
    Done(if ok then [] else [BadPriority(i, ScenarioRuns.Priority(act))])
  }

  /** The root-cause loop: it only ever reports confidences. */
  function CauseIssues(data: Json): (r: Eval<seq<Issue>>)
    ensures r.Done? ==> forall x | x in r.value :: x.BadConfidence?
  {
    ScenarioRuns.Listed(data, "suspected_root_causes", ConfidenceCheck)
  }

  /** The action loop: it only ever reports priorities. */
  function ActionIssues(data: Json): (r: Eval<seq<Issue>>)
    ensures r.Done? ==> forall x | x in r.value :: x.BadPriority?
  {
    ScenarioRuns.Listed(data, "immediate_actions", PriorityCheck)
  }

  /** `{k for k in keys if k in data}` */
  function Present(keys: set<string>, data: Json): (r: Eval<set<string>>)
    ensures r.Done? <==> data.Obj? || data.Arr? || data.Str?
    ensures r.Done? ==> r.value <= keys
    ensures r.Done? && data.Obj? ==> r.value == keys * data.fields.Keys
  {
    if data.Obj? || data.Arr? || data.Str? then
      Done(set k | k in keys && In(k, data) == Done(true))
    else Raised
  }

  /** The issues of `validate_output` after `json.loads` succeeded, for
      the given expected keys. */
  function Issues(keys: set<string>, data: Json): (r: Eval<seq<Issue>>)
    ensures r.Done? ==> NotJson !in r.value
  {
    var present :- Present(keys, data);
    var missing := keys - present;
    var causes :- CauseIssues(data);
    var actions :- ActionIssues(data);
    Done((if missing != {} then [MissingKeys(missing)] else []) + causes + actions)
  }

  /** `validate_output` after `json.loads` succeeded. */
  function ValidateData(data: Json): Eval<seq<Issue>> {
    Issues(Agents.ExpectedKeys, data)
  }

  /** `validate_output(text)` */
  function ValidateText(dec: Decoder, text: string): (r: Eval<seq<Issue>>)
    ensures r == Done([NotJson]) <==> Loads(dec, text).None?
  {
    match Loads(dec, text)
    case None => Done([NotJson])
    case Some(data) => ValidateData(data)
  }

  /** The keys check: for a dict, a single issue, first in the list,
      naming exactly the expected keys it lacks, and none when it has them
      all. */
  lemma MissingKeysReported(keys: set<string>, data: Json)
    requires data.Obj? && Issues(keys, data).Done?
    ensures var issues := Issues(keys, data).value;
            && (keys <= data.fields.Keys <==> forall x | x in issues :: !x.MissingKeys?)
            && (!(keys <= data.fields.Keys) ==>
                  issues[0] == MissingKeys(keys - data.fields.Keys)
                  && forall j | 0 < j < |issues| :: !issues[j].MissingKeys?)
  {
    var missing := keys - Present(keys, data).value;
    assert missing == keys - data.fields.Keys;
    var causes := CauseIssues(data).value;
    var actions := ActionIssues(data).value;
    var issues := Issues(keys, data).value;
    assert issues == (if missing != {} then [MissingKeys(missing)] else []) + causes + actions;
    assert forall x: Issue | x in causes + actions :: !x.MissingKeys?;
    if missing != {} {
      assert !(keys <= data.fields.Keys);
      assert issues[0] == MissingKeys(missing) && issues[0] in issues;
      assert forall j | 0 < j < |issues| :: issues[j] == (causes + actions)[j - 1];
      assert forall j | 0 < j < |issues| :: issues[j] in causes + actions;
    } else {
      forall k | k in keys
        ensures k in data.fields.Keys
      {
        assert k !in missing;
      }
      assert issues == causes + actions;
    }
  }

  /** Root cause `i` of a listed dict is reported exactly when its
      confidence, or -1 when it has none, lies outside [0, 1], and the issue
      carries that value. */
  lemma ConfidenceIssuesExact(keys: set<string>, data: Json, i: nat, v: Json)
    requires data.Obj? && "suspected_root_causes" in data.fields
    requires var list := data.fields["suspected_root_causes"];
             list.Arr? && forall j | 0 <= j < |list.items| :: list.items[j].Obj?
    requires Issues(keys, data).Done?
    ensures var list := data.fields["suspected_root_causes"].items;
            BadConfidence(i, v) in Issues(keys, data).value <==>
              && i < |list|
              && v == ScenarioRuns.Confidence(list[i].fields)
              && !(0.0 <= NumericValue(v).value <= 1.0)
  {
    var list := data.fields["suspected_root_causes"].items;
    var recs := Records(Arr(list)).value;
    var causes := ScenarioRuns.Collect(recs, ConfidenceCheck, 0);
    assert causes.Done?;
    var actions := ActionIssues(data).value;
    if BadConfidence(i, v) in causes.value {
      var j :| 0 <= j < |recs| && ConfidenceCheck(j, recs[j]).Done? && BadConfidence(i, v) in ConfidenceCheck(j, recs[j]).value;
      assert list[j].fields == recs[j];
    }
    if i < |list| && v == ScenarioRuns.Confidence(list[i].fields) && !(0.0 <= NumericValue(v).value <= 1.0) {
      assert list[i].fields == recs[i];
      assert BadConfidence(i, v) in ConfidenceCheck(i, recs[i]).value;
    }
  }

  /** Action `i` of a listed dict is reported exactly when its priority,
      or None when it has none, is not one of P0 to P3. */
  lemma PriorityIssuesExact(keys: set<string>, data: Json, i: nat, v: Json)
    requires data.Obj? && "immediate_actions" in data.fields
    requires var list := data.fields["immediate_actions"];
             list.Arr? && forall j | 0 <= j < |list.items| :: list.items[j].Obj?
    requires Issues(keys, data).Done?
    ensures var list := data.fields["immediate_actions"].items;
            BadPriority(i, v) in Issues(keys, data).value <==>
              && i < |list|
              && v == ScenarioRuns.Priority(list[i].fields)
              && !(v.Str? && v.s in Schemas.Priorities)
  {
    var list := data.fields["immediate_actions"].items;
    var recs := Records(Arr(list)).value;
    var actions := ScenarioRuns.Collect(recs, PriorityCheck, 0);
    assert actions.Done?;
    var causes := CauseIssues(data).value;
    if BadPriority(i, v) in actions.value {
      var j :| 0 <= j < |recs| && PriorityCheck(j, recs[j]).Done? && BadPriority(i, v) in PriorityCheck(j, recs[j]).value;
      assert list[j].fields == recs[j];
    }
    if i < |list| && v == ScenarioRuns.Priority(list[i].fields) && !(v.Str? && v.s in Schemas.Priorities) {
      assert list[i].fields == recs[i];
      assert BadPriority(i, v) in PriorityCheck(i, recs[i]).value;
    }
  }

  // ------------------------------------------------- what gets validated

  /** `all_text`: the texts of all content parts joined, unstripped. */
  function Joined(texts: seq<string>): (r: string)
    ensures |texts| == 1 ==> r == texts[0]
  {
    if |texts| == 0 then "" else Joined(texts[..|texts| - 1]) + texts[|texts| - 1]
  }

  /** As written, `validate_output` parses the joined texts as one JSON
      document. */
  function CheckReplyAsWritten(dec: Decoder, texts: seq<string>): (r: Eval<seq<Issue>>)
    ensures r == Done([NotJson]) <==> Loads(dec, Joined(texts)).None?
  {
    ValidateText(dec, Joined(texts))
  }

  /** The agent's reply holds the four specialists' objects back to back,
      which `json.loads` rejects as extra data: as written, such a reply
      is always "not valid JSON", whatever the objects hold. */
  lemma BlobRejectedAsWritten(dec: Decoder, a: string, b: string, first: Fields)
    requires |a| > 0 && |b| > 0 && !IsJsonWs(a[0]) && !IsJsonWs(b[0])
    requires dec(a + b) == Some((Obj(first), |a|))
    ensures CheckReplyAsWritten(dec, [a + b]) == Done([NotJson])
  {
    var t := a + b;
    assert t[0] == a[0];
    assert SkipJsonWs(t, 0) == 0;
    assert t[0..] == t;
    assert t[|a|] == b[0];
    assert SkipJsonWs(t, |a|) == |a|;
  }

  /** The corrected check: the reply is merged as the UI server and the
      command-line invoker merge it, and the merged object is validated. */
  function CheckReply(dec: Decoder, texts: seq<string>): (r: Eval<seq<Issue>>)
    ensures r.Done? ==> NotJson !in r.value
  {
    ValidateData(Obj(BlobMerge.MergeTexts(dec, BlobMerge.StripAll(texts), map[])))
  }

  /** The walk of a part holding two objects back to back reads both and
      stops at the end of the text. */
  lemma WalkOfTwo(dec: Decoder, a: string, b: string, first: Fields, second: Fields)
    requires |a| > 0 && |b| > 0 && !IsJsonWs(a[0]) && !IsJsonWs(b[0])
    requires dec(a + b) == Some((Obj(first), |a|)) && dec(b) == Some((Obj(second), |b|))
    ensures BlobMerge.Walk(dec, a + b, map[]) == first + second
  {
    var t := a + b;
    assert t[0] == a[0] && t[0..] == t;
    assert t[|a|..] == b;
    assert BlobMerge.Next(dec, t) == Some((Obj(first), b));
    BlobMerge.WalkStep(dec, t, map[], Obj(first), b);
    assert BlobMerge.Absorb(map[], Obj(first)) == first;
    assert b[0..] == b;
    assert BlobMerge.Next(dec, b) == Some((Obj(second), []));
    BlobMerge.WalkStep(dec, b, first, Obj(second), []);
  }

  /** A part whose ends are not whitespace is walked as it is. */
  lemma MergeOfOne(dec: Decoder, t: string)
    requires |t| > 0 && !PyText.IsSpace(t[0]) && !PyText.IsSpace(t[|t| - 1])
    ensures BlobMerge.MergeTexts(dec, BlobMerge.StripAll([t]), map[]) == BlobMerge.Walk(dec, t, map[])
  {
    PyText.StripPadded("", t, "");
    assert "" + t + "" == t;
    assert BlobMerge.StripAll([t]) == [t];
    assert [t][1..] == [];
  }

  /** The merge of a part holding two objects back to back is their union,
      the later object winning on a shared key. */
  lemma MergeOfTwo(dec: Decoder, a: string, b: string, first: Fields, second: Fields)
    requires |a| > 0 && |b| > 0 && !IsJsonWs(a[0]) && !IsJsonWs(b[0])
    requires !PyText.IsSpace(a[0]) && !PyText.IsSpace(b[|b| - 1])
    requires dec(a + b) == Some((Obj(first), |a|)) && dec(b) == Some((Obj(second), |b|))
    ensures BlobMerge.MergeTexts(dec, BlobMerge.StripAll([a + b]), map[]) == first + second
  {
    var t := a + b;
    assert t[0] == a[0] && t[|t| - 1] == b[|b| - 1];
    MergeOfOne(dec, t);
    WalkOfTwo(dec, a, b, first, second);
  }

  /** With the corrected check, the same back-to-back reply is judged on
      the union of its objects, the later object winning on a shared key. */
  lemma BlobMergedWhenCorrected(dec: Decoder, a: string, b: string, first: Fields, second: Fields)
    requires |a| > 0 && |b| > 0 && !IsJsonWs(a[0]) && !IsJsonWs(b[0])
    requires !PyText.IsSpace(a[0]) && !PyText.IsSpace(b[|b| - 1])
    requires dec(a + b) == Some((Obj(first), |a|)) && dec(b) == Some((Obj(second), |b|))
    ensures CheckReply(dec, [a + b]) == ValidateData(Obj(first + second))
  {
    MergeOfTwo(dec, a, b, first, second);
  }

  // ------------------------------------------------------------- one run

  /** Why a scenario failed. */
  datatype Failure =
    | Timeout
    | NoReply
    | HttpError(code: int)
    | ApiError
    | NotCompleted(status: Json)
    | Invalid(issues: seq<Issue>)

  /** A scenario's result; `LoginRequired` is the `az` failure on which the
      whole script exits with status 1. */
  datatype Run = Passed | Failed(why: Failure) | LoginRequired

  /** The decision on a reply that decoded, in the order the script makes
      it: HTTP status, `error`, `status`, then the output's structure. */
  function Judge(dec: Decoder, status: int, d: Json): (r: Eval<Run>)
    ensures r.Done? ==> !r.value.LoginRequired?
    ensures r == Done(Failed(ApiError)) ==>
              status == 200 && d.Obj? && "error" in d.fields && Truthy(d.fields["error"])
    ensures (r.Done? && r.value.Failed? && r.value.why.NotCompleted?) ==>
              && status == 200 && d.Obj?
              && r.value.why.status != Str("completed")
              && r.value.why.status == (if "status" in d.fields then d.fields["status"] else Null)
  {
    if status != 200 then Done(Failed(HttpError(status)))
    else
      var err :- Get(d, "error", Null);
      if Truthy(err) then
        var _ :- Get(err, "message", Str("unknown error"));
        Done(Failed(ApiError))
      else
        // `d` is a dict here: reading `error` succeeded.
        var state := if "status" in d.fields then d.fields["status"] else Null;
        if state != Str("completed") then Done(Failed(NotCompleted(state)))
        else
          var texts :- BlobMerge.PartTexts(d);
          var issues :- CheckReply(dec, texts);
          Done(if issues == [] then Passed else Failed(Invalid(issues)))
  }

  /** The checks come in a fixed order: a status other than 200 fails
      whatever the body holds; an `error` fails before the status field is
      read; a scenario passes exactly when all four checks pass. */
  lemma JudgeOrder(dec: Decoder, status: int, d: Json)
    ensures status != 200 ==> Judge(dec, status, d) == Done(Failed(HttpError(status)))
    ensures status == 200 && d.Obj? && "error" in d.fields && d.fields["error"].Obj? && Truthy(d.fields["error"])
            ==> Judge(dec, status, d) == Done(Failed(ApiError))
    ensures Judge(dec, status, d) == Done(Passed) <==>
              && status == 200 && d.Obj?
              && !("error" in d.fields && Truthy(d.fields["error"]))
              && "status" in d.fields && d.fields["status"] == Str("completed")
              && BlobMerge.PartTexts(d).Done?
              && CheckReply(dec, BlobMerge.PartTexts(d).value) == Done([])
  {
  }

  /** `run_scenario(file, endpoint, agent_name, agent_version)`. `dumps`
      is `json.dumps`, `token` the `az` token, `send` the HTTP call. The
      file is read and its `incident_id` looked up before the token is
      fetched; a reply that is not JSON fails on status alone when the
      status is not 200, and otherwise raises. */
  function RunScenario(dec: Decoder, dumps: Json -> string, s: AgentRequest.Settings, f: DataFiles.File,
                       token: Option<string>, send: (string, Json) -> AgentRequest.Transport): (r: Eval<Run>)
    ensures r.Done? ==> DataFiles.Parse(dec, f).Some? && DataFiles.Parse(dec, f).value.Obj?
    ensures r == Done(LoginRequired) <==> token.None? && DataFiles.Parse(dec, f).Some? && DataFiles.Parse(dec, f).value.Obj?
  {
    match DataFiles.Parse(dec, f)
    case None => Raised
    case Some(payload) =>
      var _ :- Get(payload, "incident_id", Str(DataFiles.JsonStem(f.name)));
      if token.None? then Done(LoginRequired)
      else
        var body := AgentRequest.RequestBody(s.name, s.version, dumps(payload));
        match send(AgentRequest.ResponsesUrl(s.endpoint), body)
        case TimedOut => Done(Failed(Timeout))
        case Broken => Done(Failed(NoReply))
        case Unparsed(status) => if status != 200 then Done(Failed(HttpError(status))) else Raised
        case Replied(status, d) => Judge(dec, status, d)
  }

  /** The request carries the scenario's JSON text verbatim, without the
      instruction prefix the command-line invoker adds. */
  lemma ScenarioSentVerbatim(dumps: Json -> string, s: AgentRequest.Settings, payload: Json)
    ensures AgentRequest.SentMessage(AgentRequest.RequestBody(s.name, s.version, dumps(payload))) == Some(dumps(payload))
  {
    AgentRequest.RequestRoundTrip(s.name, s.version, dumps(payload));
  }

  // ------------------------------------------------------------- the run

  /** The loop of `main()` over the selected files, each run by `run`,
      and its exit status: 1 as soon as the token is missing, 1 when any
      scenario failed, 0 when every one passed; Raised where a scenario
      raises. */
  method RunAll(files: seq<DataFiles.File>, run: DataFiles.File -> Eval<Run>) returns (r: Eval<int>)
    ensures r.Done? ==> r.value == 0 || r.value == 1
    ensures r == Done(0) <==> forall f | f in files :: run(f) == Done(Passed)
  {
    var outcomes: seq<bool> := [];
    var i := 0;
    while i < |files|
      invariant 0 <= i <= |files|
      invariant |outcomes| == i
      invariant forall j | 0 <= j < i :: outcomes[j] <==> run(files[j]) == Done(Passed)
    {
      var result := run(files[i]);
      if result.Raised? {
        return Raised;
      }
      if result.value == LoginRequired {
        return Done(1);
      }
      outcomes := outcomes + [result.value == Passed];
      i := i + 1;
    }
    var passed, failed := ScenarioRuns.Tally(outcomes);
    r := Done(ScenarioRuns.ExitCode(failed));
    assert (forall j | 0 <= j < |files| :: run(files[j]) == Done(Passed)) <==>
           (forall f | f in files :: run(f) == Done(Passed));
  }

  /** What `main()` settles before the first scenario: the settings and
      the selected files (with the corrected filter), None where it exits
      with status 1 for want of an endpoint or of a matching file. */
  function Prepare(env: AgentRequest.Env, only: Option<int>, scenarios: seq<DataFiles.File>)
    : (r: Option<(AgentRequest.Settings, seq<DataFiles.File>)>)
    ensures r.None? <==> AgentRequest.GetConfig(env).None? || ScenarioRuns.DiscoverExact(scenarios, only).None?
    ensures r.Some? ==> r.value.0 == AgentRequest.GetConfig(env).value
                        && r.value.1 == ScenarioRuns.DiscoverExact(scenarios, only).value
  {
    var s :- AgentRequest.GetConfig(env);
    var files :- ScenarioRuns.DiscoverExact(scenarios, only);
    Some((s, files))
  }

  /** `main()` without `--list`: the exit status, Raised where a scenario
      raises. It is 0 exactly when there is an endpoint, the selection is
      not empty, and every selected scenario passed. */
  method Session(dec: Decoder, dumps: Json -> string, env: AgentRequest.Env, only: Option<int>,
                 scenarios: seq<DataFiles.File>, token: Option<string>,
                 send: (string, Json) -> AgentRequest.Transport) returns (r: Eval<int>)
    ensures r.Done? ==> r.value == 0 || r.value == 1
    ensures var p := Prepare(env, only, scenarios);
            r == Done(0) <==>
              p.Some? && forall f | f in p.value.1 :: RunScenario(dec, dumps, p.value.0, f, token, send) == Done(Passed)
  {
    var p := Prepare(env, only, scenarios);
    if p.None? {
      return Done(1);
    }
    var (s, files) := p.value;
    r := RunAll(files, f => RunScenario(dec, dumps, s, f, token, send));
  }
}
