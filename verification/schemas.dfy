/** The JSON Schemas of app/schemas.py and the subset of JSON Schema
    (draft 2020-12, the default of `jsonschema.validate`) they use: `type`,
    `required`, `properties`, `items`, `enum`, `minimum`, `maximum`. The
    `format` keyword is an annotation there (no format checker is passed),
    so it constrains nothing and is not represented. */
module Schemas {
  import opened Wrappers
  import opened JsonValue

  datatype JType = TString | TNumber | TInteger | TObject | TArray | TNull | TBoolean

  /** One schema node; an empty `types` set means no `type` keyword. */
  datatype Schema = Schema(
    types: set<JType>,
    required: seq<string>,
    properties: map<string, Schema>,
    items: Option<Schema>,
    choices: Option<set<string>>,
    minimum: Option<real>,
    maximum: Option<real>)

  /** The type checker: a bool is neither a number nor an integer, and a
      float with an integral value is an integer. */
  predicate HasType(j: Json, t: JType) {
    match t
    case TString => j.Str?
    case TNumber => j.Int? || j.Float?
    case TInteger => j.Int? || (j.Float? && j.f.Floor as real == j.f)
    case TObject => j.Obj?
    case TArray => j.Arr?
    case TNull => j.Null?
    case TBoolean => j.Bool?
  }

  predicate TypeOk(j: Json, types: set<JType>) {
    types == {}
    || (TString in types && HasType(j, TString))
    || (TNumber in types && HasType(j, TNumber))
    || (TInteger in types && HasType(j, TInteger))
    || (TObject in types && HasType(j, TObject))
    || (TArray in types && HasType(j, TArray))
    || (TNull in types && HasType(j, TNull))
    || (TBoolean in types && HasType(j, TBoolean))
  }

  function NumberOf(j: Json): real
    requires j.Int? || j.Float?
  {
    if j.Int? then j.i as real else j.f
  }

  /** `jsonschema.validate(j, s)` raises no `ValidationError`. Object and
      array keywords only apply to objects and arrays, and bounds only to
      numbers. */
  predicate Conforms(j: Json, s: Schema)
    decreases s
  {
    && TypeOk(j, s.types)
    && (j.Obj? ==> forall k | k in s.required :: k in j.fields)
    && (j.Obj? ==> forall k | k in s.properties && k in j.fields :: Conforms(j.fields[k], s.properties[k]))
    && (j.Arr? && s.items.Some? ==> forall i | 0 <= i < |j.items| :: Conforms(j.items[i], s.items.value))
    && (s.choices.Some? ==> j.Str? && j.s in s.choices.value)
    && (s.minimum.Some? && (j.Int? || j.Float?) ==> s.minimum.value <= NumberOf(j))
    && (s.maximum.Some? && (j.Int? || j.Float?) ==> NumberOf(j) <= s.maximum.value)
  }

  // ---- building blocks -------------------------------------------------

  function Typed(types: set<JType>): Schema {
    Schema(types, [], map[], None, None, None, None)
  }

  function ObjectOf(required: seq<string>, properties: map<string, Schema>): Schema {
    Schema({TObject}, required, properties, None, None, None, None)
  }

  function ArrayOf(items: Schema): Schema {
    Schema({TArray}, [], map[], Some(items), None, None, None)
  }

  function OneOf(choices: set<string>): Schema {
    Schema({TString}, [], map[], None, Some(choices), None, None)
  }

  const StringS := Typed({TString})
  const StringOrNullS := Typed({TString, TNull})
  const IntegerS := Typed({TInteger})
  const StringsS := ArrayOf(StringS)

  // ---- INCIDENT_INPUT_SCHEMA ------------------------------------------

  const Severities: set<string> := {"SEV1", "SEV2", "SEV3", "SEV4"}

  const TimeframeS := ObjectOf(["start"], map["start" := StringS, "end" := StringOrNullS])
  const AlertS := ObjectOf([], map["name" := StringS, "description" := StringS, "timestamp" := StringS])
  const LogS := ObjectOf([], map["source" := StringS, "lines" := StringsS])
  const MetricS := ObjectOf([], map["name" := StringS, "window" := StringS, "values_summary" := StringS])
  const ConstraintsS := ObjectOf([], map["max_time_minutes" := IntegerS, "environment" := StringS, "region" := StringS])

  const IncidentSchema := ObjectOf(
    ["incident_id", "title", "severity", "timeframe"],
    map[
      "incident_id" := StringS,
      "title" := StringS,
      "severity" := OneOf(Severities),
      "timeframe" := TimeframeS,
      "alerts" := ArrayOf(AlertS),
      "logs" := ArrayOf(LogS),
      "metrics" := ArrayOf(MetricS),
      "runbook_excerpt" := StringS,
      "constraints" := ConstraintsS
    ])

  // ---- TRIAGE_OUTPUT_SCHEMA -------------------------------------------

  const Priorities: set<string> := {"P0", "P1", "P2", "P3"}

  const ConfidenceS := Schema({TNumber}, [], map[], None, None, Some(0.0), Some(1.0))
  const SummaryS := ObjectOf(["what_happened", "current_status"],
    map["what_happened" := StringS, "current_status" := StringS])
  const RootCauseS := ObjectOf(["hypothesis", "evidence", "confidence"],
    map["hypothesis" := StringS, "evidence" := StringsS, "confidence" := ConfidenceS])
  const ActionS := ObjectOf(["step", "owner_role", "priority"],
    map["step" := StringS, "owner_role" := StringS, "priority" := OneOf(Priorities)])
  const QuestionS := ObjectOf(["question", "why_it_matters"],
    map["question" := StringS, "why_it_matters" := StringS])
  const RunbookS := ObjectOf(["matched_steps", "gaps"],
    map["matched_steps" := StringsS, "gaps" := StringsS])
  const CommsS := ObjectOf(["slack_update", "stakeholder_update"],
    map["slack_update" := StringS, "stakeholder_update" := StringS])
  const TimelineEntryS := ObjectOf([], map["time" := StringS, "event" := StringS])
  const ReportS := ObjectOf(["timeline", "customer_impact", "prevention_actions"],
    map["timeline" := ArrayOf(TimelineEntryS), "customer_impact" := StringS, "prevention_actions" := StringsS])
  const TokensS := Schema({TObject, TNull}, [],
    map["prompt_tokens" := IntegerS, "completion_tokens" := IntegerS], None, None, None, None)
  const TelemetryS := ObjectOf(["correlation_id", "model_router_deployment"],
    map[
      "correlation_id" := StringS,
      "model_router_deployment" := StringS,
      "selected_model_if_available" := StringOrNullS,
      "tokens_if_available" := TokensS
    ])

  const TriageSchema := ObjectOf(
    ["summary", "suspected_root_causes", "immediate_actions", "missing_information",
     "runbook_alignment", "comms", "post_incident_report", "telemetry"],
    map[
      "summary" := SummaryS,
      "suspected_root_causes" := ArrayOf(RootCauseS),
      "immediate_actions" := ArrayOf(ActionS),
      "missing_information" := ArrayOf(QuestionS),
      "runbook_alignment" := RunbookS,
      "comms" := CommsS,
      "post_incident_report" := ReportS,
      "telemetry" := TelemetryS
    ])
}
