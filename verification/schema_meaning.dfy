/** What the two schemas of app/schemas.py demand, written out field by
    field as plain predicates, and the proof that the schema interpreter
    accepts exactly the documents these predicates describe. */
module SchemaMeaning {
  import opened Wrappers
  import opened JsonValue
  import opened Schemas

  /** A property that, when present, conforms to its sub-schema. */
  predicate FieldOk(m: Fields, k: string, s: Schema) {
    k in m ==> Conforms(m[k], s)
  }

  predicate OptString(m: Fields, k: string) {
    k in m ==> m[k].Str?
  }

  predicate IsStrings(j: Json) {
    j.Arr? && forall i | 0 <= i < |j.items| :: j.items[i].Str?
  }

  predicate OptStrings(m: Fields, k: string) {
    k in m ==> IsStrings(m[k])
  }

  /** An `int` (not a `bool`), or a `float` with an integral value. */
  predicate IsIntegral(j: Json) {
    j.Int? || (j.Float? && j.f.Floor as real == j.f)
  }

  predicate TwoStrings(j: Json, a: string, b: string) {
    j.Obj? && a in j.fields && j.fields[a].Str? && b in j.fields && j.fields[b].Str?
  }

  // ---- incident input ---------------------------------------------------

  predicate TimeframeOk(j: Json) {
    && j.Obj?
    && "start" in j.fields && j.fields["start"].Str?
    && ("end" in j.fields ==> j.fields["end"].Str? || j.fields["end"].Null?)
  }

  predicate AlertOk(j: Json) {
    j.Obj? && OptString(j.fields, "name") && OptString(j.fields, "description") && OptString(j.fields, "timestamp")
  }

  predicate LogOk(j: Json) {
    j.Obj? && OptString(j.fields, "source") && OptStrings(j.fields, "lines")
  }

  predicate MetricOk(j: Json) {
    j.Obj? && OptString(j.fields, "name") && OptString(j.fields, "window") && OptString(j.fields, "values_summary")
  }

  predicate ConstraintsOk(j: Json) {
    && j.Obj?
    && ("max_time_minutes" in j.fields ==> IsIntegral(j.fields["max_time_minutes"]))
    && OptString(j.fields, "environment")
    && OptString(j.fields, "region")
  }

  predicate AllAlerts(j: Json) {
    j.Arr? && forall i | 0 <= i < |j.items| :: AlertOk(j.items[i])
  }

  predicate AllLogs(j: Json) {
    j.Arr? && forall i | 0 <= i < |j.items| :: LogOk(j.items[i])
  }

  predicate AllMetrics(j: Json) {
    j.Arr? && forall i | 0 <= i < |j.items| :: MetricOk(j.items[i])
  }

  /** A valid incident: the four required fields with their types, a
      severity among SEV1..SEV4, a timeframe with a start, and every
      optional field, when present, of its declared shape. */
  predicate ValidIncident(j: Json) {
    && j.Obj?
    && "incident_id" in j.fields && j.fields["incident_id"].Str?
    && "title" in j.fields && j.fields["title"].Str?
    && "severity" in j.fields && j.fields["severity"].Str? && j.fields["severity"].s in Severities
    && "timeframe" in j.fields && TimeframeOk(j.fields["timeframe"])
    && ("alerts" in j.fields ==> AllAlerts(j.fields["alerts"]))
    && ("logs" in j.fields ==> AllLogs(j.fields["logs"]))
    && ("metrics" in j.fields ==> AllMetrics(j.fields["metrics"]))
    && OptString(j.fields, "runbook_excerpt")
    && ("constraints" in j.fields ==> ConstraintsOk(j.fields["constraints"]))
  }

  // ---- triage output ----------------------------------------------------

  predicate SummaryOk(j: Json) {
    TwoStrings(j, "what_happened", "current_status")
  }

  predicate CommsOk(j: Json) {
    TwoStrings(j, "slack_update", "stakeholder_update")
  }

  predicate QuestionOk(j: Json) {
    TwoStrings(j, "question", "why_it_matters")
  }

  /** A number in [0, 1], bounds included; a bool is not a number. */
  predicate ConfidenceOk(c: Json) {
    (c.Int? && 0 <= c.i <= 1) || (c.Float? && 0.0 <= c.f <= 1.0)
  }

  predicate RootCauseOk(j: Json) {
    && j.Obj?
    && "hypothesis" in j.fields && j.fields["hypothesis"].Str?
    && "evidence" in j.fields && IsStrings(j.fields["evidence"])
    && "confidence" in j.fields && ConfidenceOk(j.fields["confidence"])
  }

  predicate ActionOk(j: Json) {
    && j.Obj?
    && "step" in j.fields && j.fields["step"].Str?
    && "owner_role" in j.fields && j.fields["owner_role"].Str?
    && "priority" in j.fields && j.fields["priority"].Str? && j.fields["priority"].s in Priorities
  }

  predicate TimelineEntryOk(j: Json) {
    j.Obj? && OptString(j.fields, "time") && OptString(j.fields, "event")
  }

  predicate AllTimeline(j: Json) {
    j.Arr? && forall i | 0 <= i < |j.items| :: TimelineEntryOk(j.items[i])
  }

  predicate RunbookOk(j: Json) {
    && j.Obj?
    && "matched_steps" in j.fields && IsStrings(j.fields["matched_steps"])
    && "gaps" in j.fields && IsStrings(j.fields["gaps"])
  }

  predicate ReportOk(j: Json) {
    && j.Obj?
    && "timeline" in j.fields && AllTimeline(j.fields["timeline"])
    && "customer_impact" in j.fields && j.fields["customer_impact"].Str?
    && "prevention_actions" in j.fields && IsStrings(j.fields["prevention_actions"])
  }

  /** `null`, or an object whose token counts, when present, are integers. */
  predicate TokensOk(j: Json) {
    || j.Null?
    || (&& j.Obj?
        && ("prompt_tokens" in j.fields ==> IsIntegral(j.fields["prompt_tokens"]))
        && ("completion_tokens" in j.fields ==> IsIntegral(j.fields["completion_tokens"])))
  }

  predicate TelemetryOk(j: Json) {
    && TwoStrings(j, "correlation_id", "model_router_deployment")
    && ("selected_model_if_available" in j.fields ==>
          j.fields["selected_model_if_available"].Str? || j.fields["selected_model_if_available"].Null?)
    && ("tokens_if_available" in j.fields ==> TokensOk(j.fields["tokens_if_available"]))
  }

  predicate AllRootCauses(j: Json) {
    j.Arr? && forall i | 0 <= i < |j.items| :: RootCauseOk(j.items[i])
  }

  predicate AllActions(j: Json) {
    j.Arr? && forall i | 0 <= i < |j.items| :: ActionOk(j.items[i])
  }

  predicate AllQuestions(j: Json) {
    j.Arr? && forall i | 0 <= i < |j.items| :: QuestionOk(j.items[i])
  }

  /** A valid triage output: all eight sections present, each of its
      declared shape. */
  predicate ValidTriage(j: Json) {
    && j.Obj?
    && "summary" in j.fields && SummaryOk(j.fields["summary"])
    && "suspected_root_causes" in j.fields && AllRootCauses(j.fields["suspected_root_causes"])
    && "immediate_actions" in j.fields && AllActions(j.fields["immediate_actions"])
    && "missing_information" in j.fields && AllQuestions(j.fields["missing_information"])
    && "runbook_alignment" in j.fields && RunbookOk(j.fields["runbook_alignment"])
    && "comms" in j.fields && CommsOk(j.fields["comms"])
    && "post_incident_report" in j.fields && ReportOk(j.fields["post_incident_report"])
    && "telemetry" in j.fields && TelemetryOk(j.fields["telemetry"])
  }

  /** An object conforms to an object schema as soon as its required keys
      are present and its properties conform. */
  lemma ObjectConforms(j: Json, s: Schema)
    requires j.Obj? && TObject in s.types
    requires s.items.None? && s.choices.None? && s.minimum.None? && s.maximum.None?
    requires forall k | k in s.required :: k in j.fields
    requires forall k | k in s.properties && k in j.fields :: Conforms(j.fields[k], s.properties[k])
    ensures Conforms(j, s)
  {
  }

  /** One property of a conforming object conforms to its schema. */
  lemma FieldOf(j: Json, s: Schema, k: string)
    requires Conforms(j, s) && j.Obj? && k in s.properties
    ensures FieldOk(j.fields, k, s.properties[k])
  {
  }

  // ---- leaf schemas -----------------------------------------------------

  lemma StringMeaning(j: Json)
    ensures Conforms(j, StringS) <==> j.Str?
  {
  }

  lemma StringOrNullMeaning(j: Json)
    ensures Conforms(j, StringOrNullS) <==> j.Str? || j.Null?
  {
  }

  lemma IntegerMeaning(j: Json)
    ensures Conforms(j, IntegerS) <==> IsIntegral(j)
  {
  }

  lemma SeverityMeaning(j: Json)
    ensures Conforms(j, OneOf(Severities)) <==> j.Str? && j.s in Severities
  {
  }

  lemma PriorityMeaning(j: Json)
    ensures Conforms(j, OneOf(Priorities)) <==> j.Str? && j.s in Priorities
  {
  }

  lemma ConfidenceMeaning(j: Json)
    ensures Conforms(j, ConfidenceS) <==> ConfidenceOk(j)
  {
  }

  lemma {:induction false} StringsMeaning(j: Json)
    ensures Conforms(j, StringsS) <==> IsStrings(j)
  {
    if j.Arr? {
      forall i | 0 <= i < |j.items|
        ensures Conforms(j.items[i], StringS) <==> j.items[i].Str?
      {
        StringMeaning(j.items[i]);
      }
    }
  }

  // ---- object and array schemas -----------------------------------------

  lemma {:induction false} TimeframeFieldsOf(j: Json)
    requires Conforms(j, TimeframeS) && j.Obj?
    ensures FieldOk(j.fields, "start", StringS) &&
            FieldOk(j.fields, "end", StringOrNullS)
  {
    var p := TimeframeS.properties;
      assert FieldOk(j.fields, "start", StringS) by {
        if "start" in j.fields { assert "start" in p && p["start"] == StringS; }
      }
      assert FieldOk(j.fields, "end", StringOrNullS) by {
        if "end" in j.fields { assert "end" in p && p["end"] == StringOrNullS; }
      }
  }

  lemma {:induction false} TimeframeSound(j: Json)
    requires Conforms(j, TimeframeS)
    ensures TimeframeOk(j)
  {
    assert j.Obj?;
    assert "start" in TimeframeS.required;
    TimeframeFieldsOf(j);
    var m := j.fields;
    StringMeaning(m["start"]);
    if "end" in m { StringOrNullMeaning(m["end"]); }
  }

  lemma {:induction false} TimeframeComplete(j: Json)
    requires TimeframeOk(j)
    ensures Conforms(j, TimeframeS)
  {
    if j.Obj? {
      var m := j.fields;
      var p := TimeframeS.properties;
      forall k | k in p && k in m
        ensures Conforms(m[k], p[k])
      {
        if k == "start" {
          assert p[k] == StringS;
          StringMeaning(m[k]);
        }
        else if k == "end" {
          assert p[k] == StringOrNullS;
          StringOrNullMeaning(m[k]);
        }
      }
    }
  }

  lemma TimeframeMeaning(j: Json)
    ensures Conforms(j, TimeframeS) <==> TimeframeOk(j)
  {
    if Conforms(j, TimeframeS) {
      TimeframeSound(j);
    }
    if TimeframeOk(j) {
      TimeframeComplete(j);
    }
  }

  lemma {:induction false} AlertFieldsOf(j: Json)
    requires Conforms(j, AlertS) && j.Obj?
    ensures FieldOk(j.fields, "name", StringS) &&
            FieldOk(j.fields, "description", StringS) &&
            FieldOk(j.fields, "timestamp", StringS)
  {
    var p := AlertS.properties;
      assert FieldOk(j.fields, "name", StringS) by {
        if "name" in j.fields { assert "name" in p && p["name"] == StringS; }
      }
      assert FieldOk(j.fields, "description", StringS) by {
        if "description" in j.fields { assert "description" in p && p["description"] == StringS; }
      }
      assert FieldOk(j.fields, "timestamp", StringS) by {
        if "timestamp" in j.fields { assert "timestamp" in p && p["timestamp"] == StringS; }
      }
  }

  lemma {:induction false} AlertSound(j: Json)
    requires Conforms(j, AlertS)
    ensures AlertOk(j)
  {
    assert j.Obj?;
    AlertFieldsOf(j);
    var m := j.fields;
    if "name" in m { StringMeaning(m["name"]); }
    if "description" in m { StringMeaning(m["description"]); }
    if "timestamp" in m { StringMeaning(m["timestamp"]); }
  }

  lemma {:induction false} AlertComplete(j: Json)
    requires AlertOk(j)
    ensures Conforms(j, AlertS)
  {
    if j.Obj? {
      var m := j.fields;
      var p := AlertS.properties;
      forall k | k in p && k in m
        ensures Conforms(m[k], p[k])
      {
        if k == "name" {
          assert p[k] == StringS;
          StringMeaning(m[k]);
        }
        else if k == "description" {
          assert p[k] == StringS;
          StringMeaning(m[k]);
        }
        else if k == "timestamp" {
          assert p[k] == StringS;
          StringMeaning(m[k]);
        }
      }
    }
  }

  lemma AlertMeaning(j: Json)
    ensures Conforms(j, AlertS) <==> AlertOk(j)
  {
    if Conforms(j, AlertS) {
      AlertSound(j);
    }
    if AlertOk(j) {
      AlertComplete(j);
    }
  }

  lemma {:induction false} LogFieldsOf(j: Json)
    requires Conforms(j, LogS) && j.Obj?
    ensures FieldOk(j.fields, "source", StringS) &&
            FieldOk(j.fields, "lines", StringsS)
  {
    var p := LogS.properties;
      assert FieldOk(j.fields, "source", StringS) by {
        if "source" in j.fields { assert "source" in p && p["source"] == StringS; }
      }
      assert FieldOk(j.fields, "lines", StringsS) by {
        if "lines" in j.fields { assert "lines" in p && p["lines"] == StringsS; }
      }
  }

  lemma {:induction false} LogSound(j: Json)
    requires Conforms(j, LogS)
    ensures LogOk(j)
  {
    assert j.Obj?;
    LogFieldsOf(j);
    var m := j.fields;
    if "source" in m { StringMeaning(m["source"]); }
    if "lines" in m { StringsMeaning(m["lines"]); }
  }

  lemma {:induction false} LogComplete(j: Json)
    requires LogOk(j)
    ensures Conforms(j, LogS)
  {
    if j.Obj? {
      var m := j.fields;
      var p := LogS.properties;
      forall k | k in p && k in m
        ensures Conforms(m[k], p[k])
      {
        if k == "source" {
          assert p[k] == StringS;
          StringMeaning(m[k]);
        }
        else if k == "lines" {
          assert p[k] == StringsS;
          StringsMeaning(m[k]);
        }
      }
    }
  }

  lemma LogMeaning(j: Json)
    ensures Conforms(j, LogS) <==> LogOk(j)
  {
    if Conforms(j, LogS) {
      LogSound(j);
    }
    if LogOk(j) {
      LogComplete(j);
    }
  }

  lemma {:induction false} MetricFieldsOf(j: Json)
    requires Conforms(j, MetricS) && j.Obj?
    ensures FieldOk(j.fields, "name", StringS) &&
            FieldOk(j.fields, "window", StringS) &&
            FieldOk(j.fields, "values_summary", StringS)
  {
    var p := MetricS.properties;
      assert FieldOk(j.fields, "name", StringS) by {
        if "name" in j.fields { assert "name" in p && p["name"] == StringS; }
      }
      assert FieldOk(j.fields, "window", StringS) by {
        if "window" in j.fields { assert "window" in p && p["window"] == StringS; }
      }
      assert FieldOk(j.fields, "values_summary", StringS) by {
        if "values_summary" in j.fields { assert "values_summary" in p && p["values_summary"] == StringS; }
      }
  }

  lemma {:induction false} MetricSound(j: Json)
    requires Conforms(j, MetricS)
    ensures MetricOk(j)
  {
    assert j.Obj?;
    MetricFieldsOf(j);
    var m := j.fields;
    if "name" in m { StringMeaning(m["name"]); }
    if "window" in m { StringMeaning(m["window"]); }
    if "values_summary" in m { StringMeaning(m["values_summary"]); }
  }

  lemma {:induction false} MetricComplete(j: Json)
    requires MetricOk(j)
    ensures Conforms(j, MetricS)
  {
    if j.Obj? {
      var m := j.fields;
      var p := MetricS.properties;
      forall k | k in p && k in m
        ensures Conforms(m[k], p[k])
      {
        if k == "name" {
          assert p[k] == StringS;
          StringMeaning(m[k]);
        }
        else if k == "window" {
          assert p[k] == StringS;
          StringMeaning(m[k]);
        }
        else if k == "values_summary" {
          assert p[k] == StringS;
          StringMeaning(m[k]);
        }
      }
    }
  }

  lemma MetricMeaning(j: Json)
    ensures Conforms(j, MetricS) <==> MetricOk(j)
  {
    if Conforms(j, MetricS) {
      MetricSound(j);
    }
    if MetricOk(j) {
      MetricComplete(j);
    }
  }

  lemma {:induction false} ConstraintsFieldsOf(j: Json)
    requires Conforms(j, ConstraintsS) && j.Obj?
    ensures FieldOk(j.fields, "max_time_minutes", IntegerS) &&
            FieldOk(j.fields, "environment", StringS) &&
            FieldOk(j.fields, "region", StringS)
  {
    var p := ConstraintsS.properties;
      assert FieldOk(j.fields, "max_time_minutes", IntegerS) by {
        if "max_time_minutes" in j.fields { assert "max_time_minutes" in p && p["max_time_minutes"] == IntegerS; }
      }
      assert FieldOk(j.fields, "environment", StringS) by {
        if "environment" in j.fields { assert "environment" in p && p["environment"] == StringS; }
      }
      assert FieldOk(j.fields, "region", StringS) by {
        if "region" in j.fields { assert "region" in p && p["region"] == StringS; }
      }
  }

  lemma {:induction false} ConstraintsSound(j: Json)
    requires Conforms(j, ConstraintsS)
    ensures ConstraintsOk(j)
  {
    assert j.Obj?;
    ConstraintsFieldsOf(j);
    var m := j.fields;
    if "max_time_minutes" in m { IntegerMeaning(m["max_time_minutes"]); }
    if "environment" in m { StringMeaning(m["environment"]); }
    if "region" in m { StringMeaning(m["region"]); }
  }

  lemma {:induction false} ConstraintsComplete(j: Json)
    requires ConstraintsOk(j)
    ensures Conforms(j, ConstraintsS)
  {
    if j.Obj? {
      var m := j.fields;
      var p := ConstraintsS.properties;
      forall k | k in p && k in m
        ensures Conforms(m[k], p[k])
      {
        if k == "max_time_minutes" {
          assert p[k] == IntegerS;
          IntegerMeaning(m[k]);
        }
        else if k == "environment" {
          assert p[k] == StringS;
          StringMeaning(m[k]);
        }
        else if k == "region" {
          assert p[k] == StringS;
          StringMeaning(m[k]);
        }
      }
    }
  }

  lemma ConstraintsMeaning(j: Json)
    ensures Conforms(j, ConstraintsS) <==> ConstraintsOk(j)
  {
    if Conforms(j, ConstraintsS) {
      ConstraintsSound(j);
    }
    if ConstraintsOk(j) {
      ConstraintsComplete(j);
    }
  }

  lemma IncidentTable()
    ensures "incident_id" in IncidentSchema.properties && IncidentSchema.properties["incident_id"] == StringS
    ensures "title" in IncidentSchema.properties && IncidentSchema.properties["title"] == StringS
    ensures "severity" in IncidentSchema.properties && IncidentSchema.properties["severity"] == OneOf(Severities)
    ensures "timeframe" in IncidentSchema.properties && IncidentSchema.properties["timeframe"] == TimeframeS
    ensures "alerts" in IncidentSchema.properties && IncidentSchema.properties["alerts"] == ArrayOf(AlertS)
    ensures "logs" in IncidentSchema.properties && IncidentSchema.properties["logs"] == ArrayOf(LogS)
    ensures "metrics" in IncidentSchema.properties && IncidentSchema.properties["metrics"] == ArrayOf(MetricS)
    ensures "runbook_excerpt" in IncidentSchema.properties && IncidentSchema.properties["runbook_excerpt"] == StringS
    ensures "constraints" in IncidentSchema.properties && IncidentSchema.properties["constraints"] == ConstraintsS
  {
  }

  lemma {:induction false} IncidentSound(j: Json)
    requires Conforms(j, IncidentSchema)
    ensures ValidIncident(j)
  {
    assert j.Obj?;
    assert "incident_id" in IncidentSchema.required && "title" in IncidentSchema.required && "severity" in IncidentSchema.required && "timeframe" in IncidentSchema.required;
    IncidentTable();
    FieldOf(j, IncidentSchema, "incident_id");
    FieldOf(j, IncidentSchema, "title");
    FieldOf(j, IncidentSchema, "severity");
    FieldOf(j, IncidentSchema, "timeframe");
    FieldOf(j, IncidentSchema, "alerts");
    FieldOf(j, IncidentSchema, "logs");
    FieldOf(j, IncidentSchema, "metrics");
    FieldOf(j, IncidentSchema, "runbook_excerpt");
    FieldOf(j, IncidentSchema, "constraints");
    var m := j.fields;
    StringMeaning(m["incident_id"]);
    StringMeaning(m["title"]);
    SeverityMeaning(m["severity"]);
    TimeframeSound(m["timeframe"]);
    if "alerts" in m { AlertsSound(m["alerts"]); }
    if "logs" in m { LogsSound(m["logs"]); }
    if "metrics" in m { MetricsSound(m["metrics"]); }
    if "runbook_excerpt" in m { StringMeaning(m["runbook_excerpt"]); }
    if "constraints" in m { ConstraintsSound(m["constraints"]); }
  }

  /** A conforming incident has a string `incident_id`. */
  lemma IncidentIdOf(j: Json)
    requires Conforms(j, IncidentSchema)
    ensures j.Obj? && "incident_id" in j.fields && j.fields["incident_id"].Str?
  {
    assert "incident_id" in IncidentSchema.required;
    IncidentTable();
    FieldOf(j, IncidentSchema, "incident_id");
    StringMeaning(j.fields["incident_id"]);
  }

  lemma {:induction false} IncidentCompleteAt1(j: Json, k: string)
    requires ValidIncident(j) && k in j.fields && k in {"incident_id", "title", "severity", "timeframe"}
    ensures k in IncidentSchema.properties && Conforms(j.fields[k], IncidentSchema.properties[k])
  {
    var m := j.fields;
    var p := IncidentSchema.properties;
    if k == "incident_id" {
      assert p[k] == StringS;
      StringMeaning(m[k]);
    }
    else if k == "title" {
      assert p[k] == StringS;
      StringMeaning(m[k]);
    }
    else if k == "severity" {
      assert p[k] == OneOf(Severities);
      SeverityMeaning(m[k]);
    }
    else if k == "timeframe" {
      assert p[k] == TimeframeS;
      TimeframeComplete(m[k]);
    }
  }

  lemma {:induction false} IncidentCompleteAt2(j: Json, k: string)
    requires ValidIncident(j) && k in j.fields && k in {"alerts", "logs", "metrics", "runbook_excerpt", "constraints"}
    ensures k in IncidentSchema.properties && Conforms(j.fields[k], IncidentSchema.properties[k])
  {
    var m := j.fields;
    var p := IncidentSchema.properties;
    if k == "alerts" {
      assert p[k] == ArrayOf(AlertS);
      AlertsComplete(m[k]);
    }
    else if k == "logs" {
      assert p[k] == ArrayOf(LogS);
      LogsComplete(m[k]);
    }
    else if k == "metrics" {
      assert p[k] == ArrayOf(MetricS);
      MetricsComplete(m[k]);
    }
    else if k == "runbook_excerpt" {
      assert p[k] == StringS;
      StringMeaning(m[k]);
    }
    else if k == "constraints" {
      assert p[k] == ConstraintsS;
      ConstraintsComplete(m[k]);
    }
  }

  lemma {:induction false} IncidentRequiredPresent(j: Json)
    requires ValidIncident(j)
    ensures forall k | k in IncidentSchema.required :: k in j.fields
  {
  }

  lemma {:induction false} IncidentPropertiesConform(j: Json)
    requires ValidIncident(j)
    ensures forall k | k in IncidentSchema.properties && k in j.fields ::
              Conforms(j.fields[k], IncidentSchema.properties[k])
  {
    var m := j.fields;
    var p := IncidentSchema.properties;
    forall k | k in p && k in m
      ensures Conforms(m[k], p[k])
    {
      if k in {"incident_id", "title", "severity", "timeframe"} {
        IncidentCompleteAt1(j, k);
      } else {
        IncidentCompleteAt2(j, k);
      }
    }
  }

  lemma {:induction false} IncidentComplete(j: Json)
    requires ValidIncident(j)
    ensures Conforms(j, IncidentSchema)
  {
    IncidentRequiredPresent(j);
    IncidentPropertiesConform(j);
    ObjectConforms(j, IncidentSchema);
  }

  lemma IncidentMeaning(j: Json)
    ensures Conforms(j, IncidentSchema) <==> ValidIncident(j)
  {
    if Conforms(j, IncidentSchema) {
      IncidentSound(j);
    }
    if ValidIncident(j) {
      IncidentComplete(j);
    }
  }

  lemma {:induction false} SummaryFieldsOf(j: Json)
    requires Conforms(j, SummaryS) && j.Obj?
    ensures FieldOk(j.fields, "what_happened", StringS) &&
            FieldOk(j.fields, "current_status", StringS)
  {
    var p := SummaryS.properties;
      assert FieldOk(j.fields, "what_happened", StringS) by {
        if "what_happened" in j.fields { assert "what_happened" in p && p["what_happened"] == StringS; }
      }
      assert FieldOk(j.fields, "current_status", StringS) by {
        if "current_status" in j.fields { assert "current_status" in p && p["current_status"] == StringS; }
      }
  }

  lemma {:induction false} SummarySound(j: Json)
    requires Conforms(j, SummaryS)
    ensures SummaryOk(j)
  {
    assert j.Obj?;
    assert "what_happened" in SummaryS.required && "current_status" in SummaryS.required;
    SummaryFieldsOf(j);
    var m := j.fields;
    StringMeaning(m["what_happened"]);
    StringMeaning(m["current_status"]);
  }

  lemma {:induction false} SummaryComplete(j: Json)
    requires SummaryOk(j)
    ensures Conforms(j, SummaryS)
  {
    if j.Obj? {
      var m := j.fields;
      var p := SummaryS.properties;
      forall k | k in p && k in m
        ensures Conforms(m[k], p[k])
      {
        if k == "what_happened" {
          assert p[k] == StringS;
          StringMeaning(m[k]);
        }
        else if k == "current_status" {
          assert p[k] == StringS;
          StringMeaning(m[k]);
        }
      }
    }
  }

  lemma SummaryMeaning(j: Json)
    ensures Conforms(j, SummaryS) <==> SummaryOk(j)
  {
    if Conforms(j, SummaryS) {
      SummarySound(j);
    }
    if SummaryOk(j) {
      SummaryComplete(j);
    }
  }

  lemma {:induction false} CommsFieldsOf(j: Json)
    requires Conforms(j, CommsS) && j.Obj?
    ensures FieldOk(j.fields, "slack_update", StringS) &&
            FieldOk(j.fields, "stakeholder_update", StringS)
  {
    var p := CommsS.properties;
      assert FieldOk(j.fields, "slack_update", StringS) by {
        if "slack_update" in j.fields { assert "slack_update" in p && p["slack_update"] == StringS; }
      }
      assert FieldOk(j.fields, "stakeholder_update", StringS) by {
        if "stakeholder_update" in j.fields { assert "stakeholder_update" in p && p["stakeholder_update"] == StringS; }
      }
  }

  lemma {:induction false} CommsSound(j: Json)
    requires Conforms(j, CommsS)
    ensures CommsOk(j)
  {
    assert j.Obj?;
    assert "slack_update" in CommsS.required && "stakeholder_update" in CommsS.required;
    CommsFieldsOf(j);
    var m := j.fields;
    StringMeaning(m["slack_update"]);
    StringMeaning(m["stakeholder_update"]);
  }

  lemma {:induction false} CommsComplete(j: Json)
    requires CommsOk(j)
    ensures Conforms(j, CommsS)
  {
    if j.Obj? {
      var m := j.fields;
      var p := CommsS.properties;
      forall k | k in p && k in m
        ensures Conforms(m[k], p[k])
      {
        if k == "slack_update" {
          assert p[k] == StringS;
          StringMeaning(m[k]);
        }
        else if k == "stakeholder_update" {
          assert p[k] == StringS;
          StringMeaning(m[k]);
        }
      }
    }
  }

  lemma CommsMeaning(j: Json)
    ensures Conforms(j, CommsS) <==> CommsOk(j)
  {
    if Conforms(j, CommsS) {
      CommsSound(j);
    }
    if CommsOk(j) {
      CommsComplete(j);
    }
  }

  lemma {:induction false} QuestionFieldsOf(j: Json)
    requires Conforms(j, QuestionS) && j.Obj?
    ensures FieldOk(j.fields, "question", StringS) &&
            FieldOk(j.fields, "why_it_matters", StringS)
  {
    var p := QuestionS.properties;
      assert FieldOk(j.fields, "question", StringS) by {
        if "question" in j.fields { assert "question" in p && p["question"] == StringS; }
      }
      assert FieldOk(j.fields, "why_it_matters", StringS) by {
        if "why_it_matters" in j.fields { assert "why_it_matters" in p && p["why_it_matters"] == StringS; }
      }
  }

  lemma {:induction false} QuestionSound(j: Json)
    requires Conforms(j, QuestionS)
    ensures QuestionOk(j)
  {
    assert j.Obj?;
    assert "question" in QuestionS.required && "why_it_matters" in QuestionS.required;
    QuestionFieldsOf(j);
    var m := j.fields;
    StringMeaning(m["question"]);
    StringMeaning(m["why_it_matters"]);
  }

  lemma {:induction false} QuestionComplete(j: Json)
    requires QuestionOk(j)
    ensures Conforms(j, QuestionS)
  {
    if j.Obj? {
      var m := j.fields;
      var p := QuestionS.properties;
      forall k | k in p && k in m
        ensures Conforms(m[k], p[k])
      {
        if k == "question" {
          assert p[k] == StringS;
          StringMeaning(m[k]);
        }
        else if k == "why_it_matters" {
          assert p[k] == StringS;
          StringMeaning(m[k]);
        }
      }
    }
  }

  lemma QuestionMeaning(j: Json)
    ensures Conforms(j, QuestionS) <==> QuestionOk(j)
  {
    if Conforms(j, QuestionS) {
      QuestionSound(j);
    }
    if QuestionOk(j) {
      QuestionComplete(j);
    }
  }

  lemma {:induction false} RootCauseFieldsOf(j: Json)
    requires Conforms(j, RootCauseS) && j.Obj?
    ensures FieldOk(j.fields, "hypothesis", StringS) &&
            FieldOk(j.fields, "evidence", StringsS) &&
            FieldOk(j.fields, "confidence", ConfidenceS)
  {
    var p := RootCauseS.properties;
      assert FieldOk(j.fields, "hypothesis", StringS) by {
        if "hypothesis" in j.fields { assert "hypothesis" in p && p["hypothesis"] == StringS; }
      }
      assert FieldOk(j.fields, "evidence", StringsS) by {
        if "evidence" in j.fields { assert "evidence" in p && p["evidence"] == StringsS; }
      }
      assert FieldOk(j.fields, "confidence", ConfidenceS) by {
        if "confidence" in j.fields { assert "confidence" in p && p["confidence"] == ConfidenceS; }
      }
  }

  lemma {:induction false} RootCauseSound(j: Json)
    requires Conforms(j, RootCauseS)
    ensures RootCauseOk(j)
  {
    assert j.Obj?;
    assert "hypothesis" in RootCauseS.required && "evidence" in RootCauseS.required && "confidence" in RootCauseS.required;
    RootCauseFieldsOf(j);
    var m := j.fields;
    StringMeaning(m["hypothesis"]);
    StringsMeaning(m["evidence"]);
    ConfidenceMeaning(m["confidence"]);
  }

  lemma {:induction false} RootCauseComplete(j: Json)
    requires RootCauseOk(j)
    ensures Conforms(j, RootCauseS)
  {
    if j.Obj? {
      var m := j.fields;
      var p := RootCauseS.properties;
      forall k | k in p && k in m
        ensures Conforms(m[k], p[k])
      {
        if k == "hypothesis" {
          assert p[k] == StringS;
          StringMeaning(m[k]);
        }
        else if k == "evidence" {
          assert p[k] == StringsS;
          StringsMeaning(m[k]);
        }
        else if k == "confidence" {
          assert p[k] == ConfidenceS;
          ConfidenceMeaning(m[k]);
        }
      }
    }
  }

  lemma RootCauseMeaning(j: Json)
    ensures Conforms(j, RootCauseS) <==> RootCauseOk(j)
  {
    if Conforms(j, RootCauseS) {
      RootCauseSound(j);
    }
    if RootCauseOk(j) {
      RootCauseComplete(j);
    }
  }

  lemma {:induction false} ActionFieldsOf(j: Json)
    requires Conforms(j, ActionS) && j.Obj?
    ensures FieldOk(j.fields, "step", StringS) &&
            FieldOk(j.fields, "owner_role", StringS) &&
            FieldOk(j.fields, "priority", OneOf(Priorities))
  {
    var p := ActionS.properties;
      assert FieldOk(j.fields, "step", StringS) by {
        if "step" in j.fields { assert "step" in p && p["step"] == StringS; }
      }
      assert FieldOk(j.fields, "owner_role", StringS) by {
        if "owner_role" in j.fields { assert "owner_role" in p && p["owner_role"] == StringS; }
      }
      assert FieldOk(j.fields, "priority", OneOf(Priorities)) by {
        if "priority" in j.fields { assert "priority" in p && p["priority"] == OneOf(Priorities); }
      }
  }

  lemma {:induction false} ActionSound(j: Json)
    requires Conforms(j, ActionS)
    ensures ActionOk(j)
  {
    assert j.Obj?;
    assert "step" in ActionS.required && "owner_role" in ActionS.required && "priority" in ActionS.required;
    ActionFieldsOf(j);
    var m := j.fields;
    StringMeaning(m["step"]);
    StringMeaning(m["owner_role"]);
    PriorityMeaning(m["priority"]);
  }

  lemma {:induction false} ActionComplete(j: Json)
    requires ActionOk(j)
    ensures Conforms(j, ActionS)
  {
    if j.Obj? {
      var m := j.fields;
      var p := ActionS.properties;
      forall k | k in p && k in m
        ensures Conforms(m[k], p[k])
      {
        if k == "step" {
          assert p[k] == StringS;
          StringMeaning(m[k]);
        }
        else if k == "owner_role" {
          assert p[k] == StringS;
          StringMeaning(m[k]);
        }
        else if k == "priority" {
          assert p[k] == OneOf(Priorities);
          PriorityMeaning(m[k]);
        }
      }
    }
  }

  lemma ActionMeaning(j: Json)
    ensures Conforms(j, ActionS) <==> ActionOk(j)
  {
    if Conforms(j, ActionS) {
      ActionSound(j);
    }
    if ActionOk(j) {
      ActionComplete(j);
    }
  }

  lemma {:induction false} TimelineEntryFieldsOf(j: Json)
    requires Conforms(j, TimelineEntryS) && j.Obj?
    ensures FieldOk(j.fields, "time", StringS) &&
            FieldOk(j.fields, "event", StringS)
  {
    var p := TimelineEntryS.properties;
      assert FieldOk(j.fields, "time", StringS) by {
        if "time" in j.fields { assert "time" in p && p["time"] == StringS; }
      }
      assert FieldOk(j.fields, "event", StringS) by {
        if "event" in j.fields { assert "event" in p && p["event"] == StringS; }
      }
  }

  lemma {:induction false} TimelineEntrySound(j: Json)
    requires Conforms(j, TimelineEntryS)
    ensures TimelineEntryOk(j)
  {
    assert j.Obj?;
    TimelineEntryFieldsOf(j);
    var m := j.fields;
    if "time" in m { StringMeaning(m["time"]); }
    if "event" in m { StringMeaning(m["event"]); }
  }

  lemma {:induction false} TimelineEntryComplete(j: Json)
    requires TimelineEntryOk(j)
    ensures Conforms(j, TimelineEntryS)
  {
    if j.Obj? {
      var m := j.fields;
      var p := TimelineEntryS.properties;
      forall k | k in p && k in m
        ensures Conforms(m[k], p[k])
      {
        if k == "time" {
          assert p[k] == StringS;
          StringMeaning(m[k]);
        }
        else if k == "event" {
          assert p[k] == StringS;
          StringMeaning(m[k]);
        }
      }
    }
  }

  lemma TimelineEntryMeaning(j: Json)
    ensures Conforms(j, TimelineEntryS) <==> TimelineEntryOk(j)
  {
    if Conforms(j, TimelineEntryS) {
      TimelineEntrySound(j);
    }
    if TimelineEntryOk(j) {
      TimelineEntryComplete(j);
    }
  }

  lemma {:induction false} RunbookFieldsOf(j: Json)
    requires Conforms(j, RunbookS) && j.Obj?
    ensures FieldOk(j.fields, "matched_steps", StringsS) &&
            FieldOk(j.fields, "gaps", StringsS)
  {
    var p := RunbookS.properties;
      assert FieldOk(j.fields, "matched_steps", StringsS) by {
        if "matched_steps" in j.fields { assert "matched_steps" in p && p["matched_steps"] == StringsS; }
      }
      assert FieldOk(j.fields, "gaps", StringsS) by {
        if "gaps" in j.fields { assert "gaps" in p && p["gaps"] == StringsS; }
      }
  }

  lemma {:induction false} RunbookSound(j: Json)
    requires Conforms(j, RunbookS)
    ensures RunbookOk(j)
  {
    assert j.Obj?;
    assert "matched_steps" in RunbookS.required && "gaps" in RunbookS.required;
    RunbookFieldsOf(j);
    var m := j.fields;
    StringsMeaning(m["matched_steps"]);
    StringsMeaning(m["gaps"]);
  }

  lemma {:induction false} RunbookComplete(j: Json)
    requires RunbookOk(j)
    ensures Conforms(j, RunbookS)
  {
    if j.Obj? {
      var m := j.fields;
      var p := RunbookS.properties;
      forall k | k in p && k in m
        ensures Conforms(m[k], p[k])
      {
        if k == "matched_steps" {
          assert p[k] == StringsS;
          StringsMeaning(m[k]);
        }
        else if k == "gaps" {
          assert p[k] == StringsS;
          StringsMeaning(m[k]);
        }
      }
    }
  }

  lemma RunbookMeaning(j: Json)
    ensures Conforms(j, RunbookS) <==> RunbookOk(j)
  {
    if Conforms(j, RunbookS) {
      RunbookSound(j);
    }
    if RunbookOk(j) {
      RunbookComplete(j);
    }
  }

  lemma {:induction false} ReportFieldsOf(j: Json)
    requires Conforms(j, ReportS) && j.Obj?
    ensures FieldOk(j.fields, "timeline", ArrayOf(TimelineEntryS)) &&
            FieldOk(j.fields, "customer_impact", StringS) &&
            FieldOk(j.fields, "prevention_actions", StringsS)
  {
    var p := ReportS.properties;
      assert FieldOk(j.fields, "timeline", ArrayOf(TimelineEntryS)) by {
        if "timeline" in j.fields { assert "timeline" in p && p["timeline"] == ArrayOf(TimelineEntryS); }
      }
      assert FieldOk(j.fields, "customer_impact", StringS) by {
        if "customer_impact" in j.fields { assert "customer_impact" in p && p["customer_impact"] == StringS; }
      }
      assert FieldOk(j.fields, "prevention_actions", StringsS) by {
        if "prevention_actions" in j.fields { assert "prevention_actions" in p && p["prevention_actions"] == StringsS; }
      }
  }

  lemma {:induction false} ReportSound(j: Json)
    requires Conforms(j, ReportS)
    ensures ReportOk(j)
  {
    assert j.Obj?;
    assert "timeline" in ReportS.required && "customer_impact" in ReportS.required && "prevention_actions" in ReportS.required;
    ReportFieldsOf(j);
    var m := j.fields;
    TimelineSound(m["timeline"]);
    StringMeaning(m["customer_impact"]);
    StringsMeaning(m["prevention_actions"]);
  }

  lemma {:induction false} ReportComplete(j: Json)
    requires ReportOk(j)
    ensures Conforms(j, ReportS)
  {
    if j.Obj? {
      var m := j.fields;
      var p := ReportS.properties;
      forall k | k in p && k in m
        ensures Conforms(m[k], p[k])
      {
        if k == "timeline" {
          assert p[k] == ArrayOf(TimelineEntryS);
          TimelineComplete(m[k]);
        }
        else if k == "customer_impact" {
          assert p[k] == StringS;
          StringMeaning(m[k]);
        }
        else if k == "prevention_actions" {
          assert p[k] == StringsS;
          StringsMeaning(m[k]);
        }
      }
    }
  }

  lemma ReportMeaning(j: Json)
    ensures Conforms(j, ReportS) <==> ReportOk(j)
  {
    if Conforms(j, ReportS) {
      ReportSound(j);
    }
    if ReportOk(j) {
      ReportComplete(j);
    }
  }

  lemma {:induction false} TokensFieldsOf(j: Json)
    requires Conforms(j, TokensS) && j.Obj?
    ensures FieldOk(j.fields, "prompt_tokens", IntegerS) &&
            FieldOk(j.fields, "completion_tokens", IntegerS)
  {
    var p := TokensS.properties;
      assert FieldOk(j.fields, "prompt_tokens", IntegerS) by {
        if "prompt_tokens" in j.fields { assert "prompt_tokens" in p && p["prompt_tokens"] == IntegerS; }
      }
      assert FieldOk(j.fields, "completion_tokens", IntegerS) by {
        if "completion_tokens" in j.fields { assert "completion_tokens" in p && p["completion_tokens"] == IntegerS; }
      }
  }

  lemma {:induction false} TokensSound(j: Json)
    requires Conforms(j, TokensS)
    ensures TokensOk(j)
  {
    if j.Obj? {
      TokensFieldsOf(j);
      var m := j.fields;
      if "prompt_tokens" in m { IntegerMeaning(m["prompt_tokens"]); }
      if "completion_tokens" in m { IntegerMeaning(m["completion_tokens"]); }
    }
  }

  lemma {:induction false} TokensComplete(j: Json)
    requires TokensOk(j)
    ensures Conforms(j, TokensS)
  {
    if j.Obj? {
      var m := j.fields;
      var p := TokensS.properties;
      forall k | k in p && k in m
        ensures Conforms(m[k], p[k])
      {
        if k == "prompt_tokens" {
          assert p[k] == IntegerS;
          IntegerMeaning(m[k]);
        }
        else if k == "completion_tokens" {
          assert p[k] == IntegerS;
          IntegerMeaning(m[k]);
        }
      }
    }
  }

  lemma TokensMeaning(j: Json)
    ensures Conforms(j, TokensS) <==> TokensOk(j)
  {
    if Conforms(j, TokensS) {
      TokensSound(j);
    }
    if TokensOk(j) {
      TokensComplete(j);
    }
  }

  lemma {:induction false} TelemetryFieldsOf1(j: Json)
    requires Conforms(j, TelemetryS) && j.Obj?
    ensures FieldOk(j.fields, "correlation_id", StringS) &&
            FieldOk(j.fields, "model_router_deployment", StringS) &&
            FieldOk(j.fields, "selected_model_if_available", StringOrNullS)
  {
    var p := TelemetryS.properties;
      assert FieldOk(j.fields, "correlation_id", StringS) by {
        if "correlation_id" in j.fields { assert "correlation_id" in p && p["correlation_id"] == StringS; }
      }
      assert FieldOk(j.fields, "model_router_deployment", StringS) by {
        if "model_router_deployment" in j.fields { assert "model_router_deployment" in p && p["model_router_deployment"] == StringS; }
      }
      assert FieldOk(j.fields, "selected_model_if_available", StringOrNullS) by {
        if "selected_model_if_available" in j.fields { assert "selected_model_if_available" in p && p["selected_model_if_available"] == StringOrNullS; }
      }
  }

  lemma {:induction false} TelemetryFieldsOf2(j: Json)
    requires Conforms(j, TelemetryS) && j.Obj?
    ensures FieldOk(j.fields, "tokens_if_available", TokensS)
  {
    var p := TelemetryS.properties;
      assert FieldOk(j.fields, "tokens_if_available", TokensS) by {
        if "tokens_if_available" in j.fields { assert "tokens_if_available" in p && p["tokens_if_available"] == TokensS; }
      }
  }

  lemma {:induction false} TelemetrySound(j: Json)
    requires Conforms(j, TelemetryS)
    ensures TelemetryOk(j)
  {
    assert j.Obj?;
    assert "correlation_id" in TelemetryS.required && "model_router_deployment" in TelemetryS.required;
    TelemetryFieldsOf1(j);
    TelemetryFieldsOf2(j);
    var m := j.fields;
    StringMeaning(m["correlation_id"]);
    StringMeaning(m["model_router_deployment"]);
    if "selected_model_if_available" in m { StringOrNullMeaning(m["selected_model_if_available"]); }
    if "tokens_if_available" in m { TokensSound(m["tokens_if_available"]); }
  }

  lemma {:induction false} TelemetryComplete(j: Json)
    requires TelemetryOk(j)
    ensures Conforms(j, TelemetryS)
  {
    if j.Obj? {
      var m := j.fields;
      var p := TelemetryS.properties;
      forall k | k in p && k in m
        ensures Conforms(m[k], p[k])
      {
        if k == "correlation_id" {
          assert p[k] == StringS;
          StringMeaning(m[k]);
        }
        else if k == "model_router_deployment" {
          assert p[k] == StringS;
          StringMeaning(m[k]);
        }
        else if k == "selected_model_if_available" {
          assert p[k] == StringOrNullS;
          StringOrNullMeaning(m[k]);
        }
        else if k == "tokens_if_available" {
          assert p[k] == TokensS;
          TokensComplete(m[k]);
        }
      }
    }
  }

  lemma TelemetryMeaning(j: Json)
    ensures Conforms(j, TelemetryS) <==> TelemetryOk(j)
  {
    if Conforms(j, TelemetryS) {
      TelemetrySound(j);
    }
    if TelemetryOk(j) {
      TelemetryComplete(j);
    }
  }

  lemma TriageTable()
    ensures "summary" in TriageSchema.properties && TriageSchema.properties["summary"] == SummaryS
    ensures "suspected_root_causes" in TriageSchema.properties && TriageSchema.properties["suspected_root_causes"] == ArrayOf(RootCauseS)
    ensures "immediate_actions" in TriageSchema.properties && TriageSchema.properties["immediate_actions"] == ArrayOf(ActionS)
    ensures "missing_information" in TriageSchema.properties && TriageSchema.properties["missing_information"] == ArrayOf(QuestionS)
    ensures "runbook_alignment" in TriageSchema.properties && TriageSchema.properties["runbook_alignment"] == RunbookS
    ensures "comms" in TriageSchema.properties && TriageSchema.properties["comms"] == CommsS
    ensures "post_incident_report" in TriageSchema.properties && TriageSchema.properties["post_incident_report"] == ReportS
    ensures "telemetry" in TriageSchema.properties && TriageSchema.properties["telemetry"] == TelemetryS
  {
  }

  lemma {:induction false} TriageSoundSummary(j: Json)
    requires Conforms(j, TriageSchema)
    ensures j.Obj? && "summary" in j.fields && SummaryOk(j.fields["summary"])
  {
    assert "summary" in TriageSchema.required;
    TriageTable();
    FieldOf(j, TriageSchema, "summary");
    SummarySound(j.fields["summary"]);
  }

  lemma {:induction false} TriageSoundRootCauses(j: Json)
    requires Conforms(j, TriageSchema)
    ensures j.Obj? && "suspected_root_causes" in j.fields && AllRootCauses(j.fields["suspected_root_causes"])
  {
    assert "suspected_root_causes" in TriageSchema.required;
    TriageTable();
    FieldOf(j, TriageSchema, "suspected_root_causes");
    RootCausesSound(j.fields["suspected_root_causes"]);
  }

  lemma {:induction false} TriageSoundActions(j: Json)
    requires Conforms(j, TriageSchema)
    ensures j.Obj? && "immediate_actions" in j.fields && AllActions(j.fields["immediate_actions"])
  {
    assert "immediate_actions" in TriageSchema.required;
    TriageTable();
    FieldOf(j, TriageSchema, "immediate_actions");
    ActionsSound(j.fields["immediate_actions"]);
  }

  lemma {:induction false} TriageSoundQuestions(j: Json)
    requires Conforms(j, TriageSchema)
    ensures j.Obj? && "missing_information" in j.fields && AllQuestions(j.fields["missing_information"])
  {
    assert "missing_information" in TriageSchema.required;
    TriageTable();
    FieldOf(j, TriageSchema, "missing_information");
    QuestionsSound(j.fields["missing_information"]);
  }

  lemma {:induction false} TriageSoundRunbook(j: Json)
    requires Conforms(j, TriageSchema)
    ensures j.Obj? && "runbook_alignment" in j.fields && RunbookOk(j.fields["runbook_alignment"])
  {
    assert "runbook_alignment" in TriageSchema.required;
    TriageTable();
    FieldOf(j, TriageSchema, "runbook_alignment");
    RunbookSound(j.fields["runbook_alignment"]);
  }

  lemma {:induction false} TriageSoundComms(j: Json)
    requires Conforms(j, TriageSchema)
    ensures j.Obj? && "comms" in j.fields && CommsOk(j.fields["comms"])
  {
    assert "comms" in TriageSchema.required;
    TriageTable();
    FieldOf(j, TriageSchema, "comms");
    CommsSound(j.fields["comms"]);
  }

  lemma {:induction false} TriageSoundReport(j: Json)
    requires Conforms(j, TriageSchema)
    ensures j.Obj? && "post_incident_report" in j.fields && ReportOk(j.fields["post_incident_report"])
  {
    assert "post_incident_report" in TriageSchema.required;
    TriageTable();
    FieldOf(j, TriageSchema, "post_incident_report");
    ReportSound(j.fields["post_incident_report"]);
  }

  lemma {:induction false} TriageSoundTelemetry(j: Json)
    requires Conforms(j, TriageSchema)
    ensures j.Obj? && "telemetry" in j.fields && TelemetryOk(j.fields["telemetry"])
  {
    assert "telemetry" in TriageSchema.required;
    TriageTable();
    FieldOf(j, TriageSchema, "telemetry");
    TelemetrySound(j.fields["telemetry"]);
  }

  lemma {:induction false} TriageSound(j: Json)
    requires Conforms(j, TriageSchema)
    ensures ValidTriage(j)
  {
    TriageSoundSummary(j);
    TriageSoundRootCauses(j);
    TriageSoundActions(j);
    TriageSoundQuestions(j);
    TriageSoundRunbook(j);
    TriageSoundComms(j);
    TriageSoundReport(j);
    TriageSoundTelemetry(j);
  }

  lemma {:induction false} TriageCompleteAt1(j: Json, k: string)
    requires ValidTriage(j) && k in {"summary", "suspected_root_causes", "immediate_actions", "missing_information"}
    ensures k in TriageSchema.properties && Conforms(j.fields[k], TriageSchema.properties[k])
  {
    var m := j.fields;
    var p := TriageSchema.properties;
    if k == "summary" {
      assert p[k] == SummaryS;
      SummaryComplete(m[k]);
    }
    else if k == "suspected_root_causes" {
      assert p[k] == ArrayOf(RootCauseS);
      RootCausesComplete(m[k]);
    }
    else if k == "immediate_actions" {
      assert p[k] == ArrayOf(ActionS);
      ActionsComplete(m[k]);
    }
    else if k == "missing_information" {
      assert p[k] == ArrayOf(QuestionS);
      QuestionsComplete(m[k]);
    }
  }

  lemma {:induction false} TriageCompleteAt2(j: Json, k: string)
    requires ValidTriage(j) && k in {"runbook_alignment", "comms", "post_incident_report", "telemetry"}
    ensures k in TriageSchema.properties && Conforms(j.fields[k], TriageSchema.properties[k])
  {
    var m := j.fields;
    var p := TriageSchema.properties;
    if k == "runbook_alignment" {
      assert p[k] == RunbookS;
      RunbookComplete(m[k]);
    }
    else if k == "comms" {
      assert p[k] == CommsS;
      CommsComplete(m[k]);
    }
    else if k == "post_incident_report" {
      assert p[k] == ReportS;
      ReportComplete(m[k]);
    }
    else if k == "telemetry" {
      assert p[k] == TelemetryS;
      TelemetryComplete(m[k]);
    }
  }

  lemma {:induction false} TriageRequiredPresent(j: Json)
    requires ValidTriage(j)
    ensures forall k | k in TriageSchema.required :: k in j.fields
  {
  }

  lemma {:induction false} TriagePropertiesConform(j: Json)
    requires ValidTriage(j)
    ensures forall k | k in TriageSchema.properties && k in j.fields ::
              Conforms(j.fields[k], TriageSchema.properties[k])
  {
    var m := j.fields;
    var p := TriageSchema.properties;
    forall k | k in p && k in m
      ensures Conforms(m[k], p[k])
    {
      if k in {"summary", "suspected_root_causes", "immediate_actions", "missing_information"} {
        TriageCompleteAt1(j, k);
      } else {
        TriageCompleteAt2(j, k);
      }
    }
  }

  lemma {:induction false} TriageComplete(j: Json)
    requires ValidTriage(j)
    ensures Conforms(j, TriageSchema)
  {
    TriageRequiredPresent(j);
    TriagePropertiesConform(j);
    ObjectConforms(j, TriageSchema);
  }

  lemma TriageMeaning(j: Json)
    ensures Conforms(j, TriageSchema) <==> ValidTriage(j)
  {
    if Conforms(j, TriageSchema) {
      TriageSound(j);
    }
    if ValidTriage(j) {
      TriageComplete(j);
    }
  }

  lemma {:induction false} AlertsSound(j: Json)
    requires Conforms(j, ArrayOf(AlertS))
    ensures AllAlerts(j)
  {
    forall i | 0 <= i < |j.items|
      ensures AlertOk(j.items[i])
    {
      AlertSound(j.items[i]);
    }
  }

  lemma {:induction false} AlertsComplete(j: Json)
    requires AllAlerts(j)
    ensures Conforms(j, ArrayOf(AlertS))
  {
    forall i | 0 <= i < |j.items|
      ensures Conforms(j.items[i], AlertS)
    {
      AlertComplete(j.items[i]);
    }
  }

  lemma AlertsMeaning(j: Json)
    ensures Conforms(j, ArrayOf(AlertS)) <==> AllAlerts(j)
  {
    if Conforms(j, ArrayOf(AlertS)) {
      AlertsSound(j);
    }
    if AllAlerts(j) {
      AlertsComplete(j);
    }
  }

  lemma {:induction false} LogsSound(j: Json)
    requires Conforms(j, ArrayOf(LogS))
    ensures AllLogs(j)
  {
    forall i | 0 <= i < |j.items|
      ensures LogOk(j.items[i])
    {
      LogSound(j.items[i]);
    }
  }

  lemma {:induction false} LogsComplete(j: Json)
    requires AllLogs(j)
    ensures Conforms(j, ArrayOf(LogS))
  {
    forall i | 0 <= i < |j.items|
      ensures Conforms(j.items[i], LogS)
    {
      LogComplete(j.items[i]);
    }
  }

  lemma LogsMeaning(j: Json)
    ensures Conforms(j, ArrayOf(LogS)) <==> AllLogs(j)
  {
    if Conforms(j, ArrayOf(LogS)) {
      LogsSound(j);
    }
    if AllLogs(j) {
      LogsComplete(j);
    }
  }

  lemma {:induction false} MetricsSound(j: Json)
    requires Conforms(j, ArrayOf(MetricS))
    ensures AllMetrics(j)
  {
    forall i | 0 <= i < |j.items|
      ensures MetricOk(j.items[i])
    {
      MetricSound(j.items[i]);
    }
  }

  lemma {:induction false} MetricsComplete(j: Json)
    requires AllMetrics(j)
    ensures Conforms(j, ArrayOf(MetricS))
  {
    forall i | 0 <= i < |j.items|
      ensures Conforms(j.items[i], MetricS)
    {
      MetricComplete(j.items[i]);
    }
  }

  lemma MetricsMeaning(j: Json)
    ensures Conforms(j, ArrayOf(MetricS)) <==> AllMetrics(j)
  {
    if Conforms(j, ArrayOf(MetricS)) {
      MetricsSound(j);
    }
    if AllMetrics(j) {
      MetricsComplete(j);
    }
  }

  lemma {:induction false} RootCausesSound(j: Json)
    requires Conforms(j, ArrayOf(RootCauseS))
    ensures AllRootCauses(j)
  {
    forall i | 0 <= i < |j.items|
      ensures RootCauseOk(j.items[i])
    {
      RootCauseSound(j.items[i]);
    }
  }

  lemma {:induction false} RootCausesComplete(j: Json)
    requires AllRootCauses(j)
    ensures Conforms(j, ArrayOf(RootCauseS))
  {
    forall i | 0 <= i < |j.items|
      ensures Conforms(j.items[i], RootCauseS)
    {
      RootCauseComplete(j.items[i]);
    }
  }

  lemma RootCausesMeaning(j: Json)
    ensures Conforms(j, ArrayOf(RootCauseS)) <==> AllRootCauses(j)
  {
    if Conforms(j, ArrayOf(RootCauseS)) {
      RootCausesSound(j);
    }
    if AllRootCauses(j) {
      RootCausesComplete(j);
    }
  }

  lemma {:induction false} ActionsSound(j: Json)
    requires Conforms(j, ArrayOf(ActionS))
    ensures AllActions(j)
  {
    forall i | 0 <= i < |j.items|
      ensures ActionOk(j.items[i])
    {
      ActionSound(j.items[i]);
    }
  }

  lemma {:induction false} ActionsComplete(j: Json)
    requires AllActions(j)
    ensures Conforms(j, ArrayOf(ActionS))
  {
    forall i | 0 <= i < |j.items|
      ensures Conforms(j.items[i], ActionS)
    {
      ActionComplete(j.items[i]);
    }
  }

  lemma ActionsMeaning(j: Json)
    ensures Conforms(j, ArrayOf(ActionS)) <==> AllActions(j)
  {
    if Conforms(j, ArrayOf(ActionS)) {
      ActionsSound(j);
    }
    if AllActions(j) {
      ActionsComplete(j);
    }
  }

  lemma {:induction false} QuestionsSound(j: Json)
    requires Conforms(j, ArrayOf(QuestionS))
    ensures AllQuestions(j)
  {
    forall i | 0 <= i < |j.items|
      ensures QuestionOk(j.items[i])
    {
      QuestionSound(j.items[i]);
    }
  }

  lemma {:induction false} QuestionsComplete(j: Json)
    requires AllQuestions(j)
    ensures Conforms(j, ArrayOf(QuestionS))
  {
    forall i | 0 <= i < |j.items|
      ensures Conforms(j.items[i], QuestionS)
    {
      QuestionComplete(j.items[i]);
    }
  }

  lemma QuestionsMeaning(j: Json)
    ensures Conforms(j, ArrayOf(QuestionS)) <==> AllQuestions(j)
  {
    if Conforms(j, ArrayOf(QuestionS)) {
      QuestionsSound(j);
    }
    if AllQuestions(j) {
      QuestionsComplete(j);
    }
  }

  lemma {:induction false} TimelineSound(j: Json)
    requires Conforms(j, ArrayOf(TimelineEntryS))
    ensures AllTimeline(j)
  {
    forall i | 0 <= i < |j.items|
      ensures TimelineEntryOk(j.items[i])
    {
      TimelineEntrySound(j.items[i]);
    }
  }

  lemma {:induction false} TimelineComplete(j: Json)
    requires AllTimeline(j)
    ensures Conforms(j, ArrayOf(TimelineEntryS))
  {
    forall i | 0 <= i < |j.items|
      ensures Conforms(j.items[i], TimelineEntryS)
    {
      TimelineEntryComplete(j.items[i]);
    }
  }

  lemma TimelineMeaning(j: Json)
    ensures Conforms(j, ArrayOf(TimelineEntryS)) <==> AllTimeline(j)
  {
    if Conforms(j, ArrayOf(TimelineEntryS)) {
      TimelineSound(j);
    }
    if AllTimeline(j) {
      TimelineComplete(j);
    }
  }
}
