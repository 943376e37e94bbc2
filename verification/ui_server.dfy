/** The local UI server: the GET routes (page, configuration, incident
    list, file loader) and the POST route that forwards an incident to the
    hosted agent and returns the merged specialist output. */
module UiServer {
  import opened Wrappers
  import opened JsonValue
  import PyText
  import StrOrder
  import DataFiles
  import BlobMerge
  import MapFold
  import AgentRequest

  /** What a handler sends back. `Error(status)` is a JSON body
      `{"error": text}` whose text is not modelled; `Dropped` is a handler
      that raised, after which the server logs the traceback and closes
      the connection without a reply. */
  datatype Response =
    | Page
    | Sent(status: int, body: Json)
    | Error(status: int)
    | Dropped

  // ---------------------------------------------------------------- paths

  /** `parsed.path.rstrip("/") or "/"` */
  function NormalizePath(p: string): (r: string)
    ensures r != []
    ensures r == "/" || r[|r| - 1] != '/'
  {
    var s := PyText.RStripChar(p, '/');
    if s == [] then "/" else s
  }

  /** The paths the normalisation leaves alone are exactly the root and the
      paths that do not end in a slash. */
  lemma NormalizeFixedPoints(p: string)
    ensures NormalizePath(p) == p <==> p == "/" || (p != [] && p[|p| - 1] != '/')
  {
  }

  lemma NormalizeIdempotent(p: string)
    ensures NormalizePath(NormalizePath(p)) == NormalizePath(p)
  {
    NormalizeFixedPoints(NormalizePath(p));
  }

  /** A run of `n` slashes. */
  function Slashes(n: nat): (r: string)
    ensures |r| == n && forall i | 0 <= i < n :: r[i] == '/'
  {
    if n == 0 then [] else Slashes(n - 1) + "/"
  }

  /** Trailing slashes never matter: a path and the same path followed by
      any number of slashes are served alike. In particular the empty path
      and any run of slashes are the root. */
  lemma {:induction false} TrailingSlashesIgnored(p: string, n: nat)
    ensures NormalizePath(p + Slashes(n)) == NormalizePath(p)
    decreases n
  {
    if n > 0 {
      var q := p + Slashes(n - 1);
      assert p + Slashes(n) == q + "/";
      assert (q + "/")[..|q|] == q;
      assert PyText.RStripChar(q + "/", '/') == PyText.RStripChar(q, '/');
      TrailingSlashesIgnored(p, n - 1);
    } else {
      assert p + Slashes(n) == p;
    }
  }

  datatype Route = PageRoute | ConfigRoute | IncidentsRoute | LoadRoute | NoRoute

  /** `do_GET`'s dispatch on the normalised path. */
  function RouteOf(path: string): Route {
    var p := NormalizePath(path);
    if p == "/" || p == "/index.html" then PageRoute
    else if p == "/api/config" then ConfigRoute
    else if p == "/api/incidents" then IncidentsRoute
    else if p == "/api/load" then LoadRoute
    else NoRoute
  }

  /** The route of a path with any trailing slashes is the route of the
      path without them. */
  lemma RouteIgnoresTrailingSlashes(p: string, n: nat)
    ensures RouteOf(p + Slashes(n)) == RouteOf(p)
  {
    TrailingSlashesIgnored(p, n);
  }

  // --------------------------------------------------------------- config

  /** `/api/config`: the endpoint as set (not stripped), the agent name,
      the agent version with `latest` as its default, and whether an
      endpoint is set at all. */
  function Config(env: AgentRequest.Env): (r: Fields)
    ensures r.Keys == {"endpoint", "agent_name", "agent_version", "configured"}
  {
    var endpoint := AgentRequest.Getenv(env, AgentRequest.EndpointVar, "");
    map[
      "endpoint" := Str(endpoint),
      "agent_name" := Str(AgentRequest.Getenv(env, AgentRequest.NameVar, AgentRequest.DefaultAgentName)),
      "agent_version" := Str(AgentRequest.Getenv(env, AgentRequest.VersionVar, "latest")),
      "configured" := Bool(endpoint != "")]
  }

  /** What the page is told against what an invocation does: an endpoint
      the invocation accepts is always reported as configured, but not the
      other way round, since the page does not strip trailing slashes (an
      endpoint of `/` is reported as configured and then refused). The
      version shown matches the label of the agent's replies unless the
      variable is set to the empty text. */
  lemma ConfigVersusInvoke(env: AgentRequest.Env)
    ensures AgentRequest.Endpoint(env) != [] ==> Config(env)["configured"] == Bool(true)
    ensures env == map[AgentRequest.EndpointVar := "/"] ==>
              Config(env)["configured"] == Bool(true) && AgentRequest.Endpoint(env) == []
    ensures AgentRequest.VersionVar !in env || env[AgentRequest.VersionVar] != "" ==>
              Config(env)["agent_version"]
                == Str(AgentRequest.VersionLabel(AgentRequest.Getenv(env, AgentRequest.VersionVar, "")))
  {
    if env == map[AgentRequest.EndpointVar := "/"] {
      assert AgentRequest.Getenv(env, AgentRequest.EndpointVar, "") == "/";
    }
  }

  // ------------------------------------------------------------ incidents

  const DemoLabels: map<string, string> := map[
    "demo_1_simple_alert.json" := "Demo 1 — API Gateway 5xx (SEV3)",
    "demo_2_multi_signal.json" := "Demo 2 — DB Connection Pool (SEV1)",
    "demo_3_post_incident.json" := "Demo 3 — Auth TLS Cert Expiry"]

  const ScenarioLabels: map<string, string> := map[
    "scenario_1_redis_outage.json" := "Scenario 1 — Redis Cluster Down (SEV2)",
    "scenario_2_aks_scaling.json" := "Scenario 2 — AKS Scaling Failure",
    "scenario_3_dns_cascade.json" := "Scenario 3 — DNS Cascade Failure",
    "scenario_4_minimal_alert.json" := "Scenario 4 — Minimal Alert",
    "scenario_5_storage_throttle_pir.json" := "Scenario 5 — Storage Throttle PIR"]

  /** `LABELS.get(f.name, f.stem)` */
  function LabelOf(labels: map<string, string>, f: DataFiles.File): string {
    if f.name in labels then labels[f.name] else DataFiles.JsonStem(f.name)
  }

  /** `json.loads(f.read_text())["severity"]`: raises unless the file reads,
      parses to a dict, and has the key. */
  function Severity(dec: Decoder, f: DataFiles.File): (r: Eval<Json>)
    ensures r.Done? <==> var d := DataFiles.Parse(dec, f);
                         d.Some? && d.value.Obj? && "severity" in d.value.fields
  {
    match DataFiles.Parse(dec, f)
    case Some(Obj(m)) => if "severity" in m then Done(m["severity"]) else Raised
    case _ => Raised
  }

  /** One entry of the incident list. */
  datatype Incident = Incident(kind: string, name: string, caption: string, severity: Json)

  /** The entry of one file. */
  function Entry(kind: string, labels: map<string, string>, f: DataFiles.File, severity: Json): Incident {
    Incident(kind, f.name, LabelOf(labels, f), severity)
  }

  /** `{"type": .., "file": .., "label": .., "severity": ..}` */
  function IncidentJson(e: Incident): Json {
    Obj(map["type" := Str(e.kind), "file" := Str(e.name), "label" := Str(e.caption), "severity" := e.severity])
  }

  /** The entries of a listing, in its order, each with the severity
      `severity` reads from its file; the loop raises at the first file
      without one. */
  function Entries(severity: DataFiles.File -> Eval<Json>, kind: string, labels: map<string, string>,
                   files: seq<DataFiles.File>): (r: Eval<seq<Incident>>)
    ensures r.Done? <==> forall i | 0 <= i < |files| :: severity(files[i]).Done?
  {
    if forall i | 0 <= i < |files| :: severity(files[i]).Done? then
      Done(seq(|files|, i requires 0 <= i < |files| => Entry(kind, labels, files[i], severity(files[i]).value)))
    else Raised
  }

  /** `/api/incidents`: the demos, then the scenarios, each by file name. */
  function IncidentList(dec: Decoder, demos: seq<DataFiles.File>, scenarios: seq<DataFiles.File>): Eval<seq<Incident>> {
    var severity := f => Severity(dec, f);
    var d :- Entries(severity, "demo", DemoLabels, DataFiles.Listing(demos, "demo_"));
    var s :- Entries(severity, "scenario", ScenarioLabels, DataFiles.Listing(scenarios, "scenario_"));
    Done(d + s)
  }

  /** `{"incidents": [...]}` */
  function IncidentsBody(entries: seq<Incident>): Json {
    Obj(map["incidents" := Arr(seq(|entries|, i requires 0 <= i < |entries| => IncidentJson(entries[i])))])
  }

  /** The entries of two listings one after the other, every file of both
      with its severity. */
  predicate Lists(severity: DataFiles.File -> Eval<Json>, entries: seq<Incident>,
                  k1: string, l1: map<string, string>, f1: seq<DataFiles.File>,
                  k2: string, l2: map<string, string>, f2: seq<DataFiles.File>)
  {
    && |entries| == |f1| + |f2|
    && (forall i | 0 <= i < |f1| ::
          severity(f1[i]).Done? && entries[i] == Entry(k1, l1, f1[i], severity(f1[i]).value))
    && (forall i | 0 <= i < |f2| ::
          severity(f2[i]).Done? && entries[|f1| + i] == Entry(k2, l2, f2[i], severity(f2[i]).value))
  }

  lemma EntriesAppend(severity: DataFiles.File -> Eval<Json>,
                      k1: string, l1: map<string, string>, f1: seq<DataFiles.File>,
                      k2: string, l2: map<string, string>, f2: seq<DataFiles.File>)
    requires Entries(severity, k1, l1, f1).Done? && Entries(severity, k2, l2, f2).Done?
    ensures Lists(severity, Entries(severity, k1, l1, f1).value + Entries(severity, k2, l2, f2).value,
                  k1, l1, f1, k2, l2, f2)
  {
    var a := Entries(severity, k1, l1, f1).value;
    var b := Entries(severity, k2, l2, f2).value;
    var e := a + b;
    forall i | 0 <= i < |f1|
      ensures severity(f1[i]).Done? && e[i] == Entry(k1, l1, f1[i], severity(f1[i]).value)
    {
      assert e[i] == a[i];
    }
    forall i | 0 <= i < |f2|
      ensures severity(f2[i]).Done? && e[|f1| + i] == Entry(k2, l2, f2[i], severity(f2[i]).value)
    {
      assert e[|f1| + i] == b[i];
    }
  }

  /** The list holds one entry per `demo_*.json` file, in name order, then
      one per `scenario_*.json` file, in name order; each entry names its
      kind, its file, its label, and the file's own severity. It is
      produced only when every listed file has one. */
  lemma IncidentsListed(dec: Decoder, demos: seq<DataFiles.File>, scenarios: seq<DataFiles.File>)
    ensures var dl := DataFiles.Listing(demos, "demo_");
            var sl := DataFiles.Listing(scenarios, "scenario_");
            IncidentList(dec, demos, scenarios).Done? <==>
              (forall i | 0 <= i < |dl| :: Severity(dec, dl[i]).Done?)
              && (forall i | 0 <= i < |sl| :: Severity(dec, sl[i]).Done?)
    ensures var dl := DataFiles.Listing(demos, "demo_");
            var sl := DataFiles.Listing(scenarios, "scenario_");
            var r := IncidentList(dec, demos, scenarios);
            r.Done? ==> Lists(f => Severity(dec, f), r.value, "demo", DemoLabels, dl, "scenario", ScenarioLabels, sl)
  {
    var severity := f => Severity(dec, f);
    var dl := DataFiles.Listing(demos, "demo_");
    var sl := DataFiles.Listing(scenarios, "scenario_");
    var di := Entries(severity, "demo", DemoLabels, dl);
    var si := Entries(severity, "scenario", ScenarioLabels, sl);
    if di.Done? && si.Done? {
      EntriesAppend(severity, "demo", DemoLabels, dl, "scenario", ScenarioLabels, sl);
    }
  }

  // ----------------------------------------------------------------- load

  /** A `parse_qs` value list: never empty. */
  type QueryValues = s: seq<string> | |s| > 0 witness [""]

  type Query = map<string, QueryValues>

  /** `qs.get(key, [default])[0]` */
  function First(qs: Query, key: string, default: string): string {
    if key in qs then qs[key][0] else default
  }

  const DemosDir: string := "scripts/demos"
  const ScenariosDir: string := "scripts/scenarios"

  /** `base / name`: an absolute name replaces the base. */
  function Join(base: string, name: string): string {
    if |name| > 0 && name[0] == '/' then name else base + "/" + name
  }

  /** The files on disk by path, with their text (None for a path that
      exists but cannot be read as text, such as a directory). */
  type Disk = map<string, Option<string>>

  /** `/api/load?type=..&file=..`: the file's pretty-printed text and its
      parsed contents; 404 when no file is named or the path does not
      exist. `pretty` is `json.dumps(data, indent=2)`. */
  function LoadFile(dec: Decoder, pretty: Json -> string, qs: Query, disk: Disk): (r: Response)
    ensures r.Sent? || r == Error(404) || r.Dropped?
    ensures r.Sent? ==> r.status == 200 && r.body.Obj? && r.body.fields.Keys == {"content", "meta"}
  {
    var ftype := First(qs, "type", "demo");
    var fname := First(qs, "file", "");
    var path := Join(if ftype == "demo" then DemosDir else ScenariosDir, fname);
    if path !in disk || fname == "" then Error(404)
    else match disk[path]
      case None => Dropped
      case Some(text) =>
        match Loads(dec, text)
        case None => Dropped
        case Some(data) => Sent(200, Obj(map["content" := Str(pretty(data)), "meta" := data]))
  }

  /** The loader answers 404 exactly when no file is named or its path
      does not exist; any other type than `demo`, a misspelt one included,
      reads from the scenarios; and a name that is an absolute path is
      read from that path, whatever the type. A loaded file's contents come
      back as they parse. */
  lemma LoadOutcome(dec: Decoder, pretty: Json -> string, qs: Query, disk: Disk)
    ensures var fname := First(qs, "file", "");
            var ftype := First(qs, "type", "demo");
            var path := Join(if ftype == "demo" then DemosDir else ScenariosDir, fname);
            && (LoadFile(dec, pretty, qs, disk) == Error(404) <==> fname == "" || path !in disk)
            && (LoadFile(dec, pretty, qs, disk).Sent? ==>
                  path in disk && disk[path].Some?
                  && Loads(dec, disk[path].value) == Some(LoadFile(dec, pretty, qs, disk).body.fields["meta"]))
    ensures var fname := First(qs, "file", "");
            |fname| > 0 && fname[0] == '/' ==>
              (LoadFile(dec, pretty, qs, disk) == Error(404) <==> fname !in disk)
  {
  }

  // ------------------------------------------------------------------ GET

  /** `do_GET` on a parsed path and query string. */
  function HandleGet(dec: Decoder, pretty: Json -> string, path: string, qs: Query, env: AgentRequest.Env,
                     demos: seq<DataFiles.File>, scenarios: seq<DataFiles.File>, disk: Disk): (r: Response)
    ensures r.Sent? ==> r.status == 200
    ensures r.Error? ==> r.status == 404
  {
    match RouteOf(path)
    case PageRoute => Page
    case ConfigRoute => Sent(200, Obj(Config(env)))
    case IncidentsRoute =>
      (match IncidentList(dec, demos, scenarios)
       case Raised => Dropped
       case Done(entries) => Sent(200, IncidentsBody(entries)))
    case LoadRoute => LoadFile(dec, pretty, qs, disk)
    case NoRoute => Error(404)
  }

  /** A GET is answered 404 exactly for an unknown path or a file the
      loader cannot find; the page is served for the root, with or without
      trailing slashes. */
  lemma GetNotFound(dec: Decoder, pretty: Json -> string, path: string, qs: Query, env: AgentRequest.Env,
                    demos: seq<DataFiles.File>, scenarios: seq<DataFiles.File>, disk: Disk)
    ensures HandleGet(dec, pretty, path, qs, env, demos, scenarios, disk) == Error(404) <==>
              || RouteOf(path) == NoRoute
              || (RouteOf(path) == LoadRoute && LoadFile(dec, pretty, qs, disk) == Error(404))
    ensures HandleGet(dec, pretty, path, qs, env, demos, scenarios, disk) == Page <==>
              NormalizePath(path) in {"/", "/index.html"}
  {
  }

  // ----------------------------------------------------------------- POST

  /** The outcome of `_invoke_agent`: its result dict, a timeout, or any
      other exception. */
  datatype Invoked = Returned(result: Fields) | Timeout | Failure

  /** The request the UI sends: the content as it is, no prefix. */
  function UiRequest(env: AgentRequest.Env, content: string): Json {
    AgentRequest.RequestBody(
      AgentRequest.Getenv(env, AgentRequest.NameVar, AgentRequest.DefaultAgentName),
      AgentRequest.Getenv(env, AgentRequest.VersionVar, ""),
      content)
  }

  /** `_invoke_agent(content)`. `token` is the `az` access token (None when
      the command fails), `send` the HTTP call, `elapsed` the rounded time
      it took. */
  function InvokeAgent(dec: Decoder, env: AgentRequest.Env, content: string, token: Option<string>,
                       send: (string, Json) -> AgentRequest.Transport, elapsed: real): (r: Invoked)
    ensures !r.Failure? ==> AgentRequest.Endpoint(env) != [] && token.Some?
    ensures r.Returned? ==>
              && r.result.Keys == {"http_status", "agent_status", "elapsed_seconds", "agent", "output"}
              && r.result["output"].Obj?
              && r.result["elapsed_seconds"] == Float(elapsed)
  {
    var endpoint := AgentRequest.Endpoint(env);
    if endpoint == [] || token.None? then Failure
    else match send(AgentRequest.ResponsesUrl(endpoint), UiRequest(env, content))
      case TimedOut => Timeout
      case Broken => Failure
      case Unparsed(_) => Failure
      case Replied(status, raw) =>
        match Get(raw, "error", Null)
        case Raised => Failure
        case Done(err) =>
          if Truthy(err) then Failure
          else match BlobMerge.MergeReply(dec, raw)
            case Raised => Failure
            case Done(merged) =>
              Returned(map[
                "http_status" := Int(status),
                "agent_status" := (if "status" in raw.fields then raw.fields["status"] else Null),
                "elapsed_seconds" := Float(elapsed),
                "agent" := Str(AgentRequest.AgentLabel(
                                 AgentRequest.Getenv(env, AgentRequest.NameVar, AgentRequest.DefaultAgentName),
                                 AgentRequest.Getenv(env, AgentRequest.VersionVar, ""))),
                "output" := Obj(merged)])
  }

  /** The UI forwards the content verbatim. */
  lemma UiSendsContentVerbatim(env: AgentRequest.Env, content: string)
    ensures AgentRequest.SentMessage(UiRequest(env, content)) == Some(content)
  {
    AgentRequest.RequestRoundTrip(
      AgentRequest.Getenv(env, AgentRequest.NameVar, AgentRequest.DefaultAgentName),
      AgentRequest.Getenv(env, AgentRequest.VersionVar, ""),
      content);
  }

  /** Without a usable endpoint, or without a token, nothing is sent: the
      outcome is a failure whatever the network would have done. */
  lemma NoRequestWithoutEndpoint(dec: Decoder, env: AgentRequest.Env, content: string, token: Option<string>,
                                 send1: (string, Json) -> AgentRequest.Transport, send2: (string, Json) -> AgentRequest.Transport,
                                 elapsed: real)
    requires AgentRequest.Endpoint(env) == [] || token.None?
    ensures InvokeAgent(dec, env, content, token, send1, elapsed) == Failure
    ensures InvokeAgent(dec, env, content, token, send2, elapsed) == Failure
  {
  }

  /** An invocation returns exactly when a request went out and came back
      as a dict with no truthy `error` whose parts all merge; the result's
      `output` is then the merge of the reply, and `agent` its label. An
      `error` in the reply fails the call even when output is present. */
  lemma InvokeReturns(dec: Decoder, env: AgentRequest.Env, content: string, token: Option<string>,
                      send: (string, Json) -> AgentRequest.Transport, elapsed: real)
    ensures var endpoint := AgentRequest.Endpoint(env);
            var reply := send(AgentRequest.ResponsesUrl(endpoint), UiRequest(env, content));
            InvokeAgent(dec, env, content, token, send, elapsed).Returned? <==>
              && endpoint != [] && token.Some? && reply.Replied? && reply.raw.Obj?
              && ("error" !in reply.raw.fields || !Truthy(reply.raw.fields["error"]))
              && BlobMerge.MergeReply(dec, reply.raw).Done?
    ensures var endpoint := AgentRequest.Endpoint(env);
            var reply := send(AgentRequest.ResponsesUrl(endpoint), UiRequest(env, content));
            var r := InvokeAgent(dec, env, content, token, send, elapsed);
            r.Returned? ==>
              && r.result["output"] == Obj(BlobMerge.MergeReply(dec, reply.raw).value)
              && r.result["http_status"] == Int(reply.status)
              && r.result["agent"] == Str(AgentRequest.AgentLabel(
                                             AgentRequest.Getenv(env, AgentRequest.NameVar, AgentRequest.DefaultAgentName),
                                             AgentRequest.Getenv(env, AgentRequest.VersionVar, "")))
  {
  }

  /** The keys of the returned output are those of the objects found in
      the reply's parts, each with the value of the last object holding
      it. */
  lemma OutputFromObjects(dec: Decoder, env: AgentRequest.Env, content: string, token: Option<string>,
                          send: (string, Json) -> AgentRequest.Transport, elapsed: real, k: string)
    requires InvokeAgent(dec, env, content, token, send, elapsed).Returned?
    ensures var endpoint := AgentRequest.Endpoint(env);
            var raw := send(AgentRequest.ResponsesUrl(endpoint), UiRequest(env, content)).raw;
            var objs := BlobMerge.AllObjects(dec, BlobMerge.StripAll(BlobMerge.PartTexts(raw).value));
            var out := InvokeAgent(dec, env, content, token, send, elapsed).result["output"].fields;
            && (k in out <==> exists i | 0 <= i < |objs| :: k in objs[i])
            && (k in out ==> out[k] == objs[MapFold.LastIndexOf(objs, k)][k])
  {
    InvokeReturns(dec, env, content, token, send, elapsed);
    var endpoint := AgentRequest.Endpoint(env);
    var raw := send(AgentRequest.ResponsesUrl(endpoint), UiRequest(env, content)).raw;
    var texts := BlobMerge.StripAll(BlobMerge.PartTexts(raw).value);
    BlobMerge.MergedValueIsLast(dec, texts, map[], k);
  }

  /** The text of the request's `content`, when the body parses to a dict
      whose `content` (default "") is a string. */
  function ContentOf(dec: Decoder, body: string): Option<string> {
    match Loads(dec, body)
    case None => None
    case Some(payload) =>
      match Get(payload, "content", Str(""))
      case Raised => None
      case Done(c) => if c.Str? then Some(c.s) else None
  }

  /** `do_POST` on the raw request path and the request body's text. */
  function HandlePost(dec: Decoder, path: string, body: string, env: AgentRequest.Env, token: Option<string>,
                      send: (string, Json) -> AgentRequest.Transport, elapsed: real): (r: Response)
    ensures r.Sent? ==> r.status == 200
    ensures r.Error? ==> r.status in {400, 404, 500, 504}
    ensures !r.Page? && !r.Dropped?
  {
    if path != "/api/invoke" then Error(404)
    else match ContentOf(dec, body)
      case None => Error(500)
      case Some(content) =>
        if PyText.Strip(content) == [] then Error(400)
        else match InvokeAgent(dec, env, content, token, send, elapsed)
          case Returned(result) => Sent(200, Obj(result))
          case Timeout => Error(504)
          case Failure => Error(500)
  }

  /** Only the exact path is served (no normalisation here: a trailing
      slash is 404); blank content is 400 before anything is sent, so the
      outcome does not depend on the environment or the network; a timeout
      is 504 only after a configured, authorised request went out; and a
      successful call is answered with the invocation's result. */
  lemma PostOutcome(dec: Decoder, path: string, body: string, env: AgentRequest.Env, token: Option<string>,
                    send: (string, Json) -> AgentRequest.Transport, elapsed: real)
    ensures HandlePost(dec, path, body, env, token, send, elapsed) == Error(404) <==> path != "/api/invoke"
    ensures HandlePost(dec, path, body, env, token, send, elapsed) == Error(400) <==>
              path == "/api/invoke" && ContentOf(dec, body).Some? && PyText.Strip(ContentOf(dec, body).value) == []
    ensures HandlePost(dec, path, body, env, token, send, elapsed) == Error(504) <==>
              && path == "/api/invoke" && ContentOf(dec, body).Some?
              && PyText.Strip(ContentOf(dec, body).value) != []
              && AgentRequest.Endpoint(env) != [] && token.Some?
              && send(AgentRequest.ResponsesUrl(AgentRequest.Endpoint(env)),
                      UiRequest(env, ContentOf(dec, body).value)) == AgentRequest.TimedOut
    ensures var r := HandlePost(dec, path, body, env, token, send, elapsed);
            r.Sent? ==> ContentOf(dec, body).Some?
                        && InvokeAgent(dec, env, ContentOf(dec, body).value, token, send, elapsed)
                             == Returned(r.body.fields)
  {
  }
}
