/** What both clients of the hosted agent, the local UI server and the
    command-line invoker, take from the environment and send to the
    Responses endpoint: the endpoint, the agent reference, the request
    body, and the `name:version` label they show. */
module AgentRequest {
  import opened Wrappers
  import opened JsonValue
  import PyText

  /** The process environment. */
  type Env = map<string, string>

  /** `os.environ.get(name, default)` */
  function Getenv(env: Env, name: string, default: string): string {
    if name in env then env[name] else default
  }

  const EndpointVar: string := "AZURE_AI_PROJECT_ENDPOINT"
  const NameVar: string := "AGENT_NAME"
  const VersionVar: string := "AGENT_VERSION"
  const DefaultAgentName: string := "oncall-copilot"

  /** The path and query both clients append to the endpoint, after a
      slash. */
  const ResponsesPath: string := "/" + "openai/responses?api-version=2025-05-15-preview"

  /** `os.environ.get("AZURE_AI_PROJECT_ENDPOINT", "").rstrip("/")`; empty
      means the client refuses to call. It is empty exactly when the
      variable is missing or holds nothing but slashes. */
  function Endpoint(env: Env): (r: string)
    ensures r == [] || r[|r| - 1] != '/'
    ensures var raw := Getenv(env, EndpointVar, "");
            r == [] <==> forall i | 0 <= i < |raw| :: raw[i] == '/'
  {
    var raw := Getenv(env, EndpointVar, "");
    var r := PyText.RStripChar(raw, '/');
    assert r != [] ==> r[|r| - 1] == raw[|r| - 1];
    r
  }

  /** What the command-line scripts read from the environment. */
  datatype Settings = Settings(endpoint: string, name: string, version: string)

  /** `get_config()` of the command-line scripts: None where it exits for
      want of an endpoint. Unlike the UI server's page, the version
      defaults to the empty text, which pins no version. */
  function GetConfig(env: Env): (r: Option<Settings>)
    ensures r.None? <==> Endpoint(env) == []
    ensures r.Some? ==> r.value.endpoint == Endpoint(env)
                        && r.value.name == Getenv(env, NameVar, DefaultAgentName)
                        && r.value.version == Getenv(env, VersionVar, "")
  {
    var endpoint := Endpoint(env);
    if endpoint == [] then None
    else Some(Settings(endpoint, Getenv(env, NameVar, DefaultAgentName), Getenv(env, VersionVar, "")))
  }

  /** `f"{endpoint}/openai/responses?..."` */
  function ResponsesUrl(endpoint: string): string {
    endpoint + ResponsesPath
  }

  /** The URL never doubles the slash where the endpoint and the path meet,
      however many slashes the variable ends with. */
  lemma UrlJoinsCleanly(env: Env)
    requires Endpoint(env) != []
    ensures var e := Endpoint(env);
            var url := ResponsesUrl(e);
            && PyText.StartsWith(url, e)
            && url[|e|] == '/' && url[|e| - 1] != '/'
  {
    var e := Endpoint(env);
    var url := ResponsesUrl(e);
    assert url[..|e|] == e;
    assert ResponsesPath[0] == '/';
    assert url[|e|] == ResponsesPath[0];
    assert url[|e| - 1] == e[|e| - 1];
  }

  /** The agent reference: `{"type": "agent_reference", "name": name}`,
      with `"version"` only when the version is not empty. */
  function AgentSpec(name: string, version: string): (r: Json)
    ensures r.Obj? && ("version" in r.fields <==> version != "")
  {
    var spec := map["type" := Str("agent_reference"), "name" := Str(name)];
    Obj(if version != "" then spec["version" := Str(version)] else spec)
  }

  /** `{"input": [{"role": "user", "content": message}], "agent": spec}` */
  function RequestBody(name: string, version: string, message: string): Json {
    Obj(map[
      "input" := Arr([Obj(map["role" := Str("user"), "content" := Str(message)])]),
      "agent" := AgentSpec(name, version)])
  }

  /** What the endpoint reads back from a request body: the single user
      message, and the agent name with its version ("" when none is
      pinned). */
  function SentMessage(body: Json): Option<string> {
    if body.Obj? && "input" in body.fields && body.fields["input"].Arr?
       && |body.fields["input"].items| == 1
    then
      var m := body.fields["input"].items[0];
      if m.Obj? && "content" in m.fields && m.fields["content"].Str? then Some(m.fields["content"].s) else None
    else None
  }

  function SentAgent(body: Json): Option<(string, string)> {
    if body.Obj? && "agent" in body.fields && body.fields["agent"].Obj? then
      var spec := body.fields["agent"].fields;
      if "name" in spec && spec["name"].Str? then
        var version := if "version" in spec && spec["version"].Str? then spec["version"].s else "";
        Some((spec["name"].s, version))
      else None
    else None
  }

  /** The request carries the message unchanged and names the agent and
      the version it was given; an empty version pins none. */
  lemma RequestRoundTrip(name: string, version: string, message: string)
    ensures SentMessage(RequestBody(name, version, message)) == Some(message)
    ensures SentAgent(RequestBody(name, version, message)) == Some((name, version))
  {
    var body := RequestBody(name, version, message);
    assert body.fields["input"].items[0].fields["content"] == Str(message);
    var spec := AgentSpec(name, version).fields;
    assert spec["name"] == Str(name);
    if version != "" {
      assert spec["version"] == Str(version);
    }
  }

  /** What the network does with a request: a timeout, another failure to
      get a reply, a reply whose body is not JSON (with its HTTP status),
      or a reply with its HTTP status and decoded body. */
  datatype Transport = TimedOut | Broken | Unparsed(status: int) | Replied(status: int, raw: Json)

  /** `agent_version or "latest"` */
  function VersionLabel(version: string): (r: string)
    ensures r != []
    ensures version != "" ==> r == version
  {
    if version == "" then "latest" else version
  }

  /** `f"{agent_name}:{agent_version or 'latest'}"` */
  function AgentLabel(name: string, version: string): string {
    name + ":" + VersionLabel(version)
  }

  /** For a name without a colon, splitting the label at its first colon
      gives the name back, and what follows is the version (or `latest`). */
  lemma LabelSplits(name: string, version: string)
    requires ':' !in name
    ensures var shown := AgentLabel(name, version);
            && PyText.BeforeFirst(shown, ':') == name
            && shown[|name| + 1..] == VersionLabel(version)
  {
    var shown := AgentLabel(name, version);
    assert shown[|name|] == ':';
    assert forall k | 0 <= k < |name| :: shown[k] == name[k];
    PyText.PrefixBefore(shown, ':', |name|);
    assert shown[..|name|] == name;
  }

  /** An unpinned agent and one pinned to a version literally named
      `latest` show the same label, though only the second request names
      a version. */
  lemma UnpinnedLooksLatest(name: string)
    ensures AgentLabel(name, "") == AgentLabel(name, "latest")
    ensures SentAgent(RequestBody(name, "", "")) != SentAgent(RequestBody(name, "latest", ""))
  {
    RequestRoundTrip(name, "", "");
    RequestRoundTrip(name, "latest", "");
  }
}
