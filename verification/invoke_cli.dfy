/** The command-line invoker: it picks the content to send (a demo or
    scenario file, a prompt, or the default prompt), prefixes JSON content
    with an instruction, calls the hosted agent, merges the reply's JSON
    objects and shows the labelled sections, or one chosen key. */
module InvokeCli {
  import opened Wrappers
  import opened JsonValue
  import PyText
  import StrOrder
  import DataFiles
  import BlobMerge
  import AgentRequest

  // --------------------------------------------------------------- content

  const DefaultPrompt: string :=
    "ALERT: CPU usage at 95% on prod-api-01 for 10 minutes. "
    + "P99 latency spiked to 8s. "
    + "Service: checkout-api. "
    + "Environment: production. "
    + "Start time: 2025-06-20T14:32:00Z."

  /** The command line: `--demo N`, `--scenario N` and `--prompt TEXT` are
      mutually exclusive, so at most one of them is given. */
  datatype Args = Args(demo: Option<int>, scenario: Option<int>, prompt: Option<string>, key: Option<string>)

  predicate ExclusiveArgs(a: Args) {
    (a.demo.Some? ==> a.scenario.None? && a.prompt.None?)
    && (a.scenario.Some? ==> a.prompt.None?)
  }

  /** Where the content comes from: the text chosen, no matching file (the
      script exits with an error), or a matching file that cannot be read
      (the read raises). */
  datatype Source = Chosen(content: string) | NoFile | Unreadable

  /** The first file of a sorted listing, read as text. */
  function FirstFile(listing: seq<DataFiles.File>): (r: Source)
    ensures r == NoFile <==> |listing| == 0
    ensures r.Chosen? ==> listing[0].text == Some(r.content)
  {
    if |listing| == 0 then NoFile
    else match listing[0].text
      case None => Unreadable
      case Some(t) => Chosen(t)
  }

  /** `demo_{n}_*.json` */
  function DemoPrefix(n: int): string {
    "demo_" + PyText.IntToString(n) + "_"
  }

  /** `scenario_{n}_*.json` */
  function ScenarioPrefix(n: int): string {
    "scenario_" + PyText.IntToString(n) + "_"
  }

  /** `main()`'s choice of content. `if args.demo:` is false for 0, so
      `--demo 0` and `--scenario 0` fall through to the default prompt, as
      does an empty `--prompt`. */
  function ContentFor(args: Args, demos: seq<DataFiles.File>, scenarios: seq<DataFiles.File>): Source
    requires ExclusiveArgs(args)
  {
    if args.demo.Some? && args.demo.value != 0 then
      FirstFile(DataFiles.Listing(demos, DemoPrefix(args.demo.value)))
    else if args.scenario.Some? && args.scenario.value != 0 then
      FirstFile(DataFiles.Listing(scenarios, ScenarioPrefix(args.scenario.value)))
    else if args.prompt.Some? && args.prompt.value != "" then Chosen(args.prompt.value)
    else Chosen(DefaultPrompt)
  }

  /** The demo sent for `--demo n` is the readable text of the file whose
      name comes first among those matching `demo_{n}_*.json`; the `_`
      after the number keeps `--demo 1` from selecting `demo_10_*.json`.
      Zero and an empty prompt select the default prompt. */
  lemma DemoIsFirstMatch(args: Args, demos: seq<DataFiles.File>, scenarios: seq<DataFiles.File>)
    requires ExclusiveArgs(args)
    ensures args.demo.Some? && args.demo.value != 0 ==>
              var prefix := DemoPrefix(args.demo.value);
              && (ContentFor(args, demos, scenarios) == NoFile <==>
                    forall f | f in demos :: !DataFiles.Matches(f.name, prefix))
              && (ContentFor(args, demos, scenarios).Chosen? ==>
                    exists f | f in demos ::
                      && DataFiles.Matches(f.name, prefix)
                      && f.text == Some(ContentFor(args, demos, scenarios).content)
                      && forall g | g in demos && DataFiles.Matches(g.name, prefix) :: StrOrder.AtMost(f.name, g.name))
    ensures (args.demo == Some(0) || args.scenario == Some(0) || args.prompt == Some("")
             || (args.demo.None? && args.scenario.None? && args.prompt.None?)) ==>
              ContentFor(args, demos, scenarios) == Chosen(DefaultPrompt)
  {
    if args.demo.Some? && args.demo.value != 0 {
      var prefix := DemoPrefix(args.demo.value);
      var listing := DataFiles.Listing(demos, prefix);
      if |listing| == 0 {
        assert forall f | f in demos :: f !in listing;
      } else {
        var f := listing[0];
        assert f in listing;
        forall g | g in demos && DataFiles.Matches(g.name, prefix)
          ensures StrOrder.AtMost(f.name, g.name)
        {
          assert g in listing;
          var j :| 0 <= j < |listing| && listing[j] == g;
          if j > 0 {
            assert StrOrder.AtMost(DataFiles.NameOf(listing[0]), DataFiles.NameOf(listing[j]));
          }
        }
      }
    }
  }

  // --------------------------------------------------------------- request

  const AnalyzePrefix: string :=
    "Analyze the following incident data and provide triage, "
    + "summary, communications, and a post-incident report:\n\n"

  /** The message sent for some content: content that `json.loads`
      accepts (any JSON value, not only an object) gets the instruction in
      front of it, other text goes as it is. */
  function UserMessage(dec: Decoder, content: string): string {
    if Loads(dec, content).Some? then AnalyzePrefix + content else content
  }

  /** The content can always be read back from the message: it is the
      message itself, or what follows the instruction when the content is
      JSON. */
  lemma UserMessageInverse(dec: Decoder, content: string)
    ensures var m := UserMessage(dec, content);
            && (Loads(dec, content).Some? ==>
                  PyText.StartsWith(m, AnalyzePrefix) && m[|AnalyzePrefix|..] == content)
            && (Loads(dec, content).None? ==> m == content)
  {
    var m := UserMessage(dec, content);
    if Loads(dec, content).Some? {
      assert m[..|AnalyzePrefix|] == AnalyzePrefix;
    }
  }

  /** The request the invoker sends. */
  function CliRequest(dec: Decoder, s: AgentRequest.Settings, content: string): Json {
    AgentRequest.RequestBody(s.name, s.version, UserMessage(dec, content))
  }

  /** The request names the agent and the version exactly as configured,
      and carries the (possibly prefixed) message. */
  lemma CliRequestCarries(dec: Decoder, s: AgentRequest.Settings, content: string)
    ensures AgentRequest.SentMessage(CliRequest(dec, s, content)) == Some(UserMessage(dec, content))
    ensures AgentRequest.SentAgent(CliRequest(dec, s, content)) == Some((s.name, s.version))
  {
    AgentRequest.RequestRoundTrip(s.name, s.version, UserMessage(dec, content));
  }

  /** `content[:120] + ("..." if len(content) > 120 else "")` */
  function Preview(content: string): (r: string)
    ensures |content| <= 120 ==> r == content
    ensures |content| > 120 ==> |r| == 123 && r[..120] == content[..120]
  {
    if |content| > 120 then content[..120] + "..." else content
  }

  // --------------------------------------------------------------- display

  /** `LABELS`, in its order: the keys shown without `--key`, with their
      titles. */
  const Labels: seq<(string, string)> := [
    ("suspected_root_causes", "TRIAGE — Root Causes"),
    ("immediate_actions", "TRIAGE — Immediate Actions"),
    ("missing_information", "TRIAGE — Missing Information"),
    ("runbook_alignment", "TRIAGE — Runbook Alignment"),
    ("summary", "SUMMARY"),
    ("comms", "COMMS"),
    ("post_incident_report", "POST-INCIDENT REPORT")]

  /** One printed block: a title between two rules, then the value. */
  datatype Section = Section(title: string, value: Json)

  /** `LABELS.get(key, key.upper())` */
  function TitleIn(labels: seq<(string, string)>, key: string): (r: string)
    ensures (forall j | 0 <= j < |labels| :: labels[j].0 != key) ==> r == PyText.Upper(key)
  {
    if |labels| == 0 then PyText.Upper(key)
    else if labels[0].0 == key then labels[0].1
    else TitleIn(labels[1..], key)
  }

  /** `for key in LABELS: if key in merged: ...` */
  function SectionsIn(labels: seq<(string, string)>, merged: Fields): (r: seq<Section>)
    ensures |r| <= |labels|
  {
    if |labels| == 0 then []
    else
      (if labels[0].0 in merged then [Section(labels[0].1, merged[labels[0].0])] else [])
      + SectionsIn(labels[1..], merged)
  }

  /** The sections shown without a key: every labelled key present in the
      output, with its title and value, and nothing else; a key outside the
      label table is never shown. */
  lemma {:induction false} SectionsShowLabelled(labels: seq<(string, string)>, merged: Fields)
    ensures forall s | s in SectionsIn(labels, merged) ::
              exists j | 0 <= j < |labels| :: labels[j].0 in merged && s == Section(labels[j].1, merged[labels[j].0])
    ensures forall j | 0 <= j < |labels| && labels[j].0 in merged ::
              Section(labels[j].1, merged[labels[j].0]) in SectionsIn(labels, merged)
    decreases |labels|
  {
    if |labels| > 0 {
      SectionsShowLabelled(labels[1..], merged);
      var r := SectionsIn(labels, merged);
      var rest := SectionsIn(labels[1..], merged);
      forall s | s in r
        ensures exists j | 0 <= j < |labels| :: labels[j].0 in merged && s == Section(labels[j].1, merged[labels[j].0])
      {
        if s !in rest {
          assert labels[0].0 in merged && s == Section(labels[0].1, merged[labels[0].0]);
        } else {
          var j :| 0 <= j < |labels[1..]| && labels[1..][j].0 in merged
                   && s == Section(labels[1..][j].1, merged[labels[1..][j].0]);
          assert labels[j + 1] == labels[1..][j];
        }
      }
      forall j | 0 <= j < |labels| && labels[j].0 in merged
        ensures Section(labels[j].1, merged[labels[j].0]) in r
      {
        if j > 0 {
          assert labels[1..][j - 1] == labels[j];
        }
      }
    }
  }

  /** The sections follow the label order: those of an earlier stretch of
      the table come before those of a later one. */
  lemma {:induction false} SectionsInOrder(l1: seq<(string, string)>, l2: seq<(string, string)>, merged: Fields)
    ensures SectionsIn(l1 + l2, merged) == SectionsIn(l1, merged) + SectionsIn(l2, merged)
    decreases |l1|
  {
    if |l1| == 0 {
      assert l1 + l2 == l2;
    } else {
      assert (l1 + l2)[1..] == l1[1..] + l2;
      SectionsInOrder(l1[1..], l2, merged);
    }
  }

  /** What the invoker ends with after the call. */
  datatype Shown =
    | LoginRequired                      // `az` gave no token: exit 1
    | ReplyError                         // the reply has a truthy `error`: exit 1
    | Debug(reply: Json)                 // `--key __debug__`: the raw reply
    | NoOutput                           // nothing merged
    | KeyMissing(available: set<string>) // `--key` not in the output: exit 1
    | Sections(sections: seq<Section>)

  /** The part of `invoke()` after the reply is decoded. `--key ""` is no
      key at all, since the test is `if filter_key:`. */
  function Display(dec: Decoder, d: Json, key: Option<string>): (r: Eval<Shown>)
    ensures r.Done? ==> d.Obj? && !r.value.LoginRequired?
    ensures r == Done(ReplyError) <==> d.Obj? && "error" in d.fields && Truthy(d.fields["error"])
    ensures r.Done? && r.value.KeyMissing? ==>
              key.Some? && key.value !in r.value.available && r.value.available != {}
  {
    var err :- Get(d, "error", Null);
    if Truthy(err) then Done(ReplyError)
    else if key == Some("__debug__") then Done(Debug(d))
    else
      var merged :- BlobMerge.MergeReply(dec, d);
      if |merged| == 0 then Done(NoOutput)
      else if key.Some? && key.value != "" then
        if key.value !in merged then Done(KeyMissing(merged.Keys))
        else Done(Sections([Section(TitleIn(Labels, key.value), merged[key.value])]))
      else Done(Sections(SectionsIn(Labels, merged)))
  }

  /** With a key: exactly that key's value is shown, under its title (the
      key in upper case when it has no label); a key the output lacks is an
      error that lists the keys there are. An empty output ends quietly
      before the key is looked at. */
  lemma KeyFilter(dec: Decoder, d: Json, k: string)
    requires k != "" && k != "__debug__"
    requires d.Obj? && !("error" in d.fields && Truthy(d.fields["error"]))
    requires BlobMerge.MergeReply(dec, d).Done?
    ensures var merged := BlobMerge.MergeReply(dec, d).value;
            var r := Display(dec, d, Some(k));
            && (|merged| == 0 ==> r == Done(NoOutput))
            && (|merged| > 0 && k !in merged ==> r == Done(KeyMissing(merged.Keys)))
            && (k in merged ==> r == Done(Sections([Section(TitleIn(Labels, k), merged[k])])))
  {
  }

  /** The debug key shows the raw reply without merging it, so a reply
      whose parts would not merge is still shown. */
  lemma DebugSkipsMerge(dec: Decoder, d: Json)
    requires d.Obj? && !("error" in d.fields && Truthy(d.fields["error"]))
    ensures Display(dec, d, Some("__debug__")) == Done(Debug(d))
  {
  }

  /** `invoke()` from the token on. The timeout or a connection error is
      not caught: the script dies with a traceback. */
  function Invoke(dec: Decoder, s: AgentRequest.Settings, content: string, token: Option<string>,
                  send: (string, Json) -> AgentRequest.Transport, key: Option<string>): Eval<Shown>
  {
    if token.None? then Done(LoginRequired)
    else match send(AgentRequest.ResponsesUrl(s.endpoint), CliRequest(dec, s, content))
      case Replied(_, d) => Display(dec, d, key)
      case _ => Raised
  }

  /** `main()`. None for the exits before any call: no endpoint, or no
      matching file. */
  function Main(dec: Decoder, env: AgentRequest.Env, args: Args, demos: seq<DataFiles.File>,
                scenarios: seq<DataFiles.File>, token: Option<string>,
                send: (string, Json) -> AgentRequest.Transport): (r: Eval<Option<Shown>>)
    requires ExclusiveArgs(args)
    ensures AgentRequest.GetConfig(env).None? ==> r == Done(None)
    ensures r.Done? && r.value.Some? ==> (r.value.value == LoginRequired <==> token.None?)
  {
    match AgentRequest.GetConfig(env)
    case None => Done(None)
    case Some(s) =>
      match ContentFor(args, demos, scenarios)
      case NoFile => Done(None)
      case Unreadable => Raised
      case Chosen(content) =>
        var shown :- Invoke(dec, s, content, token, send, args.key);
        Done(Some(shown))
  }

  /** The process exit status: 1 for a traceback and for every error exit,
      0 otherwise. */
  function ExitCode(r: Eval<Option<Shown>>): int {
    match r
    case Raised => 1
    case Done(None) => 1
    case Done(Some(LoginRequired)) => 1
    case Done(Some(ReplyError)) => 1
    case Done(Some(KeyMissing(_))) => 1
    case Done(Some(_)) => 0
  }

  /** The script succeeds exactly when it shows something: the raw reply,
      the note that nothing came back, or sections; it fails on a missing
      endpoint before looking for any file, and on a missing key only when
      the output is not empty. */
  lemma ExitStatus(dec: Decoder, env: AgentRequest.Env, args: Args, demos: seq<DataFiles.File>,
                   scenarios: seq<DataFiles.File>, token: Option<string>,
                   send: (string, Json) -> AgentRequest.Transport)
    requires ExclusiveArgs(args)
    ensures var r := Main(dec, env, args, demos, scenarios, token, send);
            ExitCode(r) == 0 <==> r.Done? && r.value.Some? && (r.value.value.Debug? || r.value.value.NoOutput? || r.value.value.Sections?)
    ensures AgentRequest.Endpoint(env) == [] ==> Main(dec, env, args, demos, scenarios, token, send) == Done(None)
  {
  }
}
