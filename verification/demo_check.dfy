/** The demo sweep against the local UI server: every listed incident is
    loaded and invoked, the output is classified by which of the four UI
    panels it would fill, and the run exits with status 0 only when every
    incident filled all four. */
module DemoCheck {
  import opened Wrappers
  import opened JsonValue
  import MapFold
  import Agents

  // ----------------------------------------------------------------- panels

  /** The four panels of the UI, one per specialist agent. */
  datatype Panel = TriagePanel | SummaryPanel | CommsPanel | PirPanel

  /** The order in which `panels` is filled and `missing_panels` listed. */
  const PanelOrder: seq<Panel> := [TriagePanel, SummaryPanel, CommsPanel, PirPanel]

  /** A panel's position in that order. */
  function Rank(p: Panel): nat {
    match p
    case TriagePanel => 0
    case SummaryPanel => 1
    case CommsPanel => 2
    case PirPanel => 3
  }

  /** `REQUIRED_KEYS[p]`: any one of them fills the panel. */
  function RequiredKeys(p: Panel): seq<string> {
    match p
    case TriagePanel => ["suspected_root_causes", "immediate_actions"]
    case SummaryPanel => ["summary"]
    case CommsPanel => ["comms"]
    case PirPanel => ["post_incident_report"]
  }

  /** `any(k in output_keys for k in REQUIRED_KEYS[p])` */
  predicate Populated(p: Panel, keys: set<string>) {
    exists k | k in RequiredKeys(p) :: k in keys
  }

  /** Each panel is filled from the keys of one agent: its required keys
      are among those the agent in the same position declares. */
  lemma PanelKeysDeclared(p: Panel)
    ensures Rank(p) < |Agents.Declared| && PanelOrder[Rank(p)] == p
    ensures forall k | k in RequiredKeys(p) :: k in Agents.Declared[Rank(p)]
  {
  }

  /** Panels listed in strictly increasing rank. */
  predicate Ascending(ps: seq<Panel>) {
    forall i, j | 0 <= i < j < |ps| :: Rank(ps[i]) < Rank(ps[j])
  }

  /** `[p for p, ok in panels.items() if not ok]` over the panels in
      `order`: the unfilled ones. */
  function Missing(order: seq<Panel>, keys: set<string>): (r: seq<Panel>)
    ensures |r| <= |order|
    ensures forall p :: p in r <==> p in order && !Populated(p, keys)
  {
    if |order| == 0 then []
    else
      var rest := Missing(order[1..], keys);
      assert forall p | p in rest :: p in order[1..];
      if Populated(order[0], keys) then rest else [order[0]] + rest
  }

  /** Filtering keeps the order of the panels it keeps. */
  lemma {:induction false} MissingAscending(order: seq<Panel>, keys: set<string>)
    requires Ascending(order)
    ensures Ascending(Missing(order, keys))
  {
    if |order| > 0 {
      var rest := Missing(order[1..], keys);
      assert Ascending(order[1..]) by {
        forall i, j | 0 <= i < j < |order[1..]| ensures Rank(order[1..][i]) < Rank(order[1..][j]) {
          assert order[1..][i] == order[i + 1] && order[1..][j] == order[j + 1];
        }
      }
      MissingAscending(order[1..], keys);
      if !Populated(order[0], keys) {
        var r := [order[0]] + rest;
        forall i, j | 0 <= i < j < |r| ensures Rank(r[i]) < Rank(r[j]) {
          if i == 0 {
            assert r[j] in rest;
            var k :| 0 <= k < |order[1..]| && order[1..][k] == r[j];
            assert order[k + 1] == r[j];
          } else {
            assert r[i] == rest[i - 1] && r[j] == rest[j - 1];
          }
        }
      }
    }
  }

  /** The unfilled panels of an output with the given keys. */
  function MissingPanels(keys: set<string>): (r: seq<Panel>)
    ensures forall p :: p in r <==> !Populated(p, keys)
    ensures Ascending(r)
  {
    MissingAscending(PanelOrder, keys);
    assert forall p: Panel :: p in PanelOrder by {
      forall p: Panel ensures p in PanelOrder {
        assert PanelOrder[Rank(p)] == p;
      }
    }
    Missing(PanelOrder, keys)
  }

  // ------------------------------------------------------------- one item

  /** A result's `status`, with what the summary prints: the unfilled
      panels of a partial result, the `error` value of an error. */
  datatype Status = Pass | Partial(missing: seq<Panel>) | Error(error: Json) | Exception

  /** The classification of an output dict by its panels. */
  function Classify(output: Fields): (r: Status)
    ensures r == Pass <==> forall p :: Populated(p, output.Keys)
    ensures r != Pass ==> r.Partial? && r.missing == MissingPanels(output.Keys) && r.missing != []
  {
    var missing := MissingPanels(output.Keys);
    if missing == [] then Pass
    else
      assert missing[0] in missing;
      Partial(missing)
  }

  /** The decision on the invoke reply `data`: a truthy `error` is an
      error whatever else it holds; otherwise `output` (an empty dict when
      absent) is classified. Calling `.get` or `.keys` on something other
      than a dict raises, which the loop reports as an exception. */
  function Judge(data: Json): (r: Status)
    ensures r.Error? <==> data.Obj? && "error" in data.fields && Truthy(data.fields["error"])
    ensures r.Error? ==> r.error == data.fields["error"] && Truthy(r.error)
    ensures r == Pass <==>
              && data.Obj? && !("error" in data.fields && Truthy(data.fields["error"]))
              && "output" in data.fields && data.fields["output"].Obj?
              && forall p :: Populated(p, data.fields["output"].fields.Keys)
  {
    if !data.Obj? then Exception
    else
      var err := if "error" in data.fields then data.fields["error"] else Null;
      if Truthy(err) then Error(err)
      else
        var output := if "output" in data.fields then data.fields["output"] else Obj(map[]);
        if !output.Obj? then Exception
        else
          assert "output" !in data.fields ==> !Populated(TriagePanel, output.fields.Keys);
          Classify(output.fields)
  }

  /** `x[k]` inside the `try`: a dict lookup; anything else raises. */
  function Subscript(j: Json, k: string): Option<Json> {
    if j.Obj? && k in j.fields then Some(j.fields[k]) else None
  }

  /** `test_incident(item)` under the loop's `try`. `load` is the
      `/api/load` request and `invoke` the `/api/invoke` request, each None
      where the request, its status check or its JSON decoding raises;
      every exception becomes `Exception`. */
  function TestIncident(item: Fields, load: (Json, Json) -> Option<Json>, invoke: Json -> Option<Json>): (r: Status)
    ensures r != Exception ==>
              && "file" in item && "type" in item
              && load(item["type"], item["file"]).Some?
              && Subscript(load(item["type"], item["file"]).value, "content").Some?
              && var content := Subscript(load(item["type"], item["file"]).value, "content").value;
                 invoke(content).Some? && r == Judge(invoke(content).value)
  {
    if "label" !in item || "file" !in item || "type" !in item then Exception
    else
      match load(item["type"], item["file"])
      case None => Exception
      case Some(resp) =>
        match Subscript(resp, "content")
        case None => Exception
        case Some(content) =>
          match invoke(content)
          case None => Exception
          case Some(data) => Judge(data)
  }

  // -------------------------------------------------------- agent outputs

  /** Every expected key present fills every panel. */
  lemma ExpectedKeysPass(output: Fields)
    requires Agents.ExpectedKeys <= output.Keys
    ensures Classify(output) == Pass
  {
    forall p: Panel ensures Populated(p, output.Keys) {
      assert RequiredKeys(p)[0] in Agents.ExpectedKeys;
    }
  }

  /** Four agent replies that each hold every key their agent declares
      merge to an output that passes. */
  lemma CompleteAgentsPass(frags: seq<Fields>)
    requires Agents.WithinDeclared(frags)
    requires forall i | 0 <= i < |frags| :: frags[i].Keys == Agents.Declared[i]
    ensures Classify(MapFold.Fold(map[], frags)) == Pass
  {
    Agents.MergedKeysExpected(frags);
    ExpectedKeysPass(MapFold.Fold(map[], frags));
  }

  /** The panel check is weaker than the scenario runner's key check: a
      triage reply with actions but no root causes still fills the triage
      panel. */
  lemma PassWithoutRootCauses(output: Fields)
    requires output.Keys == {"immediate_actions", "summary", "comms", "post_incident_report"}
    ensures Classify(output) == Pass
    ensures !(Agents.ExpectedKeys <= output.Keys)
  {
    assert "suspected_root_causes" in Agents.ExpectedKeys;
    forall p: Panel ensures Populated(p, output.Keys) {
      assert RequiredKeys(p)[|RequiredKeys(p)| - 1] in output.Keys;
    }
  }

  // -------------------------------------------------------------- the run

  /** A result the summary counts as failed. */
  predicate IsFailed(s: Status) {
    s.Error? || s == Exception
  }

  function CountPassed(results: seq<Status>): (n: nat)
    ensures n <= |results|
    ensures n == |results| <==> forall i | 0 <= i < |results| :: results[i] == Pass
  {
    if |results| == 0 then 0
    else CountPassed(results[..|results| - 1]) + (if results[|results| - 1] == Pass then 1 else 0)
  }

  function CountPartial(results: seq<Status>): (n: nat)
    ensures n <= |results|
    ensures n == 0 <==> forall i | 0 <= i < |results| :: !results[i].Partial?
  {
    if |results| == 0 then 0
    else CountPartial(results[..|results| - 1]) + (if results[|results| - 1].Partial? then 1 else 0)
  }

  function CountFailed(results: seq<Status>): (n: nat)
    ensures n <= |results|
    ensures n == 0 <==> forall i | 0 <= i < |results| :: !IsFailed(results[i])
  {
    if |results| == 0 then 0
    else CountFailed(results[..|results| - 1]) + (if IsFailed(results[|results| - 1]) then 1 else 0)
  }

  /** The three sums of the summary: every result falls in exactly one of
      them. */
  method Summarise(results: seq<Status>) returns (passed: nat, partial: nat, failed: nat)
    ensures passed == CountPassed(results) && partial == CountPartial(results) && failed == CountFailed(results)
    ensures passed + partial + failed == |results|
  {
    passed, partial, failed := 0, 0, 0;
    var i := 0;
    while i < |results|
      invariant 0 <= i <= |results|
      invariant passed == CountPassed(results[..i])
      invariant partial == CountPartial(results[..i])
      invariant failed == CountFailed(results[..i])
      invariant passed + partial + failed == i
    {
      assert results[..i + 1][..i] == results[..i];
      var s := results[i];
      if s == Pass {
        passed := passed + 1;
      } else if s.Partial? {
        partial := partial + 1;
      } else {
        failed := failed + 1;
      }
      i := i + 1;
    }
    assert results[..i] == results;
  }

  /** `sys.exit(0 if failed == 0 and partial == 0 else 1)` */
  function ExitCode(partial: nat, failed: nat): (code: int)
    ensures code == 0 || code == 1
  {
    if failed == 0 && partial == 0 then 0 else 1
  }

  /** The process status: an uncaught exception ends the interpreter with
      status 1. */
  function ProcessStatus(r: Eval<int>): int {
    if r.Raised? then 1 else r.value
  }

  /** The progress line reads `label`, `type` and `file` outside the
      `try`, so an item lacking any of them ends the whole run. */
  predicate Shown(item: Json) {
    item.Obj? && "label" in item.fields && "type" in item.fields && "file" in item.fields
  }

  /** The summary slices the `error` of every result that has one; an
      error reply whose `error` is neither a string nor a list cannot be
      sliced and ends the run. */
  predicate Sliceable(s: Status) {
    s.Error? ==> s.error.Str? || s.error.Arr?
  }

  /** `main()` over the listed incidents. The process status is 0 exactly
      when every incident was shown and passed; the run ends with an
      uncaught exception only where an incident could not be shown or an
      error reply could not be printed, and in the second case the status
      would have been 1 anyway. */
  method Sweep(incidents: seq<Json>, load: (Json, Json) -> Option<Json>, invoke: Json -> Option<Json>)
    returns (r: Eval<int>)
    ensures r.Done? ==> r.value == 0 || r.value == 1
    ensures ProcessStatus(r) == 0 <==>
              forall item | item in incidents :: Shown(item) && TestIncident(item.fields, load, invoke) == Pass
    ensures r.Raised? && (forall item | item in incidents :: Shown(item)) ==>
              exists item | item in incidents :: TestIncident(item.fields, load, invoke).Error?
  {
    var results: seq<Status> := [];
    var i := 0;
    while i < |incidents|
      invariant 0 <= i <= |incidents|
      invariant |results| == i
      invariant forall j | 0 <= j < i :: Shown(incidents[j]) && results[j] == TestIncident(incidents[j].fields, load, invoke)
    {
      if !Shown(incidents[i]) {
        assert incidents[i] in incidents;
        return Raised;
      }
      results := results + [TestIncident(incidents[i].fields, load, invoke)];
      i := i + 1;
    }
    var passed, partial, failed := Summarise(results);
    if exists j | 0 <= j < |results| :: !Sliceable(results[j]) {
      var j :| 0 <= j < |results| && !Sliceable(results[j]);
      assert incidents[j] in incidents;
      return Raised;
    }
    r := Done(ExitCode(partial, failed));
    assert (forall j | 0 <= j < |results| :: results[j] == Pass) <==>
           (forall item | item in incidents :: Shown(item) && TestIncident(item.fields, load, invoke) == Pass);
  }
}
