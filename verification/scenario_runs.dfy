/** What the two scenario runners (the live runner and the local mock-mode
    validator) share: which scenario files `--scenario N` selects, the loop
    that checks every entry of a list in a reply, and the pass/fail tally
    that decides the exit code. */
module ScenarioRuns {
  import opened Wrappers
  import opened JsonValue
  import PyText
  import StrOrder
  import DataFiles
  import InvokeCli

  const ScenarioStem: string := "scenario_"

  /** `f"scenario_{only}"`, the text the runners look for in a file name. */
  function Needle(n: int): string {
    ScenarioStem + PyText.IntToString(n)
  }

  /** `[f for f in files if needle in f.name]` */
  function Containing(files: seq<DataFiles.File>, needle: string): (r: seq<DataFiles.File>)
    ensures forall f :: f in r <==> f in files && PyText.Contains(f.name, needle)
  {
    if |files| == 0 then []
    else (if PyText.Contains(files[0].name, needle) then [files[0]] else []) + Containing(files[1..], needle)
  }

  /** Keeping some entries of a sorted listing keeps it sorted. */
  lemma {:induction false} ContainingSorted(files: seq<DataFiles.File>, needle: string)
    requires StrOrder.SortedBy(files, DataFiles.NameOf)
    ensures StrOrder.SortedBy(Containing(files, needle), DataFiles.NameOf)
  {
    if |files| > 0 {
      var rest := Containing(files[1..], needle);
      assert StrOrder.SortedBy(files[1..], DataFiles.NameOf) by {
        forall i, j | 0 <= i < j < |files[1..]|
          ensures StrOrder.AtMost(files[1..][i].name, files[1..][j].name)
        {
          assert files[1..][i] == files[i + 1] && files[1..][j] == files[j + 1];
        }
      }
      ContainingSorted(files[1..], needle);
      if PyText.Contains(files[0].name, needle) {
        var r := [files[0]] + rest;
        forall i, j | 0 <= i < j < |r|
          ensures StrOrder.AtMost(r[i].name, r[j].name)
        {
          if i == 0 {
            assert r[j] in rest;
            var k :| 0 <= k < |files[1..]| && files[1..][k] == r[j];
            assert files[k + 1] == r[j];
          } else {
            assert r[i] == rest[i - 1] && r[j] == rest[j - 1];
          }
        }
      }
    }
  }

  /** The files `--scenario` selects, as written: every `scenario_*.json`
      whose name contains `scenario_N` anywhere. */
  predicate Selected(name: string, only: Option<int>) {
    DataFiles.Matches(name, ScenarioStem) && (only.Some? ==> PyText.Contains(name, Needle(only.value)))
  }

  /** `discover_scenarios(only)` as written: the sorted selection, None
      where it is empty and the script exits with status 1. A given `0` is
      a selection too (the test is `is not None`). */
  function Discover(files: seq<DataFiles.File>, only: Option<int>): (r: Option<seq<DataFiles.File>>)
    ensures r.None? <==> forall f | f in files :: !Selected(f.name, only)
    ensures r.Some? ==> StrOrder.SortedBy(r.value, DataFiles.NameOf)
    ensures r.Some? ==> forall f :: f in r.value <==> f in files && Selected(f.name, only)
  {
    var listing := DataFiles.Listing(files, ScenarioStem);
    var chosen := if only.Some? then Containing(listing, Needle(only.value)) else listing;
    assert StrOrder.SortedBy(chosen, DataFiles.NameOf) by {
      if only.Some? {
        ContainingSorted(listing, Needle(only.value));
      }
    }
    if |chosen| == 0 then
      assert forall f | f in files && Selected(f.name, only) :: f in chosen;
      None
    else
      assert chosen[0] in files && Selected(chosen[0].name, only);
      Some(chosen)
  }

  /** The files a corrected `--scenario N` selects: those named
      `scenario_N_*.json`, the pattern the command-line invoker globs. */
  predicate SelectedExactly(name: string, only: Option<int>) {
    if only.Some? then DataFiles.Matches(name, InvokeCli.ScenarioPrefix(only.value))
    else DataFiles.Matches(name, ScenarioStem)
  }

  /** `discover_scenarios(only)` with the number matched up to its
      underscore, so that scenario 1 no longer selects scenario 10. */
  function DiscoverExact(files: seq<DataFiles.File>, only: Option<int>): (r: Option<seq<DataFiles.File>>)
    ensures r.None? <==> forall f | f in files :: !SelectedExactly(f.name, only)
    ensures r.Some? ==> StrOrder.SortedBy(r.value, DataFiles.NameOf)
    ensures r.Some? ==> forall f :: f in r.value <==> f in files && SelectedExactly(f.name, only)
  {
    var prefix := if only.Some? then InvokeCli.ScenarioPrefix(only.value) else ScenarioStem;
    var chosen := DataFiles.Listing(files, prefix);
    if |chosen| == 0 then None
    else
      assert chosen[0] in files;
      Some(chosen)
  }

  /** Every file the corrected filter selects, the written one selects too. */
  lemma ExactIsNarrower(name: string, only: Option<int>)
    requires SelectedExactly(name, only)
    ensures Selected(name, only)
  {
    if only.Some? {
      var p := InvokeCli.ScenarioPrefix(only.value);
      var needle := Needle(only.value);
      assert p == needle + "_";
      assert name[..|needle|] == needle by {
        assert name[..|p|] == p;
        assert name[..|needle|] == name[..|p|][..|needle|];
      }
      assert PyText.OccursAt(name, needle, 0);
      assert ScenarioStem == needle[..|ScenarioStem|];
      assert name[..|ScenarioStem|] == name[..|needle|][..|ScenarioStem|];
    }
  }

  /** `str(10 * n + d)` is `str(n)` followed by the digit `d`. */
  lemma AppendDigit(n: nat, d: nat)
    requires 1 <= n && d < 10
    ensures PyText.IntToString(10 * n + d) == PyText.IntToString(n) + [PyText.DigitChar(d)]
  {
    assert (10 * n + d) / 10 == n && (10 * n + d) % 10 == d;
  }

  /** As written, `--scenario n` also runs scenario `10n + d` (scenario 1
      runs scenario 10 to 19 too); the corrected filter does not. */
  lemma SubstringOverselects(n: nat, d: nat, tail: string)
    requires 1 <= n && d < 10
    ensures var name := InvokeCli.ScenarioPrefix(10 * n + d) + tail + DataFiles.JsonSuffix;
            Selected(name, Some(n)) && !SelectedExactly(name, Some(n))
  {
    var name := InvokeCli.ScenarioPrefix(10 * n + d) + tail + DataFiles.JsonSuffix;
    var needle := Needle(n);
    AppendDigit(n, d);
    assert InvokeCli.ScenarioPrefix(10 * n + d) == needle + [PyText.DigitChar(d)] + "_";
    assert name[..|needle|] == needle;
    assert PyText.OccursAt(name, needle, 0);
    assert name[..|ScenarioStem|] == needle[..|ScenarioStem|];
    assert name[|name| - 5..] == DataFiles.JsonSuffix;
    var p := InvokeCli.ScenarioPrefix(n);
    assert p == needle + "_";
    assert name[|needle|] == PyText.DigitChar(d) != p[|needle|];
  }

  /** The number of failed runs among the outcomes (true = passed). */
  function Failures(outcomes: seq<bool>): (r: nat)
    ensures r <= |outcomes|
    ensures r == 0 <==> forall i | 0 <= i < |outcomes| :: outcomes[i]
  {
    if |outcomes| == 0 then 0
    else Failures(outcomes[..|outcomes| - 1]) + (if outcomes[|outcomes| - 1] then 0 else 1)
  }

  /** The `passed`/`failed` counters of `main`, one scenario at a time. */
  method Tally(outcomes: seq<bool>) returns (passed: nat, failed: nat)
    ensures passed + failed == |outcomes|
    ensures failed == Failures(outcomes)
    ensures failed == 0 <==> forall i | 0 <= i < |outcomes| :: outcomes[i]
  {
    passed, failed := 0, 0;
    var i := 0;
    while i < |outcomes|
      invariant 0 <= i <= |outcomes|
      invariant passed + failed == i
      invariant failed == Failures(outcomes[..i])
    {
      assert outcomes[..i + 1][..i] == outcomes[..i];
      if outcomes[i] {
        passed := passed + 1;
      } else {
        failed := failed + 1;
      }
      i := i + 1;
    }
    assert outcomes[..i] == outcomes;
  }

  /** `sys.exit(1)` when any scenario failed, normal exit otherwise. */
  function ExitCode(failed: nat): (code: int)
    ensures code == 0 <==> failed == 0
    ensures code == 0 || code == 1
  {
    if failed > 0 then 1 else 0
  }

  /** `rc.get("confidence", -1)`, as both runners read a root cause. */
  function Confidence(rc: Fields): Json {
    if "confidence" in rc then rc["confidence"] else Int(-1)
  }

  /** `act.get("priority")`, as both runners read an action. */
  function Priority(act: Fields): Json {
    if "priority" in act then act["priority"] else Null
  }

  /** `if key in data: for i, rec in enumerate(data[key]): ...`: the
      findings of `check` on every record listed under `key`, none when the
      key is absent. */
  function Listed<E>(data: Json, key: string, check: (nat, Fields) -> Eval<seq<E>>): Eval<seq<E>> {
    var list :- Member(data, key);
    match list
    case None => Done([])
    case Some(v) =>
      var recs :- Records(v);
      Collect(recs, check, 0)
  }

  /** `for i, rec in enumerate(recs): issues += check(i, rec)` from
      position `i` on: every record's issues in record order, Raised where
      `check` raises on any record. */
  function Collect<E>(recs: seq<Fields>, check: (nat, Fields) -> Eval<seq<E>>, i: nat): (r: Eval<seq<E>>)
    requires i <= |recs|
    ensures r.Done? <==> forall j | i <= j < |recs| :: check(j, recs[j]).Done?
    ensures r.Done? ==> forall j, x | i <= j < |recs| && check(j, recs[j]).Done? && x in check(j, recs[j]).value ::
                          x in r.value
    ensures r.Done? ==> forall x | x in r.value ::
                          exists j | i <= j < |recs| :: check(j, recs[j]).Done? && x in check(j, recs[j]).value
    decreases |recs| - i
  {
    if i == |recs| then Done([])
    else
      var mine :- check(i, recs[i]);
      var rest :- Collect(recs, check, i + 1);
      Done(mine + rest)
  }
}
