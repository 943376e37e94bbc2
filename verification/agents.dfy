/** The four specialist agents and the top-level keys each one declares it
    returns (the docstrings of the four agent modules), and the key set the scenario
    runner expects of the merged reply (scripts/run_scenarios.py). */
module Agents {
  import opened JsonValue
  import MapFold

  const TriageKeys: set<string> :=
    {"suspected_root_causes", "immediate_actions", "missing_information", "runbook_alignment"}
  const SummaryKeys: set<string> := {"summary"}
  const CommsKeys: set<string> := {"comms"}
  const PirKeys: set<string> := {"post_incident_report"}

  /** Declared key sets in fan-out order: triage, summary, comms, pir. */
  const Declared: seq<set<string>> := [TriageKeys, SummaryKeys, CommsKeys, PirKeys]

  /** `EXPECTED_KEYS` of scripts/run_scenarios.py. */
  const ExpectedKeys: set<string> := {
    "suspected_root_causes", "immediate_actions", "missing_information", "runbook_alignment",
    "summary", "comms", "post_incident_report"
  }

  /** The union of the declared sets, agent by agent. */
  function UnionOf(sets: seq<set<string>>): (r: set<string>)
    ensures forall i | 0 <= i < |sets| :: sets[i] <= r
    ensures forall k | k in r :: exists i | 0 <= i < |sets| :: k in sets[i]
  {
    if |sets| == 0 then {} else UnionOf(sets[..|sets| - 1]) + sets[|sets| - 1]
  }

  lemma UnionOfFour(a: set<string>, b: set<string>, c: set<string>, d: set<string>)
    ensures UnionOf([a, b, c, d]) == a + b + c + d
  {
    assert [a][..0] == [];
    assert UnionOf([a]) == a;
    assert [a, b][..1] == [a];
    assert UnionOf([a, b]) == a + b;
    assert [a, b, c][..2] == [a, b];
    assert UnionOf([a, b, c]) == a + b + c;
    assert [a, b, c, d][..3] == [a, b, c];
  }

  /** The expected keys are exactly the keys the four agents declare, and no
      key is declared by two agents. */
  lemma ExpectedIsDisjointUnion()
    ensures ExpectedKeys == UnionOf(Declared)
    ensures forall i, j | 0 <= i < j < |Declared| :: Declared[i] !! Declared[j]
  {
    UnionOfFour(TriageKeys, SummaryKeys, CommsKeys, PirKeys);
    assert TriageKeys !! SummaryKeys && TriageKeys !! CommsKeys && TriageKeys !! PirKeys;
    assert SummaryKeys !! CommsKeys && SummaryKeys !! PirKeys && CommsKeys !! PirKeys;
  }

  /** Fragments within given key sets merge to keys within their union,
      and to the whole union when each fragment has all of its set. */
  lemma FoldWithin(sets: seq<set<string>>, frags: seq<Fields>)
    requires |frags| == |sets| && forall i | 0 <= i < |frags| :: frags[i].Keys <= sets[i]
    ensures MapFold.Fold(map[], frags).Keys <= UnionOf(sets)
    ensures (forall i | 0 <= i < |frags| :: frags[i].Keys == sets[i]) ==>
              MapFold.Fold(map[], frags).Keys == UnionOf(sets)
  {
    var m := MapFold.Fold(map[], frags);
    forall k | k in m
      ensures k in UnionOf(sets)
    {
      MapFold.LaterWins(map[], frags, k);
      var i :| 0 <= i < |frags| && k in frags[i];
      assert k in sets[i];
    }
    if forall i | 0 <= i < |frags| :: frags[i].Keys == sets[i] {
      MapFold.KeysOnlyGrow(map[], frags);
      forall k | k in UnionOf(sets)
        ensures k in m
      {
        var i :| 0 <= i < |sets| && k in sets[i];
        assert k in frags[i];
      }
    }
  }

  /** Fragments that keep to their agents' declared keys. */
  predicate WithinDeclared(frags: seq<Fields>) {
    |frags| == |Declared| && forall i | 0 <= i < |frags| :: frags[i].Keys <= Declared[i]
  }

  /** The four agents' replies merge to the same dict whatever order they
      arrive in: their declared key sets are pairwise disjoint, so no
      `dict.update` overwrites another agent's key. */
  lemma AgentOrderIrrelevant(acc: Fields, frags: seq<Fields>, arrived: seq<Fields>)
    requires WithinDeclared(frags)
    requires multiset(frags) == multiset(arrived)
    ensures MapFold.Fold(acc, frags) == MapFold.Fold(acc, arrived)
  {
    ExpectedIsDisjointUnion();
    assert MapFold.PairwiseDisjoint(frags) by {
      forall i, j | 0 <= i < j < |frags|
        ensures frags[i].Keys !! frags[j].Keys
      {
        assert Declared[i] !! Declared[j];
      }
    }
    MapFold.OrderIndependent(acc, frags, arrived);
  }

  /** Merged from nothing, fragments within their declared keys give a dict
      whose keys are all expected, and all of them when every agent
      returned every key it declares. */
  lemma MergedKeysExpected(frags: seq<Fields>)
    requires WithinDeclared(frags)
    ensures MapFold.Fold(map[], frags).Keys <= ExpectedKeys
    ensures (forall i | 0 <= i < |frags| :: frags[i].Keys == Declared[i]) ==>
              MapFold.Fold(map[], frags).Keys == ExpectedKeys
  {
    ExpectedIsDisjointUnion();
    FoldWithin(Declared, frags);
  }
}
