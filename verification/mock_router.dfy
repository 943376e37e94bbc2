/** The golden-response table behind mock mode: how golden files are keyed
    and loaded, how a response is looked up, and the fake model response. */
module MockRouter {
  import opened Wrappers
  import opened JsonValue
  import PyText
  import MapFold
  import DataFiles

  /** A key of the golden table. A file's `_incident_id` may be any hashable
      JSON value; only a string one can ever be found by a lookup. */
  datatype Key = Id(id: string) | OtherKey(value: Json)

  type Table = map<Key, Fields>

  /** The key a golden file is stored under, or None when the loader's
      `try` block raises for it: unreadable or unparseable text, contents
      that are not a dict (no `.get`), or an unhashable `_incident_id` (a
      list or dict). Without `_incident_id` the key is the file's stem. */
  function KeyOf(dec: Decoder, f: DataFiles.File): (r: Option<Key>)
    ensures r.Some? ==> DataFiles.Parse(dec, f).Some? && DataFiles.Parse(dec, f).value.Obj?
    ensures r.Some? && "_incident_id" !in DataFiles.Parse(dec, f).value.fields ==>
              r == Some(Id(DataFiles.JsonStem(f.name)))
  {
    match DataFiles.Parse(dec, f)
    case None => None
    case Some(j) =>
      if !j.Obj? then None
      else
        var iid := if "_incident_id" in j.fields then j.fields["_incident_id"] else Str(DataFiles.JsonStem(f.name));
        if iid.Arr? || iid.Obj? then None
        else if iid.Str? then Some(Id(iid.s))
        else Some(OtherKey(iid))
  }

  /** The contents a keyed file is stored with. */
  function Stored(dec: Decoder, f: DataFiles.File): Fields
    requires KeyOf(dec, f).Some?
  {
    DataFiles.Parse(dec, f).value.fields
  }

  /** What one file adds to the table. */
  function Entry(dec: Decoder, f: DataFiles.File): (r: Table)
    ensures KeyOf(dec, f).None? <==> r == map[]
  {
    match KeyOf(dec, f)
    case None => map[]
    case Some(k) =>
      assert k in map[k := Stored(dec, f)];
      map[k := Stored(dec, f)]
  }

  function Entries(dec: Decoder, files: seq<DataFiles.File>): (r: seq<Table>)
    ensures |r| == |files|
  {
    seq(|files|, i requires 0 <= i < |files| => Entry(dec, files[i]))
  }

  /** `_load_golden_responses()`: nothing happens once the table holds an
      entry or when the directory is missing; otherwise the `*.json` files
      are stored in sorted-name order, each under its key. */
  function LoadGolden(dec: Decoder, table: Table, dirExists: bool, files: seq<DataFiles.File>): (r: Table)
    ensures |table| > 0 || !dirExists ==> r == table
  {
    if |table| > 0 || !dirExists then table
    else MapFold.Fold(table, Entries(dec, DataFiles.Listing(files, "")))
  }

  /** A file is the last one, in sorted-name order, stored under `k`. */
  predicate LastWithKey(dec: Decoder, sorted: seq<DataFiles.File>, i: int, k: Key) {
    && 0 <= i < |sorted|
    && KeyOf(dec, sorted[i]) == Some(k)
    && forall j | i < j < |sorted| :: KeyOf(dec, sorted[j]) != Some(k)
  }

  /** Folding the entries of `files` in the given order: a key is present
      iff some loadable file carries it, and its value is the contents of
      the last such file. */
  lemma {:induction false} EntriesFold(dec: Decoder, files: seq<DataFiles.File>, k: Key)
    ensures var r := MapFold.Fold(map[], Entries(dec, files));
            k in r <==> exists i | 0 <= i < |files| :: KeyOf(dec, files[i]) == Some(k)
    ensures var r := MapFold.Fold(map[], Entries(dec, files));
            forall i | LastWithKey(dec, files, i, k) :: k in r && r[k] == Stored(dec, files[i])
  {
    var es := Entries(dec, files);
    MapFold.LaterWins(map[], es, k);
    assert forall i | 0 <= i < |files| :: k in es[i] <==> KeyOf(dec, files[i]) == Some(k);
    forall i | LastWithKey(dec, files, i, k)
      ensures MapFold.LastIndexOf(es, k) == i
    {
      assert k in es[i];
    }
  }

  /** Some `*.json` file of the directory carries `k` iff some file of its
      sorted listing does. */
  lemma SomeFileKeyed(dec: Decoder, files: seq<DataFiles.File>, k: Key)
    ensures var sorted := DataFiles.Listing(files, "");
            (exists f | f in files && DataFiles.Matches(f.name, "") :: KeyOf(dec, f) == Some(k))
            <==> (exists j | 0 <= j < |sorted| :: KeyOf(dec, sorted[j]) == Some(k))
  {
    var sorted := DataFiles.Listing(files, "");
    if exists f | f in files && DataFiles.Matches(f.name, "") :: KeyOf(dec, f) == Some(k) {
      var f :| f in files && DataFiles.Matches(f.name, "") && KeyOf(dec, f) == Some(k);
      assert f in sorted;
      var j :| 0 <= j < |sorted| && sorted[j] == f;
    }
  }

  /** Loading into the empty table: a key is present iff some `*.json` file
      that loads carries it (files that raise are skipped, the rest still
      load), and its value is the contents of the last such file in
      sorted-name order. */
  lemma GoldenKeying(dec: Decoder, files: seq<DataFiles.File>, k: Key)
    ensures var r := LoadGolden(dec, map[], true, files);
            k in r <==> exists f | f in files && DataFiles.Matches(f.name, "") :: KeyOf(dec, f) == Some(k)
    ensures var sorted := DataFiles.Listing(files, "");
            var r := LoadGolden(dec, map[], true, files);
            forall i | LastWithKey(dec, sorted, i, k) :: k in r && r[k] == Stored(dec, sorted[i])
  {
    var sorted := DataFiles.Listing(files, "");
    assert LoadGolden(dec, map[], true, files) == MapFold.Fold(map[], Entries(dec, sorted));
    EntriesFold(dec, sorted, k);
    SomeFileKeyed(dec, files, k);
  }

  /** The response handed out: every key of the stored one except those
      starting with `_`. */
  function Public(m: Fields): (r: Fields)
    ensures forall k | k in r :: !PyText.StartsWith(k, "_")
    ensures forall k | k in m && !PyText.StartsWith(k, "_") :: k in r && r[k] == m[k]
    ensures r.Keys <= m.Keys
  {
    map k | k in m && !PyText.StartsWith(k, "_") :: m[k]
  }

  /** `get_mock_response(incident_id)` on the loaded table. The result is a
      fresh mapping; the table itself is a value and cannot change. */
  function GetMockResponse(table: Table, incidentId: string): (r: Option<Fields>)
    ensures r.Some? ==> forall k | k in r.value :: !PyText.StartsWith(k, "_")
  {
    if Id(incidentId) in table then Some(Public(table[Id(incidentId)]))
    else if Id("_default") in table then Some(Public(table[Id("_default")]))
    else None
  }

  /** Which stored response a lookup hands out: the exact match wins over
      `_default`, `_default` is the fallback, and there is none only when
      both are missing. */
  lemma LookupOrder(table: Table, incidentId: string)
    ensures Id(incidentId) in table ==>
              GetMockResponse(table, incidentId) == Some(Public(table[Id(incidentId)]))
    ensures Id(incidentId) !in table && Id("_default") in table ==>
              GetMockResponse(table, incidentId) == Some(Public(table[Id("_default")]))
    ensures GetMockResponse(table, incidentId).None? <==>
              Id(incidentId) !in table && Id("_default") !in table
  {
  }

  /** A lookup keeps every public key of the stored response with its value,
      and adds nothing. */
  lemma LookupKeepsPublicKeys(table: Table, incidentId: string, k: string)
    requires Id(incidentId) in table
    ensures var stored := table[Id(incidentId)];
            var r := GetMockResponse(table, incidentId).value;
            k in r <==> k in stored && !PyText.StartsWith(k, "_")
    ensures var stored := table[Id(incidentId)];
            var r := GetMockResponse(table, incidentId).value;
            k in r ==> r[k] == stored[k]
  {
  }

  const MockModel: string := "mock-model-router"

  /** The shape of a chat completion the mock path fakes. */
  datatype ModelResponse = ModelResponse(
    content: string,
    model: string,
    promptTokens: int,
    completionTokens: int,
    choices: seq<string>)

  /** `MockModelResponse(content, model)`: both token counts are a quarter of
      the content length, rounded down, and there is exactly one choice. */
  function MockModelResponse(content: string, model: string := MockModel): (r: ModelResponse)
    ensures r.content == content && r.model == model
    ensures r.promptTokens == r.completionTokens
    ensures 4 * r.promptTokens <= |content| < 4 * r.promptTokens + 4
    ensures r.choices == [content]
  {
    ModelResponse(content, model, |content| / 4, |content| / 4, [content])
  }
}
