/** The JSON files the programs read from their data directories (golden
    outputs, demos, scenarios): which ones a `dir.glob(prefix + "*.json")`
    picks, the order `sorted(...)` puts them in, and what reading and
    parsing one gives. */
module DataFiles {
  import opened Wrappers
  import opened JsonValue
  import PyText
  import StrOrder

  /** A directory entry: its name and its text, None where reading it
      raises. */
  datatype File = File(name: string, text: Option<string>)

  function NameOf(f: File): string {
    f.name
  }

  const JsonSuffix: string := ".json"

  /** The glob pattern `prefix*.json` on a file name: the prefix and the
      suffix may not overlap, the `*` matches any rest. */
  predicate Matches(name: string, prefix: string) {
    && |prefix| + |JsonSuffix| <= |name|
    && PyText.StartsWith(name, prefix)
    && PyText.EndsWith(name, JsonSuffix)
  }

  /** `Path(name).stem` for a name ending in `.json`: the name without the
      suffix, except that a name that is only the suffix is a hidden file
      with no suffix at all. */
  function JsonStem(name: string): (r: string)
    ensures PyText.EndsWith(name, JsonSuffix) && |name| > |JsonSuffix| ==> r + JsonSuffix == name
  {
    if PyText.EndsWith(name, JsonSuffix) && |name| > |JsonSuffix| then name[..|name| - |JsonSuffix|] else name
  }

  /** The entries that match `prefix*.json`, in directory order. */
  function Glob(files: seq<File>, prefix: string): (r: seq<File>)
    ensures forall f :: f in r <==> f in files && Matches(f.name, prefix)
    ensures |r| <= |files|
  {
    if |files| == 0 then []
    else (if Matches(files[0].name, prefix) then [files[0]] else []) + Glob(files[1..], prefix)
  }

  /** `sorted(dir.glob(prefix + "*.json"))`: the matching entries, by name. */
  function Listing(files: seq<File>, prefix: string): (r: seq<File>)
    ensures StrOrder.SortedBy(r, NameOf)
    ensures forall f :: f in r <==> f in files && Matches(f.name, prefix)
  {
    var g := Glob(files, prefix);
    var r := StrOrder.SortBy(g, NameOf);
    assert forall f :: f in r <==> f in g by {
      forall f
        ensures f in r <==> f in g
      {
        assert f in r <==> f in multiset(r);
        assert f in g <==> f in multiset(g);
      }
    }
    r
  }

  /** `json.loads(path.read_text())`, None where either raises. */
  function Parse(dec: Decoder, f: File): (r: Option<Json>)
    ensures r.Some? ==> f.text.Some? && Loads(dec, f.text.value) == r
  {
    match f.text
    case None => None
    case Some(t) => Loads(dec, t)
  }
}
