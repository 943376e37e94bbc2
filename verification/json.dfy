/** JSON values as Python's `json` module produces them, and the handful of
    Python operations the scripts apply to such values (with the exceptions
    they raise on unexpected shapes). */
module JsonValue {
  import opened Wrappers
  import PyText

  /** A decoded JSON value. `Int` and `Float` are kept apart as Python keeps
      `int` and `float` apart. */
  datatype Json =
    | Null
    | Bool(b: bool)
    | Int(i: int)
    | Float(f: real)
    | Str(s: string)
    | Arr(items: seq<Json>)
    | Obj(fields: map<string, Json>)

  type Fields = map<string, Json>

  /** Number of characters one decoded value spans; never zero. */
  type Width = n: nat | 0 < n witness 1

  /** `json.JSONDecoder().raw_decode(s, pos)`, applied to `s[pos:]`: the value
      that starts exactly at the beginning of the text and the number of
      characters it spans, or None where the decoder raises
      `JSONDecodeError`. Python's scanner reads nothing before `pos`, so the
      decoder is given only the rest of the text. */
  type Decoder = string -> Option<(Json, Width)>

  /** The whitespace the JSON grammar (and the merge loops) skip. */
  predicate IsJsonWs(c: char) {
    c == ' ' || c == '\t' || c == '\n' || c == '\r'
  }

  /** First position at or after `pos` that is not JSON whitespace. */
  function SkipJsonWs(s: string, pos: nat): (q: nat)
    ensures pos <= q
    ensures q <= |s| || q == pos
    ensures forall i | pos <= i < q :: IsJsonWs(s[i])
    ensures q < |s| ==> !IsJsonWs(s[q])
    decreases |s| - pos
  {
    if pos < |s| && IsJsonWs(s[pos]) then SkipJsonWs(s, pos + 1) else pos
  }

  /** `json.loads(s)`: skip whitespace, decode one value, skip whitespace, and
      reject anything left over ("Extra data"). */
  function Loads(dec: Decoder, s: string): (r: Option<Json>)
    ensures r.Some? ==> dec(s[SkipJsonWs(s, 0)..]).Some?
                        && r.value == dec(s[SkipJsonWs(s, 0)..]).value.0
  {
    var start := SkipJsonWs(s, 0);
    match dec(s[start..])
    case None => None
    case Some((v, w)) => if SkipJsonWs(s, start + w) == |s| then Some(v) else None
  }

  /** Outcome of a Python expression that may raise (`AttributeError`,
      `TypeError`, `KeyError`) on a value of the wrong shape. */
  datatype Eval<+T> = Done(value: T) | Raised {

    predicate IsFailure() {
      Raised?
    }

    function PropagateFailure<U>(): Eval<U>
      requires Raised?
    {
      Raised
    }

    function Extract(): T
      requires Done?
    {
      value
    }
  }

  /** Python truth value (`if x:` / `not x`). */
  predicate Truthy(j: Json) {
    match j
    case Null => false
    case Bool(b) => b
    case Int(i) => i != 0
    case Float(f) => f != 0.0
    case Str(s) => |s| > 0
    case Arr(a) => |a| > 0
    case Obj(m) => |m| > 0
  }

  /** `j.get(k, default)`; only a dict has `.get`. */
  function Get(j: Json, k: string, default: Json): (r: Eval<Json>)
    ensures r.Done? <==> j.Obj?
    ensures r.Done? ==> r.value == (if k in j.fields then j.fields[k] else default)
  {
    if j.Obj? then Done(if k in j.fields then j.fields[k] else default) else Raised
  }

  /** `k in j` for a string `k`: a key of a dict, an element of a list, a
      piece of a string; a number, bool or None raises. */
  function In(k: string, j: Json): (r: Eval<bool>)
    ensures r.Done? <==> j.Obj? || j.Arr? || j.Str?
    ensures j.Obj? ==> r == Done(k in j.fields)
    ensures j.Arr? ==> r == Done(Str(k) in j.items)
  {
    match j
    case Obj(m) => Done(k in m)
    case Arr(a) => Done(Str(k) in a)
    case Str(s) => Done(PyText.Contains(s, k))
    case _ => Raised
  }

  /** `if k in j: ... j[k]`: the value stored under `k`, None when the
      membership test is false, Raised when either step raises (a list or
      string that contains `k` cannot be indexed by it; `in` on a number,
      bool or None raises). */
  function Member(j: Json, k: string): (r: Eval<Option<Json>>)
    ensures j.Obj? ==> r == Done(if k in j.fields then Some(j.fields[k]) else None)
    ensures r.Done? && r.value.Some? ==> j.Obj?
  {
    match j
    case Obj(m) => Done(if k in m then Some(m[k]) else None)
    case Arr(a) => if Str(k) in a then Raised else Done(None)
    case Str(s) => if PyText.Contains(s, k) then Raised else Done(None)
    case _ => Raised
  }

  /** `for x in j: x.get(...)`: the dicts `j` yields. Iterating a dict or a
      string yields strings, which have no `.get`, so only an empty one gets
      through; numbers, bools and None are not iterable. */
  function Records(j: Json): (r: Eval<seq<Fields>>)
    ensures r.Done? ==> |r.value| == (if j.Arr? then |j.items| else 0)
    ensures r.Done? && j.Arr? ==> forall i | 0 <= i < |j.items| :: j.items[i] == Obj(r.value[i])
    ensures j.Arr? && (forall i | 0 <= i < |j.items| :: j.items[i].Obj?) ==> r.Done?
  {
    match j
    case Arr(a) =>
      if forall i | 0 <= i < |a| :: a[i].Obj? then
        Done(seq(|a|, i requires 0 <= i < |a| => a[i].fields))
      else Raised
    case Obj(m) => if |m| == 0 then Done([]) else Raised
    case Str(s) => if |s| == 0 then Done([]) else Raised
    case _ => Raised
  }

  /** Numeric view Python uses in comparisons (`bool` is an `int`). */
  function NumericValue(j: Json): Option<real> {
    match j
    case Bool(b) => Some(if b then 1.0 else 0.0)
    case Int(i) => Some(i as real)
    case Float(f) => Some(f)
    case _ => None
  }

  /** `0 <= j <= 1`; comparing a non-number with an int raises. */
  function Between01(j: Json): (r: Eval<bool>)
    ensures r.Done? <==> NumericValue(j).Some?
    ensures r.Done? ==> (r.value <==> 0.0 <= NumericValue(j).value <= 1.0)
  {
    match NumericValue(j)
    case None => Raised
    case Some(x) => Done(0.0 <= x <= 1.0)
  }

  /** `j in {"..", ..}` for a set of strings; lists and dicts are unhashable. */
  function InStrings(j: Json, options: set<string>): (r: Eval<bool>)
    ensures r.Done? <==> !(j.Arr? || j.Obj?)
    ensures r.Done? ==> (r.value <==> j.Str? && j.s in options)
  {
    if j.Arr? || j.Obj? then Raised else Done(j.Str? && j.s in options)
  }
}
