/** The fan-in step of ui/server.py `_invoke_agent` and scripts/invoke.py
    `invoke`: the agent's reply holds the four specialists' JSON objects
    back to back in its text parts, and the loop walks each part with
    `raw_decode`, updating one dict with every object it finds. */
module BlobMerge {
  import opened Wrappers
  import opened JsonValue
  import PyText
  import MapFold

  /** `if isinstance(obj, dict): merged.update(obj)` */
  function Absorb(acc: Fields, v: Json): Fields {
    if v.Obj? then acc + v.fields else acc
  }

  /** The text after the first `n` characters; empty when a decoder claims
      to have read past the end (the loop's `pos < len(text)` then fails). */
  function Rest(text: string, n: nat): (r: string)
    ensures |r| == if n <= |text| then |text| - n else 0
  {
    if n <= |text| then text[n..] else []
  }

  /** One turn of the `while pos < len(text)` loop, with the loop state `pos`
      represented by the text from `pos` on: skip JSON whitespace, then decode
      one value. None when only whitespace is left or the value does not
      decode; otherwise the value and the text after it, which is shorter. */
  function Next(dec: Decoder, text: string): (r: Option<(Json, string)>)
    ensures r.Some? ==> |r.value.1| < |text|
    ensures r.None? <==> SkipJsonWs(text, 0) >= |text| || dec(text[SkipJsonWs(text, 0)..]).None?
  {
    var p := SkipJsonWs(text, 0);
    if p >= |text| then None
    else match dec(text[p..])
      case None => None
      case Some((v, w)) => Some((v, Rest(text, p + w)))
  }

  /** The loop over one (stripped) text part: every value read is absorbed,
      and the part ends at its end or at the first decode error. */
  function Walk(dec: Decoder, text: string, acc: Fields): (r: Fields)
    ensures acc.Keys <= r.Keys
    decreases |text|
  {
    match Next(dec, text)
    case None => acc
    case Some((v, rest)) => Walk(dec, rest, Absorb(acc, v))
  }

  /** One turn of the walk: the value read is absorbed and the walk goes
      on with the rest of the text. */
  lemma WalkStep(dec: Decoder, text: string, acc: Fields, v: Json, rest: string)
    requires Next(dec, text) == Some((v, rest))
    ensures Walk(dec, text, acc) == Walk(dec, rest, Absorb(acc, v))
  {
  }

  /** The objects the walk meets, in text order, up to the first decode error. */
  function Objects(dec: Decoder, text: string): seq<Fields>
    decreases |text|
  {
    match Next(dec, text)
    case None => []
    case Some((v, rest)) => (if v.Obj? then [v.fields] else []) + Objects(dec, rest)
  }

  /** The walk of one part is the in-order `dict.update` of the objects it
      meets: every object contributes all its keys, and any other value is
      passed over without stopping the walk. */
  lemma {:induction false} WalkIsFold(dec: Decoder, text: string, acc: Fields)
    ensures Walk(dec, text, acc) == MapFold.Fold(acc, Objects(dec, text))
    decreases |text|
  {
    match Next(dec, text)
    case None =>
    case Some((v, rest)) =>
      WalkIsFold(dec, rest, Absorb(acc, v));
      if v.Obj? {
        MapFold.FoldCons(acc, v.fields, Objects(dec, rest));
      } else {
        assert [] + Objects(dec, rest) == Objects(dec, rest);
      }
  }

  /** All the parts of one reply, merged in order into one dict. */
  function MergeTexts(dec: Decoder, texts: seq<string>, acc: Fields): (r: Fields)
    ensures acc.Keys <= r.Keys
    decreases |texts|
  {
    if |texts| == 0 then acc else MergeTexts(dec, texts[1..], Walk(dec, texts[0], acc))
  }

  /** The objects of all parts, part after part. */
  function AllObjects(dec: Decoder, texts: seq<string>): seq<Fields>
    decreases |texts|
  {
    if |texts| == 0 then [] else Objects(dec, texts[0]) + AllObjects(dec, texts[1..])
  }

  lemma {:induction false} MergeTextsIsFold(dec: Decoder, texts: seq<string>, acc: Fields)
    ensures MergeTexts(dec, texts, acc) == MapFold.Fold(acc, AllObjects(dec, texts))
    decreases |texts|
  {
    if |texts| > 0 {
      WalkIsFold(dec, texts[0], acc);
      MergeTextsIsFold(dec, texts[1..], Walk(dec, texts[0], acc));
      MapFold.FoldAppend(acc, Objects(dec, texts[0]), AllObjects(dec, texts[1..]));
    }
  }

  /** Later wins: a merged key comes from some decoded object, and its value
      is the one of the last object holding it, in part order and then text
      order; keys merged before are kept. */
  lemma MergedValueIsLast(dec: Decoder, texts: seq<string>, acc: Fields, k: string)
    ensures var objs := AllObjects(dec, texts);
            && (k in MergeTexts(dec, texts, acc) <==> k in acc || exists i | 0 <= i < |objs| :: k in objs[i])
            && (MapFold.LastIndexOf(objs, k) >= 0 ==>
                  MergeTexts(dec, texts, acc)[k] == objs[MapFold.LastIndexOf(objs, k)][k])
            && (MapFold.LastIndexOf(objs, k) < 0 && k in acc ==> MergeTexts(dec, texts, acc)[k] == acc[k])
  {
    MergeTextsIsFold(dec, texts, acc);
    MapFold.LaterWins(acc, AllObjects(dec, texts), k);
  }

  /** Merging a concatenation of part lists is merging one list after the
      other: what happens inside a part never stops the parts after it. */
  lemma {:induction false} MergeTextsAppend(dec: Decoder, xs: seq<string>, ys: seq<string>, acc: Fields)
    ensures MergeTexts(dec, xs + ys, acc) == MergeTexts(dec, ys, MergeTexts(dec, xs, acc))
    decreases |xs|
  {
    if |xs| > 0 {
      assert (xs + ys)[1..] == xs[1..] + ys;
      MergeTextsAppend(dec, xs[1..], ys, Walk(dec, xs[0], acc));
    } else {
      assert xs + ys == ys;
    }
  }

  /** The first value the walk would read does not decode. */
  predicate DecodeFails(dec: Decoder, text: string) {
    var p := SkipJsonWs(text, 0);
    p < |text| && dec(text[p..]).None?
  }

  /** A decode error ends the current part and keeps what was merged before it. */
  lemma ErrorEndsPart(dec: Decoder, text: string, acc: Fields)
    requires DecodeFails(dec, text)
    ensures Walk(dec, text, acc) == acc
    ensures Objects(dec, text) == []
  {
  }

  /** A part that fails to decode where its walk starts contributes nothing,
      and the parts after it merge exactly as if it were absent. */
  lemma FailingPartIsSkipped(dec: Decoder, before: seq<string>, text: string, after: seq<string>, acc: Fields)
    requires DecodeFails(dec, text)
    ensures MergeTexts(dec, before + [text] + after, acc) == MergeTexts(dec, before + after, acc)
  {
    var mid := MergeTexts(dec, before, acc);
    MergeTextsAppend(dec, before, [text] + after, acc);
    assert before + [text] + after == before + ([text] + after);
    assert ([text] + after)[1..] == after;
    ErrorEndsPart(dec, text, mid);
    MergeTextsAppend(dec, before, after, acc);
  }

  lemma {:induction false} SkipThrough(text: string, p: nat, q: nat)
    requires p <= q <= |text|
    requires forall i | p <= i < q :: IsJsonWs(text[i])
    ensures SkipJsonWs(text, p) == SkipJsonWs(text, q)
    decreases q - p
  {
    if p < q {
      SkipThrough(text, p + 1, q);
    }
  }

  lemma {:induction false} SkipShift(x: string, s: string, p: nat)
    ensures SkipJsonWs(x + s, |x| + p) == |x| + SkipJsonWs(s, p)
    decreases |s| - p
  {
    if p < |s| {
      assert (x + s)[|x| + p] == s[p];
      SkipShift(x, s, p + 1);
    }
  }

  /** Skipping a whitespace prefix lands where skipping the rest would. */
  lemma SkipPrefix(w: string, b: string)
    requires forall i | 0 <= i < |w| :: IsJsonWs(w[i])
    ensures SkipJsonWs(w + b, 0) == |w| + SkipJsonWs(b, 0)
  {
    var t := w + b;
    forall i | 0 <= i < |w|
      ensures IsJsonWs(t[i])
    {
      assert t[i] == w[i];
    }
    SkipThrough(t, 0, |w|);
    SkipShift(w, b, 0);
  }

  /** Whitespace before a value is skipped: the loop reads the same value,
      and leaves the same text after it, with or without a whitespace run
      in front. */
  lemma NextSkipsWhitespace(dec: Decoder, w: string, b: string)
    requires forall i | 0 <= i < |w| :: IsJsonWs(w[i])
    ensures Next(dec, w + b) == Next(dec, b)
  {
    var t := w + b;
    SkipPrefix(w, b);
    var q := SkipJsonWs(b, 0);
    if q < |b| {
      assert t[|w| + q..] == b[q..];
      match dec(b[q..])
      case None =>
        assert Next(dec, t) == None == Next(dec, b);
      case Some((v, n)) =>
        var rest := Rest(b, q + n);
        assert Rest(t, |w| + q + n) == rest;
        assert Next(dec, t) == Some((v, rest));
        assert Next(dec, b) == Some((v, rest));
    } else {
      assert Next(dec, t) == None == Next(dec, b);
    }
  }

  /** A whitespace run followed by any text walks exactly as that text alone. */
  lemma WhitespaceSkipped(dec: Decoder, w: string, b: string, acc: Fields)
    requires forall i | 0 <= i < |w| :: IsJsonWs(w[i])
    ensures Walk(dec, w + b, acc) == Walk(dec, b, acc)
  {
    NextSkipsWhitespace(dec, w, b);
  }

  /** Empty or all-whitespace text adds nothing. */
  lemma BlankTextAddsNothing(dec: Decoder, text: string, acc: Fields)
    requires forall i | 0 <= i < |text| :: IsJsonWs(text[i])
    ensures Walk(dec, text, acc) == acc
  {
    SkipThrough(text, 0, |text|);
  }

  /** Separated and adjacent values merge identically: inserting whitespace
      after a value that the decoder reads exactly (as it reads an object,
      whatever follows its closing brace) changes nothing. */
  lemma SeparatorInsensitive(dec: Decoder, a: string, w: string, b: string, acc: Fields)
    requires |a| > 0 && !IsJsonWs(a[0])
    requires forall i | 0 <= i < |w| :: IsJsonWs(w[i])
    requires dec(a + b).Some? && dec(a + b).value.1 == |a|
    requires dec(a + w + b) == dec(a + b)
    ensures Walk(dec, a + w + b, acc) == Walk(dec, a + b, acc)
  {
    var v := dec(a + b).value.0;
    var t := a + w + b;
    var u := a + b;
    assert t[0] == a[0] && u[0] == a[0];
    assert t[0..] == t && u[0..] == u;
    assert Rest(t, |a|) == w + b;
    assert Rest(u, |a|) == b;
    assert Next(dec, t) == Some((v, w + b));
    assert Next(dec, u) == Some((v, b));
    WhitespaceSkipped(dec, w, b, Absorb(acc, v));
  }

  /** `c.get("text", "")` for every content part: each must be a string. */
  function TextsOf(parts: seq<Fields>): (r: Eval<seq<string>>)
    ensures r.Done? ==> |r.value| == |parts|
    ensures r.Done? <==> forall i | 0 <= i < |parts| :: "text" !in parts[i] || parts[i]["text"].Str?
  {
    if |parts| == 0 then Done([])
    else
      var t := if "text" in parts[0] then parts[0]["text"] else Str("");
      if !t.Str? then Raised
      else
        var rest :- TextsOf(parts[1..]);
        assert forall i | 1 <= i < |parts| :: parts[i] == parts[1..][i - 1];
        Done([t.s] + rest)
  }

  /** The text of every content part of every output item, output item by
      output item: `for o in raw.get("output", []): for c in o.get("content", [])`. */
  function PartTexts(raw: Json): Eval<seq<string>> {
    var outputs :- Get(raw, "output", Arr([]));
    var items :- Records(outputs);
    ItemTexts(items)
  }

  function ItemTexts(items: seq<Fields>): Eval<seq<string>>
    decreases |items|
  {
    if |items| == 0 then Done([])
    else
      var content := if "content" in items[0] then items[0]["content"] else Arr([]);
      var parts :- Records(content);
      var texts :- TextsOf(parts);
      var rest :- ItemTexts(items[1..]);
      Done(texts + rest)
  }

  function StripAll(texts: seq<string>): (r: seq<string>)
    ensures |r| == |texts|
    ensures forall i | 0 <= i < |texts| :: r[i] == PyText.Strip(texts[i])
  {
    seq(|texts|, i requires 0 <= i < |texts| => PyText.Strip(texts[i]))
  }

  /** The whole merge loop of a reply: every part stripped, then walked. */
  function MergeReply(dec: Decoder, raw: Json): (r: Eval<Fields>)
    ensures r.Done? <==> PartTexts(raw).Done?
    ensures r.Done? ==> r.value == MapFold.Fold(map[], AllObjects(dec, StripAll(PartTexts(raw).value)))
  {
    var texts :- PartTexts(raw);
    MergeTextsIsFold(dec, StripAll(texts), map[]);
    Done(MergeTexts(dec, StripAll(texts), map[]))
  }

  /** A part that is empty or whitespace only (in the sense of `str.strip`)
      adds nothing. */
  lemma BlankPartAddsNothing(dec: Decoder, text: string, acc: Fields)
    requires PyText.AllSpace(text)
    ensures Walk(dec, PyText.Strip(text), acc) == acc
  {
  }
}
