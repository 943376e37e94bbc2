/** `_extract_json`: the model's text is trimmed, a Markdown code fence
    around it is removed, and what is left is parsed with `json.loads`. */
module Fences {
  import opened Wrappers
  import opened JsonValue
  import PyText

  const Fence: string := "```"

  /** Position after `^```(?:json)?\s*` at the start of `c`, which starts
      with a fence: the optional `json` is taken when present (greedy), then
      all the whitespace after it. */
  function OpeningEnd(c: string): (q: nat)
    requires PyText.StartsWith(c, Fence)
    ensures 3 <= q <= |c|
  {
    var tag := if PyText.StartsWith(c[3..], "json") then 7 else 3;
    PyText.SkipSpace(c, tag)
  }

  /** `re.sub(r"\s*```$", "", d)` for a text `d` that is empty or ends with
      a non-whitespace character, so `$` can only match at the very end:
      a closing fence and the whitespace before it are removed. */
  function DropClosing(d: string): (r: string)
    ensures PyText.StartsWith(d, r)
  {
    if PyText.EndsWith(d, Fence) then d[..PyText.TrimSpace(d, 0, |d| - 3)] else d
  }

  /** The text `json.loads` receives. */
  function StripFences(text: string): (r: string)
  {
    var c := PyText.Strip(text);
    if PyText.StartsWith(c, Fence) then DropClosing(c[OpeningEnd(c)..]) else c
  }

  /** `_extract_json(text)`: None where `json.loads` raises. */
  function ExtractJson(dec: Decoder, text: string): (r: Option<Json>)
  {
    Loads(dec, StripFences(text))
  }

  /** What is parsed never starts or ends with whitespace, and is a piece of
      the trimmed text. */
  lemma StripFencesTrims(text: string)
    ensures var r := StripFences(text);
            r == [] || (!PyText.IsSpace(r[0]) && !PyText.IsSpace(r[|r| - 1]))
  {
    var c := PyText.Strip(text);
    PyText.StripMeaning(text);
    if PyText.StartsWith(c, Fence) {
      FencedTrims(c);
    }
  }

  /** The same for a trimmed text that starts with a fence. */
  lemma FencedTrims(c: string)
    requires PyText.StartsWith(c, Fence)
    requires !PyText.IsSpace(c[|c| - 1])
    ensures var r := DropClosing(c[OpeningEnd(c)..]);
            r == [] || (!PyText.IsSpace(r[0]) && !PyText.IsSpace(r[|r| - 1]))
  {
    var q := OpeningEnd(c);
    var d := c[q..];
    var r := DropClosing(d);
    if |r| > 0 {
      assert r[0] == d[0] == c[q];
      if PyText.EndsWith(d, Fence) {
        assert !PyText.IsSpace(r[|r| - 1]);
      } else {
        assert r == d;
        assert r[|r| - 1] == c[|c| - 1];
      }
    }
  }

  /** Text that is not fenced is trimmed and parsed as it is. */
  lemma UnfencedParsedAsIs(dec: Decoder, text: string)
    requires !PyText.StartsWith(PyText.Strip(text), Fence)
    ensures StripFences(text) == PyText.Strip(text)
    ensures ExtractJson(dec, text) == Loads(dec, PyText.Strip(text))
  {
  }

  /** The text of a JSON object, as `json.dumps` writes a dict, is parsed
      as it is. */
  lemma ObjectTextParsedAsIs(dec: Decoder, raw: string)
    requires |raw| > 0 && raw[0] == '{' && raw[|raw| - 1] == '}'
    ensures ExtractJson(dec, raw) == Loads(dec, raw)
  {
    PyText.StripPadded("", raw, "");
    assert "" + raw + "" == raw;
    assert !PyText.StartsWith(raw, Fence) by {
      assert raw[0] != Fence[0];
    }
    UnfencedParsedAsIs(dec, raw);
  }

  /** A body wrapped in a fence, with or without the `json` tag and with any
      whitespace outside the fence, is recovered exactly. */
  lemma FenceRoundTrip(w1: string, tag: string, body: string, w2: string)
    requires PyText.AllSpace(w1) && PyText.AllSpace(w2)
    requires tag == "" || tag == "json"
    requires body == [] || (!PyText.IsSpace(body[0]) && !PyText.IsSpace(body[|body| - 1]))
    ensures StripFences(w1 + Fence + tag + "\n" + body + "\n" + Fence + w2) == body
  {
    var pre := Fence + tag + "\n";
    var rest := body + "\n" + Fence;
    var x := pre + rest;
    assert w1 + Fence + tag + "\n" + body + "\n" + Fence + w2 == w1 + x + w2;
    PyText.StripPadded(w1, x, w2);
    OpeningOfFenced(tag, body);
    assert x[|pre|..] == rest;
    if |body| == 0 {
      assert rest[1..] == Fence;
      assert x[OpeningEnd(x)..] == rest[1..];
    } else {
      assert x[OpeningEnd(x)..] == rest;
      ClosingOfFenced(body);
    }
  }

  /** A fenced reply, with or without the `json` tag and with any
      whitespace outside the fence, is parsed exactly as its body would be
      on its own. */
  lemma FencedJsonParsed(dec: Decoder, w1: string, tag: string, body: string, w2: string)
    requires PyText.AllSpace(w1) && PyText.AllSpace(w2)
    requires tag == "" || tag == "json"
    requires body == [] || (!PyText.IsSpace(body[0]) && !PyText.IsSpace(body[|body| - 1]))
    ensures ExtractJson(dec, w1 + Fence + tag + "\n" + body + "\n" + Fence + w2) == Loads(dec, body)
  {
    FenceRoundTrip(w1, tag, body, w2);
  }

  /** The opening fence, its tag and the line break are skipped, and for an
      empty body the second line break too. */
  lemma OpeningOfFenced(tag: string, body: string)
    requires tag == "" || tag == "json"
    requires body == [] || !PyText.IsSpace(body[0])
    ensures var x := (Fence + tag + "\n") + (body + "\n" + Fence);
            PyText.StartsWith(x, Fence)
            && OpeningEnd(x) == 3 + |tag| + (if body == [] then 2 else 1)
  {
    var x := (Fence + tag + "\n") + (body + "\n" + Fence);
    var open := 3 + |tag|;
    assert x[..3] == Fence;
    if tag == "json" {
      assert x[3..][..4] == x[3..7] == tag;
    } else {
      assert x[3..][0] == '\n';
    }
    if body == [] {
      assert x[open] == '\n' && x[open + 1] == '\n' && x[open + 2] == '`';
      PyText.SkipSpaceIs(x, open, open + 2);
    } else {
      assert x[open] == '\n' && x[open + 1] == body[0];
      PyText.SkipSpaceIs(x, open, open + 1);
    }
  }

  /** The line break and closing fence after a body are removed. */
  lemma ClosingOfFenced(body: string)
    requires |body| > 0 && !PyText.IsSpace(body[|body| - 1])
    ensures DropClosing(body + "\n" + Fence) == body
  {
    var d := body + "\n" + Fence;
    assert d[|d| - 3..] == Fence;
    assert d[|body|] == '\n' && d[|body| - 1] == body[|body| - 1];
    PyText.TrimSpaceIs(d, 0, |d| - 3, |body|);
    assert d[..|body|] == body;
  }
}
