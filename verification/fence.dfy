/**
  Removal of the Markdown code fence a model tends to wrap its JSON answer in
  (app.py, `get_ai_analysis`), before the text reaches the JSON parser.
 */
module Fence {
  import opened Text

  const JsonFence: string := "```json"
  const PlainFence: string := "```"

  /** The fence removal proper, applied to the already trimmed response. */
  function Unfence(t: string): string
  {
    if StartsWith(t, JsonFence) then Strip(RStripChar(ReplaceFirst(t, JsonFence, ""), '`'))
    else if StartsWith(t, PlainFence) then Strip(RStripChar(ReplaceFirst(t, PlainFence, ""), '`'))
    else t
  }

  /** The text handed to `json.loads` for a model response. */
  function StripFences(response: string): (r: string)
    ensures IsStripped(r)
  {
    Unfence(Strip(response))
  }

  /** A response whose trimmed text does not open with a fence reaches the
      parser exactly as trimmed. */
  lemma UnfencedUnchanged(response: string)
    requires !StartsWith(Strip(response), PlainFence)
    ensures StripFences(response) == Strip(response)
  {
    var t := Strip(response);
    assert !StartsWith(t, JsonFence);
  }

  /** A ```` ```json ```` opening loses exactly those seven characters, then
      every trailing backtick, then the surrounding whitespace. */
  lemma JsonFenceRemoved(response: string)
    requires StartsWith(Strip(response), JsonFence)
    ensures var t := Strip(response);
            StripFences(response) == Strip(RStripChar(t[|JsonFence|..], '`'))
  {
    ReplacePrefix(Strip(response), JsonFence);
  }

  /** Any other ```` ``` ```` opening loses only its three backticks, so a tag
      that does not start with `json` stays in front of the payload. */
  lemma PlainFenceRemoved(response: string)
    requires StartsWith(Strip(response), PlainFence) && !StartsWith(Strip(response), JsonFence)
    ensures var t := Strip(response);
            StripFences(response) == Strip(RStripChar(t[|PlainFence|..], '`'))
  {
    ReplacePrefix(Strip(response), PlainFence);
  }

  /** The text a model produces when it fences `body`, with the given tag on
      the opening line. */
  function Fenced(tag: string, body: string): string
  {
    PlainFence + tag + "\n" + body + "\n" + PlainFence
  }

  /** A fenced response is already trimmed, so whitespace around it goes. */
  lemma FencedTrimmed(tag: string, inner: string, pre: string, post: string)
    requires All(pre, IsSpace) && All(post, IsSpace)
    ensures Strip(pre + Fenced(tag, inner) + post) == Fenced(tag, inner)
  {
    var x := Fenced(tag, inner);
    assert x[0] == '`' && x[|x| - 1] == '`';
    StripPadded(pre, x, post);
  }

  /** Unfencing a ```` ```json ```` response removes the seven-character opening. */
  lemma UnfenceJson(inner: string)
    ensures Unfence(Fenced("json", inner)) == Strip(RStripChar("\n" + inner + "\n" + PlainFence, '`'))
  {
    var x := Fenced("json", inner);
    var rest := "\n" + inner + "\n" + PlainFence;
    assert x == JsonFence + rest;
    ReplacePrefix(x, JsonFence);
    assert x[|JsonFence|..] == rest;
  }

  /** Unfencing a bare ```` ``` ```` response removes the three backticks. */
  lemma UnfencePlain(inner: string)
    ensures Unfence(Fenced("", inner)) == Strip(RStripChar("\n" + inner + "\n" + PlainFence, '`'))
  {
    var x := Fenced("", inner);
    var rest := "\n" + inner + "\n" + PlainFence;
    assert x == PlainFence + rest;
    assert x[3] == '\n';
    assert !StartsWith(x, JsonFence);
    ReplacePrefix(x, PlainFence);
    assert x[|PlainFence|..] == rest;
  }

  /** What the fence and its closing leave behind: the trimmed inside text. */
  lemma FencedInner(tag: string, inner: string, pre: string, post: string)
    requires tag == "json" || tag == ""
    requires All(pre, IsSpace) && All(post, IsSpace)
    ensures StripFences(pre + Fenced(tag, inner) + post)
            == Strip(RStripChar("\n" + inner + "\n" + PlainFence, '`'))
  {
    FencedTrimmed(tag, inner, pre, post);
    if tag == "json" {
      UnfenceJson(inner);
    } else {
      UnfencePlain(inner);
    }
  }

  /** The closing fence goes and the newlines around the inside text are
      trimmed away. */
  lemma ClosingRemoved(inner: string)
    ensures RStripChar("\n" + inner + "\n" + PlainFence, '`') == "\n" + inner + "\n"
  {
    var y := "\n" + inner + "\n";
    assert "\n" + inner + "\n" + PlainFence == y + PlainFence;
    assert All(PlainFence, Is('`'));
    RStripPadded(y, PlainFence, Is('`'));
  }

  /** Fencing a trimmed payload with ```` ```json ```` or a bare ```` ``` ````,
      with any whitespace around the response, and stripping the fences
      gives the payload back. */
  lemma FenceRoundTrip(tag: string, body: string, pre: string, post: string)
    requires tag == "json" || tag == ""
    requires IsStripped(body)
    requires All(pre, IsSpace) && All(post, IsSpace)
    ensures StripFences(pre + Fenced(tag, body) + post) == body
  {
    FencedInner(tag, body, pre, post);
    ClosingRemoved(body);
    StripPadded("\n", body, "\n");
  }

  /** Unfencing a response whose tag is not `json` removes only the three backticks. */
  lemma UnfenceOther(tag: string, inner: string)
    requires !StartsWith(tag, "json")
    ensures Unfence(Fenced(tag, inner)) == Strip(RStripChar(tag + "\n" + inner + "\n" + PlainFence, '`'))
  {
    var x := Fenced(tag, inner);
    var rest := tag + "\n" + inner + "\n" + PlainFence;
    assert x == PlainFence + rest;
    assert !StartsWith(x, JsonFence) by {
      if |tag| >= 4 {
        assert x[3..7] == tag[..4];
      } else {
        assert x[3 + |tag|] == '\n';
      }
    }
    ReplacePrefix(x, PlainFence);
    assert x[|PlainFence|..] == rest;
  }

  /** The round trip for a response without surrounding whitespace. */
  lemma FenceBare(tag: string, body: string)
    requires tag == "json" || tag == ""
    requires IsStripped(body)
    ensures StripFences(Fenced(tag, body)) == body
  {
    var x := Fenced(tag, body);
    var padded := "" + x + "";
    assert padded == x;
    FenceRoundTrip(tag, body, "", "");
  }

  /** A tag that does not start with `json` (for instance `JSON` or `js`) is
      not removed: it reaches the parser in front of the payload. */
  lemma OtherTagKept(tag: string, body: string)
    requires tag != "" && !IsSpace(tag[0]) && !StartsWith(tag, "json")
    requires body != "" && IsStripped(body)
    ensures StripFences(Fenced(tag, body)) == tag + "\n" + body
  {
    var x := Fenced(tag, body);
    TrimmedAlone(x);
    UnfenceOther(tag, body);
    TagLineKept(tag, body);
  }

  /** A tag that merely starts with `json` (`jsonc`, `json5`, `jsonl`) loses
      those four letters: the rest of the tag reaches the parser in front
      of the payload. */
  lemma JsonPrefixedTagCut(rest: string, body: string)
    requires rest != "" && !IsSpace(rest[0])
    requires body != "" && IsStripped(body)
    ensures StripFences(Fenced("json" + rest, body)) == rest + "\n" + body
  {
    var x := Fenced("json" + rest, body);
    var tail := rest + "\n" + body + "\n" + PlainFence;
    TrimmedAlone(x);
    assert x == JsonFence + tail;
    ReplacePrefix(x, JsonFence);
    assert x[|JsonFence|..] == tail;
    TagLineKept(rest, body);
  }

  /** A response that opens and closes with a backtick is already trimmed. */
  lemma TrimmedAlone(x: string)
    requires x != [] && x[0] == '`' && x[|x| - 1] == '`'
    ensures Strip(x) == x
  {
    StripPadded("", x, "");
    assert "" + x + "" == x;
  }

  /** After the opening backticks go, the closing fence and the final line
      break go too, leaving the tag line and the payload. */
  lemma TagLineKept(tag: string, body: string)
    requires tag != "" && !IsSpace(tag[0])
    requires body != "" && IsStripped(body)
    ensures Strip(RStripChar(tag + "\n" + body + "\n" + PlainFence, '`')) == tag + "\n" + body
  {
    var head := tag + "\n" + body;
    assert tag + "\n" + body + "\n" + PlainFence == head + "\n" + PlainFence;
    ClosingRemovedAfter(head);
    assert head[0] == tag[0] && head[|head| - 1] == body[|body| - 1];
    StripPadded("", head, "\n");
    assert "" + head + "\n" == head + "\n";
  }

  /** The closing fence after a line break goes, leaving the line break. */
  lemma ClosingRemovedAfter(head: string)
    ensures RStripChar(head + "\n" + PlainFence, '`') == head + "\n"
  {
    var y := head + "\n";
    assert head + "\n" + PlainFence == y + PlainFence;
    assert All(PlainFence, Is('`'));
    RStripPadded(y, PlainFence, Is('`'));
  }
}
