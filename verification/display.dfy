/**
  The values the result page shows (app.py, `main` after a successful
  analysis): the score card with its medal glyph, the roadmap, the topics
  line, and the strengths and improvements lists. Widget layout is not
  modelled; `repr` stands for Python's `str()` of a non-string value.
 */
module Display {
  import opened Optional
  import opened Json
  import opened Text
  import opened Fetch
  import opened Prompt

  const GoldGlyph: string := "\U{1F947}"
  const SilverGlyph: string := "\U{1F948}"
  const BronzeGlyph: string := "\U{1F949}"
  const StarGlyph: string := "\U{2B50}"

  /** The medal names the page knows a glyph for. */
  const MedalGlyphs: map<string, string> :=
    map["Gold" := GoldGlyph, "Silver" := SilverGlyph, "Bronze" := BronzeGlyph]

  /** The medal cell, or None when the medal value is a list or a dictionary
      (looking an unhashable value up raises TypeError). A missing medal
      reads as Bronze; a value without a glyph gets the star. */
  function MedalText(result: seq<(string, Json)>, repr: Json -> string): (r: Option<string>)
    ensures Lookup(result, "medal").None? ==> r == Some(BronzeGlyph + " " + "Bronze")
    ensures Lookup(result, "medal") == Some(JString("Gold")) ==> r == Some(GoldGlyph + " " + "Gold")
    ensures Lookup(result, "medal") == Some(JString("Silver")) ==> r == Some(SilverGlyph + " " + "Silver")
    ensures Lookup(result, "medal") == Some(JString("Bronze")) ==> r == Some(BronzeGlyph + " " + "Bronze")
    ensures forall name :: Lookup(result, "medal") == Some(JString(name)) && name !in MedalGlyphs
              ==> r == Some(StarGlyph + " " + name)
    ensures Lookup(result, "medal").Some? && !Lookup(result, "medal").value.JString? ==>
              (r.None? <==> Lookup(result, "medal").value.JArray? || Lookup(result, "medal").value.JObject?)
              && (r.Some? ==> r.value == StarGlyph + " " + Format(Lookup(result, "medal").value, repr))
  {
    var medal := GetOr(result, "medal", JString("Bronze"));
    assert "Gold" in MedalGlyphs && MedalGlyphs["Gold"] == GoldGlyph;
    assert "Silver" in MedalGlyphs && MedalGlyphs["Silver"] == SilverGlyph;
    assert "Bronze" in MedalGlyphs && MedalGlyphs["Bronze"] == BronzeGlyph;
    if medal.JArray? || medal.JObject? then None
    else
      var glyph := if medal.JString? && medal.s in MedalGlyphs then MedalGlyphs[medal.s] else StarGlyph;
      Some(glyph + " " + Format(medal, repr))
  }

  /** The topics line of the page: the join, with `None` whenever the join
      is empty; None when the join raises, which includes a null topics
      value. */
  function PageTopics(topics: Json): (r: Option<string>)
    ensures r.Some? <==> JoinTopics(topics).Some?
    ensures r.Some? ==> r.value != ""
    ensures r.Some? && JoinTopics(topics).value != "" ==> r.value == JoinTopics(topics).value
    ensures r.Some? && JoinTopics(topics).value == "" ==> r.value == "None"
  {
    match JoinTopics(topics)
    case None => None
    case Some(joined) => Some(if joined == "" then "None" else joined)
  }

  /** The JSON values of a list of strings. */
  function StringValues(names: seq<string>): (r: seq<Json>)
    ensures |r| == |names| && forall i :: 0 <= i < |names| ==> r[i] == JString(names[i])
  {
    seq(|names|, i requires 0 <= i < |names| => JString(names[i]))
  }

  /** For a list of topic names, the prompt and the page show the same text
      except for exactly one input shape: a single empty name, which the
      prompt shows as an empty string and the page as `None`. */
  lemma TopicsAgreeIff(names: seq<string>)
    ensures var t := JArray(StringValues(names));
            PromptTopics(t) == PageTopics(t) <==> !(|names| == 1 && names[0] == "")
  {
    var t := JArray(StringValues(names));
    var items := StringValues(names);
    assert Strings(items).Some?;
    assert Strings(items).value == names;
    JoinEmpty(names, ", ");
  }

  /** A null topics value: the prompt shows `None`, the page raises. */
  lemma TopicsNullDiverges()
    ensures PromptTopics(JNull) == Some("None") && PageTopics(JNull) == None
  {
  }

  /** A single empty topic name: the prompt shows the empty join, the page
      shows `None`. */
  lemma SingleEmptyTopic()
    ensures PromptTopics(JArray([JString("")])) == Some("")
    ensures PageTopics(JArray([JString("")])) == Some("None")
  {
    var t := JArray([JString("")]);
    assert t.items[1..] == [];
    assert Strings(t.items[1..]) == Some([]);
    assert [t.items[0].s] + [] == [""];
    assert Strings(t.items) == Some([""]);
  }

  /** Python's `"error" in result` on the decoded answer: a key test on a
      dictionary, an element test on a list, a substring test on a string;
      None for the other values, on which `in` raises TypeError. */
  function ContainsError(result: Json): (r: Option<bool>)
    ensures r.None? <==> result.JNull? || result.JBool? || result.JNumber?
    ensures result.JObject? ==> r == Some(Lookup(result.members, "error").Some?)
    ensures result.JArray? ==> r == Some(JString("error") in result.items)
    ensures result.JString? ==> r == Some(exists i :: OccursAt(result.s, "error", i))
  {
    match result
    case JObject(members) => Some(Lookup(members, "error").Some?)
    case JArray(items) => Some(JString("error") in items)
    case JString(s) =>
      var found := Find(s, "error");
      assert found.Some? ==> OccursAt(s, "error", found.value);
      Some(found.Some?)
    case _ => None
  }

  /** The rendered result page, in the order it is shown. The level and
      language are the values handed to the metric widgets; the name in the
      header, the score, the medal and the GitHub link are the formatted texts. */
  datatype Page = Page(
    name: string,
    score: string,
    level: Json,
    medal: string,
    language: Json,
    roadmap: seq<Json>,
    summary: Json,
    url: string,
    topics: string,
    strengths: seq<Json>,
    improvements: seq<Json>)

  /** The items of a list-like field, or None when iterating it raises. */
  function ListField(result: seq<(string, Json)>, key: string): Option<seq<Json>>
  {
    Items(GetOr(result, key, JArray([])))
  }

  /** The roadmap steps listed: none when the value is falsy (a placeholder
      message is shown instead), its items otherwise, or None when a truthy
      value is not iterable. */
  function Roadmap(result: seq<(string, Json)>): Option<seq<Json>>
  {
    var steps := GetOr(result, "roadmap", JArray([]));
    if Truthy(steps) then Items(steps) else Some([])
  }

  /** A value Streamlit's metric widget accepts: it raises TypeError on a
      list or a dictionary. */
  predicate MetricValue(j: Json)
  {
    !j.JArray? && !j.JObject?
  }

  /** The page for a fetched record and a decoded answer, or None when
      rendering raises: the answer is not a dictionary, the level or the
      language is no metric value, the medal is unhashable, the roadmap is
      truthy but not iterable, the topics do not join, or the strengths or
      improvements are not iterable. Absent fields show their defaults. */
  function RenderPage(r: RepoRecord, result: Json, repr: Json -> string): (page: Option<Page>)
    ensures page.Some? <==>
              result.JObject? && MetricValue(GetOr(result.members, "level", JString("Unknown")))
              && MedalText(result.members, repr).Some? && MetricValue(r.language)
              && Roadmap(result.members).Some? && PageTopics(r.topics).Some?
              && ListField(result.members, "strengths").Some? && ListField(result.members, "improvements").Some?
    ensures page.Some? ==> Some(page.value.medal) == MedalText(result.members, repr)
    ensures page.Some? ==> page.value.topics == PageTopics(r.topics).value && page.value.topics != ""
    ensures page.Some? ==> page.value.language == r.language
    ensures page.Some? ==> page.value.name == Format(r.name, repr) && page.value.url == Format(r.url, repr)
    ensures page.Some? && Lookup(result.members, "score").None? ==> page.value.score == "0/100"
    ensures page.Some? && Lookup(result.members, "score").Some? ==>
              page.value.score == Format(Lookup(result.members, "score").value, repr) + "/100"
    ensures page.Some? && Lookup(result.members, "level").None? ==> page.value.level == JString("Unknown")
    ensures page.Some? && Lookup(result.members, "level").Some? ==> page.value.level == Lookup(result.members, "level").value
    ensures page.Some? && Lookup(result.members, "summary").None? ==>
              page.value.summary == JString("No summary available.")
    ensures page.Some? && Lookup(result.members, "summary").Some? ==>
              page.value.summary == Lookup(result.members, "summary").value
    ensures page.Some? ==> Some(page.value.roadmap) == Roadmap(result.members)
    ensures page.Some? ==> Some(page.value.strengths) == ListField(result.members, "strengths")
    ensures page.Some? ==> Some(page.value.improvements) == ListField(result.members, "improvements")
    ensures page.Some? && Lookup(result.members, "roadmap").None? ==> page.value.roadmap == []
    ensures page.Some? && Lookup(result.members, "strengths").None? ==> page.value.strengths == []
    ensures page.Some? && Lookup(result.members, "improvements").None? ==> page.value.improvements == []
  {
    if !result.JObject? then None
    else
      var m := result.members;
      var level := GetOr(m, "level", JString("Unknown"));
      var roadmap := Roadmap(m);
      var medal := MedalText(m, repr);
      var topics := PageTopics(r.topics);
      var strengths := ListField(m, "strengths");
      var improvements := ListField(m, "improvements");
      if !MetricValue(level) || medal.None? || !MetricValue(r.language) || roadmap.None? || topics.None?
         || strengths.None? || improvements.None? then None
      else Some(Page(
        Format(r.name, repr),
        Format(GetOr(m, "score", JNumber(0)), repr) + "/100",
        level,
        medal.value,
        r.language,
        roadmap.value,
        GetOr(m, "summary", JString("No summary available.")),
        Format(r.url, repr),
        topics.value,
        strengths.value,
        improvements.value))
  }

  /** The answer the prompt asks for, as a decoded dictionary. */
  function AnswerObject(score: int, level: string, medal: string, summary: string,
                        strengths: seq<string>, improvements: seq<string>, roadmap: seq<string>): Json
  {
    JObject([("score", JNumber(score)), ("level", JString(level)), ("medal", JString(medal)),
             ("summary", JString(summary)), ("strengths", JArray(StringValues(strengths))),
             ("improvements", JArray(StringValues(improvements))), ("roadmap", JArray(StringValues(roadmap)))])
  }

  /** An answer of the requested shape, with a known medal, renders exactly
      its own values on a record whose topics join and whose language is a
      metric value. */
  lemma WellFormedAnswerRenders(r: RepoRecord, repr: Json -> string, score: int, level: string, medal: string,
                                summary: string, strengths: seq<string>, improvements: seq<string>, roadmap: seq<string>)
    requires medal in MedalGlyphs
    requires JoinTopics(r.topics).Some? && MetricValue(r.language)
    ensures RenderPage(r, AnswerObject(score, level, medal, summary, strengths, improvements, roadmap), repr)
            == Some(Page(Format(r.name, repr), IntText(score) + "/100", JString(level), MedalGlyphs[medal] + " " + medal,
                         r.language, StringValues(roadmap), JString(summary), Format(r.url, repr),
                         PageTopics(r.topics).value,
                         StringValues(strengths), StringValues(improvements)))
  {
    var m := AnswerObject(score, level, medal, summary, strengths, improvements, roadmap).members;
    CardKeys(m);
    ListKeys(m);
    MedalOfName(m, medal, repr);
    assert Roadmap(m) == Some(StringValues(roadmap)) by {
      if roadmap == [] {
        assert StringValues(roadmap) == [];
      }
    }
    RenderFromFields(r, m, repr, JNumber(score), JString(level), MedalGlyphs[medal] + " " + medal, JString(summary),
                     StringValues(strengths), StringValues(improvements), StringValues(roadmap));
  }

  /** A dictionary answer whose fields are all present and usable renders
      those fields. */
  lemma RenderFromFields(r: RepoRecord, m: seq<(string, Json)>, repr: Json -> string,
                         score: Json, level: Json, medal: string, summary: Json,
                         strengths: seq<Json>, improvements: seq<Json>, roadmap: seq<Json>)
    requires Lookup(m, "score") == Some(score) && Lookup(m, "level") == Some(level) && MetricValue(level)
    requires MedalText(m, repr) == Some(medal) && Lookup(m, "summary") == Some(summary)
    requires ListField(m, "strengths") == Some(strengths) && ListField(m, "improvements") == Some(improvements)
    requires Roadmap(m) == Some(roadmap)
    requires PageTopics(r.topics).Some? && MetricValue(r.language)
    ensures RenderPage(r, JObject(m), repr)
            == Some(Page(Format(r.name, repr), Format(score, repr) + "/100", level, medal, r.language, roadmap,
                         summary, Format(r.url, repr), PageTopics(r.topics).value, strengths, improvements))
  {
  }

  /** A known medal name shows its own glyph. */
  lemma MedalOfName(m: seq<(string, Json)>, medal: string, repr: Json -> string)
    requires medal in MedalGlyphs && Lookup(m, "medal") == Some(JString(medal))
    ensures MedalText(m, repr) == Some(MedalGlyphs[medal] + " " + medal)
  {
  }

  /** The first four entries of an answer of the requested shape are found under their keys. */
  lemma CardKeys(m: seq<(string, Json)>)
    requires |m| == 7 && m[0].0 == "score" && m[1].0 == "level" && m[2].0 == "medal" && m[3].0 == "summary"
    ensures Lookup(m, "score") == Some(m[0].1) && Lookup(m, "level") == Some(m[1].1)
    ensures Lookup(m, "medal") == Some(m[2].1) && Lookup(m, "summary") == Some(m[3].1)
  {
    LookupFirst(m, 0);
    LookupFirst(m, 1);
    LookupFirst(m, 2);
    LookupFirst(m, 3);
  }

  /** The three list entries of an answer of the requested shape are found under their keys. */
  lemma ListKeys(m: seq<(string, Json)>)
    requires |m| == 7 && m[0].0 == "score" && m[1].0 == "level" && m[2].0 == "medal" && m[3].0 == "summary"
    requires m[4].0 == "strengths" && m[5].0 == "improvements" && m[6].0 == "roadmap"
    ensures Lookup(m, "strengths") == Some(m[4].1) && Lookup(m, "improvements") == Some(m[5].1)
    ensures Lookup(m, "roadmap") == Some(m[6].1)
  {
    LookupFirst(m, 4);
    LookupFirst(m, 5);
    LookupFirst(m, 6);
  }
}
