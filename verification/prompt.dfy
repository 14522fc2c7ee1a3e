/**
  Prompt construction and the handling of the model's answer (app.py,
  `get_ai_analysis`). The model call and `json.loads` are parameters: the
  model is a function from prompt to reply, the parser a function from text
  to a decoded value or None for a `JSONDecodeError`.
 */
module Prompt {
  import opened Optional
  import opened Json
  import opened Text
  import opened Fetch
  import opened Fence

  /** The values interpolated into the prompt. */
  datatype PromptData = PromptData(
    name: Json,
    description: Json,
    stars: Json,
    forks: Json,
    language: Json,
    commits: Json,
    readme: Json,
    topics: string)

  /** The dictionary `fetch_repo_data` returns for a record, in its key order. */
  function RecordDict(r: RepoRecord): (d: seq<(string, Json)>)
    ensures |d| == 9
  {
    [("name", r.name), ("description", r.description), ("stars", r.stars),
     ("forks", r.forks), ("language", r.language), ("url", r.url),
     ("commits", JNumber(r.commits)), ("readme", JString(r.readme)),
     ("topics", r.topics)]
  }

  /** `', '.join(topics)`, or None when `topics` is not iterable or holds a
      non-string (TypeError). */
  function JoinTopics(topics: Json): Option<string>
  {
    match Items(topics)
    case None => None
    case Some(items) =>
      match Strings(items)
      case None => None
      case Some(names) => Some(Join(names, ", "))
  }

  /** The topics text of the prompt: the join when the value is truthy,
      the literal `None` otherwise. */
  function PromptTopics(topics: Json): (r: Option<string>)
    ensures !Truthy(topics) ==> r == Some("None")
    ensures Truthy(topics) ==> r == JoinTopics(topics)
  {
    if Truthy(topics) then JoinTopics(topics) else Some("None")
  }

  /** The prompt's field mapping over a repository dictionary, each `.get`
      default applying when its key is absent; None when the topics join
      raises. An absent or falsy topics value reads as `None`. */
  function PromptDataOf(d: seq<(string, Json)>): (r: Option<PromptData>)
    ensures r.None? <==> Lookup(d, "topics").Some? && PromptTopics(Lookup(d, "topics").value).None?
    ensures r.Some? && Lookup(d, "topics").Some? ==> r.value.topics == PromptTopics(Lookup(d, "topics").value).value
    ensures r.Some? && Lookup(d, "topics").None? ==> r.value.topics == "None"
    ensures r.Some? && Lookup(d, "name").Some? ==> r.value.name == Lookup(d, "name").value
    ensures r.Some? && Lookup(d, "name").None? ==> r.value.name == JString("N/A")
    ensures r.Some? && Lookup(d, "description").Some? ==> r.value.description == Lookup(d, "description").value
    ensures r.Some? && Lookup(d, "description").None? ==> r.value.description == JString("N/A")
    ensures r.Some? && Lookup(d, "stars").Some? ==> r.value.stars == Lookup(d, "stars").value
    ensures r.Some? && Lookup(d, "stars").None? ==> r.value.stars == JNumber(0)
    ensures r.Some? && Lookup(d, "forks").Some? ==> r.value.forks == Lookup(d, "forks").value
    ensures r.Some? && Lookup(d, "forks").None? ==> r.value.forks == JNumber(0)
    ensures r.Some? && Lookup(d, "language").Some? ==> r.value.language == Lookup(d, "language").value
    ensures r.Some? && Lookup(d, "language").None? ==> r.value.language == JString("Unknown")
    ensures r.Some? && Lookup(d, "commits").Some? ==> r.value.commits == Lookup(d, "commits").value
    ensures r.Some? && Lookup(d, "commits").None? ==> r.value.commits == JNumber(0)
    ensures r.Some? && Lookup(d, "readme").Some? ==> r.value.readme == Lookup(d, "readme").value
    ensures r.Some? && Lookup(d, "readme").None? ==> r.value.readme == JString("N/A")
  {
    var topics := Lookup(d, "topics");
    var topicsText := if topics.Some? then PromptTopics(topics.value) else Some("None");
    if topicsText.None? then None
    else Some(PromptData(
      GetOr(d, "name", JString("N/A")),
      GetOr(d, "description", JString("N/A")),
      GetOr(d, "stars", JNumber(0)),
      GetOr(d, "forks", JNumber(0)),
      GetOr(d, "language", JString("Unknown")),
      GetOr(d, "commits", JNumber(0)),
      GetOr(d, "readme", JString("N/A")),
      topicsText.value))
  }

  /** Each key of the record dictionary looks up its own field. */
  lemma RecordDictLookups(r: RepoRecord)
    ensures var d := RecordDict(r);
      Lookup(d, "name") == Some(r.name) && Lookup(d, "description") == Some(r.description)
      && Lookup(d, "stars") == Some(r.stars) && Lookup(d, "forks") == Some(r.forks)
      && Lookup(d, "language") == Some(r.language) && Lookup(d, "commits") == Some(JNumber(r.commits))
      && Lookup(d, "readme") == Some(JString(r.readme)) && Lookup(d, "topics") == Some(r.topics)
  {
    NameDescriptionStarsForksFound(r);
    LanguageCommitsReadmeTopicsFound(r);
  }

  /** The fetched dictionary's `name`, `description`, `stars` and `forks`
      entries hold the record's values. */
  lemma NameDescriptionStarsForksFound(r: RepoRecord)
    ensures var d := RecordDict(r);
      Lookup(d, "name") == Some(r.name) && Lookup(d, "description") == Some(r.description)
      && Lookup(d, "stars") == Some(r.stars) && Lookup(d, "forks") == Some(r.forks)
  {
    var d := RecordDict(r);
    LookupFirst(d, 0);
    LookupFirst(d, 1);
    LookupFirst(d, 2);
    LookupFirst(d, 3);
  }

  /** Its `language`, `commits`, `readme` and `topics` entries hold the
      record's values. */
  lemma LanguageCommitsReadmeTopicsFound(r: RepoRecord)
    ensures var d := RecordDict(r);
      Lookup(d, "language") == Some(r.language) && Lookup(d, "commits") == Some(JNumber(r.commits))
      && Lookup(d, "readme") == Some(JString(r.readme)) && Lookup(d, "topics") == Some(r.topics)
  {
    var d := RecordDict(r);
    LookupFirst(d, 4);
    LookupFirst(d, 6);
    LookupFirst(d, 7);
    LookupFirst(d, 8);
  }

  /** On a fetched record every key is present, so none of the prompt's
      defaults (`N/A`, 0, `Unknown`) ever applies: a null name or language
      reaches the prompt as null. */
  lemma PromptDefaultsUnused(r: RepoRecord)
    ensures var p := PromptDataOf(RecordDict(r));
            p.Some? <==> PromptTopics(r.topics).Some?
    ensures var p := PromptDataOf(RecordDict(r));
            p.Some? ==>
              p.value == PromptData(r.name, r.description, r.stars, r.forks, r.language,
                                    JNumber(r.commits), JString(r.readme), PromptTopics(r.topics).value)
  {
    RecordDictLookups(r);
  }

  /** The fixed instructions before the repository data. */
  const Preamble: string := "You are an AI Coding Mentor. Analyze this GitHub repository and provide a structured evaluation focused on giving honest, actionable feedback."

  /** The fixed description of the JSON answer required, after the data. */
  const OutputContract: string := "Provide a JSON response with exactly this structure: score, level, medal, summary, strengths, improvements, roadmap."

  /** The repository data lines of the prompt, one per field, in order. */
  function DataLines(p: PromptData, repr: Json -> string): seq<string>
  {
    ["- Name: " + Format(p.name, repr),
     "- Description: " + Format(p.description, repr),
     "- Stars: " + Format(p.stars, repr),
     "- Forks: " + Format(p.forks, repr),
     "- Language: " + Format(p.language, repr),
     "- Total Commits (from last 50): " + Format(p.commits, repr),
     "- README Status: " + Format(p.readme, repr),
     "- Topics: " + p.topics]
  }

  /** The data section as the f-string writes it: each line preceded by a
      line break. */
  function Prefixed(lines: seq<string>): string
  {
    if |lines| == 0 then "" else "\n" + lines[0] + Prefixed(lines[1..])
  }

  /** Lines each preceded by a line break are a line break and the lines
      joined by line breaks. */
  lemma {:induction false} PrefixedJoin(lines: seq<string>)
    requires |lines| >= 1
    ensures Prefixed(lines) == "\n" + Join(lines, "\n")
    decreases |lines|
  {
    if |lines| > 1 {
      PrefixedJoin(lines[1..]);
    } else {
      assert Prefixed(lines[1..]) == "";
    }
  }

  /** The prompt text: the instructions, the data lines joined by newlines,
      then the description of the answer. */
  function BuildPrompt(p: PromptData, repr: Json -> string): (prompt: string)
    ensures prompt == Preamble + "\n\nRepository Data:" + "\n" + Join(DataLines(p, repr), "\n") + "\n\n" + OutputContract
  {
    var lines := DataLines(p, repr);
    PrefixedJoin(lines);
    Preamble + "\n\nRepository Data:" + Prefixed(lines) + "\n\n" + OutputContract
  }

  /** The prompt sent for a fetched record, or None when building it raises.
      It is built from the record's own values; no default applies. */
  function PromptFor(r: RepoRecord, repr: Json -> string): (prompt: Option<string>)
    ensures prompt.None? <==> PromptTopics(r.topics).None?
  {
    PromptDefaultsUnused(r);
    match PromptDataOf(RecordDict(r))
    case None => None
    case Some(p) => Some(BuildPrompt(p, repr))
  }

  /** A falsy topics value (null, 0, false, an empty list) never makes the
      prompt fail, even one whose join would raise: it reads as `None`. */
  lemma FalsyTopicsPromptBuilt(r: RepoRecord, repr: Json -> string)
    requires !Truthy(r.topics)
    ensures PromptTopics(r.topics) == Some("None")
    ensures PromptFor(r, repr).Some?
    ensures r.topics == JNull ==> JoinTopics(r.topics).None?
  {
  }

  /** The prompt for a fetched record carries the record's own values. */
  lemma PromptForValues(r: RepoRecord, repr: Json -> string)
    requires PromptTopics(r.topics).Some?
    ensures PromptFor(r, repr)
            == Some(BuildPrompt(PromptData(r.name, r.description, r.stars, r.forks, r.language,
                                           JNumber(r.commits), JString(r.readme), PromptTopics(r.topics).value), repr))
  {
    PromptDefaultsUnused(r);
  }

  /** The model's reply: its text, or an exception from the client. */
  datatype ModelReply = ModelText(text: string) | ModelRaised

  /** What `get_ai_analysis` ends in: the decoded answer, the invalid-format
      error (with the text that failed to parse, which is shown), or an
      exception that escapes to the caller. */
  datatype Analysis = Parsed(value: Json) | BadFormat(shown: string) | AnalysisRaised

  /** The analysis and the number of model calls made (0 or 1). */
  datatype AnalysisRun = AnalysisRun(analysis: Analysis, modelCalls: nat)

  /** `json.loads` on the cleaned text: the value, or the format error. */
  function Decode(parse: string -> Option<Json>, cleaned: string): Analysis
  {
    match parse(cleaned)
    case Some(v) => Parsed(v)
    case None => BadFormat(cleaned)
  }

  /** How the analysis follows from the model's reply: an exception escapes,
      and a text is stripped of its fence and handed to the parser. */
  predicate Answered(reply: ModelReply, parse: string -> Option<Json>, a: Analysis)
  {
    match reply
    case ModelRaised => a == AnalysisRaised
    case ModelText(text) => a == Decode(parse, StripFences(text))
  }

  /** `get_ai_analysis` on a fetched record. */
  function GetAiAnalysis(r: RepoRecord, model: string -> ModelReply,
                         parse: string -> Option<Json>, repr: Json -> string): (run: AnalysisRun)
    ensures PromptFor(r, repr).None? <==> run == AnalysisRun(AnalysisRaised, 0)
    ensures PromptFor(r, repr).Some? ==> run.modelCalls == 1 && Answered(model(PromptFor(r, repr).value), parse, run.analysis)
    ensures run.analysis.BadFormat? ==> IsStripped(run.analysis.shown) && parse(run.analysis.shown).None?
  {
    match PromptFor(r, repr)
    case None => AnalysisRun(AnalysisRaised, 0)
    case Some(prompt) =>
      match model(prompt)
      case ModelRaised => AnalysisRun(AnalysisRaised, 1)
      case ModelText(text) => AnalysisRun(Decode(parse, StripFences(text)), 1)
  }

  /** When the model wraps a trimmed JSON payload in a ```` ```json ```` or
      bare ```` ``` ```` fence, the parser sees exactly the payload. */
  lemma FencedAnswerParsed(r: RepoRecord, model: string -> ModelReply, parse: string -> Option<Json>,
                           repr: Json -> string, tag: string, body: string, v: Json)
    requires PromptFor(r, repr).Some?
    requires tag == "json" || tag == ""
    requires IsStripped(body) && parse(body) == Some(v)
    requires model(PromptFor(r, repr).value) == ModelText(Fenced(tag, body))
    ensures GetAiAnalysis(r, model, parse, repr) == AnalysisRun(Parsed(v), 1)
  {
    FenceBare(tag, body);
  }

  /** Whitespace the model puts around its reply changes nothing: two models
      whose replies to the prompt differ only by surrounding whitespace lead
      to the same analysis. */
  lemma ReplyPaddingIrrelevant(r: RepoRecord, model1: string -> ModelReply, model2: string -> ModelReply,
                               parse: string -> Option<Json>, repr: Json -> string,
                               pre: string, post: string)
    requires All(pre, IsSpace) && All(post, IsSpace)
    requires PromptFor(r, repr).Some?
    requires model1(PromptFor(r, repr).value).ModelText?
    requires model2(PromptFor(r, repr).value) == ModelText(pre + model1(PromptFor(r, repr).value).text + post)
    ensures GetAiAnalysis(r, model1, parse, repr) == GetAiAnalysis(r, model2, parse, repr)
  {
    var t := model1(PromptFor(r, repr).value).text;
    StripAround(pre, t, post);
  }
}
