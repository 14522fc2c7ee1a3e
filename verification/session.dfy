/**
  One press of the Analyze button (app.py, `main`) as a transition of the
  session state, whose only field is the last URL analysed. The outside
  world is an input: GitHub's answers for each owner and repository, the
  model, the JSON parser and Python's `str()`.
 */
module Session {
  import opened Optional
  import opened Json
  import opened Text
  import opened RepoUrl
  import opened Fetch
  import opened Prompt
  import opened Display

  datatype Session = Session(lastAnalyzedUrl: Option<string>)

  const Initial: Session := Session(None)

  /** GitHub's answers to the three calls for a given owner and repository,
      the model, the parser and `str()`. */
  datatype World = World(
    repoCall: (string, string) -> HttpReply,
    commitsCall: (string, string) -> HttpReply,
    readmeCall: (string, string) -> HttpReply,
    model: string -> ModelReply,
    parse: string -> Option<Json>,
    repr: Json -> string)

  /** How one request ends. */
  datatype Outcome =
    | EmptyUrl                  // "Please enter a repository URL."
    | AlreadyAnalyzed           // the duplicate guard
    | InvalidUrl                // "Invalid repository URL format."
    | FetchError(error: FetchError)
    | BadAnswer(shown: string)  // the answer did not parse; the stripped text is shown
    | AnswerHasError            // the decoded answer contains "error": silent return
    | Crashed                   // an exception reached the handler around the analysis
    | Rendered(page: Page)

  /** The new session, the outcome, and the number of GitHub and model calls. */
  datatype Step = Step(session: Session, outcome: Outcome, githubCalls: nat, modelCalls: nat)

  /** The outcomes that leave the last analysed URL as it was. */
  predicate KeepsSession(o: Outcome)
  {
    !o.Rendered? && !o.Crashed?
  }

  /** The three GitHub calls for a repository. */
  function FetchFor(owner: string, repo: string, w: World): FetchRun
  {
    FetchRepo(w.repoCall(owner, repo), w.commitsCall(owner, repo), w.readmeCall(owner, repo))
  }

  /** The model's analysis of a fetched record. */
  function AnalysisFor(record: RepoRecord, w: World): AnalysisRun
  {
    GetAiAnalysis(record, w.model, w.parse, w.repr)
  }

  /** The URL names a repository, the fetch returns its record, and the
      model's answer decodes to a value without an `error` entry: the
      conditions under which the URL is recorded. */
  predicate Succeeds(url: string, w: World)
  {
    match ParseRepoUrl(url)
    case None => false
    case Some((owner, repo)) =>
      var fetch := FetchFor(owner, repo, w);
      fetch.result.Fetched?
      && var run := AnalysisFor(fetch.result.record, w);
         run.analysis.Parsed? && ContainsError(run.analysis.value) == Some(false)
  }

  /** A text the duplicate guard lets through: non-empty and not the one recorded. */
  predicate Fresh(s: Session, url: string)
  {
    url != "" && s.lastAnalyzedUrl != Some(url)
  }

  /** How the analysis of a fetched record ends the request: an exception
      reaches the general handler; an answer that does not parse has its
      cleaned text shown; an `error` entry returns silently; a test for
      `error` that raises reaches the handler; an error-free answer renders,
      unless rendering raises. */
  predicate Reports(record: RepoRecord, a: Analysis, repr: Json -> string, o: Outcome)
  {
    (a.AnalysisRaised? ==> o == Crashed)
    && (a.BadFormat? ==> o == BadAnswer(a.shown))
    && (a.Parsed? ==>
          (o == AnswerHasError <==> ContainsError(a.value) == Some(true))
          && (ContainsError(a.value).None? ==> o == Crashed)
          && (ContainsError(a.value) == Some(false) ==>
                o == match RenderPage(record, a.value, repr)
                     case Some(p) => Rendered(p)
                     case None => Crashed))
  }

  /** The analysis proper, once the URL has named a repository: fetch,
      ask the model, test the answer for `error`, record the URL, render. */
  function Attempt(s: Session, url: string, owner: string, repo: string, w: World): (r: Step)
    ensures r.session == s || r.session == Session(Some(url))
    ensures r.session != s <==>
              s != Session(Some(url)) && FetchFor(owner, repo, w).result.Fetched?
              && AnalysisFor(FetchFor(owner, repo, w).result.record, w).analysis.Parsed?
              && ContainsError(AnalysisFor(FetchFor(owner, repo, w).result.record, w).analysis.value) == Some(false)
    ensures r.outcome.Rendered? ==> r.session == Session(Some(url))
    ensures KeepsSession(r.outcome) ==> r.session == s
    ensures r.githubCalls >= 1 && r.outcome !in {EmptyUrl, AlreadyAnalyzed, InvalidUrl}
    ensures var fetch := FetchFor(owner, repo, w);
            (r.outcome.FetchError? <==> fetch.result.FetchFailed?)
            && (fetch.result.FetchFailed? ==>
                  r.outcome == FetchError(fetch.result.error) && r.githubCalls == fetch.calls && r.modelCalls == 0)
            && (fetch.result.Fetched? ==>
                  r.githubCalls == 3 && r.modelCalls == AnalysisFor(fetch.result.record, w).modelCalls)
    ensures var fetch := FetchFor(owner, repo, w);
            fetch.result.Fetched? ==>
              Reports(fetch.result.record, AnalysisFor(fetch.result.record, w).analysis, w.repr, r.outcome)
  {
    var fetch := FetchFor(owner, repo, w);
    match fetch.result
    case FetchFailed(e) => Step(s, FetchError(e), fetch.calls, 0)
    case Fetched(record) =>
      var run := AnalysisFor(record, w);
      match run.analysis
      case AnalysisRaised => Step(s, Crashed, 3, run.modelCalls)
      case BadFormat(shown) => Step(s, BadAnswer(shown), 3, 1)
      case Parsed(answer) =>
        match ContainsError(answer)
        case None => Step(s, Crashed, 3, 1)
        case Some(true) => Step(s, AnswerHasError, 3, 1)
        case Some(false) =>
          // the URL is recorded before anything is rendered
          var recorded := Session(Some(url));
          match RenderPage(record, answer, w.repr)
          case None => Step(recorded, Crashed, 3, 1)
          case Some(page) => Step(recorded, Rendered(page), 3, 1)
  }

  /** One request with the text `url` typed into the input box. */
  function Submit(s: Session, url: string, w: World): (r: Step)
    ensures r.session == s || r.session == Session(Some(url))
    ensures r.session != s <==> Fresh(s, url) && Succeeds(url, w)
    ensures r.outcome.Rendered? ==> r.session == Session(Some(url))
    ensures KeepsSession(r.outcome) ==> r.session == s
    ensures r.outcome == EmptyUrl <==> url == ""
    ensures r.outcome == AlreadyAnalyzed <==> url != "" && s.lastAnalyzedUrl == Some(url)
    ensures r.outcome == InvalidUrl <==> Fresh(s, url) && ParseRepoUrl(url).None?
    ensures r.githubCalls == 0 <==> r.outcome in {EmptyUrl, AlreadyAnalyzed, InvalidUrl}
    ensures r.githubCalls == 0 ==> r.modelCalls == 0 && r.session == s
    ensures Fresh(s, url) && ParseRepoUrl(url).Some? ==>
              var fetch := FetchFor(ParseRepoUrl(url).value.0, ParseRepoUrl(url).value.1, w);
              (r.outcome.FetchError? <==> fetch.result.FetchFailed?)
              && (fetch.result.FetchFailed? ==>
                    r.outcome == FetchError(fetch.result.error) && r.githubCalls == fetch.calls && r.modelCalls == 0)
              && (fetch.result.Fetched? ==>
                    r.githubCalls == 3 && r.modelCalls == AnalysisFor(fetch.result.record, w).modelCalls)
    ensures Fresh(s, url) && ParseRepoUrl(url).Some? ==>
              var fetch := FetchFor(ParseRepoUrl(url).value.0, ParseRepoUrl(url).value.1, w);
              fetch.result.Fetched? ==>
                Reports(fetch.result.record, AnalysisFor(fetch.result.record, w).analysis, w.repr, r.outcome)
  {
    if url == "" then Step(s, EmptyUrl, 0, 0)
    else if s.lastAnalyzedUrl == Some(url) then Step(s, AlreadyAnalyzed, 0, 0)
    else
      match ParseRepoUrl(url)
      case None => Step(s, InvalidUrl, 0, 0)
      case Some((owner, repo)) => Attempt(s, url, owner, repo, w)
  }

  /** Pressing twice on a well-formed text fetches once exactly when the
      first analysis succeeded: only then does the guard stop the second press. */
  lemma RepeatIsFreeIffSucceeded(s: Session, url: string, w1: World, w2: World)
    requires Fresh(s, url) && ParseRepoUrl(url).Some?
    ensures var s1 := Submit(s, url, w1).session;
            (Submit(s1, url, w2).githubCalls == 0 <==> Succeeds(url, w1))
            && (Succeeds(url, w1) ==>
                  s1 == Session(Some(url)) && Submit(s1, url, w2) == Step(s1, AlreadyAnalyzed, 0, 0))
  {
  }

  /** A well-formed text whose analysis did not succeed is not recorded, so
      pressing again fetches again. */
  lemma FailureAllowsRetry(s: Session, url: string, w1: World, w2: World)
    requires Fresh(s, url) && ParseRepoUrl(url).Some? && !Succeeds(url, w1)
    ensures var s1 := Submit(s, url, w1).session;
            s1 == s && Submit(s1, url, w2).githubCalls >= 1
  {
  }

  /** Submitting the same text again right after it was recorded does
      nothing: no GitHub call, no model call, and the session stays. */
  lemma {:induction false} RepeatIsFree(s: Session, url: string, w1: World, w2: World)
    requires Recordable(s)
    requires Submit(s, url, w1).session.lastAnalyzedUrl == Some(url)
    ensures var s1 := Submit(s, url, w1).session;
            Submit(s1, url, w2) == Step(s1, AlreadyAnalyzed, 0, 0)
  {
    var s1 := Submit(s, url, w1).session;
    assert url != "";
  }

  /** The canonical URL names its repository. */
  lemma CanonicalParses(owner: string, repo: string)
    requires IsSegment(owner) && IsSegment(repo) && !IsSpace(repo[|repo| - 1])
    ensures ParseRepoUrl(GitHubUrl(owner, repo)) == Some((owner, repo))
  {
    var url := GitHubUrl(owner, repo);
    var padded := "" + url + "" + "";
    assert padded == url;
    GitHubUrlRoundTrip(owner, repo, "", "", "");
  }

  /** The canonical URL followed by whitespace names the same repository. */
  lemma TrailingSpaceParses(owner: string, repo: string, post: string)
    requires IsSegment(owner) && IsSegment(repo) && !IsSpace(repo[|repo| - 1])
    requires All(post, IsSpace)
    ensures ParseRepoUrl(GitHubUrl(owner, repo) + post) == Some((owner, repo))
  {
    var url := GitHubUrl(owner, repo);
    var padded := "" + url + "" + post;
    assert padded == url + post;
    GitHubUrlRoundTrip(owner, repo, "", "", post);
  }

  /** The guard compares the raw text, not the trimmed one: the canonical URL
      with a trailing space is fetched again, although it names the same
      repository as the recorded one. */
  lemma GuardIgnoresTrimming(owner: string, repo: string, w: World)
    requires IsSegment(owner) && IsSegment(repo) && !IsSpace(repo[|repo| - 1])
    ensures var url := GitHubUrl(owner, repo);
            ParseRepoUrl(url + " ") == ParseRepoUrl(url)
            && Submit(Session(Some(url)), url + " ", w).githubCalls >= 1
  {
    var url := GitHubUrl(owner, repo);
    CanonicalParses(owner, repo);
    TrailingSpaceParses(owner, repo, " ");
    assert |url + " "| != |url|;
    var r := Submit(Session(Some(url)), url + " ", w);
    assert r.outcome != AlreadyAnalyzed && r.outcome != InvalidUrl && r.outcome != EmptyUrl;
  }

  /** A URL of whitespace only gets past the empty check and is then
      rejected as malformed, without any call. */
  lemma WhitespaceUrlIsInvalid(s: Session, url: string, w: World)
    requires url != "" && All(url, IsSpace) && s.lastAnalyzedUrl != Some(url)
    ensures Submit(s, url, w) == Step(s, InvalidUrl, 0, 0)
  {
    WhitespaceRejected(url);
  }

  /** What a recorded URL always satisfies: it is non-empty and well formed. */
  predicate Recordable(s: Session)
  {
    s.lastAnalyzedUrl.None?
    || (s.lastAnalyzedUrl.value != "" && ParseRepoUrl(s.lastAnalyzedUrl.value).Some?)
  }

  /** The session after a series of requests. */
  function Run(s: Session, requests: seq<(string, World)>): Session
    decreases |requests|
  {
    if |requests| == 0 then s
    else Run(Submit(s, requests[0].0, requests[0].1).session, requests[1..])
  }

  /** Over any series of requests the recorded URL is the starting one or one
      of the texts submitted, and it is always non-empty and well formed. */
  lemma {:induction false} RunKeepsRecordable(s: Session, requests: seq<(string, World)>)
    requires Recordable(s)
    ensures Recordable(Run(s, requests))
    ensures Run(s, requests) == s
            || exists i :: 0 <= i < |requests| && Run(s, requests) == Session(Some(requests[i].0))
    decreases |requests|
  {
    if |requests| > 0 {
      var s1 := Submit(s, requests[0].0, requests[0].1).session;
      RunKeepsRecordable(s1, requests[1..]);
      var last := Run(s, requests);
      assert last == Run(s1, requests[1..]);
      if last != s && last != s1 {
        var i :| 0 <= i < |requests[1..]| && last == Session(Some(requests[1..][i].0));
        assert requests[1..][i] == requests[i + 1];
      }
    }
  }
}
