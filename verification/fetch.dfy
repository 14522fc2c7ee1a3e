/**
  Normalisation of the three GitHub REST responses into the flat repository
  record (app.py, `fetch_repo_data`). The HTTP calls themselves are not
  modelled: each call's outcome is an input.
 */
module Fetch {
  import opened Optional
  import opened Json

  /** What one `requests` call produced. `body` is None when the body is not
      JSON, in which case `.json()` raises. */
  datatype HttpReply =
    | TimedOut
    | Raised
    | Reply(status: int, body: Option<Json>)

  /** The error dictionary `fetch_repo_data` returns instead of a record. */
  datatype FetchError =
    | ApiFailed(status: int, message: Json)
    | Timeout
    | Unexpected

  const ReadmePresent: string := "README exists and is accessible"
  const ReadmeMissing: string := "No README found"
  const UnknownError: string := "Unknown Error"

  /** The normalised dictionary built from the GitHub answers. */
  datatype RepoRecord = RepoRecord(
    name: Json,
    description: Json,
    stars: Json,
    forks: Json,
    language: Json,
    url: Json,
    commits: nat,
    readme: string,
    topics: Json)

  datatype FetchResult = Fetched(record: RepoRecord) | FetchFailed(error: FetchError)

  /** The result together with the number of GitHub calls made. */
  datatype FetchRun = FetchRun(result: FetchResult, calls: nat)

  /** The commit count: the length of the commits answer when it is a list,
      whatever its status, and 0 otherwise. */
  function CommitCount(commits: Json): (n: nat)
    ensures commits.JArray? ==> n == |commits.items|
    ensures !commits.JArray? ==> n == 0
  {
    if commits.JArray? then |commits.items| else 0
  }

  /** The README line, decided by the status of the HEAD request alone. */
  function ReadmeStatus(headStatus: int): (r: string)
    ensures r == ReadmePresent <==> headStatus == 200
    ensures r == ReadmeMissing <==> headStatus != 200
  {
    if headStatus == 200 then ReadmePresent else ReadmeMissing
  }

  /** The record built from the repository dictionary; each `.get` default
      applies only when its key is absent, and a present key keeps its value
      even when that value is null. */
  function Normalise(repo: seq<(string, Json)>, commits: Json, headStatus: int): (r: RepoRecord)
    ensures Lookup(repo, "name").Some? ==> r.name == Lookup(repo, "name").value
    ensures Lookup(repo, "name").None? ==> r.name == JNull
    ensures Lookup(repo, "description").Some? ==> r.description == Lookup(repo, "description").value
    ensures Lookup(repo, "description").None? ==> r.description == JNull
    ensures Lookup(repo, "stargazers_count").Some? ==> r.stars == Lookup(repo, "stargazers_count").value
    ensures Lookup(repo, "stargazers_count").None? ==> r.stars == JNumber(0)
    ensures Lookup(repo, "forks_count").Some? ==> r.forks == Lookup(repo, "forks_count").value
    ensures Lookup(repo, "forks_count").None? ==> r.forks == JNumber(0)
    ensures Lookup(repo, "language").Some? ==> r.language == Lookup(repo, "language").value
    ensures Lookup(repo, "language").None? ==> r.language == JString("Unknown")
    ensures Lookup(repo, "html_url").Some? ==> r.url == Lookup(repo, "html_url").value
    ensures Lookup(repo, "html_url").None? ==> r.url == JNull
    ensures Lookup(repo, "topics").Some? ==> r.topics == Lookup(repo, "topics").value
    ensures Lookup(repo, "topics").None? ==> r.topics == JArray([])
    ensures r.commits == CommitCount(commits)
    ensures r.readme == ReadmeStatus(headStatus)
  {
    RepoRecord(
      GetOr(repo, "name", JNull),
      GetOr(repo, "description", JNull),
      GetOr(repo, "stargazers_count", JNumber(0)),
      GetOr(repo, "forks_count", JNumber(0)),
      GetOr(repo, "language", JString("Unknown")),
      GetOr(repo, "html_url", JNull),
      CommitCount(commits),
      ReadmeStatus(headStatus),
      GetOr(repo, "topics", JArray([])))
  }

  /** The error for a primary answer other than 200: its status and the
      `message` of its JSON dictionary, when the body is one. A body that is
      not JSON, or JSON but not a dictionary, makes `.json()` or `.get`
      raise, which the general handler reports. */
  function ApiError(status: int, body: Option<Json>): (e: FetchError)
    ensures e.ApiFailed? <==> body.Some? && body.value.JObject?
    ensures e.ApiFailed? ==> e.status == status
    ensures e.ApiFailed? && Lookup(body.value.members, "message").Some? ==>
              e.message == Lookup(body.value.members, "message").value
    ensures e.ApiFailed? && Lookup(body.value.members, "message").None? ==>
              e.message == JString(UnknownError)
    ensures !e.ApiFailed? ==> e == Unexpected
  {
    if body.Some? && body.value.JObject? then
      ApiFailed(status, GetOr(body.value.members, "message", JString(UnknownError)))
    else Unexpected
  }

  /** `fetch_repo_data` given the outcomes of its three calls, in call order:
      repository metadata, the latest commits, and the HEAD of README.md.
      A timeout anywhere is reported as a timeout; any other exception, an
      undecodable body, or a primary body that is not a dictionary as an
      unexpected error. The HEAD answer's body is never read. */
  function FetchRepo(primary: HttpReply, commits: HttpReply, readme: HttpReply): (r: FetchRun)
    ensures 1 <= r.calls <= 3
    ensures r.result.Fetched? <==>
              primary.Reply? && primary.status == 200 && primary.body.Some? && primary.body.value.JObject?
              && commits.Reply? && commits.body.Some? && readme.Reply?
    ensures r.result.Fetched? ==> r.calls == 3
    ensures r.result.Fetched? ==>
              r.result.record == Normalise(primary.body.value.members, commits.body.value, readme.status)
    // the primary call
    ensures primary.TimedOut? ==> r == FetchRun(FetchFailed(Timeout), 1)
    ensures primary.Raised? ==> r == FetchRun(FetchFailed(Unexpected), 1)
    ensures primary.Reply? && primary.status != 200 ==>
              r == FetchRun(FetchFailed(ApiError(primary.status, primary.body)), 1)
    ensures primary.Reply? && primary.status == 200 && primary.body.None? ==>
              r == FetchRun(FetchFailed(Unexpected), 1)
    // the commits call, after a decodable 200 answer
    ensures PrimaryDecoded(primary) && commits.TimedOut? ==> r == FetchRun(FetchFailed(Timeout), 2)
    ensures PrimaryDecoded(primary) && (commits.Raised? || (commits.Reply? && commits.body.None?)) ==>
              r == FetchRun(FetchFailed(Unexpected), 2)
    // the README call, after a decodable commits answer
    ensures PrimaryDecoded(primary) && CommitsDecoded(commits) && readme.TimedOut? ==>
              r == FetchRun(FetchFailed(Timeout), 3)
    ensures PrimaryDecoded(primary) && CommitsDecoded(commits) && readme.Raised? ==>
              r == FetchRun(FetchFailed(Unexpected), 3)
    ensures PrimaryDecoded(primary) && CommitsDecoded(commits) && readme.Reply? && !primary.body.value.JObject? ==>
              r == FetchRun(FetchFailed(Unexpected), 3)
  {
    match primary
    case TimedOut => FetchRun(FetchFailed(Timeout), 1)
    case Raised => FetchRun(FetchFailed(Unexpected), 1)
    case Reply(status, body) =>
      if status != 200 then FetchRun(FetchFailed(ApiError(status, body)), 1)
      else if body.None? then FetchRun(FetchFailed(Unexpected), 1)
      else
        match commits
        case TimedOut => FetchRun(FetchFailed(Timeout), 2)
        case Raised => FetchRun(FetchFailed(Unexpected), 2)
        case Reply(_, commitsBody) =>
          if commitsBody.None? then FetchRun(FetchFailed(Unexpected), 2)
          else
            match readme
            case TimedOut => FetchRun(FetchFailed(Timeout), 3)
            case Raised => FetchRun(FetchFailed(Unexpected), 3)
            case Reply(headStatus, _) =>
              if !body.value.JObject? then FetchRun(FetchFailed(Unexpected), 3)
              else FetchRun(Fetched(Normalise(body.value.members, commitsBody.value, headStatus)), 3)
  }

  /** The primary call answered 200 with a JSON body. */
  predicate PrimaryDecoded(primary: HttpReply)
  {
    primary.Reply? && primary.status == 200 && primary.body.Some?
  }

  /** The commits call answered with a JSON body, whatever its status. */
  predicate CommitsDecoded(commits: HttpReply)
  {
    commits.Reply? && commits.body.Some?
  }

  // ---- GitHub's answers for a record ----

  /** The repository object GitHub would send for a record's fields, under
      GitHub's own key names. */
  function RepoAnswer(r: RepoRecord): seq<(string, Json)>
  {
    [("name", r.name), ("description", r.description), ("stargazers_count", r.stars),
     ("forks_count", r.forks), ("language", r.language), ("html_url", r.url),
     ("topics", r.topics)]
  }

  /** A commits answer listing `n` commits. */
  function CommitList(n: nat): Json
  {
    JArray(seq(n, i => JObject([])))
  }

  /** The HEAD status that yields a README line. */
  function HeadStatusFor(readme: string): int
  {
    if readme == ReadmePresent then 200 else 404
  }

  /** Normalising the answers GitHub sends for a record gives that record
      back: every field comes from its own key. */
  lemma NormaliseRoundTrip(r: RepoRecord)
    requires r.readme == ReadmePresent || r.readme == ReadmeMissing
    ensures Normalise(RepoAnswer(r), CommitList(r.commits), HeadStatusFor(r.readme)) == r
  {
    NameDescriptionStarsFound(r);
    ForksLanguageUrlTopicsFound(r);
  }

  /** The first three entries of GitHub's answer for a record are found
      under `name`, `description` and `stargazers_count`. */
  lemma NameDescriptionStarsFound(r: RepoRecord)
    ensures var d := RepoAnswer(r);
      Lookup(d, "name") == Some(r.name) && Lookup(d, "description") == Some(r.description)
      && Lookup(d, "stargazers_count") == Some(r.stars)
  {
    var d := RepoAnswer(r);
    LookupFirst(d, 0);
    LookupFirst(d, 1);
    LookupFirst(d, 2);
  }

  /** The remaining entries are found under `forks_count`, `language`,
      `html_url` and `topics`. */
  lemma ForksLanguageUrlTopicsFound(r: RepoRecord)
    ensures var d := RepoAnswer(r);
      Lookup(d, "forks_count") == Some(r.forks) && Lookup(d, "language") == Some(r.language)
      && Lookup(d, "html_url") == Some(r.url) && Lookup(d, "topics") == Some(r.topics)
  {
    var d := RepoAnswer(r);
    LookupFirst(d, 3);
    LookupFirst(d, 4);
    LookupFirst(d, 5);
    LookupFirst(d, 6);
  }

  /** When GitHub answers all three calls for a record, the fetch returns
      exactly that record after three calls. */
  lemma FetchOfAnswers(r: RepoRecord, commitsStatus: int, headBody: Option<Json>)
    requires r.readme == ReadmePresent || r.readme == ReadmeMissing
    ensures FetchRepo(Reply(200, Some(JObject(RepoAnswer(r)))),
                      Reply(commitsStatus, Some(CommitList(r.commits))),
                      Reply(HeadStatusFor(r.readme), headBody))
            == FetchRun(Fetched(r), 3)
  {
    NormaliseRoundTrip(r);
  }
}
