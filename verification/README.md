# Repo Scorer AI: a Dafny model of its request path

Repo Scorer AI is a single-page Streamlit application (`app.py`). The user types a
GitHub repository URL and presses *Analyze Repository*. The application then:

- pulls the owner and repository name out of the URL;
- asks the GitHub REST API for the repository, its latest commits and its README;
- flattens those answers into one record;
- asks a Gemini model to grade the repository as JSON;
- strips the Markdown code fence the model tends to wrap its answer in, and parses it;
- shows a score card, a medal, a roadmap, a topics line, strengths and improvements;
- remembers the last URL it analysed, so pressing the button again on the same text does nothing.

The project models that path as pure functions over immutable values:

| module | file | what it holds |
|---|---|---|
| `Optional` | `optional.dfy` | the option type |
| `Json` | `json.dfy` | the values `json.loads` produces, with Python's `dict.get`, truthiness and iteration over them |
| `Text` | `text.dfy` | the Python string operations the code uses: `strip()`, `rstrip(ch)`, `startswith`, `replace(old, new, 1)`, `split('/')`, `', '.join` |
| `RepoUrl` | `repo_url.dfy` | URL → (owner, repository) |
| `Fence` | `fence.dfy` | code-fence removal on the model's answer |
| `Fetch` | `fetch.dfy` | `fetch_repo_data`; the three HTTP outcomes are inputs |
| `Prompt` | `prompt.dfy` | the prompt dictionary, the prompt text and `get_ai_analysis`; the model and the JSON parser are inputs |
| `Display` | `display.dfy` | the values the result page shows |
| `Session` | `session.dfy` | one button press as a transition of the session state, and series of presses |

Python exceptions become `None` or a dedicated outcome (`Crashed`, `Unexpected`, `AnalysisRaised`). Everything the code cannot see is a parameter:

- GitHub's answers;
- the model;
- the JSON parser;
- Python's `str()` of a list or a dictionary.

`str()` of null, booleans and integers is written out.

## Model

| member | source | states |
|---|---|---|
| Text.StripPadded | app.py:145 | `strip()` of a stripped text surrounded by whitespace of any kind gives that text back |
| Text.StripInfix | app.py:107 | `strip()` returns a contiguous piece of its input, and everything it cut on either side is whitespace |
| Text.FindFrom | app.py:110 | the search finds the least index, at or after the start, where the pattern occurs, and finds nothing only when there is no such occurrence |
| Text.ReplacePrefix | app.py:110 | replacing the first occurrence of a prefix the text starts with by nothing removes exactly that prefix |
| Text.JoinSplit | app.py:145 | joining the pieces of `split('/')` with `/` gives the text back |
| Text.SplitJoin | app.py:145 | splitting a `/`-join of slash-free pieces gives the pieces back |
| Text.SplitPieces | app.py:145 | no piece of `split('/')` contains `/` |
| Text.StripAround | app.py:107 | whitespace added around any text does not change what `strip()` gives |
| Text.JoinEmpty | app.py:207 | a `', '` join is empty exactly when there are no topics or the only topic is empty |
| RepoUrl.ParseRepoUrl | app.py:145-151 | an accepted URL yields an owner and a repository that are both non-empty and slash-free |
| RepoUrl.ParseRepoUrlIff | app.py:145-151 | a URL yields (owner, repo) exactly when owner and repo are both non-empty and slash-free, and its trimmed, right-slash-stripped form ends in `owner/repo` with either nothing or a `/` right before it |
| RepoUrl.PrefixedRoundTrip | app.py:145-151 | any prefix ending in `/`, then `owner/repo`, with surrounding whitespace and trailing slashes, yields (owner, repo) |
| RepoUrl.GitHubUrlRoundTrip | app.py:145-151 | `https://github.com/owner/repo`, with surrounding whitespace and trailing slashes, yields (owner, repo) |
| RepoUrl.HostBecomesOwner | app.py:145-151 | a URL with a single path segment after the host is accepted, with the host taken as the owner |
| RepoUrl.WhitespaceRejected | app.py:145-148 | a URL of whitespace only (or empty) is rejected as malformed |
| Fence.StripFences | app.py:107-112 | the text handed to the parser never starts or ends with whitespace |
| Fence.UnfencedUnchanged | app.py:107-112 | an answer not opening with a fence reaches the parser exactly as trimmed |
| Fence.JsonFenceRemoved | app.py:109-110 | a ```` ```json ```` opening loses those seven characters, then every trailing backtick, then surrounding whitespace |
| Fence.PlainFenceRemoved | app.py:111-112 | any other ```` ``` ```` opening loses only its three backticks, then every trailing backtick, then surrounding whitespace |
| Fence.FenceRoundTrip | app.py:107-112 | a trimmed payload fenced with ```` ```json ```` or bare ```` ``` ````, with any surrounding whitespace, is recovered exactly |
| Fence.OtherTagKept | app.py:111-112 | with any tag that does not start with `json` (such as `JSON` or `js`) the tag line stays in front of the payload, so the parser sees it |
| Fence.JsonPrefixedTagCut | app.py:109-110 | a tag that starts with `json` but is longer (`jsonc`, `json5`) loses only those four letters, and the rest of the tag stays in front of the payload |
| Fetch.CommitCount | app.py:59 | the commit count is the length of the commits answer when it is a list, whatever its status, and 0 otherwise |
| Fetch.ReadmeStatus | app.py:51 | the README line is the "exists" text exactly for HEAD status 200, and the "not found" text otherwise |
| Fetch.ApiError | app.py:41-43 | a non-200 answer with a JSON dictionary body gives its status and its `message`, or `Unknown Error` when the key is absent. Any other body gives the unexpected error, since `.json()` or `.get` raises |
| Fetch.FetchRepo | app.py:33-66 | one to three calls are made. A record is produced exactly when all three calls answered, the primary with 200 and a JSON dictionary, the commits with JSON. That record is the normalisation of the answers. Each failure point is fixed: a timeout on any call is reported as a timeout after that call. An exception or an undecodable body is reported as unexpected. A non-200 primary answer gives its API error after one call |
| Fetch.Normalise | app.py:52-62 | every field keeps its key's value when the key is present, even a null one. The `.get` default applies only to an absent key. The commit count and the README line come from the commits answer and the HEAD status |
| Fetch.NormaliseRoundTrip | app.py:52-62 | normalising the answers GitHub sends for a record, under GitHub's own key names, gives that record back |
| Fetch.FetchOfAnswers | app.py:38-62 | when GitHub answers all three calls for a record, the fetch returns exactly that record after three calls |
| Prompt.RecordDictLookups | app.py:52-62 | every key the prompt reads is present in the fetched dictionary, with the record's value |
| Prompt.PromptDefaultsUnused | app.py:70-79 | on a fetched record none of the prompt's defaults (`N/A`, 0, `Unknown`) applies. Building the prompt data fails exactly when the topics value is truthy and its `', '` join raises (a null, 0 or false value reads as `None`) |
| Prompt.PromptTopics | app.py:78 | the prompt's topics text is `None` for a falsy value and the `', '` join of a truthy one, failing when that join raises |
| Prompt.PromptDataOf | app.py:70-79 | each prompt field is its key's value when present and its default (`N/A`, 0, `Unknown`) when absent. An absent topics key reads as `None`. The data fails exactly when the topics value is truthy and its `', '` join raises (a null, 0 or false value reads as `None`) |
| Prompt.BuildPrompt | app.py:81-104 | the prompt is the instructions, the `Repository Data:` heading, the eight labelled data lines in order joined by line breaks, and the description of the answer |
| Prompt.PromptFor | app.py:69-91 | the prompt for a fetched record cannot be built exactly when the record's topics value is truthy and its `', '` join raises (a null, 0 or false value reads as `None`) |
| Prompt.FalsyTopicsPromptBuilt | app.py:78 | a falsy topics value (null, 0, false, an empty list) reads as `None` in the prompt and never makes it fail, although a null value cannot be joined |
| Prompt.PromptForValues | app.py:70-91 | the prompt for a fetched record is built from the record's own values |
| Prompt.GetAiAnalysis | app.py:69-119 | when the prompt cannot be built, nothing is called and the analysis raises. Otherwise the model is called once. Its exception escapes. Its text is stripped of its fence and parsed: a value on success, the format error carrying the stripped text otherwise |
| Prompt.FencedAnswerParsed | app.py:106-115 | a model that fences a trimmed JSON payload yields exactly that payload's value after one call |
| Prompt.ReplyPaddingIrrelevant | app.py:106-115 | two replies that differ only by surrounding whitespace lead to the same analysis |
| Display.MedalText | app.py:184 | the medal cell per case. Missing → bronze glyph and `Bronze`. `Gold`, `Silver`, `Bronze` → their glyph and name. Any other name → star and the name. A list or dictionary → failure. Any other value → star and its `str()` |
| Display.PageTopics | app.py:207 | the page's topics text exists exactly when the join does. It is the join when that is non-empty and `None` when it is empty |
| Display.TopicsAgreeIff | app.py:78 | for a list of topic names, the prompt's topics text equals the page's exactly when the list is not a single empty name |
| Display.TopicsNullDiverges | app.py:78 | a null topics value reaches the prompt as `None`, while the page's join over the same value raises |
| Display.SingleEmptyTopic | app.py:207 | for a single empty topic name the prompt shows an empty text and the page shows `None` |
| Display.ContainsError | app.py:161 | `"error" in result`: a key test on a dictionary, an element test on a list, a substring test on a string, and a failure on any other value |
| Display.RenderPage | app.py:170-224 | a page is shown exactly when all of these hold: the answer is a dictionary; its level and the record's language are values `st.metric` accepts; the medal is hashable; a truthy roadmap is iterable; the topics join; the strengths and improvements are iterable. Absent fields show their defaults: score `0/100`, level `Unknown`, summary `No summary available.`, and no roadmap steps, strengths or improvements. The header shows the record's name and the link its URL, each as `str()` gives it. Present fields show their own values: the score's `str()`, the level, the summary, the roadmap steps and the strength and improvement items, in order |
| Display.WellFormedAnswerRenders | app.py:170-224 | an answer of the requested shape, with a known medal, renders exactly its own score, level, medal glyph, summary and lists |
| Session.Attempt | app.py:153-230 | the URL is recorded exactly when the fetch returns a record, the answer decodes, and it has no `error` entry. A fetch failure is reported as that failure, with its call count and no model call. After a fetched record: a model exception or a prompt that cannot be built is a crash; an answer that does not parse shows the cleaned text; an `error` entry returns silently; an answer on which `in` raises is a crash; an error-free answer shows its rendered page, or crashes when rendering raises |
| Session.Submit | app.py:134-230 | the session changes exactly when the text passes the empty and duplicate checks and its analysis succeeds, and it then records that text. A model exception or a fetch failure leaves the session alone. The empty, duplicate and malformed outcomes happen exactly in their cases, with no call. A fetch failure is reported as that failure. After a fetched record the outcome follows the analysis as for `Attempt`: crash, cleaned text shown, silent return, or the rendered page |
| Session.RepeatIsFreeIffSucceeded | app.py:139-164 | pressing twice on a well-formed, unguarded text makes no call the second time exactly when the first analysis succeeded; after a success, the second press is stopped by the duplicate guard |
| Session.FailureAllowsRetry | app.py:139-164 | after an analysis that did not succeed, pressing again with the same text fetches again |
| Session.RepeatIsFree | app.py:139-141 | resubmitting the text just recorded makes no call and leaves the session unchanged |
| Session.CanonicalParses | app.py:145-151 | the canonical GitHub URL names its repository |
| Session.TrailingSpaceParses | app.py:145-151 | the canonical URL followed by whitespace names the same repository |
| Session.GuardIgnoresTrimming | app.py:139-145 | the recorded URL plus a trailing space names the same repository, yet it passes the duplicate guard and is fetched again |
| Session.WhitespaceUrlIsInvalid | app.py:135-148 | a non-empty all-whitespace URL passes the empty check and is rejected as malformed, without any call |
| Session.RunKeepsRecordable | app.py:164 | over any series of requests, the recorded URL is the initial one or one of the texts submitted, and is always non-empty and well formed |

## Left out

- Streamlit widgets are not modelled: layout, spinner, balloons, messages and the `st.stop()` of a missing key. The page is the tuple of values it would show.
- `init_gemini` and the API-key configuration are not modelled. They run once at start-up, before any request.
- The HTTP requests are not modelled: headers, the optional token, the 5-second timeouts and the `per_page=50` parameter. Each call's outcome (timed out, raised, or status and body) is an input.
- The Gemini call is not modelled. Its text or its exception is an input.
- JSON decoding is an input function (`parse`). The model does not decide which texts are valid JSON.
- Python's `str()` of a list or a dictionary is an input function (`repr`).
- Floating-point JSON numbers are not modelled. Numbers are integers.
- The timestamp from `datetime.now()` is not modelled.
- Exception message texts are not modelled: the `str(e)` in the unexpected-error messages and the formatted error strings. The error kinds and statuses are kept.
- Prompt.BuildPrompt: the long instruction prose of the prompt is abbreviated to two fixed sentences. The repository data lines are formatted as the code formats them.
- Display.RenderPage: does not state how `st.metric` displays an accepted value. It takes `st.info` to accept a summary of any type.
- Json.Lookup: JSON objects are ordered member lists whose keys are not forced distinct. Lookup returns the first match, which is what `dict.get` returns on a decoded object.

## Behaviour worth knowing

- The duplicate guard compares the raw, untrimmed URL, and it runs before the URL is validated. The same repository with a trailing space is fetched again.
- `https://github.com/onlyowner` is accepted, with `github.com` as the owner.
- A fence tagged `jsonc`, `json5` or `jsonl` loses only ```` ```json ````, so the parser sees the rest of the tag (`c`, `5`, `l`) in front of the payload, and that text is not valid JSON.
- The commit count is the length of the list GitHub returns. Only the `per_page=50` request parameter bounds it.
- An exception or undecodable body from the commits call is not degraded to a default, and neither is an exception from the README HEAD request. The general handler turns each into the unexpected-error result, and a timeout on either becomes the timeout result. The HEAD answer's body is never read.
- The URL is recorded before the page is rendered. A rendering failure after that point still records it.
