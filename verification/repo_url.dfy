/**
  Extraction of the owner and repository names from the URL the user types
  (app.py, `main`): strip surrounding whitespace, drop every trailing `/`,
  split on `/`, and take the last two pieces when there are at least two and
  neither is empty. The host and scheme are never looked at.
 */
module RepoUrl {
  import opened Optional
  import opened Text

  /** The URL after `strip()` and `rstrip('/')`. */
  function Normalize(url: string): string
  {
    RStripChar(Strip(url), '/')
  }

  /** A name the extraction can yield: non-empty and free of `/`. */
  predicate IsSegment(x: string)
  {
    x != "" && '/' !in x
  }

  /** `(owner, repo)` for an accepted URL, None for a rejected one. */
  function ParseRepoUrl(url: string): (r: Option<(string, string)>)
    ensures r.Some? ==> IsSegment(r.value.0) && IsSegment(r.value.1)
  {
    var parts := Split(Normalize(url), '/');
    SplitPieces(Normalize(url), '/');
    var n := |parts|;
    if n < 2 || parts[n - 2] == "" || parts[n - 1] == "" then None
    else Some((parts[n - 2], parts[n - 1]))
  }

  /** Independent description of acceptance: the normalised text ends with
      `owner/repo`, both non-empty and slash-free, and that tail is either
      the whole text or preceded by a `/`. */
  predicate EndsWithOwnerRepo(s: string, owner: string, repo: string)
  {
    var n := |owner| + 1 + |repo|;
    IsSegment(owner) && IsSegment(repo) && n <= |s|
    && s[|s| - n..] == owner + "/" + repo
    && (n == |s| || s[|s| - n - 1] == '/')
  }

  /** The canonical address of a repository on GitHub. */
  function GitHubUrl(owner: string, repo: string): string
  {
    "https://github.com/" + owner + "/" + repo
  }

  /** `owner/repo` splits into its two names. */
  lemma SplitOwnerRepo(owner: string, repo: string)
    requires IsSegment(owner) && IsSegment(repo)
    ensures Split(owner + "/" + repo, '/') == [owner, repo]
  {
    SplitAppend(owner, repo, '/');
    SplitNoSep(owner, '/');
    SplitNoSep(repo, '/');
  }

  /** The last two pieces of a split, when non-empty, form an `owner/repo` tail. */
  lemma SplitEndsWithOwnerRepo(s: string)
    requires var parts := Split(s, '/'); |parts| >= 2 && parts[|parts| - 2] != "" && parts[|parts| - 1] != ""
    ensures var parts := Split(s, '/'); EndsWithOwnerRepo(s, parts[|parts| - 2], parts[|parts| - 1])
  {
    var parts := Split(s, '/');
    var k := |parts|;
    var o, r := parts[k - 2], parts[k - 1];
    SplitPieces(s, '/');
    JoinSplit(s, '/');
    JoinLastTwo(parts, "/");
    var pre := if k == 2 then [] else Join(parts[..k - 2], "/") + "/";
    var tail := o + "/" + r;
    assert s == pre + tail;
    assert s[|pre|..] == tail;
    if k > 2 {
      assert s[|pre| - 1] == pre[|pre| - 1] == '/';
    }
  }

  /** An `owner/repo` tail is what the last two pieces of the split are. */
  lemma EndsWithOwnerRepoSplit(s: string, owner: string, repo: string)
    requires EndsWithOwnerRepo(s, owner, repo)
    ensures var parts := Split(s, '/'); |parts| >= 2 && parts[|parts| - 2] == owner && parts[|parts| - 1] == repo
  {
    var n := |owner| + 1 + |repo|;
    var tail := owner + "/" + repo;
    SplitOwnerRepo(owner, repo);
    if n == |s| {
      assert s == s[|s| - n..];
    } else {
      var q := s[..|s| - n - 1];
      assert s == q + ['/'] + tail by {
        assert s == s[..|s| - n - 1] + [s[|s| - n - 1]] + s[|s| - n..];
      }
      SplitAppend(q, tail, '/');
    }
  }

  /** A URL is accepted, yielding `(owner, repo)`, exactly when its
      normalised form ends with `owner/repo` as described above. */
  lemma {:induction false} ParseRepoUrlIff(url: string, owner: string, repo: string)
    ensures ParseRepoUrl(url) == Some((owner, repo)) <==> EndsWithOwnerRepo(Normalize(url), owner, repo)
  {
    var s := Normalize(url);
    var parts := Split(s, '/');
    var n := |parts|;
    assert ParseRepoUrl(url) == Some((owner, repo)) <==>
           n >= 2 && parts[n - 2] == owner && parts[n - 1] == repo && owner != "" && repo != "";
    if n >= 2 && parts[n - 2] == owner && parts[n - 1] == repo && owner != "" && repo != "" {
      SplitEndsWithOwnerRepo(s);
    }
    if EndsWithOwnerRepo(s, owner, repo) {
      EndsWithOwnerRepoSplit(s, owner, repo);
    }
  }

  /** Normalising a text that needs neither step, padded with whitespace
      around and slashes at the end, gives that text back. */
  lemma NormalizePadded(pre: string, x: string, slashes: string, post: string)
    requires x != [] && IsStripped(x) && x[|x| - 1] != '/'
    requires All(pre, IsSpace) && All(slashes, Is('/')) && All(post, IsSpace)
    ensures Normalize(pre + x + slashes + post) == x
  {
    var y := x + slashes;
    assert y[0] == x[0];
    assert y[|y| - 1] == (if slashes == [] then x[|x| - 1] else '/');
    assert pre + x + slashes + post == pre + y + post;
    StripPadded(pre, y, post);
    RStripPadded(x, slashes, Is('/'));
  }

  /** `owner/repo` after a prefix that is empty or ends with `/` is an
      `owner/repo` tail, whatever the prefix says. */
  lemma PrefixedEnds(prefix: string, owner: string, repo: string)
    requires prefix == [] || prefix[|prefix| - 1] == '/'
    requires IsSegment(owner) && IsSegment(repo)
    ensures EndsWithOwnerRepo(prefix + owner + "/" + repo, owner, repo)
  {
    var s := prefix + owner + "/" + repo;
    var n := |owner| + 1 + |repo|;
    assert s == prefix + (owner + "/" + repo);
    assert s[|s| - n..] == owner + "/" + repo;
  }

  /** Any prefix ending in `/` followed by `owner/repo`, with any whitespace
      around it and any number of trailing slashes, yields that owner and
      repository: the scheme and host are never inspected. */
  lemma PrefixedRoundTrip(prefix: string, owner: string, repo: string, pre: string, slashes: string, post: string)
    requires prefix == [] || prefix[|prefix| - 1] == '/'
    requires IsSegment(owner) && IsSegment(repo)
    requires !IsSpace((prefix + owner)[0]) && !IsSpace(repo[|repo| - 1])
    requires All(pre, IsSpace) && All(slashes, Is('/')) && All(post, IsSpace)
    ensures ParseRepoUrl(pre + (prefix + owner + "/" + repo) + slashes + post) == Some((owner, repo))
  {
    var base := prefix + owner + "/" + repo;
    assert base[0] == (prefix + owner)[0];
    assert base[|base| - 1] == repo[|repo| - 1];
    NormalizePadded(pre, base, slashes, post);
    PrefixedEnds(prefix, owner, repo);
    ParseRepoUrlIff(pre + base + slashes + post, owner, repo);
  }

  /** The canonical URL, with any whitespace around it and any number of
      trailing slashes, yields its owner and repository. */
  lemma GitHubUrlRoundTrip(owner: string, repo: string, pre: string, slashes: string, post: string)
    requires IsSegment(owner) && IsSegment(repo) && !IsSpace(repo[|repo| - 1])
    requires All(pre, IsSpace) && All(slashes, Is('/')) && All(post, IsSpace)
    ensures ParseRepoUrl(pre + GitHubUrl(owner, repo) + slashes + post) == Some((owner, repo))
  {
    PrefixedRoundTrip("https://github.com/", owner, repo, pre, slashes, post);
  }

  /** The host is never checked: a URL that names only a host and one path
      segment, such as `https://github.com/onlyowner`, is accepted with the
      host as the owner. */
  lemma HostBecomesOwner(host: string, name: string)
    requires IsSegment(host) && IsSegment(name) && !IsSpace(name[|name| - 1])
    ensures ParseRepoUrl("https://" + host + "/" + name) == Some((host, name))
  {
    PrefixedRoundTrip("https://", host, name, "", "", "");
    assert "" + ("https://" + host + "/" + name) + "" + "" == "https://" + host + "/" + name;
  }

  /** A URL made only of whitespace is rejected. */
  lemma WhitespaceRejected(url: string)
    requires All(url, IsSpace)
    ensures ParseRepoUrl(url) == None
  {
    StripPadded(url, "", "");
    assert url + "" + "" == url;
    assert Normalize(url) == "";
    assert Split("", '/') == [""];
  }
}
