/**
 * The `/api/github-summarizer` route (src/app/api/github-summarizer/route.js):
 * POST takes the key from the `x-api-key` header after parsing the body, GET
 * from the `apiKey` query parameter; and `getReadmeContent`, which recognises a
 * GitHub repository URL and fetches its README from the `main` branch, falling
 * back to `master`. The network is the oracle `fetch`.
 */
module SummarizerRoute {

  import opened Store
  import opened ApiKeys
  import ValidateRoute

  /** A POST request: whether its body parsed as JSON, and its `x-api-key` header. */
  datatype PostRequest = PostRequest(bodyParses: bool, xApiKey: Option<string>)

  /** The response of POST: the body is parsed first, so a bad body wins over a missing key. */
  function PostResponse(rows: seq<ApiKeyRecord>, req: PostRequest, lookupFault: Option<string>): (r: ValidateRoute.Response)
    ensures r.status == 200 || r.status == 400 || r.status == 401 || r.status == 500
    ensures r.status == 500 <==> !req.bodyParses
    ensures r.status == 400 <==> req.bodyParses && !Truthy(req.xApiKey)
    ensures r.status == 200 <==>
              req.bodyParses && Truthy(req.xApiKey) && Verdict(rows, req.xApiKey.value, lookupFault).isValid
    ensures r.isValid <==> r.status == 200
    ensures r.status == 400 ==> r.error == Some(ValidateRoute.KeyRequired)
    ensures req.bodyParses && Truthy(req.xApiKey) && lookupFault.Some? ==> r.status == 401 && r.error == lookupFault
  {
    if !req.bodyParses then ValidateRoute.ServerError
    else if !Truthy(req.xApiKey) then ValidateRoute.MissingKey
    else ValidateRoute.FromVerdict(Verdict(rows, req.xApiKey.value, lookupFault))
  }

  /** `POST`. */
  method Post(table: KeyTable, req: PostRequest, now: int, lookupFault: Option<string>, touchFault: Option<string>)
    returns (r: ValidateRoute.Response)
    requires table.Valid()
    modifies table
    ensures table.Valid() && table.nextId == old(table.nextId)
    ensures r == PostResponse(old(table.rows), req, lookupFault)
    ensures req.bodyParses && Truthy(req.xApiKey) ==>
              table.rows == ValidateStep(old(table.rows), req.xApiKey.value, now, lookupFault, touchFault).1
    ensures !(req.bodyParses && Truthy(req.xApiKey)) ==> table.rows == old(table.rows)
  {
    if !req.bodyParses {
      return ValidateRoute.ServerError;
    }
    if !Truthy(req.xApiKey) {
      return ValidateRoute.MissingKey;
    }
    var result := table.ValidateApiKey(req.xApiKey.value, now, lookupFault, touchFault);
    r := ValidateRoute.FromVerdict(result);
  }

  /** `GET`: the same handling as the validation route's GET. */
  method Get(table: KeyTable, apiKeyParam: Option<string>, now: int, lookupFault: Option<string>, touchFault: Option<string>)
    returns (r: ValidateRoute.Response)
    requires table.Valid()
    modifies table
    ensures table.Valid() && table.nextId == old(table.nextId)
    ensures r == ValidateRoute.GetResponse(old(table.rows), apiKeyParam, lookupFault)
    ensures Truthy(apiKeyParam) ==>
              table.rows == ValidateStep(old(table.rows), apiKeyParam.value, now, lookupFault, touchFault).1
    ensures !Truthy(apiKeyParam) ==> table.rows == old(table.rows)
  {
    if !Truthy(apiKeyParam) {
      return ValidateRoute.MissingKey;
    }
    var result := table.ValidateApiKey(apiKeyParam.value, now, lookupFault, touchFault);
    r := ValidateRoute.FromVerdict(result);
  }

  // ------------------------------------------------------ repository URLs

  const GithubPrefix: string := "https://github.com/"

  predicate NoSlash(s: string)
  {
    forall i :: 0 <= i < |s| ==> s[i] != '/'
  }

  /** What `[^/]+` followed by `/` or the end can match at the start of `s`: the run before the first slash. */
  function SegmentLength(s: string): (n: nat)
    ensures n <= |s| && NoSlash(s[..n])
    ensures n < |s| ==> s[n] == '/'
  {
    if s == [] || s[0] == '/' then 0
    else
      var m := SegmentLength(s[1..]);
      assert s[..m + 1] == [s[0]] + s[1..][..m];
      m + 1
  }

  /**
   * `url` has the shape `^https://github\.com/([^/]+)/([^/]+)(/|$)` with `owner`
   * and `repo` as the two captured groups.
   */
  predicate IsRepoUrl(url: string, owner: string, repo: string)
  {
    var head := GithubPrefix + owner + "/" + repo;
    && owner != [] && repo != [] && NoSlash(owner) && NoSlash(repo)
    && head <= url
    && (|url| == |head| || url[|head|] == '/')
  }

  /** The owner and repository the pattern captures, or `None` when it does not match. */
  function ParseGithubUrl(url: string): (r: Option<(string, string)>)
    ensures r.Some? ==> IsRepoUrl(url, r.value.0, r.value.1)
  {
    if !(GithubPrefix <= url) then None
    else
      var rest := url[|GithubPrefix|..];
      var n := SegmentLength(rest);
      if n == 0 || n == |rest| then None
      else
        var after := rest[n + 1..];
        var m := SegmentLength(after);
        if m == 0 then None
        else
          var owner, repo := rest[..n], after[..m];
          assert url == GithubPrefix + rest;
          assert rest == owner + "/" + after;
          assert GithubPrefix + owner + "/" + repo == url[..|GithubPrefix| + n + 1 + m];
          Some((owner, repo))
  }

  /** A slash-free prefix that is followed by a slash or the end is the whole first segment. */
  lemma {:induction false} SegmentOfPrefix(s: string, a: string)
    requires a <= s && NoSlash(a)
    requires |s| == |a| || s[|a|] == '/'
    ensures SegmentLength(s) == |a|
  {
    if a != [] {
      assert s[0] == a[0];
      assert a[1..] <= s[1..];
      SegmentOfPrefix(s[1..], a[1..]);
    }
  }

  /** Every URL of the repository shape is recognised, with exactly its owner and repository. */
  lemma ParseGithubUrlComplete(url: string, owner: string, repo: string)
    requires IsRepoUrl(url, owner, repo)
    ensures ParseGithubUrl(url) == Some((owner, repo))
  {
    var head := GithubPrefix + owner + "/" + repo;
    assert GithubPrefix <= url by {
      assert url[..|GithubPrefix|] == head[..|GithubPrefix|];
    }
    var rest := url[|GithubPrefix|..];
    assert owner <= rest by {
      assert rest[..|owner|] == head[|GithubPrefix|..|GithubPrefix| + |owner|];
    }
    assert rest[|owner|] == '/' by {
      assert rest[|owner|] == head[|GithubPrefix| + |owner|];
    }
    SegmentOfPrefix(rest, owner);
    var after := rest[|owner| + 1..];
    assert repo <= after by {
      assert after[..|repo|] == head[|GithubPrefix| + |owner| + 1..];
    }
    SegmentOfPrefix(after, repo);
    assert rest[..|owner|] == owner;
    assert after[..|repo|] == repo;
  }

  /** Every other URL yields null. */
  lemma ParseGithubUrlRejects(url: string)
    requires ParseGithubUrl(url).None?
    ensures forall owner, repo :: !IsRepoUrl(url, owner, repo)
  {
    forall owner, repo | IsRepoUrl(url, owner, repo)
      ensures false
    {
      ParseGithubUrlComplete(url, owner, repo);
    }
  }

  // ---------------------------------------------------------- README fetch

  /** What `fetch` gives: a response with its `ok` flag and text, or a thrown network error. */
  datatype FetchResult = Reply(ok: bool, text: string) | NetworkError

  const RawHost: string := "https://raw.githubusercontent.com/"
  const Branches: seq<string> := ["main", "master"]

  function RawReadmeUrl(owner: string, repo: string, branch: string): string
  {
    RawHost + owner + "/" + repo + "/" + branch + "/README.md"
  }

  /**
   * `getReadmeContent(githubUrl)`: the README text of the first branch that
   * answers OK, and the URLs fetched on the way, in order.
   */
  method GetReadmeContent(githubUrl: string, fetch: string -> FetchResult)
    returns (content: Option<string>, fetched: seq<string>)
    ensures ParseGithubUrl(githubUrl).None? ==> content.None? && fetched == []
    ensures ParseGithubUrl(githubUrl).Some? ==>
      var owner, repo := ParseGithubUrl(githubUrl).value.0, ParseGithubUrl(githubUrl).value.1;
      var main, master := RawReadmeUrl(owner, repo, "main"), RawReadmeUrl(owner, repo, "master");
      match fetch(main)
      case NetworkError => content.None? && fetched == [main]
      case Reply(ok, text) =>
        if ok then content == Some(text) && fetched == [main]
        else
          && fetched == [main, master]
          && content == (if fetch(master).Reply? && fetch(master).ok then Some(fetch(master).text) else None)
  {
    content, fetched := None, [];
    var parsed := ParseGithubUrl(githubUrl);
    if parsed.None? {
      return;
    }
    var owner, repo := parsed.value.0, parsed.value.1;
    assert Branches[0] == "main" && Branches[1] == "master";
    var i := 0;
    while i < |Branches|
      invariant 0 <= i <= |Branches| && |fetched| == i
      invariant forall k :: 0 <= k < i ==> fetched[k] == RawReadmeUrl(owner, repo, Branches[k])
      invariant forall k :: 0 <= k < i ==> fetch(fetched[k]).Reply? && !fetch(fetched[k]).ok
      invariant content.None?
    {
      var url := RawReadmeUrl(owner, repo, Branches[i]);
      var response := fetch(url);
      fetched := fetched + [url];
      if response.NetworkError? {
        return;
      }
      if response.ok {
        content := Some(response.text);
        break;
      }
      i := i + 1;
    }
  }
}
