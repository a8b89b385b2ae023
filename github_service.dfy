/** The GitHub gateway: the four requests the application issues, as URL
    builders, and the rules that turn each response into a result. The
    network is not modelled: a `fetch` outcome is a parameter. */
module GithubService {
  import opened Wrappers
  import opened Types
  import opened JsStrings

  const BaseUrl := "https://api.github.com"
  const RawBaseUrl := "https://raw.githubusercontent.com"

  /** Items per page requested from both listing endpoints. */
  const PageSize := 100

  /** A response as `fetch` resolves it: `ok`, `status`, and the body as
      `response.json()` (or `text()`) reads it, `None` when reading rejects. */
  datatype Response<T> = Response(ok: bool, status: int, body: Option<T>)

  /** The outcome of one `fetch`: a response, or a rejection (network failure). */
  datatype Fetched<T> = Responded(response: Response<T>) | NetworkError

  /** What `fetchGithubUser` yields to its caller: the account, `null`, or
      a thrown error. */
  datatype UserLookup = Found(user: User) | Missing | Failed

  // ---------------------------------------------------------------------
  // URLs
  // ---------------------------------------------------------------------

  const UsersPrefix := BaseUrl + "/users/"

  /** The account URL; the name is inserted as typed, not URI-encoded. */
  function UserUrl(username: string): (r: string)
    ensures |r| == |UsersPrefix| + |username|
    ensures r[..|UsersPrefix|] == UsersPrefix && r[|UsersPrefix|..] == username
  {
    UsersPrefix + username
  }

  /** The raw user name can be read back from the account URL, so two
      different names never share a request. */
  lemma UserUrlEmbedsRawName(username: string, other: string)
    ensures UserUrl(username)[|UsersPrefix|..] == username
    ensures UserUrl(username) == UserUrl(other) ==> username == other
  {
    assert UserUrl(username)[|UsersPrefix|..] == username;
    assert UserUrl(other)[|UsersPrefix|..] == other;
  }

  /** The paging parameters both listings end with, before the page number. */
  const PagingQuery := "per_page=100&page="

  /** A listing URL ends with the paging parameters and then the page
      number, which reads back as `page`. */
  predicate EndsWithPage(url: string, page: int) {
    var n := IntToString(page);
    && |url| >= |PagingQuery| + |n|
    && url[|url| - |n| - |PagingQuery|..|url| - |n|] == PagingQuery
    && ParseInt(url[|url| - |n|..]) == Some(page)
  }

  /** Any text followed by the paging parameters and a page number is such
      a URL. */
  lemma PagedUrl(base: string, page: int)
    ensures EndsWithPage(base + PagingQuery + IntToString(page), page)
  {
    var n := IntToString(page);
    var u := base + PagingQuery + n;
    assert u[|u| - |n|..] == n;
    assert u[|u| - |n| - |PagingQuery|..|u| - |n|] == PagingQuery;
    IntToStringRoundTrip(page);
  }

  const ReposQuery := "/repos?sort=updated&" + PagingQuery

  /** One page of an account's repositories, most recently updated first:
      the account URL, then the sort and paging parameters, then the page. */
  function ReposUrl(username: string, page: int): (r: string)
    ensures |r| >= |UserUrl(username)| && r[..|UserUrl(username)|] == UserUrl(username)
    ensures |r| == |UserUrl(username)| + |ReposQuery| + |IntToString(page)|
    ensures r[|UserUrl(username)|..|r| - |IntToString(page)|] == ReposQuery
    ensures EndsWithPage(r, page)
  {
    var base := UserUrl(username) + "/repos?sort=updated&";
    BetweenPrefixAndSuffix(UserUrl(username), ReposQuery, IntToString(page));
    AppendAssoc(base, PagingQuery, IntToString(page));
    AppendAssoc(UserUrl(username), "/repos?sort=updated&", PagingQuery);
    PagedUrl(base, page);
    UserUrl(username) + ReposQuery + IntToString(page)
  }

  const SearchPrefix := BaseUrl + "/search/repositories?q="
  const SearchQuery := "&sort=stars&order=desc&" + PagingQuery

  /** One page of a global repository search, most stars first: the
      encoded query right after `q=`, which decodes back to the query's
      UTF-8 bytes, then the sort and paging parameters. */
  function SearchUrl(query: string, page: int): (r: string)
    ensures |r| >= |SearchPrefix| + |EncodeUriComponent(query)|
    ensures r[..|SearchPrefix|] == SearchPrefix
    ensures DecodePercent(r[|SearchPrefix|..|SearchPrefix| + |EncodeUriComponent(query)|]) == Some(Utf8String(query))
    ensures |r| == |SearchPrefix| + |EncodeUriComponent(query)| + |SearchQuery| + |IntToString(page)|
    ensures r[|SearchPrefix| + |EncodeUriComponent(query)|..|r| - |IntToString(page)|] == SearchQuery
    ensures EndsWithPage(r, page)
  {
    var e := EncodeUriComponent(query);
    SearchUrlShape(SearchPrefix, e, "&sort=stars&order=desc&", page);
    BetweenPrefixAndSuffix(SearchPrefix + e, SearchQuery, IntToString(page));
    EncodeUriComponentRoundTrip(query);
    SearchPrefix + e + SearchQuery + IntToString(page)
  }

  /** The parts of a search URL, on any texts. */
  lemma SearchUrlShape(prefix: string, e: string, sort: string, page: int)
    ensures var r := prefix + e + (sort + PagingQuery) + IntToString(page);
      && |r| >= |prefix| + |e|
      && r[..|prefix|] == prefix
      && r[|prefix|..|prefix| + |e|] == e
      && EndsWithPage(r, page)
  {
    var n := IntToString(page);
    var tail := (sort + PagingQuery) + n;
    AppendAssoc(prefix + e, sort, PagingQuery);
    AppendAssoc(prefix, e, tail);
    MiddleOf(prefix, e, tail);
    PagedUrl(prefix + e + sort, page);
  }

  /** In `a + m + b`, `m` is what lies between `a` and `b`. */
  lemma BetweenPrefixAndSuffix(a: string, m: string, b: string)
    ensures |a + m + b| == |a| + |m| + |b|
    ensures (a + m + b)[|a|..|a + m + b| - |b|] == m
  {
    MiddleOf(a, m, b);
  }

  /** In `a + e + b`, `a` comes first and `e` right after it. */
  lemma MiddleOf(a: string, e: string, b: string)
    ensures (a + e + b)[..|a|] == a
    ensures (a + e + b)[|a|..|a| + |e|] == e
  {
    assert (a + e + b)[..|a|] == a;
    assert (a + e + b)[|a|..|a| + |e|] == e;
  }

  /** The number in both listing queries is the page size the application
      compares a page's length with. */
  lemma ListingQueriesUsePageSize()
    ensures PagingQuery == "per_page=" + IntToString(PageSize) + "&page="
  {
    assert IntToString(PageSize) == "100";
  }

  lemma SearchQueryStartsNewParameter()
    ensures |SearchQuery| > 0 && SearchQuery[0] == '&'
  {
  }

  /** The search text is URI-encoded, so it cannot end the `q` parameter
      early or add parameters: the first `&` after `q=` is the one that
      follows the whole encoded query. */
  lemma SearchQueryStaysInParameter(query: string, page: int)
    ensures var rest := SearchUrl(query, page)[|SearchPrefix|..];
      IndexOf(rest, "&") == |EncodeUriComponent(query)|
  {
    var e := EncodeUriComponent(query);
    var n := IntToString(page);
    var w := SearchQuery + n;
    AppendAssoc(SearchPrefix + e, SearchQuery, n);
    AppendAssoc(SearchPrefix, e, w);
    DropPrefix(SearchPrefix, e + w);
    SearchQueryStartsNewParameter();
    FirstAmpersandAfterSafePart(e, w);
  }

  lemma AppendAssoc(a: string, b: string, c: string)
    ensures a + b + c == a + (b + c)
  {
  }

  lemma DropPrefix(a: string, b: string)
    ensures (a + b)[|a|..] == b
  {
  }

  /** In a URI-safe text followed by a text that starts with `&`, the
      first `&` is the one right after the safe text. */
  lemma FirstAmpersandAfterSafePart(e: string, w: string)
    requires forall i :: 0 <= i < |e| ==> IsUriSafe(e[i])
    requires |w| > 0 && w[0] == '&'
    ensures IndexOf(e + w, "&") == |e|
  {
    var s := e + w;
    assert OccursAt(s, "&", |e|) by {
      assert s[|e|..|e| + 1] == [w[0]];
    }
    forall i | 0 <= i < |e| ensures !OccursAt(s, "&", i) {
      assert s[i..i + 1] == [e[i]];
      assert IsUriSafe(e[i]);
    }
    FirstOccurrence(s, "&", |e|);
  }

  /** A page request of either listing. */
  datatype PageRequest = UserRepos(username: string, page: int) | GlobalSearch(query: string, page: int)

  /** The URL a page request fetches; it names the requested page. */
  function RequestUrl(r: PageRequest): (url: string)
    ensures EndsWithPage(url, r.page)
  {
    match r
    case UserRepos(u, p) => ReposUrl(u, p)
    case GlobalSearch(q, p) => SearchUrl(q, p)
  }

  // ---------------------------------------------------------------------
  // Response rules
  // ---------------------------------------------------------------------

  /** `fetchGithubUser`: a 404 is the only response that means "no such
      account"; any other failed status, an unreadable body and a network
      rejection are all raised. */
  function FetchGithubUser(f: Fetched<User>): (r: UserLookup)
    ensures r.Missing? <==> f.Responded? && !f.response.ok && f.response.status == 404
    ensures r.Found? <==> f.Responded? && f.response.ok && f.response.body.Some?
    ensures r.Found? ==> r.user == f.response.body.value
  {
    match f
    case NetworkError => Failed
    case Responded(resp) =>
      if !resp.ok then (if resp.status == 404 then Missing else Failed)
      else match resp.body
        case None => Failed
        case Some(u) => Found(u)
  }

  /** A lookup fails exactly when the response is neither a success nor a 404. */
  lemma FetchGithubUserFailed(f: Fetched<User>)
    ensures FetchGithubUser(f).Failed? <==>
      (f.NetworkError? || (!f.response.ok && f.response.status != 404) || (f.response.ok && f.response.body.None?))
  {
  }

  /** `fetchGithubRepos`: the decoded list on success, and `[]` on any
      failure; it never raises. */
  function FetchGithubRepos(f: Fetched<seq<Repo>>): (r: seq<Repo>)
    ensures f.Responded? && f.response.ok && f.response.body.Some? ==> r == f.response.body.value
    ensures !(f.Responded? && f.response.ok && f.response.body.Some?) ==> r == []
  {
    match f
    case NetworkError => []
    case Responded(resp) => if !resp.ok then [] else resp.body.GetOr([])
  }

  /** The search endpoint's body; `items` may be absent. */
  datatype SearchBody = SearchBody(items: Option<seq<Repo>>)

  /** `searchGlobalRepos`: the `items` of a successful response, `[]` when
      `items` is absent and on any failure; it never raises. */
  function SearchGlobalRepos(f: Fetched<SearchBody>): (r: seq<Repo>)
    ensures r != [] ==> f.Responded? && f.response.ok && f.response.body.Some?
                        && f.response.body.value.items == Some(r)
    ensures f.Responded? && f.response.ok && f.response.body.Some? && f.response.body.value.items.Some?
            ==> r == f.response.body.value.items.value
    ensures !(f.Responded? && f.response.ok && f.response.body.Some? && f.response.body.value.items.Some?)
            ==> r == []
  {
    match f
    case NetworkError => []
    case Responded(resp) =>
      if !resp.ok then []
      else match resp.body
        case None => []
        case Some(b) => b.items.GetOr([])
  }

  // ---------------------------------------------------------------------
  // Readme
  // ---------------------------------------------------------------------

  const ReadmeFile := "/README.md"

  /** The raw-content URL of a repository's `README.md` on a branch: the
      host, then the owner, the repository and the branch as directories,
      then the file name. */
  function ReadmeUrl(owner: string, repo: string, branch: string): (r: string)
    ensures |r| == |RawBaseUrl| + |owner| + |repo| + |branch| + 3 + |ReadmeFile|
    ensures |r| >= |RawBaseUrl| + |branch| + |ReadmeFile|
    ensures r[..|RawBaseUrl|] == RawBaseUrl
    ensures r[|RawBaseUrl|..|RawBaseUrl| + |owner| + |repo| + 3] == "/" + owner + "/" + repo + "/"
    ensures r[|r| - |ReadmeFile|..] == ReadmeFile
    ensures r[|r| - |ReadmeFile| - |branch|..|r| - |ReadmeFile|] == branch
  {
    var dirs := "/" + owner + "/" + repo + "/";
    var r := RawBaseUrl + dirs + branch + ReadmeFile;
    AppendAssoc(RawBaseUrl + dirs, branch, ReadmeFile);
    MiddleOf(RawBaseUrl, dirs, branch + ReadmeFile);
    assert r[|r| - |ReadmeFile|..] == ReadmeFile;
    assert r[|r| - |ReadmeFile| - |branch|..|r| - |ReadmeFile|] == branch;
    r
  }

  /** The `branch` argument, `main` when it is omitted. */
  function ReadmeBranch(branch: Option<string>): (b: string)
    ensures branch.None? ==> b == "main"
    ensures branch.Some? ==> b == branch.value
  {
    branch.GetOr("main")
  }

  /** The text a final readme response yields: its body when ok, else "". */
  function ReadmeText(f: Fetched<string>): (r: string)
    ensures r != "" ==> f.Responded? && f.response.ok && f.response.body == Some(r)
    ensures f.Responded? && f.response.ok && f.response.body.Some? ==> r == f.response.body.value
  {
    match f
    case NetworkError => ""
    case Responded(resp) => if resp.ok then resp.body.GetOr("") else ""
  }

  /** `fetchReadme`. `respond` gives the outcome of fetching a URL. Returns
      the text and the URLs requested, in order. A second request, to
      `master`, is made only when the first response is not ok and the
      branch is exactly `main`; every failure yields "" and nothing is raised. */
  method FetchReadme(owner: string, repo: string, branch: Option<string>, respond: string -> Fetched<string>)
    returns (text: string, requested: seq<string>)
    ensures 1 <= |requested| <= 2
    ensures requested[0] == ReadmeUrl(owner, repo, ReadmeBranch(branch))
    ensures |requested| == 2 <==>
      respond(requested[0]).Responded? && !respond(requested[0]).response.ok && ReadmeBranch(branch) == "main"
    ensures |requested| == 2 ==> requested[1] == ReadmeUrl(owner, repo, "master")
    ensures text == ReadmeText(respond(requested[|requested| - 1]))
  {
    var b := ReadmeBranch(branch);
    var url := ReadmeUrl(owner, repo, b);
    requested := [url];
    var response := respond(url);
    if response.NetworkError? {
      // a rejected fetch goes straight to the catch
      text := "";
      return;
    }
    if !response.response.ok && b == "main" {
      url := ReadmeUrl(owner, repo, "master");
      requested := requested + [url];
      response := respond(url);
      if response.NetworkError? {
        text := "";
        return;
      }
    }
    if !response.response.ok {
      text := "";
      return;
    }
    match response.response.body
    case None =>
      text := "";
    case Some(t) =>
      text := t;
  }
}
