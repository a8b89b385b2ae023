/** The application's search and pagination state machine. Each async
    handler is split at each of its `await`s: a `Begin` method does the
    synchronous part and returns a ticket holding what the handler's
    closure captured (the query, the page, the translation table), and the
    later steps take the ticket and the service results and do the rest.
    `handleSearch` awaits twice, so it has a middle step, `ResolveAccount`.
    Other events may run between any two steps. */
module App {
  import opened Wrappers
  import opened Types
  import opened JsStrings
  import LanguageContext
  import GithubService

  const PageSize := GithubService.PageSize

  const ArchiveAvatarUrl := "https://github.githubassets.com/images/modules/logos_page/GitHub-Mark.png"
  const SearchPageUrl := "https://github.com/search?q="

  // ---------------------------------------------------------------------
  // The virtual account shown for search results
  // ---------------------------------------------------------------------

  /** The account shown for a repository search: the query as typed is its
      login, the number of hits its repository count, and the translated
      search texts its name, location and biography. `now` is the creation
      time the clock gives. */
  function VirtualUser(query: string, hits: nat, t: LanguageContext.Strings, now: string): (u: User)
    ensures u.login == query && u.id == 0 && u.publicRepos == hits
    ensures u.followers == 0 && u.following == 0
    ensures u.htmlUrl == SearchPageUrl + query && u.avatarUrl == ArchiveAvatarUrl
    ensures u.name == Some(t.archiveResults) && u.location == Some(t.archiveLocation)
    ensures u.company == Some("GitHub") && u.blog == None && u.email == None
    ensures u.bio == Some(ReplaceFirst(t.archiveBio, LanguageContext.QueryPlaceholder, query))
    ensures u.createdAt == now
  {
    User(query, 0, ArchiveAvatarUrl, SearchPageUrl + query, Some(t.archiveResults), Some("GitHub"), None,
         Some(t.archiveLocation), None,
         Some(ReplaceFirst(t.archiveBio, LanguageContext.QueryPlaceholder, query)), hits, 0, 0, now)
  }

  /** In every language the virtual account's biography names the query,
      where the table's placeholder stood. */
  lemma VirtualBioNamesQuery(query: string, hits: nat, l: LanguageContext.Language, now: string)
    ensures var bio := VirtualUser(query, hits, LanguageContext.T(l), now).bio.value;
      OccursAt(bio, query, IndexOf(LanguageContext.T(l).archiveBio, LanguageContext.QueryPlaceholder))
  {
    ReplaceFirstInserts(LanguageContext.T(l).archiveBio, LanguageContext.QueryPlaceholder, query,
                        LanguageContext.PlaceholderIndex(l));
  }

  // ---------------------------------------------------------------------
  // What the page shows
  // ---------------------------------------------------------------------

  /** JavaScript truthiness of the error field. */
  predicate HasError(error: Option<string>) {
    error.Some? && error.value != ""
  }

  /** The main area's four screens. */
  datatype Screen = Fetching | ErrorScreen(message: string) | Hero | Profile

  predicate ShowsFetching(loading: bool) { loading }
  predicate ShowsError(loading: bool, error: Option<string>) { HasError(error) && !loading }
  predicate ShowsHero(loading: bool, error: Option<string>, user: Option<User>) {
    !loading && !HasError(error) && user.None?
  }
  predicate ShowsProfile(loading: bool, error: Option<string>, user: Option<User>) {
    !loading && !HasError(error) && user.Some?
  }

  /** The screen the four render conditions select. */
  function View(loading: bool, error: Option<string>, user: Option<User>): (s: Screen)
    ensures s.Fetching? <==> ShowsFetching(loading)
    ensures s.ErrorScreen? <==> ShowsError(loading, error)
    ensures s.ErrorScreen? ==> s.message == error.value
    ensures s.Hero? <==> ShowsHero(loading, error, user)
    ensures s.Profile? <==> ShowsProfile(loading, error, user)
  {
    if loading then Fetching
    else if HasError(error) then ErrorScreen(error.value)
    else if user.None? then Hero
    else Profile
  }

  /** Exactly one of the four render conditions holds in every state. */
  lemma ScreensPartition(loading: bool, error: Option<string>, user: Option<User>)
    ensures ShowsFetching(loading) || ShowsError(loading, error)
         || ShowsHero(loading, error, user) || ShowsProfile(loading, error, user)
    ensures !(ShowsFetching(loading) && ShowsError(loading, error))
    ensures !(ShowsFetching(loading) && (ShowsHero(loading, error, user) || ShowsProfile(loading, error, user)))
    ensures !(ShowsError(loading, error) && (ShowsHero(loading, error, user) || ShowsProfile(loading, error, user)))
    ensures !(ShowsHero(loading, error, user) && ShowsProfile(loading, error, user))
  {
  }

  /** With a language's own table, the two error outcomes of a search
      end on two different error screens, each showing its message. */
  lemma ErrorScreensTellOutcomesApart(l: LanguageContext.Language, u: Option<User>, v: Option<User>)
    ensures View(false, Some(LanguageContext.T(l).connectionError), u)
            == ErrorScreen(LanguageContext.T(l).connectionError)
    ensures View(false, Some(LanguageContext.T(l).notFound), v) == ErrorScreen(LanguageContext.T(l).notFound)
    ensures View(false, Some(LanguageContext.T(l).connectionError), u)
            != View(false, Some(LanguageContext.T(l).notFound), v)
  {
    LanguageContext.ErrorMessagesDistinct(l);
  }

  /** The banner offering a repository search: only on an account's own
      listing, and only for a query without a `/`. */
  function ShowsSuggestion(isArchiveView: bool, query: string): (b: bool)
    ensures b <==> !isArchiveView && forall i :: 0 <= i < |query| ==> query[i] != '/'
  {
    !isArchiveView && '/' !in query
  }

  /** The listing under the profile: the no-repositories message, or the
      cards with a load-more button while more pages may exist; the button
      is disabled during a load. */
  datatype RepoPanel = NoRepos | Cards(count: nat, loadMore: Option<bool>)

  function ShowRepoPanel(repos: seq<Repo>, hasMore: bool, loadingMore: bool): (p: RepoPanel)
    ensures p.NoRepos? <==> |repos| == 0
    ensures p.Cards? ==> p.count == |repos|
    ensures p.Cards? ==> (p.loadMore.Some? <==> hasMore)
    ensures p.Cards? && p.loadMore.Some? ==> p.loadMore.value == loadingMore
  {
    if |repos| == 0 then NoRepos
    else Cards(|repos|, if hasMore then Some(loadingMore) else None)
  }

  // ---------------------------------------------------------------------
  // Tickets
  // ---------------------------------------------------------------------

  /** What a search handler captured when it started. */
  datatype SearchTicket = SearchTicket(query: string, t: LanguageContext.Strings)

  /** What `handleLoadMore` captured: the request for the next page. */
  datatype LoadMoreTicket = LoadMoreTicket(request: GithubService.PageRequest, nextPage: int)

  /** Where the first page of a search comes from, given the account lookup:
      the account's repositories when it exists, the repository search when
      it does not, and nothing after a failed lookup. */
  function FirstPageRequest(query: string, lookup: GithubService.UserLookup): (r: Option<GithubService.PageRequest>)
    ensures r.None? <==> lookup.Failed?
    ensures lookup.Found? ==> r == Some(GithubService.UserRepos(query, 1))
    ensures lookup.Missing? ==> r == Some(GithubService.GlobalSearch(query, 1))
  {
    match lookup
    case Found(_) => Some(GithubService.UserRepos(query, 1))
    case Missing => Some(GithubService.GlobalSearch(query, 1))
    case Failed => None
  }

  // ---------------------------------------------------------------------
  // The application state
  // ---------------------------------------------------------------------

  class AppState {
    var query: string
    var user: Option<User>
    var repos: seq<Repo>
    var loading: bool
    var loadingMore: bool
    var error: Option<string>
    var page: int
    var hasMore: bool
    var isArchiveView: bool

    /** Pages are numbered from 1, and the search-results view always has
        its virtual account. */
    predicate Valid()
      reads this
    {
      page >= 1 && (isArchiveView ==> user.Some?)
    }

    /** The search-results view never falls back to the landing screen. */
    lemma ArchiveViewNeverHero()
      requires Valid()
      ensures isArchiveView ==> !View(loading, error, user).Hero?
    {
    }

    constructor ()
      ensures Valid()
      ensures query == "" && user == None && repos == [] && !loading && !loadingMore
      ensures error == None && page == 1 && hasMore && !isArchiveView
    {
      query := "";
      user := None;
      repos := [];
      loading := false;
      loadingMore := false;
      error := None;
      page := 1;
      hasMore := true;
      isArchiveView := false;
    }

    /** The search box is bound to `query`. */
    method SetQuery(q: string)
      requires Valid()
      modifies this
      ensures Valid()
      ensures query == q
      ensures user == old(user) && repos == old(repos) && loading == old(loading)
      ensures loadingMore == old(loadingMore) && error == old(error) && page == old(page)
      ensures hasMore == old(hasMore) && isArchiveView == old(isArchiveView)
    {
      query := q;
    }

    // -------------------------------------------------------------------
    // handleSearch
    // -------------------------------------------------------------------

    /** `handleSearch` up to the account lookup. A blank query (empty or
        white space only) changes nothing. Otherwise the previous result is
        cleared (no error, no account, no repositories, not the
        search-results view, page 1, more pages possible), loading starts,
        and the untrimmed query is captured. */
    method BeginSearch(t: LanguageContext.Strings) returns (ticket: Option<SearchTicket>)
      requires Valid()
      modifies this
      ensures Valid()
      ensures IsBlank(old(query)) ==> ticket == None && unchanged(this)
      ensures !IsBlank(old(query)) ==>
        && ticket == Some(SearchTicket(old(query), t))
        && loading && error == None && user == None && repos == [] && !isArchiveView
        && page == 1 && hasMore
        && query == old(query) && loadingMore == old(loadingMore)
    {
      var q := query;
      if IsBlank(q) {
        return None;
      }
      loading := true;
      error := None;
      user := None;
      repos := [];
      isArchiveView := false;
      page := 1;
      hasMore := true;
      ticket := Some(SearchTicket(q, t));
    }

    /** The search branch shared by both search handlers, once the hits
        are in: with hits, the search-results view shows them under the
        virtual account; without, the not-found error is set. */
    method ShowSearchHits(ticket: SearchTicket, hits: seq<Repo>, now: string)
      requires Valid()
      modifies this
      ensures Valid()
      ensures |hits| > 0 ==>
        && isArchiveView && repos == hits
        && user == Some(VirtualUser(ticket.query, |hits|, ticket.t, now))
        && hasMore == (old(hasMore) && |hits| >= PageSize)
        && error == old(error)
      ensures |hits| == 0 ==>
        && error == Some(ticket.t.notFound)
        && isArchiveView == old(isArchiveView) && repos == old(repos)
        && user == old(user) && hasMore == old(hasMore)
      ensures query == old(query) && loading == old(loading) && loadingMore == old(loadingMore)
      ensures page == old(page)
    {
      if |hits| > 0 {
        isArchiveView := true;
        repos := hits;
        if |hits| < PageSize {
          hasMore := false;
        }
        user := Some(VirtualUser(ticket.query, |hits|, ticket.t, now));
      } else {
        error := Some(ticket.t.notFound);
      }
    }

    /** `handleSearch` once the account lookup settles (`lookup` is what
        `fetchGithubUser` gave), up to the first-page request. A found
        account is shown at once and its listing is requested; a missing one
        changes nothing and the repository search is requested; a failed
        lookup sets the connection error, ends loading and requests nothing.
        The request returned is `FirstPageRequest`'s. */
    method ResolveAccount(ticket: SearchTicket, lookup: GithubService.UserLookup)
      returns (request: Option<GithubService.PageRequest>)
      requires Valid()
      modifies this
      ensures Valid()
      ensures request == FirstPageRequest(ticket.query, lookup)
      ensures lookup.Found? ==>
        && user == Some(lookup.user) && loading == old(loading) && error == old(error)
      ensures lookup.Missing? ==>
        && user == old(user) && loading == old(loading) && error == old(error)
      ensures lookup.Failed? ==>
        && user == old(user) && !loading && error == Some(ticket.t.connectionError)
      ensures query == old(query) && repos == old(repos) && loadingMore == old(loadingMore)
      ensures page == old(page) && hasMore == old(hasMore) && isArchiveView == old(isArchiveView)
    {
      request := FirstPageRequest(ticket.query, lookup);
      match lookup {
      case Found(u) =>
        user := Some(u);
      case Missing =>
      case Failed =>
        // `fetchGithubUser` raised: the catch block, then the finally block
        error := Some(ticket.t.connectionError);
        loading := false;
      }
    }

    /** `handleSearch` once the first page is in. `request` is the one
        `ResolveAccount` returned and `firstPage` what it gave. An account's
        listing is shown as it arrives, a short page ending pagination; the
        repository search goes through `ShowSearchHits`. Loading ends either
        way. */
    method CompleteSearch(ticket: SearchTicket, request: GithubService.PageRequest, firstPage: seq<Repo>, now: string)
      requires Valid()
      modifies this
      ensures Valid()
      ensures !loading
      ensures request.UserRepos? ==>
        && repos == firstPage && hasMore == (old(hasMore) && |firstPage| >= PageSize)
        && user == old(user) && error == old(error) && isArchiveView == old(isArchiveView)
      ensures request.GlobalSearch? && |firstPage| > 0 ==>
        && isArchiveView && repos == firstPage
        && user == Some(VirtualUser(ticket.query, |firstPage|, ticket.t, now))
        && hasMore == (old(hasMore) && |firstPage| >= PageSize)
        && error == old(error)
      ensures request.GlobalSearch? && |firstPage| == 0 ==>
        && error == Some(ticket.t.notFound)
        && user == old(user) && repos == old(repos) && isArchiveView == old(isArchiveView)
        && hasMore == old(hasMore)
      ensures query == old(query) && loadingMore == old(loadingMore) && page == old(page)
    {
      match request {
      case UserRepos(_, _) =>
        repos := firstPage;
        if |firstPage| < PageSize {
          hasMore := false;
        }
      case GlobalSearch(_, _) =>
        ShowSearchHits(ticket, firstPage, now);
      }
      loading := false;
    }

    /** `handleSearch` with nothing in between its steps: from a non-blank
        query, the state ends as the results of this search alone determine
        it, and the first page is requested as `FirstPageRequest` says.
        `firstPage` is what that request gave. */
    method Search(t: LanguageContext.Strings, lookup: GithubService.UserLookup, firstPage: seq<Repo>, now: string)
      returns (request: Option<GithubService.PageRequest>)
      requires Valid()
      modifies this
      ensures Valid()
      ensures IsBlank(old(query)) ==> request == None && unchanged(this)
      ensures !IsBlank(old(query)) ==>
        && request == FirstPageRequest(old(query), lookup)
        && !loading && page == 1 && query == old(query) && loadingMore == old(loadingMore)
        && (lookup.Found? ==>
              && user == Some(lookup.user) && repos == firstPage && !isArchiveView && error == None
              && (hasMore <==> |firstPage| >= PageSize))
        && (lookup.Missing? && |firstPage| > 0 ==>
              && isArchiveView && repos == firstPage && error == None
              && user == Some(VirtualUser(old(query), |firstPage|, t, now))
              && (hasMore <==> |firstPage| >= PageSize))
        && (lookup.Missing? && |firstPage| == 0 ==>
              && error == Some(t.notFound)
              && user == None && repos == [] && !isArchiveView && hasMore)
        && (lookup.Failed? ==>
              && error == Some(t.connectionError)
              && user == None && repos == [] && !isArchiveView && hasMore)
    {
      var ticket := BeginSearch(t);
      if ticket.None? {
        return None;
      }
      request := ResolveAccount(ticket.value, lookup);
      if request.Some? {
        CompleteSearch(ticket.value, request.value, firstPage, now);
      }
    }

    // -------------------------------------------------------------------
    // handleLoadMore
    // -------------------------------------------------------------------

    /** `handleLoadMore` up to the page request. Nothing happens without an
        account, during another load, or when no more pages exist.
        Otherwise loading starts and the next page is requested from the
        repository search in the search-results view and from the account's
        listing otherwise, both with the current query. */
    method BeginLoadMore() returns (ticket: Option<LoadMoreTicket>)
      requires Valid()
      modifies this
      ensures Valid()
      ensures old(user).None? || old(loadingMore) || !old(hasMore) ==> ticket == None && unchanged(this)
      ensures old(user).Some? && !old(loadingMore) && old(hasMore) ==>
        && loadingMore
        && ticket.Some? && ticket.value.nextPage == old(page) + 1
        && ticket.value.request == (if old(isArchiveView)
                                    then GithubService.GlobalSearch(old(query), old(page) + 1)
                                    else GithubService.UserRepos(old(query), old(page) + 1))
        && query == old(query) && user == old(user) && repos == old(repos) && loading == old(loading)
        && error == old(error) && page == old(page) && hasMore == old(hasMore)
        && isArchiveView == old(isArchiveView)
      ensures ticket.Some? ==> GithubService.EndsWithPage(GithubService.RequestUrl(ticket.value.request), old(page) + 1)
    {
      if user.None? || loadingMore || !hasMore {
        return None;
      }
      loadingMore := true;
      var nextPage := page + 1;
      var request := if isArchiveView then GithubService.GlobalSearch(query, nextPage)
                     else GithubService.UserRepos(query, nextPage);
      ticket := Some(LoadMoreTicket(request, nextPage));
    }

    /** `handleLoadMore` once the page is in (a failed request gives `[]`).
        A non-empty page is appended to the repositories as they are now,
        the page number becomes the requested one, and a short page ends
        pagination; an empty page ends pagination and keeps the rest. The
        load ends either way. */
    method CompleteLoadMore(ticket: LoadMoreTicket, items: seq<Repo>)
      requires Valid()
      requires ticket.nextPage >= 1
      modifies this
      ensures Valid()
      ensures !loadingMore
      ensures |items| > 0 ==>
        && repos == old(repos) + items && page == ticket.nextPage
        && hasMore == (old(hasMore) && |items| >= PageSize)
      ensures |items| == 0 ==> !hasMore && repos == old(repos) && page == old(page)
      ensures query == old(query) && user == old(user) && loading == old(loading)
      ensures error == old(error) && isArchiveView == old(isArchiveView)
    {
      if |items| > 0 {
        repos := repos + items;
        page := ticket.nextPage;
        if |items| < PageSize {
          hasMore := false;
        }
      } else {
        hasMore := false;
      }
      loadingMore := false;
    }

    /** `handleLoadMore` with nothing in between its two halves. */
    method LoadMore(items: seq<Repo>) returns (request: Option<GithubService.PageRequest>)
      requires Valid()
      modifies this
      ensures Valid()
      ensures old(user).None? || old(loadingMore) || !old(hasMore) ==> request == None && unchanged(this)
      ensures old(user).Some? && !old(loadingMore) && old(hasMore) ==>
        && request == Some(if old(isArchiveView) then GithubService.GlobalSearch(old(query), old(page) + 1)
                           else GithubService.UserRepos(old(query), old(page) + 1))
        && !loadingMore && query == old(query) && loading == old(loading)
        && old(repos) <= repos
        && (|items| > 0 ==> repos == old(repos) + items && page == old(page) + 1
                            && (hasMore <==> |items| >= PageSize))
        && (|items| == 0 ==> !hasMore && repos == old(repos) && page == old(page))
        && user == old(user) && error == old(error) && isArchiveView == old(isArchiveView)
    {
      var ticket := BeginLoadMore();
      if ticket.None? {
        return None;
      }
      request := Some(ticket.value.request);
      CompleteLoadMore(ticket.value, items);
    }

    // -------------------------------------------------------------------
    // handleForceGlobalSearch
    // -------------------------------------------------------------------

    /** `handleForceGlobalSearch` up to the search request: loading starts
        and the listing is reset (no repositories, page 1, more pages
        possible); the account, the error and the view are kept. There is
        no guard: the current query is captured as it is, and the first
        page of the repository search for it is requested. */
    method BeginForceGlobalSearch(t: LanguageContext.Strings) returns (ticket: SearchTicket, request: GithubService.PageRequest)
      requires Valid()
      modifies this
      ensures Valid()
      ensures ticket == SearchTicket(old(query), t)
      ensures request == GithubService.GlobalSearch(old(query), 1)
      ensures GithubService.EndsWithPage(GithubService.RequestUrl(request), 1)
      ensures loading && repos == [] && page == 1 && hasMore
      ensures query == old(query) && user == old(user) && error == old(error)
      ensures isArchiveView == old(isArchiveView) && loadingMore == old(loadingMore)
    {
      loading := true;
      repos := [];
      page := 1;
      hasMore := true;
      ticket := SearchTicket(query, t);
      request := GithubService.GlobalSearch(query, 1);
    }

    /** `handleForceGlobalSearch` once the hits are in (a failed search
        gives `[]`), as `ShowSearchHits`; with no hits the previous account
        stays. Loading ends either way. */
    method CompleteForceGlobalSearch(ticket: SearchTicket, hits: seq<Repo>, now: string)
      requires Valid()
      modifies this
      ensures Valid()
      ensures !loading
      ensures |hits| > 0 ==>
        && isArchiveView && repos == hits
        && user == Some(VirtualUser(ticket.query, |hits|, ticket.t, now))
        && hasMore == (old(hasMore) && |hits| >= PageSize)
        && error == old(error)
      ensures |hits| == 0 ==>
        && error == Some(ticket.t.notFound)
        && isArchiveView == old(isArchiveView) && repos == old(repos)
        && user == old(user) && hasMore == old(hasMore)
      ensures query == old(query) && loadingMore == old(loadingMore) && page == old(page)
    {
      ShowSearchHits(ticket, hits, now);
      loading := false;
    }

    /** `handleForceGlobalSearch` with nothing in between its two halves:
        it never clears the account or the error, so an earlier error keeps
        the error screen up even when hits arrive, and no hits leave the
        previous account in place under the not-found error. */
    method ForceGlobalSearch(t: LanguageContext.Strings, hits: seq<Repo>, now: string)
      returns (request: GithubService.PageRequest)
      requires Valid()
      modifies this
      ensures Valid()
      ensures request == GithubService.GlobalSearch(old(query), 1)
      ensures !loading && page == 1 && query == old(query) && loadingMore == old(loadingMore)
      ensures |hits| > 0 ==>
        && isArchiveView && repos == hits && error == old(error)
        && user == Some(VirtualUser(old(query), |hits|, t, now))
        && (hasMore <==> |hits| >= PageSize)
      ensures |hits| == 0 ==>
        && error == Some(t.notFound)
        && user == old(user) && repos == [] && hasMore && isArchiveView == old(isArchiveView)
      ensures HasError(old(error)) && |hits| > 0 ==> View(loading, error, user) == ErrorScreen(old(error).value)
    {
      var ticket;
      ticket, request := BeginForceGlobalSearch(t);
      CompleteForceGlobalSearch(ticket, hits, now);
    }
  }
}
