# InstantGitHub: search, pagination and analysis, modelled in Dafny

InstantGitHub is a single-page React application. It looks up a GitHub
account by name and shows that account's repositories, 100 per page, with a
"load more" button. When no such account exists, it falls back to a global
repository search: the hits are shown under a *virtual account* whose
biography names the query. A repository opens in a modal. The modal shows
the repository's details and readme, and can ask a generative-AI provider
for an analysis in the UI language. The UI language is one of four (tr, en,
de, es) and is saved in browser storage.

This project models the logic behind that behaviour. The modules follow the
source files:

| module | file | models |
|---|---|---|
| `App` | app.dfy | `App.tsx`: the search and pagination state (a class `AppState`), its three async handlers, and the render conditions |
| `GithubService` | github_service.dfy | `services/githubService.ts`: the four request URLs and how each response becomes a result |
| `GeminiService` | gemini_service.dfy | `services/geminiService.ts`: the API-key check, the readme truncation, the language instructions, the prompt, and the error mapping |
| `AnalysisModal` | analysis_modal.dfy | `components/AnalysisModal.tsx`: the reset on open, the analysis status machine (a class `Modal`), and the display rules |
| `LanguageContext` | language_context.dfy | `contexts/LanguageContext.tsx`: the language menu, the saved preference, the provider (a class `LanguageProvider`), and the translation entries the logic reads |
| `JsStrings` | js_strings.dfy | the JavaScript string operations the code relies on: `slice`, `trim`, `indexOf`, `replace` with a string pattern, `${n}`, and `encodeURIComponent` with its inverse |
| `Types`, `Wrappers` | types.dfy, wrappers.dfy | the `GitHubUser`, `GitHubRepo` and `AIAnalysisResult` records, and `Option`/`Result` |

**Async handlers.** Each async handler of `App.tsx` and `AnalysisModal.tsx`
is split at each of its `await`s:

- A `Begin…` method does the synchronous part. It returns a *ticket* holding
  what the handler's closure captured: the query, the translation table `t`,
  and the next page number.
- The later steps take the ticket and the service results and do the rest.
  `handleSearch` awaits twice: the account lookup, then the first page.
  So it has three steps: `BeginSearch`, `ResolveAccount` and
  `CompleteSearch`. A found account is shown by `ResolveAccount`, before
  its listing arrives.
- Any other event may run between two steps, so the model covers
  overlapping handlers. For example, `setRepos(prev => [...prev, ...newRepos])` appends
  to the repositories *as they are when the page arrives*, while
  `setPage(nextPage)` uses the captured page number.
- A composed method (`Search`, `LoadMore`, `ForceGlobalSearch`, `Analyze`)
  runs all the steps back to back. Its contract states the end state and
  the requests made from the inputs alone.

**External calls.** The network, the AI client and `JSON.parse` are
parameters:
- a `fetch` outcome is a `Fetched<T>` value;
- the AI provider is a function from prompt to `Reply`;
- the parser is a function from text to `Option<AnalysisResult>`, with `None` for text that does not parse.

The clock's `new Date().toISOString()` is the parameter `now`.

**Behaviour of the code worth noting:**
- **Account lookup.** Only a 404 from the account lookup triggers the
  repository-search fallback. Any other failure sets the connection error.
- **Load-more failures.** A failed "load more" request yields an empty page,
  because `fetchGithubRepos` and `searchGlobalRepos` catch every error and
  return `[]`. An empty page ends pagination (`hasMore` becomes false). The
  `catch` blocks of `handleLoadMore` and `handleForceGlobalSearch` cannot be
  reached, since neither service call raises.
- **What "load more" checks.** It is guarded by the presence of *any*
  account (`user`).
- **Forced repository search.** `handleForceGlobalSearch` neither clears the
  error nor replaces the account when the search is empty. An earlier error
  therefore keeps the error screen up even when hits arrive
  (`ForceGlobalSearch`).
- **One AI provider.** The analysis service has a single provider. A missing
  key fails at once with the localized "API Key missing" message.

## Model

| member | source | states |
|---|---|---|
| JsStrings.BlankIffTrimEmpty | App.tsx:39 | `!query.trim()` holds exactly when every character of the query is ECMAScript white space, so the guard used in `BeginSearch` is the source's guard |
| JsStrings.ReplaceFirstSplitsAtIndexOf | App.tsx:79 | `replace` with a string pattern leaves the text unchanged when the pattern is absent, and otherwise replaces exactly the first occurrence that `indexOf` finds |
| JsStrings.ReplaceFirstInserts | App.tsx:79 | when the placeholder occurs, the replacement text stands in the result at the position of the first occurrence |
| JsStrings.IntToStringRoundTrip | services/githubService.ts:22 | the page number rendered into a URL reads back as the same integer, so distinct pages give distinct URLs |
| JsStrings.EncodeUriComponentRoundTrip | services/githubService.ts:36 | percent-decoding `encodeURIComponent(query)` gives back exactly the UTF-8 bytes of the query: the encoding loses nothing |
| LanguageContext.CodeInjective | contexts/LanguageContext.tsx:3 | two languages share a code only when they are the same language |
| LanguageContext.LanguagesTable | contexts/LanguageContext.tsx:5-10 | the menu has four entries, tr, en, de and es in that order, with pairwise distinct codes |
| LanguageContext.Find | App.tsx:172 | `find` returns nothing exactly when no entry has the code, and otherwise the first entry with it |
| LanguageContext.ActiveLanguageMatches | App.tsx:172 | every language has a menu entry, so the fallback to the first entry is never taken and the entry shown is the one `find` returns |
| LanguageContext.DecodeSaved | contexts/LanguageContext.tsx:240-244 | a saved value that is one of the four codes decodes to that language; anything else, or nothing saved, decodes to English |
| LanguageContext.DecodeSavedRoundTrip | contexts/LanguageContext.tsx:240-248 | decoding a saved language code gives the same language back |
| LanguageContext.PersistedLanguageReloads | contexts/LanguageContext.tsx:240-249 | after a language is written to storage, the next start-up begins with it, whatever else storage holds |
| LanguageContext.T | contexts/LanguageContext.tsx:12-229 | `translations[language]` is defined for every language, and each table's search-results biography contains `{query}`, at a stated position |
| LanguageContext.InitialLanguage | contexts/LanguageContext.tsx:240-244 | reading storage at start-up: a stored `app-language` entry that is one of the four codes gives that language; a missing or unknown entry gives English |
| LanguageContext.ActiveLanguage | App.tsx:172 | the menu entry shown is an entry of the menu, and it is the current language's |
| LanguageContext.ErrorMessagesDistinct | contexts/LanguageContext.tsx:12-229 | in every language the not-found and connection-error messages are non-empty (so truthy) and different, so the error screen tells the two apart |
| LanguageContext.UseLanguage | contexts/LanguageContext.tsx:264-269 | the hook fails, with the fixed message, exactly when no provider encloses it, and otherwise yields the provider's value |
| LanguageContext.LanguageProvider.constructor | contexts/LanguageContext.tsx:239-244 | the provider starts with the language decoded from the saved preference |
| LanguageContext.LanguageProvider.SetLanguage | contexts/LanguageContext.tsx:246-249 | the new language becomes current and is saved under `app-language`; the other stored entries are kept, and a reload starts with the new language |
| LanguageContext.LanguageProvider.Value | contexts/LanguageContext.tsx:251-255 | the context value is the current language with that language's table |
| GithubService.UserUrl | services/githubService.ts:7 | the account URL is the users endpoint followed by the name exactly as typed |
| GithubService.ReposUrl | services/githubService.ts:22 | an account's listing URL is the account URL, then exactly `/repos?sort=updated&per_page=100&page=`, then the page number, which reads back as the page |
| GithubService.SearchUrl | services/githubService.ts:36 | the search URL has the encoded query right after `q=`, which decodes back to the query's UTF-8 bytes, then exactly `&sort=stars&order=desc&per_page=100&page=`, then the page number, which reads back as the page |
| GithubService.RequestUrl | services/githubService.ts:19-36 | whichever listing a page request names, its URL ends with the paging parameters and the requested page |
| GithubService.ReadmeUrl | services/githubService.ts:51-53 | the readme URL is exactly the raw-content host, then `/owner/repo/`, then the branch, then `/README.md`, with its length stated |
| GithubService.ReadmeBranch | services/githubService.ts:48 | the branch is `main` when omitted, and the given branch otherwise |
| JsStrings.EncodeUriComponent | services/githubService.ts:36 | the encoded query contains only unreserved characters and `%`, so none of `&`, `=`, `#`, `?`, `/`, `+` or a space; a query made only of unreserved characters is sent unchanged |
| GithubService.UserUrlEmbedsRawName | services/githubService.ts:7 | the name is put into the account URL without encoding, can be read back from it, and two names never share a URL |
| GithubService.ListingQueriesUsePageSize | services/githubService.ts:22-36 | the paging parameters both listing URLs end with ask for `per_page` equal to the page size that the application compares page lengths with |
| GithubService.SearchQueryStaysInParameter | services/githubService.ts:36 | because the query is URI-encoded, the first `&` after `q=` is the one after the whole encoded query, so no query can end the `q` parameter early or add parameters |
| GithubService.FetchGithubUser | services/githubService.ts:5-17 | "no such account" exactly on a 404; the account exactly when the response is ok and its body reads |
| GithubService.FetchGithubUserFailed | services/githubService.ts:8-16 | the lookup raises exactly on a network failure, a non-404 error status, or an unreadable body |
| GithubService.FetchGithubRepos | services/githubService.ts:19-31 | the decoded list on a successful response, and `[]` on every failure; it never raises |
| GithubService.SearchGlobalRepos | services/githubService.ts:33-46 | the `items` of a successful response, `[]` when `items` is absent or on any failure; a non-empty result always comes from a successful response |
| GithubService.ReadmeText | services/githubService.ts:56-60 | a non-empty readme comes only from an ok response, and an ok response's body is what is returned |
| GithubService.FetchReadme | services/githubService.ts:48-62 | the first request goes to the given branch (`main` when omitted); a second request, to `master`, is made exactly when the first response is not ok and the branch is `main`; the text is that of the last response, "" on any failure |
| GeminiService.TargetOrDefault | services/geminiService.ts:15 | the target language is `tr` when omitted, and the given one otherwise |
| GeminiService.BuildPrompt | services/geminiService.ts:55-71 | the prompt is the one template filled with the target's own instruction and placeholders for tr, de and es, and with the English ones for any other target |
| GeminiService.TruncateReadme | services/geminiService.ts:21-22 | the readme sent is its first `min(length, 5000)` characters, counted as Unicode scalar values (see Left out) |
| GeminiService.MessagesTurkishExactlyForTr | services/geminiService.ts:17-19 | the missing-key message, and likewise the failure message of line 102, is Turkish exactly when the target is `tr`; the two messages always differ |
| GeminiService.InstructionChoice | services/geminiService.ts:24-53 | the instruction sentence and the JSON placeholders follow one rule: tr, de and es get their own language, every other target gets English |
| GeminiService.TemplateEmbedsInputs | services/geminiService.ts:55-71 | the prompt template contains the labelled name, language and description, the readme, and the language instruction |
| GeminiService.PromptEmbedsInputs | services/geminiService.ts:55-71 | the prompt for a target contains each labelled input, the readme given, and the instruction for that target |
| GeminiService.AnalyzeRepository | services/geminiService.ts:10-104 | without a key, nothing is sent and the missing-key message is raised; otherwise the prompt with the truncated readme is sent, and the call succeeds exactly when the provider replies with non-empty text that parses, with the parsed value; every other outcome raises the localized failure message |
| AnalysisModal.Renders | components/AnalysisModal.tsx:54 | the modal renders nothing when it is closed or has no repository, and renders when it is open with one |
| AnalysisModal.SizeMb | components/AnalysisModal.tsx:110 | the size shown in MB is the nearest whole number of MB to the size in KB, halves rounded up |
| AnalysisModal.OrElse | components/AnalysisModal.tsx:41-42 | JavaScript's or-with-fallback: a missing or empty string gives the fallback, any other string itself |
| AnalysisModal.Modal.AiPanelNeverBlank | components/AnalysisModal.tsx:145-180 | in every state the modal's methods reach, the AI tab shows one of its four panels and never nothing, given a parser that never yields `null` (see Left out) |
| AnalysisModal.ShowAiPanel | components/AnalysisModal.tsx:145-180 | the AI tab shows the analyze offer exactly when idle, the spinner exactly when loading, the retry exactly on error, and the result exactly on success with a stored analysis |
| AnalysisModal.AnalyzeOfferedOnlyWhenIdleOrFailed | components/AnalysisModal.tsx:147-178 | a button that starts an analysis is shown exactly in the idle and error states |
| AnalysisModal.ComplexityTier | components/AnalysisModal.tsx:195 | red exactly above 7, yellow exactly in (4, 7], green exactly at 4 or below |
| AnalysisModal.ComplexityTierMonotone | components/AnalysisModal.tsx:195-202 | a higher score never shows a milder colour |
| AnalysisModal.BarWidth | components/AnalysisModal.tsx:203 | a score on the 1-10 scale fills between 10% and 100% of the bar, and the width is ten per point |
| AnalysisModal.ReadmePreview | components/AnalysisModal.tsx:131-139 | an empty readme shows the empty-readme message; any other shows its first `min(length, 1000)` characters, counted as Unicode scalar values (see Left out) |
| AnalysisModal.SizeMbIsIntegerRounding | components/AnalysisModal.tsx:110 | `Math.round(size / 1024)` equals adding 512 and dividing by 1024 in integers |
| AnalysisModal.Modal.constructor | components/AnalysisModal.tsx:15-18 | the modal starts on the details tab, with no readme, no analysis, and status idle |
| AnalysisModal.Modal.OpenEffect | components/AnalysisModal.tsx:22-33 | the effect fires exactly when the modal renders; opening with a repository resets tab, analysis, status and readme and requests the readme of the owner's repository at its default branch; otherwise nothing changes and nothing is requested |
| AnalysisModal.Modal.ReceiveReadme | components/AnalysisModal.tsx:31 | the arriving readme is stored and nothing else changes |
| AnalysisModal.Modal.SelectTab | components/AnalysisModal.tsx:79-86 | the chosen tab becomes active and nothing else changes |
| AnalysisModal.Modal.BeginAnalyze | components/AnalysisModal.tsx:35-45 | without a repository nothing happens; otherwise the status is loading and the service gets the name, the description or '', the language or 'Unknown', the current readme, and the UI language's code |
| AnalysisModal.Modal.CompleteAnalyze | components/AnalysisModal.tsx:46-51 | a result is stored with status success; a raised error sets status error and keeps the stored analysis |
| AnalysisModal.Modal.Analyze | components/AnalysisModal.tsx:35-52 | with a repository the status always settles on success or error and a missing key ends in error; with a key, the prompt from the repository's name, language or 'Unknown', description or '', the truncated readme and the UI language's code is sent, the status ends in success exactly when the reply is non-empty text that parses, the parsed value is stored, and every failure keeps the stored analysis |
| App.VirtualUser | App.tsx:69-84 | the virtual account: the typed query as login and in the search-page URL, the hit count as repository count, and the translated name, location and biography with the query substituted |
| App.VirtualBioNamesQuery | App.tsx:79 | in every language the virtual biography contains the query exactly where the table's placeholder stood |
| App.ErrorScreensTellOutcomesApart | App.tsx:87-91 | with a language's own table, a failed lookup and an empty search end on two different error screens, each showing its own message |
| App.AppState.ArchiveViewNeverHero | App.tsx:249-281 | in every state the handlers reach, the search-results view never shows the landing screen, because it always has its virtual account |
| App.View | App.tsx:249-281 | the fetching screen exactly while loading; the error screen, with the message, exactly on a truthy error when not loading; the hero screen exactly with no account; the profile otherwise |
| App.ScreensPartition | App.tsx:249-281 | in every state exactly one of the four render conditions holds |
| App.ShowsSuggestion | App.tsx:366 | the repository-search banner appears exactly on an account's own listing for a query without `/` |
| App.ShowRepoPanel | App.tsx:398-422 | no repositories shows the empty message; otherwise all cards, with a load-more button exactly while more pages may exist, disabled exactly during a load |
| App.FirstPageRequest | App.tsx:49-61 | a found account's first page comes from its listing, a missing account's from the repository search, and a failed lookup requests nothing |
| App.AppState.constructor | App.tsx:10-21 | empty query, no account, no repositories, not loading, no error, page 1, more pages possible, not the search-results view |
| App.AppState.SetQuery | App.tsx:193-194 | the input box sets the query and nothing else |
| App.AppState.BeginSearch | App.tsx:37-47 | a blank query changes nothing; otherwise the previous result is cleared, loading starts and the untrimmed query is captured |
| App.AppState.ShowSearchHits | App.tsx:63-88 | with hits, the search-results view shows them under the virtual account and a short page ends pagination; without, the not-found error is set and the rest kept |
| App.AppState.ResolveAccount | App.tsx:49-61 | once the lookup settles: a found account is shown at once and its listing requested; a missing one changes nothing and the repository search is requested; a failed lookup sets the connection error, ends loading and requests nothing |
| App.AppState.CompleteSearch | App.tsx:56-94 | once the first page is in: an account's listing is stored, a short page ending pagination; search hits go through the search branch; loading ends either way |
| App.AppState.Search | App.tsx:37-95 | an uninterrupted search requests the first page from the account's listing or the search as the lookup says, and ends in exactly the state this search's results determine: more pages exactly when a first page shown is full, and still possible after either error |
| App.AppState.BeginLoadMore | App.tsx:97-109 | nothing happens without an account, during a load, or with no more pages; otherwise loading starts and page+1 is requested from the view's own listing, at a URL that ends with that page number |
| App.AppState.CompleteLoadMore | App.tsx:111-122 | a non-empty page is appended to the current repositories and becomes the current page, and a short page ends pagination; an empty page ends pagination; the load ends |
| App.AppState.LoadMore | App.tsx:97-123 | page+1 is requested from the search in the search-results view and from the account's listing otherwise; the repositories only ever grow by the arriving page, the page number grows by one exactly when items arrive, and the query, loading flag, account, error and view are untouched |
| App.AppState.BeginForceGlobalSearch | App.tsx:125-132 | loading starts and the listing is reset; the account, error and view are kept; page 1 of the repository search for the current query is requested, at a URL that ends with page 1 |
| App.AppState.CompleteForceGlobalSearch | App.tsx:132-164 | as the search branch of a search, then loading ends |
| App.AppState.ForceGlobalSearch | App.tsx:125-165 | page 1 of the repository search for the current query is requested; a load-more in progress is left as it is; hits replace the listing under a fresh virtual account; no hits set the not-found error under the old account; an earlier error stays on screen even when hits arrive |

## Left out

- Network, `fetch`, `response.json()` and `response.text()` are not modelled. Their outcomes are parameters: a `Fetched<T>` value holds ok, status and the decoded body, with `None` for an unreadable body.
- A JSON `null` body and fields of the wrong type are not modelled; a decoded body is a well-formed record.
- The GoogleGenAI client, the model name and the response-schema config are not modelled. The call is a parameter that replies with the response text or raises. An absent `response.text` is modelled as "".
- `GeminiService.AnalyzeRepository`: the API key is a parameter (`""` when `process.env.API_KEY` is unset), not module state read at load time.
- The clock (`new Date().toISOString()`) is the parameter `now`, and `toLocaleDateString` formatting is not modelled.
- `console.error` logging is not modelled; it has no effect on state.
- The rendering itself (JSX, styling, icons, the language-menu dropdown) is not modelled; the render conditions are (`View`, `ShowRepoPanel`, `ShowsSuggestion`, `ShowAiPanel`).
- `components/RepoCard.tsx` is not part of this model.
- React batching and re-render order are not modelled. Interleaving is captured only by splitting each handler at its `await`s.
- `JsStrings`: strings are sequences of Unicode scalar values, not UTF-16 code units. Lone surrogates, for which `encodeURIComponent` throws, cannot occur.
- `App.VirtualUser`: a `$` pattern in the replacement (`$&` and the like) is read literally, since `replace` patterns are not modelled.
- `AnalysisModal.ComplexityTier`: scores are integers; a fractional `complexityScore` from the provider is not modelled.
- GeminiService.TruncateReadme: counts Unicode scalar values, while `slice(0, 5000)` counts UTF-16 code units. For a readme with characters outside the Basic Multilingual Plane (emoji, for example), the model keeps up to twice as many code units as the source.
- AnalysisModal.ReadmePreview: counts Unicode scalar values, while `slice(0, 1000)` counts UTF-16 code units. As with `TruncateReadme`, a readme with astral characters keeps up to twice as many code units in the model.
- AnalysisModal.Modal.AiPanelNeverBlank: holds because the parser never yields JSON `null`; the request asks for an object-typed response schema. The source's `JSON.parse("null")` returns `null` without throwing, which would store `null` under SUCCESS and leave the AI tab blank. A nullable parse result is not modelled.
- `AnalysisModal.ReadmePreview`: the literal `... ` and the "view full" note after the preview are not modelled.
- `AnalysisModal.Modal.ReceiveReadme`: a readme arriving after the modal was reopened for another repository is stored, as in the source. No lemma rules such a race out, because the source does not.
- `GeminiService.InstructionChoice`: it does not state that the four instruction sentences differ from one another.
- `App.AppState.CompleteLoadMore` requires a next page of at least 1. Every ticket from `BeginLoadMore` meets this, since pages start at 1.
- The license cell (`'None'` or `'MIT*'`) and the date cells of the details tab are not modelled.
