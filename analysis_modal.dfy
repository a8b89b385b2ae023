/** The repository detail modal: the reset when it opens, the analysis
    status machine (idle, loading, success, error, with retry from error),
    and the small display rules of its two tabs. */
module AnalysisModal {
  import opened Wrappers
  import opened Types
  import opened JsStrings
  import LanguageContext
  import GeminiService

  datatype Status = Idle | Loading | Succeeded | Failed
  datatype Tab = Details | Ai

  /** The arguments of the readme request made on open. */
  datatype ReadmeRequest = ReadmeRequest(owner: string, repo: string, branch: Option<string>)

  /** The arguments `handleAnalyze` passes to the analysis service. */
  datatype AnalyzeArgs = AnalyzeArgs(repoName: string, description: string, language: string,
                                     readme: string, target: string)

  /** JavaScript's `value || fallback` on an optional string: an absent or
      empty string is falsy and gives the fallback. */
  function OrElse(value: Option<string>, fallback: string): (r: string)
    ensures value.Some? && value.value != "" ==> r == value.value
    ensures value.None? || value.value == "" ==> r == fallback
  {
    if value.Some? && value.value != "" then value.value else fallback
  }

  // ---------------------------------------------------------------------
  // Display rules
  // ---------------------------------------------------------------------

  /** The modal renders nothing unless it is open and has a repository. */
  function Renders(isOpen: bool, repo: Option<Repo>): (r: bool)
    ensures !isOpen ==> !r
    ensures repo.None? ==> !r
    ensures isOpen && repo.Some? ==> r
  {
    isOpen && repo.Some?
  }

  /** What the AI tab shows. A success without a stored analysis shows
      nothing. */
  datatype AiPanel = AnalyzeOffer | Spinner | ErrorWithRetry | ResultView(analysis: AnalysisResult) | Blank

  function ShowAiPanel(status: Status, analysis: Option<AnalysisResult>): (p: AiPanel)
    ensures p.AnalyzeOffer? <==> status == Idle
    ensures p.Spinner? <==> status == Loading
    ensures p.ErrorWithRetry? <==> status == Failed
    ensures p.ResultView? <==> status == Succeeded && analysis.Some?
    ensures p.ResultView? ==> p.analysis == analysis.value
  {
    match status
    case Idle => AnalyzeOffer
    case Loading => Spinner
    case Failed => ErrorWithRetry
    case Succeeded => if analysis.Some? then ResultView(analysis.value) else Blank
  }

  /** The panel has a button that starts an analysis: the first attempt
      from idle, a retry from error; never while one is loading or after
      a success. */
  predicate OffersAnalyze(p: AiPanel) {
    p.AnalyzeOffer? || p.ErrorWithRetry?
  }

  lemma AnalyzeOfferedOnlyWhenIdleOrFailed(status: Status, analysis: Option<AnalysisResult>)
    ensures OffersAnalyze(ShowAiPanel(status, analysis)) <==> status == Idle || status == Failed
  {
  }

  datatype Tier = Green | Yellow | Red

  /** The colour of a complexity score: red above 7, yellow above 4,
      green otherwise. */
  function ComplexityTier(score: int): (t: Tier)
    ensures t == Red <==> score > 7
    ensures t == Yellow <==> 4 < score <= 7
    ensures t == Green <==> score <= 4
  {
    if score > 7 then Red else if score > 4 then Yellow else Green
  }

  function TierRank(t: Tier): nat {
    match t case Green => 0 case Yellow => 1 case Red => 2
  }

  /** A higher score never shows a milder colour. */
  lemma ComplexityTierMonotone(a: int, b: int)
    requires a <= b
    ensures TierRank(ComplexityTier(a)) <= TierRank(ComplexityTier(b))
  {
  }

  /** The bar's width in percent: ten per point, so a score on the
      promised 1-10 scale fills between a tenth and all of the bar. */
  function BarWidth(score: int): (w: int)
    ensures 1 <= score <= 10 ==> 10 <= w <= 100
    ensures w % 10 == 0 && w / 10 == score
  {
    score * 10
  }

  const PreviewLength := 1000

  /** The readme preview: `None` (the empty-readme message) when the readme
      is empty, otherwise its first 1000 characters. */
  function ReadmePreview(readme: string): (r: Option<string>)
    ensures r.None? <==> readme == ""
    ensures r.Some? ==> |r.value| == (if |readme| < PreviewLength then |readme| else PreviewLength)
    ensures r.Some? ==> r.value == readme[..|r.value|]
  {
    if readme == "" then None else Some(Prefix(readme, PreviewLength))
  }

  /** `Math.round(x)`: the nearest integer, halves rounded up. */
  function MathRound(x: real): int {
    (x + 0.5).Floor
  }

  /** The size shown, in MB: `Math.round(size / 1024)` of the size in KB. */
  function SizeMb(size: int): (mb: int)
    ensures 1024 * mb - 512 <= size < 1024 * mb + 512
  {
    SizeMbIsIntegerRounding(size);
    MathRound(size as real / 1024.0)
  }

  /** The rounding is integer arithmetic: adding half the divisor and
      dividing rounds to nearest with halves up. */
  lemma SizeMbIsIntegerRounding(size: int)
    ensures MathRound(size as real / 1024.0) == (size + 512) / 1024
  {
    var q := (size + 512) / 1024;
    var r := (size + 512) % 1024;
    assert size + 512 == 1024 * q + r && 0 <= r < 1024;
    var x := size as real / 1024.0 + 0.5;
    assert x == q as real + r as real / 1024.0;
    assert q as real <= x < q as real + 1.0;
  }

  // ---------------------------------------------------------------------
  // The modal's state
  // ---------------------------------------------------------------------

  class Modal {
    var activeTab: Tab
    var readme: string
    var analysis: Option<AnalysisResult>
    var status: Status

    /** A success always has its result stored. */
    predicate Valid()
      reads this
    {
      status == Succeeded ==> analysis.Some?
    }

    /** The AI tab is never left blank: a success always has its result. */
    lemma AiPanelNeverBlank()
      requires Valid()
      ensures !ShowAiPanel(status, analysis).Blank?
    {
    }

    constructor ()
      ensures Valid()
      ensures activeTab == Details && readme == "" && analysis == None && status == Idle
    {
      activeTab := Details;
      readme := "";
      analysis := None;
      status := Idle;
    }

    /** The effect run when `isOpen` or `repo` change: opening with a
        repository resets the tab, the analysis, the status and the readme,
        and requests the readme at the repository's default branch; in any
        other case nothing changes and nothing is requested. */
    method OpenEffect(isOpen: bool, repo: Option<Repo>) returns (request: Option<ReadmeRequest>)
      requires Valid()
      modifies this
      ensures Valid()
      ensures request.Some? <==> Renders(isOpen, repo)
      ensures isOpen && repo.Some? ==>
        && activeTab == Details && analysis == None && status == Idle && readme == ""
        && request == Some(ReadmeRequest(repo.value.ownerLogin, repo.value.name, Some(repo.value.defaultBranch)))
      ensures !(isOpen && repo.Some?) ==>
        request == None && unchanged(this)
    {
      if isOpen && repo.Some? {
        activeTab := Details;
        analysis := None;
        status := Idle;
        readme := "";
        request := Some(ReadmeRequest(repo.value.ownerLogin, repo.value.name, Some(repo.value.defaultBranch)));
      } else {
        request := None;
      }
    }

    /** The requested readme arrives (`then(setReadme)`). */
    method ReceiveReadme(text: string)
      requires Valid()
      modifies this
      ensures Valid()
      ensures readme == text
      ensures activeTab == old(activeTab) && analysis == old(analysis) && status == old(status)
    {
      readme := text;
    }

    method SelectTab(tab: Tab)
      requires Valid()
      modifies this
      ensures Valid()
      ensures activeTab == tab
      ensures readme == old(readme) && analysis == old(analysis) && status == old(status)
    {
      activeTab := tab;
    }

    /** `handleAnalyze` up to the service call: without a repository
        nothing happens; otherwise the status becomes loading and the call's
        arguments are returned: a missing or empty description is sent as
        '', a missing or empty language as 'Unknown', the current readme,
        and the UI language's code as the target. */
    method BeginAnalyze(repo: Option<Repo>, language: LanguageContext.Language) returns (args: Option<AnalyzeArgs>)
      requires Valid()
      modifies this
      ensures Valid()
      ensures repo.None? ==> args == None && unchanged(this)
      ensures repo.Some? ==>
        && status == Loading
        && activeTab == old(activeTab) && readme == old(readme) && analysis == old(analysis)
        && args == Some(AnalyzeArgs(repo.value.name, OrElse(repo.value.description, ""),
                                    OrElse(repo.value.language, "Unknown"), readme,
                                    LanguageContext.Code(language)))
    {
      if repo.None? {
        return None;
      }
      status := Loading;
      var r := repo.value;
      args := Some(AnalyzeArgs(r.name, OrElse(r.description, ""), OrElse(r.language, "Unknown"),
                               readme, LanguageContext.Code(language)));
    }

    /** The service call settles: a result is stored and the status becomes
        success; a raised error sets the error status and leaves the stored
        analysis as it was. */
    method CompleteAnalyze(outcome: Result<AnalysisResult, string>)
      requires Valid()
      modifies this
      ensures Valid()
      ensures outcome.Success? ==> status == Succeeded && analysis == Some(outcome.value)
      ensures outcome.Failure? ==> status == Failed && analysis == old(analysis)
      ensures activeTab == old(activeTab) && readme == old(readme)
    {
      match outcome
      case Success(a) =>
        analysis := Some(a);
        status := Succeeded;
      case Failure(_) =>
        status := Failed;
    }

    /** `handleAnalyze` run to completion against the analysis service with
        the provider call and the JSON parser given. With a repository and a
        key, the prompt built from the repository's fields, the truncated
        readme and the UI language is sent; the status ends in success
        exactly when the provider's reply is non-empty text that parses, and
        the parsed result is what is stored. Every failure, the missing key
        included, sets the error status and keeps the stored analysis. */
    method Analyze(repo: Option<Repo>, language: LanguageContext.Language, apiKey: string,
                   generate: string -> GeminiService.Reply, parse: string -> Option<AnalysisResult>)
      requires Valid()
      modifies this
      ensures Valid()
      ensures repo.None? ==> unchanged(this)
      ensures repo.Some? ==> status == Succeeded || status == Failed
      ensures activeTab == old(activeTab) && readme == old(readme)
      ensures repo.Some? && apiKey == "" ==> status == Failed
      ensures repo.Some? && status == Failed ==> analysis == old(analysis)
      ensures repo.Some? && apiKey != "" ==>
        var p := GeminiService.BuildPrompt(repo.value.name, OrElse(repo.value.language, "Unknown"),
                                           OrElse(repo.value.description, ""),
                                           GeminiService.TruncateReadme(old(readme)),
                                           LanguageContext.Code(language));
        && (status == Succeeded <==>
              generate(p).Replied? && generate(p).text != "" && parse(generate(p).text).Some?)
        && (status == Succeeded ==> analysis == Some(parse(generate(p).text).value))
    {
      var args := BeginAnalyze(repo, language);
      if args.None? {
        return;
      }
      var a := args.value;
      var result, _ := GeminiService.AnalyzeRepository(apiKey, a.repoName, a.description, a.language,
                                                       a.readme, Some(a.target), generate, parse);
      CompleteAnalyze(result);
    }
  }
}
