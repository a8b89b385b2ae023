/** The records the services exchange with the application: a GitHub
    account, a repository, and the structured result of an AI analysis.
    Only the fields the modelled code reads or writes are kept. */
module Types {
  import opened Wrappers

  /** A GitHub user or organisation as returned by `GET /users/{login}`,
      or the "virtual" account synthesised for a repository search. */
  datatype User = User(
    login: string,
    id: int,
    avatarUrl: string,
    htmlUrl: string,
    name: Option<string>,
    company: Option<string>,
    blog: Option<string>,
    location: Option<string>,
    email: Option<string>,
    bio: Option<string>,
    publicRepos: int,
    followers: int,
    following: int,
    createdAt: string)

  /** A repository as returned by the listing and search endpoints. */
  datatype Repo = Repo(
    id: int,
    name: string,
    fullName: string,
    ownerLogin: string,
    description: Option<string>,
    language: Option<string>,
    stars: int,
    forks: int,
    isPrivate: bool,
    size: int,            // in kilobytes
    createdAt: string,
    defaultBranch: string,
    htmlUrl: string)

  /** The JSON object the AI provider is asked to produce. */
  datatype AnalysisResult = AnalysisResult(
    summary: string,
    complexityScore: int,
    suggestedUseCases: seq<string>,
    techStackAnalysis: string)
}
