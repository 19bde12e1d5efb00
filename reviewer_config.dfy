/** The configuration of a GitHubPRReviewer: the two credentials it reads
    from the environment once, in its constructor, and never changes. */
module ReviewerConfig {
  import opened Wrappers

  /** `os.getenv` yields None for an unset variable. */
  datatype Config = Config(githubToken: Option<string>, anthropicApiKey: Option<string>)

  /** Python truthiness of an optional string: set and non-empty. */
  predicate Truthy(s: Option<string>) {
    s.Some? && |s.value| > 0
  }

  /** `self.client` exists exactly when the API key is truthy. */
  predicate HasClient(c: Config) {
    Truthy(c.anthropicApiKey)
  }

  const MissingGithubToken: string := "Please set GITHUB_TOKEN in your environment variables"
  const MissingApiKey: string := "Please set ANTHROPIC_API_KEY in your environment variables"

  /** The error banners the constructor shows, in the order it shows them. */
  function StartupErrors(c: Config): (errs: seq<string>)
    ensures errs == [] <==> Truthy(c.githubToken) && HasClient(c)
    ensures MissingGithubToken in errs <==> !Truthy(c.githubToken)
    ensures MissingApiKey in errs <==> !HasClient(c)
    ensures |errs| == 2 ==> errs == [MissingGithubToken, MissingApiKey]
    ensures |errs| == (if Truthy(c.githubToken) then 0 else 1) + (if HasClient(c) then 0 else 1)
    ensures forall e :: e in errs ==> e == MissingGithubToken || e == MissingApiKey
  {
    (if Truthy(c.githubToken) then [] else [MissingGithubToken])
    + (if Truthy(c.anthropicApiKey) then [] else [MissingApiKey])
  }
}
