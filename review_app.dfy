/** `main`, once the "Review PR" button is pressed: check the URL, fetch the
    PR, then show its details and change totals beside the generated review.
    The page itself is left out; the outcome records what it shows. */
module ReviewApp {
  import opened Wrappers
  import opened UrlParser
  import opened PullRequest
  import opened ReviewerConfig
  import opened Fetcher
  import opened Formatter
  import opened ReviewGenerator

  const NoUrlMessage: string := "Please enter a GitHub PR URL"
  const InvalidUrlMessage: string :=
    "Invalid GitHub PR URL format. Please use: https://github.com/owner/repo/pull/123"

  /** What one press of the button ends in. */
  datatype Outcome =
    | MissingUrl
    | InvalidUrl
    | FetchFailed(error: string)
    | Reviewed(data: PrData, totalAdditions: nat, totalDeletions: nat, review: string)

  /** The error banner an outcome shows, if any. */
  function Banner(o: Outcome): Option<string> {
    match o
    case MissingUrl => Some(NoUrlMessage)
    case InvalidUrl => Some(InvalidUrlMessage)
    case FetchFailed(e) => Some(e)
    case Reviewed(_, _, _, _) => None
  }

  /** The triple `parse_github_url` returns: the three groups, or three Nones. */
  function UrlGroups(url: string): (g: (Option<string>, Option<string>, Option<string>))
    ensures g.0.Some? == g.1.Some? == g.2.Some? == ParseGithubUrl(url).Some?
    ensures ParseGithubUrl(url).Some? ==>
              var r := ParseGithubUrl(url).value;
              && g.0.value == r.owner && g.1.value == r.repo && g.2.value == r.number
              && |r.owner| > 0 && |r.repo| > 0 && |r.number| > 0
  {
    match ParseGithubUrl(url)
    case Some(r) => (Some(r.owner), Some(r.repo), Some(r.number))
    case None => (None, None, None)
  }

  /** `if not owner or not repo or not pr_number` fails to hold. */
  predicate GroupsPresent(g: (Option<string>, Option<string>, Option<string>)) {
    Truthy(g.0) && Truthy(g.1) && Truthy(g.2)
  }

  /** The caller's truthiness check rejects exactly the URLs the pattern does
      not match: a match never has an empty group. */
  lemma GateIsMatch(url: string)
    ensures GroupsPresent(UrlGroups(url)) <==> ParseGithubUrl(url).Some?
    ensures GroupsPresent(UrlGroups(url)) ==>
              UrlGroups(url) == (Some(ParseGithubUrl(url).value.owner), Some(ParseGithubUrl(url).value.repo),
                                 Some(ParseGithubUrl(url).value.number))
  {
    match ParseGithubUrl(url)
    case Some(r) =>
      assert IsMatch(url, r);
    case None =>
  }

  /** The whole button handler, with the two GETs and the completion call as
      parameters. */
  function ReviewPr(cfg: Config, url: string,
                    getPr: Request -> Transport<Metadata>,
                    getFiles: Request -> Transport<seq<FileChange>>,
                    complete: CompletionRequest -> Completion): Outcome
  {
    if url == "" then MissingUrl
    else
      var g := UrlGroups(url);
      if !GroupsPresent(g) then InvalidUrl
      else
        match FetchPrData(cfg, g.0.value, g.1.value, g.2.value, getPr, getFiles)
        case Failure(e) => FetchFailed(e)
        case Success(data) =>
          Reviewed(data, TotalAdditions(data.files), TotalDeletions(data.files),
                   GenerateReview(cfg, Document(data), complete))
  }

  /** How each press ends: the empty field, a URL the pattern rejects, the
      fetch error verbatim, or the details with their totals and the review of
      the formatted document. */
  lemma {:induction false} ReviewPrOutcomes(cfg: Config, url: string,
                                           getPr: Request -> Transport<Metadata>,
                                           getFiles: Request -> Transport<seq<FileChange>>,
                                           complete: CompletionRequest -> Completion)
    ensures var o := ReviewPr(cfg, url, getPr, getFiles, complete);
            && (o.MissingUrl? <==> url == "")
            && (o.InvalidUrl? <==> url != "" && ParseGithubUrl(url).None?)
            && (url != "" && ParseGithubUrl(url).Some? ==>
                  var r := ParseGithubUrl(url).value;
                  var fetched := FetchPrData(cfg, r.owner, r.repo, r.number, getPr, getFiles);
                  && (o.FetchFailed? <==> fetched.Failure?)
                  && (o.FetchFailed? ==> o.error == fetched.error && o.error != "")
                  && (o.Reviewed? ==> && o.data == fetched.value
                                      && o.totalAdditions == TotalAdditions(o.data.files)
                                      && o.totalDeletions == TotalDeletions(o.data.files)
                                      && o.review == GenerateReview(cfg, Document(o.data), complete)))
  {
    if url != "" {
      GateIsMatch(url);
    }
  }

  /** A banner is shown exactly when no review is reached, and it is never
      empty. */
  lemma BannerUnlessReviewed(o: Outcome)
    requires o.FetchFailed? ==> o.error != ""
    ensures Banner(o).None? <==> o.Reviewed?
    ensures Banner(o).Some? ==> Banner(o).value != ""
  {
  }

  /** Nothing is fetched for a URL the pattern rejects: the outcome is the same
      whatever the network and the model would have answered. */
  lemma {:induction false} InvalidUrlFetchesNothing(cfg: Config, url: string,
                                                   getPr: Request -> Transport<Metadata>,
                                                   getFiles: Request -> Transport<seq<FileChange>>,
                                                   complete: CompletionRequest -> Completion)
    requires ParseGithubUrl(url).None?
    ensures ReviewPr(cfg, url, getPr, getFiles, complete) == if url == "" then MissingUrl else InvalidUrl
  {
    GateIsMatch(url);
  }

  /** A failed review does not hide the details: once the fetch succeeds the
      totals are shown whatever the completion call does. */
  lemma {:induction false} DetailsIndependentOfReview(cfg: Config, url: string,
                                                     getPr: Request -> Transport<Metadata>,
                                                     getFiles: Request -> Transport<seq<FileChange>>,
                                                     c1: CompletionRequest -> Completion,
                                                     c2: CompletionRequest -> Completion)
    ensures var o1 := ReviewPr(cfg, url, getPr, getFiles, c1);
            var o2 := ReviewPr(cfg, url, getPr, getFiles, c2);
            && o1.Reviewed? == o2.Reviewed?
            && (o1.Reviewed? ==> o1.data == o2.data && o1.totalAdditions == o2.totalAdditions
                                 && o1.totalDeletions == o2.totalDeletions)
  {
  }

  /** The example URL `https://github.com/octocat/Hello-World/pull/42`, with
      a PR that is not found. */
  lemma {:induction false} ExampleNotFound(cfg: Config, files: Transport<seq<FileChange>>,
                                          prBody: Body<Metadata>,
                                          complete: CompletionRequest -> Completion)
    requires files.Response?
    ensures var url := "https://github.com/octocat/Hello-World/pull/42";
            ReviewPr(cfg, url, (q: Request) => Response(404, prBody), (q: Request) => files, complete)
            == FetchFailed("Error fetching PR: 404")
  {
    ExampleOctocat();
    Example404(files, prBody);
    GateIsMatch("https://github.com/octocat/Hello-World/pull/42");
  }
}
