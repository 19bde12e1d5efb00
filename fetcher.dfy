/** `fetch_pr_data`: the two GitHub REST requests for a pull request and the
    choice between their outcomes. The network is not modelled: each GET is
    an oracle from the request sent to what came back. */
module Fetcher {
  import opened Wrappers
  import opened Decimal
  import opened UrlParser
  import opened PullRequest
  import opened ReviewerConfig

  datatype Header = Header(name: string, value: string)

  datatype Request = Request(url: string, headers: seq<Header>)

  /** What `response.json()` gives: the decoded record, or the text of the
      exception it raised. */
  datatype Body<T> = Decoded(value: T) | Undecodable(error: string)

  /** What `requests.get` gives: a response, or the text of the exception it raised. */
  datatype Transport<T> = Response(statusCode: nat, body: Body<T>) | Raised(error: string)

  const ApiRepos: string := "https://api.github.com/repos/"
  const PullsMarker: string := "/pulls/"
  const FilesSuffix: string := "/files"

  /** `pr_url`: the pull request resource. */
  function PrApiUrl(owner: string, repo: string, number: string): string {
    ApiRepos + owner + "/" + repo + PullsMarker + number
  }

  /** `files_url`: the files of the same pull request. */
  function FilesApiUrl(owner: string, repo: string, number: string): (u: string)
    ensures PrApiUrl(owner, repo, number) <= u
    ensures u[|PrApiUrl(owner, repo, number)|..] == FilesSuffix
  {
    ApiRepos + owner + "/" + repo + PullsMarker + number + FilesSuffix
  }

  /** An f-string renders None as the text "None". */
  function TokenText(token: Option<string>): string {
    if token.Some? then token.value else "None"
  }

  /** The headers both requests carry. */
  function ApiHeaders(token: Option<string>): seq<Header> {
    [Header("Authorization", "token " + TokenText(token)),
     Header("Accept", "application/vnd.github.v3+json")]
  }

  /** Both headers of app.py's dictionary, the authorization one carrying the
      token as its f-string renders it, `None` included. */
  lemma AuthorizationHeader(token: Option<string>)
    ensures |ApiHeaders(token)| == 2
    ensures ApiHeaders(token)[0].name == "Authorization"
    ensures ApiHeaders(token)[1] == Header("Accept", "application/vnd.github.v3+json")
    ensures token.Some? ==> ApiHeaders(token)[0].value == "token " + token.value
    ensures token.None? ==> ApiHeaders(token)[0].value == "token None"
  {
  }

  function PrRequest(c: Config, owner: string, repo: string, number: string): Request {
    Request(PrApiUrl(owner, repo, number), ApiHeaders(c.githubToken))
  }

  function FilesRequest(c: Config, owner: string, repo: string, number: string): Request {
    Request(FilesApiUrl(owner, repo, number), ApiHeaders(c.githubToken))
  }

  const PrErrorPrefix: string := "Error fetching PR: "
  const FilesErrorPrefix: string := "Error fetching PR files: "
  const ExceptionPrefix: string := "Error: "

  function PrStatusError(code: nat): string {
    PrErrorPrefix + NatToString(code)
  }

  function FilesStatusError(code: nat): string {
    FilesErrorPrefix + NatToString(code)
  }

  /** The catch-all `except`: `f"Error: {str(e)}"`. */
  function ExceptionError(e: string): string {
    ExceptionPrefix + e
  }

  /** The outcome `fetch_pr_data` returns once both GETs are done: an exception
      of either GET first (both are issued before any status is looked at),
      then the metadata status, then the files status, then the two `.json()`
      decodings, and otherwise both decoded bodies unchanged. Every error
      message is non-empty, so the caller's `if error:` is `Failure?`. */
  function SelectOutcome(pr: Transport<Metadata>, files: Transport<seq<FileChange>>): (r: Result<PrData, string>)
    ensures r.Success? <==> && pr.Response? && pr.statusCode == 200 && pr.body.Decoded?
                            && files.Response? && files.statusCode == 200 && files.body.Decoded?
    ensures r.Success? ==> r.value == PrData(pr.body.value, files.body.value)
    ensures r.Failure? ==> |r.error| > 0
  {
    if pr.Raised? then Failure(ExceptionError(pr.error))
    else if files.Raised? then Failure(ExceptionError(files.error))
    else if pr.statusCode != 200 then Failure(PrStatusError(pr.statusCode))
    else if files.statusCode != 200 then Failure(FilesStatusError(files.statusCode))
    else if pr.body.Undecodable? then Failure(ExceptionError(pr.body.error))
    else if files.body.Undecodable? then Failure(ExceptionError(files.body.error))
    else Success(PrData(pr.body.value, files.body.value))
  }

  /** `fetch_pr_data(owner, repo, pr_number)`, with the two GETs as oracles. */
  function FetchPrData(c: Config, owner: string, repo: string, number: string,
                       getPr: Request -> Transport<Metadata>,
                       getFiles: Request -> Transport<seq<FileChange>>): (r: Result<PrData, string>)
    ensures var pr := getPr(PrRequest(c, owner, repo, number));
            var files := getFiles(FilesRequest(c, owner, repo, number));
            && (r.Success? <==> && pr.Response? && pr.statusCode == 200 && pr.body.Decoded?
                                && files.Response? && files.statusCode == 200 && files.body.Decoded?)
            && (r.Success? ==> r.value == PrData(pr.body.value, files.body.value))
            && (r.Failure? ==> |r.error| > 0)
  {
    SelectOutcome(getPr(PrRequest(c, owner, repo, number)), getFiles(FilesRequest(c, owner, repo, number)))
  }

  /** A metadata status other than 200 decides the error, whatever the files
      request returned (as long as it did not raise). */
  lemma MetadataStatusFirst(code: nat, prBody: Body<Metadata>, files: Transport<seq<FileChange>>)
    requires code != 200 && files.Response?
    ensures SelectOutcome(Response(code, prBody), files) == Failure(PrStatusError(code))
  {
  }

  /** With the metadata fetched, a files status other than 200 decides the error. */
  lemma FilesStatusSecond(prBody: Body<Metadata>, code: nat, filesBody: Body<seq<FileChange>>)
    requires code != 200
    ensures SelectOutcome(Response(200, prBody), Response(code, filesBody)) == Failure(FilesStatusError(code))
  {
  }

  /** An exception of the files GET wins over a bad metadata status: both GETs
      run before the first status check. */
  /** The catch-all `except` of app.py:56-57: an exception in the PR GET, or a
      failed `.json()` once both statuses are 200, reaches the caller as
      `Error: ` followed by the exception's text. */
  lemma CatchAllErrors(e: string, files: Transport<seq<FileChange>>, prBody: Body<Metadata>,
                       filesBody: Body<seq<FileChange>>)
    ensures SelectOutcome(Raised(e), files) == Failure("Error: " + e)
    ensures SelectOutcome(Response(200, Undecodable(e)), Response(200, filesBody)) == Failure("Error: " + e)
    ensures prBody.Decoded? ==>
              SelectOutcome(Response(200, prBody), Response(200, Undecodable(e))) == Failure("Error: " + e)
  {
  }

  lemma FilesExceptionBeforeStatus(pr: Transport<Metadata>, e: string)
    requires pr.Response?
    ensures SelectOutcome(pr, Raised(e)) == Failure(ExceptionError(e))
  {
  }

  /** The GitHub answer 404 for the pull request yields a message naming 404. */
  lemma Example404(files: Transport<seq<FileChange>>, prBody: Body<Metadata>)
    requires files.Response?
    ensures SelectOutcome(Response(404, prBody), files) == Failure("Error fetching PR: 404")
  {
    assert DigitChar(4) == '4' && DigitChar(0) == '0';
    assert NatToString(404) == "404";
    assert PrErrorPrefix + "404" == "Error fetching PR: 404";
    MetadataStatusFirst(404, prBody, files);
  }

  /** The message tells the three kinds of failure apart and gives the status
      code back: equal messages have the same origin and the same code. */
  lemma {:induction false} ErrorMessagesIdentifyCause(a: nat, b: nat, e: string)
    ensures PrStatusError(a) == PrStatusError(b) ==> a == b
    ensures FilesStatusError(a) == FilesStatusError(b) ==> a == b
    ensures PrStatusError(a) != FilesStatusError(b)
    ensures PrStatusError(a) != ExceptionError(e) && FilesStatusError(a) != ExceptionError(e)
  {
    if PrStatusError(a) == PrStatusError(b) {
      assert NatToString(a) == PrStatusError(a)[|PrErrorPrefix|..];
      NatToStringInjective(a, b);
    }
    if FilesStatusError(a) == FilesStatusError(b) {
      assert NatToString(a) == FilesStatusError(a)[|FilesErrorPrefix|..];
      NatToStringInjective(a, b);
    }
    assert PrStatusError(a)[17] == ':' && FilesStatusError(b)[17] == ' ';
    assert PrStatusError(a)[5] == ' ' && ExceptionError(e)[5] == ':';
    assert FilesStatusError(a)[5] == ' ';
  }

  /** The two requests differ only in the `/files` suffix and carry the same
      headers, the token among them. */
  lemma RequestsShareHeaders(c: Config, owner: string, repo: string, number: string)
    ensures FilesRequest(c, owner, repo, number).headers == PrRequest(c, owner, repo, number).headers
    ensures FilesRequest(c, owner, repo, number).url == PrRequest(c, owner, repo, number).url + FilesSuffix
    ensures c.githubToken.Some? ==>
              PrRequest(c, owner, repo, number).headers[0].value == "token " + c.githubToken.value
  {
  }

  /** The result depends on the network only through the answers to the two
      requests built from (owner, repo, number). */
  lemma FetchDependsOnlyOnRequests(c: Config, owner: string, repo: string, number: string,
                                   getPr: Request -> Transport<Metadata>, getPr': Request -> Transport<Metadata>,
                                   getFiles: Request -> Transport<seq<FileChange>>,
                                   getFiles': Request -> Transport<seq<FileChange>>)
    requires getPr(PrRequest(c, owner, repo, number)) == getPr'(PrRequest(c, owner, repo, number))
    requires getFiles(FilesRequest(c, owner, repo, number)) == getFiles'(FilesRequest(c, owner, repo, number))
    ensures FetchPrData(c, owner, repo, number, getPr, getFiles) == FetchPrData(c, owner, repo, number, getPr', getFiles')
  {
  }

  /** Distinct pull requests are fetched from distinct URLs, as long as owner,
      repository and number contain no `/` (as every parsed URL guarantees). */
  lemma {:induction false} PrApiUrlInjective(a: PrRef, b: PrRef)
    requires IsSegment(a.owner) && IsSegment(a.repo) && IsSegment(a.number)
    requires IsSegment(b.owner) && IsSegment(b.repo) && IsSegment(b.number)
    requires PrApiUrl(a.owner, a.repo, a.number) == PrApiUrl(b.owner, b.repo, b.number)
    ensures a == b
  {
    var ua := a.repo + (PullsMarker + a.number);
    var ub := b.repo + (PullsMarker + b.number);
    var ta := a.owner + ("/" + ua);
    var tb := b.owner + ("/" + ub);
    assert PrApiUrl(a.owner, a.repo, a.number) == ApiRepos + ta;
    assert PrApiUrl(b.owner, b.repo, b.number) == ApiRepos + tb;
    assert ta == (ApiRepos + ta)[|ApiRepos|..];
    assert tb == (ApiRepos + tb)[|ApiRepos|..];
    SplitAtSlash(a.owner, "/" + ua, b.owner, "/" + ub);
    assert ua == ("/" + ua)[1..] && ub == ("/" + ub)[1..];
    SplitAtSlash(a.repo, PullsMarker + a.number, b.repo, PullsMarker + b.number);
    assert a.number == (PullsMarker + a.number)[|PullsMarker|..];
    assert b.number == (PullsMarker + b.number)[|PullsMarker|..];
  }

  /** Two slash-free segments each followed by a `/` split one text the same way. */
  lemma SplitAtSlash(x: string, restX: string, y: string, restY: string)
    requires IsSegment(x) && IsSegment(y)
    requires |restX| > 0 && restX[0] == '/' && |restY| > 0 && restY[0] == '/'
    requires x + restX == y + restY
    ensures x == y && restX == restY
  {
    SegmentEndOf(x, restX);
    SegmentEndOf(y, restY);
    assert x == (x + restX)[..|x|] && y == (y + restY)[..|y|];
    assert restX == (x + restX)[|x|..] && restY == (y + restY)[|y|..];
  }

  /** The parsed example URL is fetched from the matching API resources. */
  lemma ExampleRequests(c: Config)
    ensures PrRequest(c, "octocat", "Hello-World", "42").url
            == "https://api.github.com/repos/octocat/Hello-World/pulls/42"
    ensures FilesRequest(c, "octocat", "Hello-World", "42").url
            == "https://api.github.com/repos/octocat/Hello-World/pulls/42/files"
  {
  }
}
