# mr_review_tool in Dafny

A model of the core of the GitHub pull-request review tool. A user enters a pull-request URL. The tool:

1. checks the URL against the pattern `https://github.com/<owner>/<repo>/pull/<digits>`;
2. fetches the PR metadata and its changed files from the GitHub REST API;
3. formats both into a Markdown document;
4. sends that document, behind a fixed prompt, to a language-model completion call;
5. shows the PR details, the change totals and the returned review side by side.

Modules, one per part of `GitHubPRReviewer` and `main` in `app.py`:

- `Wrappers`: `Option` and `Result`.
- `Decimal`: Python's `str()` of a natural number, and its inverse.
- `ReviewerConfig`: the two credentials read at construction, and the banners shown when one is missing. The class also keeps `self.client`, built from the API key when it is truthy. The model derives the client's existence from the key (`HasClient`). Nothing in the object changes after construction, so it is modelled as a value passed to each operation.
- `UrlParser`: `parse_github_url`.
  - A character-level matcher, proved sound and complete against `IsMatch`.
  - `IsMatch` is a reference definition of what `re.match` accepts for the pattern.
- `PullRequest`: the fields of the GitHub JSON the core reads.
- `Fetcher`: `fetch_pr_data`.
  - It builds the two requests and selects the outcome from the two responses.
  - The two GETs are function parameters returning a status code and a decoded or undecodable body, or an exception.
- `Formatter`: `format_pr_for_review`.
  - The method keeps the source's `for` loop of `+=`.
  - It is proved equal to `Document`, which renders a sequence of blocks: the opening f-string, then each file's heading, status, counts and optional diff.
  - Properties of the document are stated on those blocks: one heading per file in order, diffs exactly for non-removed files with a patch, and counts that add up to the totals.
- `ReviewGenerator`: `generate_review`.
  - It covers the prompt and the single request.
  - The completion call is a function parameter.
  - The `try`/`except` is modelled, including the `IndexError` for an empty answer.
- `ReviewApp`: the button handler in `main`. It covers the empty field, the URL gate, the fetch error, the totals, and the review of the formatted document.

`parse_github_url` returns `match.groups()`, so the model keeps the PR number as the matched digit string, not an integer. It is used as text in both API URLs. `Decimal.DigitsValue` gives its value.

## Model

| member | source | states |
|---|---|---|
| ReviewerConfig.StartupErrors | app.py:15-18 | no banner exactly when both credentials are truthy; each banner shows exactly when its variable is unset or empty, once; no other banner; token banner before key banner |
| Decimal.NatToString | app.py:43 | `str()` of a status or count is a non-empty digit string with no leading zero except for 0 |
| Decimal.DigitsValueOfNatToString | app.py:43 | reading the decimal text back gives the number (round trip) |
| Decimal.NatToStringInjective | app.py:46 | different numbers print differently, so a message's code identifies the status |
| UrlParser.ParseGithubUrl | app.py:22-27 | a result is a real match: scheme and host literal, owner and repo non-empty without `/`, number all digits, the URL starts with the matched text and no digit follows the number |
| UrlParser.ParseComplete | app.py:23-26 | every match in the sense of `IsMatch` is found: the parser returns exactly those groups |
| UrlParser.AcceptsEveryPullUrl | app.py:23-26 | any owner, repo and digits followed by any text parse; the number is the greedy run of digits |
| UrlParser.RejectsWithoutPullMarker | app.py:23-27 | without `/pull/` after the repo segment the result is no match |
| UrlParser.RejectsWithoutNumber | app.py:23-27 | `/pull/` not followed by a digit is no match |
| UrlParser.ParseAfterPrefix | app.py:23-24 | a URL with the literal prefix fails exactly when the owner stage fails |
| UrlParser.MatchOwnerAfter | app.py:23 | after a valid owner segment, the match fails exactly when the repo stage fails |
| UrlParser.MatchRepoAfter | app.py:23 | after a valid repo segment, the match fails exactly when `/pull/` or the digits are missing |
| UrlParser.ExampleOctocat | app.py:22-26 | the example URL `https://github.com/octocat/Hello-World/pull/42` yields ("octocat", "Hello-World", "42"); the number's value is 42 |
| UrlParser.ExampleTrailingText | app.py:24 | `re.match` anchors only at the start: a trailing `/files` is ignored |
| UrlParser.ExampleWrongScheme | app.py:23-27 | an `http://` URL gives no match |
| UrlParser.ExampleIssueUrl | app.py:23-27 | an issue URL gives no match |
| UrlParser.ExampleMissingNumber | app.py:23-27 | a URL ending in `/pull/` gives no match |
| Fetcher.FilesApiUrl | app.py:35-36 | the files f-string of line 36 agrees with the PR f-string of line 35: it is the PR URL followed by `/files` |
| Fetcher.AuthorizationHeader | app.py:30-33 | `ApiHeaders` and `TokenText`: two headers, `Authorization: token <GITHUB_TOKEN>` (`token None` when unset) and the v3 `Accept` header |
| Fetcher.RequestsShareHeaders | app.py:30-40 | `PrRequest` and `FilesRequest`: both GETs carry the same headers; the files URL extends the PR URL; the authorization header is `token <GITHUB_TOKEN>` |
| Fetcher.PrApiUrlInjective | app.py:35 | `PrApiUrl`: different (owner, repo, number) triples address different API URLs |
| Fetcher.ExampleRequests | app.py:35-36 | the two API URLs for octocat/Hello-World #42 |
| Fetcher.FetchPrData | app.py:29-57 | in terms of the answers to the two built requests: success exactly when both are 200 and both bodies decode; the data is then the two bodies; every error is non-empty |
| Fetcher.SelectOutcome | app.py:38-57 | success exactly when both statuses are 200 and both bodies decode; the data is then the two bodies; every error message is non-empty |
| Fetcher.MetadataStatusFirst | app.py:42-43 | `PrStatusError`: a PR status other than 200 gives `Error fetching PR: <code>` whatever the files answer |
| Fetcher.FilesStatusSecond | app.py:45-46 | `FilesStatusError`: with PR status 200, a files status other than 200 gives `Error fetching PR files: <code>` |
| Fetcher.FilesExceptionBeforeStatus | app.py:39-57 | `ExceptionError`: an exception in the files GET wins over a bad PR status, because both GETs run first |
| Fetcher.CatchAllErrors | app.py:38-57 | `ExceptionError`: an exception in the PR GET, or a body that fails to decode once both statuses are 200, gives `Error: <exception text>` |
| Fetcher.Example404 | app.py:42-43 | a 404 for the PR gives exactly `Error fetching PR: 404` |
| Fetcher.ErrorMessagesIdentifyCause | app.py:43-57 | the three kinds of message never coincide; equal status messages have equal codes |
| Fetcher.FetchDependsOnlyOnRequests | app.py:29-57 | the outcome depends on the network only through the answers to the two built requests |
| Formatter.FormatPrForReview | app.py:59-85 | the loop of `+=` builds exactly `Document(data)`, the rendered layout of blocks |
| Formatter.FormatStep | app.py:77-83 | `RenderBlock`: one iteration appends the heading, status and counts lines, then the diff exactly when the file has one |
| Formatter.RenderAppend | app.py:77-83 | rendering distributes over concatenation of block sequences |
| Formatter.RenderedAt | app.py:63-83 | each block's text stands whole in the document, right after the text of the blocks before it |
| Formatter.DocumentSplit | app.py:63-83 | `Document`: the document is the opening f-string followed by the file sections |
| Formatter.DescriptionSlot | app.py:72 | `DescriptionText`: the description is the body when truthy and the placeholder otherwise; the slot shows the placeholder only for a falsy body or a body equal to it |
| Formatter.FalsyBodiesAgree | app.py:72 | an absent body and an empty body give the same document |
| Formatter.DocumentDescription | app.py:63-72 | `HeaderText`: the description text stands in the document right after the header lines |
| Formatter.OneHeadingPerFile | app.py:77-78 | the headings are exactly the file names, one per file, in input order |
| Formatter.HeadingsOfSections | app.py:77-78 | the file sections carry one heading per file, in order |
| Formatter.SectionAt | app.py:77-83 | file i's blocks stand together in the layout, right after the blocks of the files before it |
| Formatter.DiffBlocksMatchFiles | app.py:82-83 | the diff blocks are the patches of the files not removed and with a patch, in order; their number is how many such files there are |
| Formatter.DiffsOfSections | app.py:82-83 | the diffs of the file sections are the reference list of patches of the diffed files |
| Formatter.DiffedPatchesCount | app.py:82 | the reference list of patches has one entry per diffed file |
| Formatter.RemovedFileHasNoDiff | app.py:82 | `HasDiff`: a removed file gets no diff block even when it carries a patch |
| Formatter.TotalsBoundEachFile | app.py:164-165 | each file's additions and deletions are at most the totals |
| Formatter.TotalsAppend | app.py:164-165 | `TotalAdditions` and `TotalDeletions`: the totals of concatenated file lists add up |
| Formatter.TotalsMatchDocument | app.py:164-165 | the counts lines of the document add up to the totals the page shows |
| Formatter.ReportedOfSections | app.py:80 | the counts lines of the file sections add up to the totals |
| Formatter.ExampleTwoFiles | app.py:59-85 | an added file with a patch and a removed file: two headings, one diff, placeholder description, totals +10 -5 |
| ReviewGenerator.Prompt | app.py:91-101 | the prompt starts with the fixed instructions, followed by the PR text unchanged |
| ReviewGenerator.PromptRoundTrip | app.py:101 | the PR text can be read back from the prompt, so prompts for different texts differ |
| ReviewGenerator.ReviewRequest | app.py:104-110 | one user message holding the prompt, model `claude-3-sonnet-20240229`, 4000 max tokens |
| ReviewGenerator.GenerateReview | app.py:87-113 | without a client, the fixed message; otherwise the handling of the one completion for this PR text |
| ReviewGenerator.ReviewProvenance | app.py:88-113 | `ReviewText` inside `GenerateReview`: the review is the missing-key message, the answer's first text, or the error prefix followed by the exception or the index error |
| ReviewGenerator.NoClientNoCall | app.py:88-89 | without a client no backend is consulted |
| ReviewGenerator.OnlyTheRequestMatters | app.py:103-111 | the review depends on the backend only through its answer to the one request |
| ReviewGenerator.ErrorsCarryCause | app.py:112-113 | an error review starts with the prefix and carries the exception text unchanged |
| ReviewGenerator.ExampleFirstBlock | app.py:111 | only the first content block is returned |
| ReviewGenerator.ExampleEmptyAnswer | app.py:111-113 | an empty content list gives `Error generating review: list index out of range` |
| ReviewGenerator.ExampleEmptyKey | app.py:88-89 | `HasClient`: an empty API key gives no client |
| ReviewApp.UrlGroups | app.py:25-27 | the returned triple is all three groups, each non-empty, exactly when the pattern matches, and three Nones otherwise |
| ReviewApp.GateIsMatch | app.py:138-142 | `GroupsPresent`: the caller's truthiness check passes exactly when the pattern matched, and then holds the three groups |
| ReviewApp.ReviewPrOutcomes | app.py:133-177 | `ReviewPr`: empty field; a URL that does not match; the fetch error verbatim; otherwise the fetched data, its totals, and the review of the formatted document |
| ReviewApp.InvalidUrlFetchesNothing | app.py:134-142 | an empty or non-matching URL ends before any request is made, whatever the backends would answer |
| ReviewApp.BannerUnlessReviewed | app.py:134-148 | `Banner`: an error banner shows exactly when no review is reached, and it is never empty |
| ReviewApp.DetailsIndependentOfReview | app.py:153-177 | the details and totals do not depend on the completion call |
| ReviewApp.ExampleNotFound | app.py:138-149 | the example URL `https://github.com/octocat/Hello-World/pull/42` with a 404 for the PR ends in `Error fetching PR: 404` |

## Left out

- The Streamlit page is not modelled: page setup, titles, columns, spinners, the success banner and the "View Changed Files" expander. Only the outcome of a button press is.
- Reading `.env` and the environment: the two credentials are a `Config` value.
- Constructing the `Anthropic` client: a client exists exactly when the key is truthy.
- HTTP and JSON decoding are not modelled. Each GET is a parameter returning a status code and a decoded or undecodable body, or an exception. A status code is a natural number.
- Pagination of the files endpoint is not modelled, and neither is a response body whose shape differs from the fields read.
- Missing JSON fields are not modelled. The core would raise `KeyError` inside `format_pr_for_review` or `main`, which are not inside a `try`. Record fields are always present; only the PR body and the patch are optional.
- Content blocks of the completion that are not text have no kind of their own: the answer is a list of texts. Reading `.text` of such a block raises at app.py:111, inside the `try`. The `except` at app.py:112-113 catches it and returns it behind `Error generating review: `. The model expresses that case as `Raised(e)` with the exception's text.
- The texts of Python exceptions other than the `IndexError` are not modelled: each is the string given by the parameter.
- UrlParser.ParseGithubUrl: `\d` is read as the ASCII digits `0`-`9`. Python's `re` also admits other Unicode decimal digits in a `str` pattern.
- The Markdown the page renders from the review and the details is not modelled.
