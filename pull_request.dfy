/** The records the application reads out of the GitHub REST responses:
    the pull request's metadata and its list of changed files. */
module PullRequest {
  import opened Wrappers

  /** The fields of a pull request's JSON that the application reads;
      `body` is JSON null (None) or a string. */
  datatype Metadata = Metadata(
    title: string,
    authorLogin: string,
    state: string,
    createdAt: string,
    updatedAt: string,
    body: Option<string>)

  /** One entry of the files list; `patch` is absent for binary, oversized
      or removed files. */
  datatype FileChange = FileChange(
    filename: string,
    status: string,
    additions: nat,
    deletions: nat,
    patch: Option<string>)

  /** The `{'pr': ..., 'files': ...}` dictionary `fetch_pr_data` returns;
      the files keep the order the API returned them in. */
  datatype PrData = PrData(pr: Metadata, files: seq<FileChange>)
}
