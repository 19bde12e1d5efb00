/** `generate_review`: the prompt sent to the language model and the text the
    method hands back. The completion call is a parameter: whatever the
    service answers for a request, or the exception the client raises. */
module ReviewGenerator {
  import opened Wrappers
  import opened ReviewerConfig

  const NotConfigured: string := "Claude API key not configured"
  const ModelName: string := "claude-3-sonnet-20240229"
  const MaxTokens: nat := 4000
  const ErrorPrefix: string := "Error generating review: "
  /** `str(e)` of the IndexError that `message.content[0]` raises on an empty list. */
  const IndexErrorText: string := "list index out of range"

  /** The fixed instructions in front of the PR text. */
  const Preamble: string :=
    "Please review this GitHub Pull Request and provide:\n\n"
    + "1. **Summary**: A brief overview of what this PR does\n"
    + "2. **Code Quality**: Assessment of code quality, patterns, and best practices\n"
    + "3. **Potential Issues**: Any bugs, security concerns, or problems you identify\n"
    + "4. **Suggestions**: Recommendations for improvements\n"
    + "5. **Overall Assessment**: Your overall recommendation (Approve, Request Changes, Comment)\n\n"
    + "Here's the PR data:\n\n"

  datatype Message = Message(role: string, content: string)
  datatype CompletionRequest = CompletionRequest(model: string, maxTokens: nat, messages: seq<Message>)

  /** What `client.messages.create` gives back: the text of each content
      block of the answer, or the exception raised on the way. */
  datatype Completion = Answered(texts: seq<string>) | Raised(error: string)

  /** The prompt: the preamble, then the PR text, unchanged. */
  function Prompt(prText: string): (p: string)
    ensures |p| == |Preamble| + |prText|
    ensures Preamble <= p && p[|Preamble|..] == prText
  {
    Preamble + prText
  }

  /** The PR text a prompt carries. */
  function PromptPayload(p: string): string
    requires Preamble <= p
  {
    p[|Preamble|..]
  }

  /** The PR text can be read back from the prompt, so different PR texts
      give different prompts. */
  lemma PromptRoundTrip(t: string, u: string)
    ensures PromptPayload(Prompt(t)) == t
    ensures Prompt(t) == Prompt(u) ==> t == u
  {
  }

  /** The single request the method issues for a PR text. */
  function ReviewRequest(prText: string): (req: CompletionRequest)
    ensures req.model == ModelName && req.maxTokens == MaxTokens
    ensures |req.messages| == 1 && req.messages[0].role == "user"
    ensures req.messages[0].content == Prompt(prText)
  {
    CompletionRequest(ModelName, MaxTokens, [Message("user", Prompt(prText))])
  }

  /** The `try`/`except` around the call: the first content block's text,
      or the exception's text behind the error prefix. */
  function ReviewText(c: Completion): string {
    match c
    case Raised(e) => ErrorPrefix + e
    case Answered(texts) => if texts == [] then ErrorPrefix + IndexErrorText else texts[0]
  }

  /** `generate_review(pr_text)` for a reviewer with configuration `cfg`. */
  function GenerateReview(cfg: Config, prText: string, complete: CompletionRequest -> Completion): (review: string)
    ensures !HasClient(cfg) ==> review == NotConfigured
    ensures HasClient(cfg) ==> review == ReviewText(complete(ReviewRequest(prText)))
  {
    if !HasClient(cfg) then NotConfigured else ReviewText(complete(ReviewRequest(prText)))
  }

  /** The review is the answer's first text block, or a message naming the
      failure: the missing key, or the error prefix followed by the cause. */
  lemma ReviewProvenance(cfg: Config, prText: string, complete: CompletionRequest -> Completion)
    ensures var review := GenerateReview(cfg, prText, complete);
            var c := complete(ReviewRequest(prText));
            || (!HasClient(cfg) && review == NotConfigured)
            || (HasClient(cfg) && c.Answered? && c.texts != [] && review == c.texts[0])
            || (HasClient(cfg) && c.Raised? && review == ErrorPrefix + c.error)
            || (HasClient(cfg) && c.Answered? && c.texts == [] && review == ErrorPrefix + IndexErrorText)
  {
  }

  /** Without a client the service is never consulted: any two backends give
      the same review. */
  lemma NoClientNoCall(cfg: Config, prText: string, c1: CompletionRequest -> Completion,
                       c2: CompletionRequest -> Completion)
    requires !HasClient(cfg)
    ensures GenerateReview(cfg, prText, c1) == GenerateReview(cfg, prText, c2) == NotConfigured
  {
  }

  /** With a client, the review depends on the backend only through its
      answer to the one request for this PR text. */
  lemma OnlyTheRequestMatters(cfg: Config, prText: string, c1: CompletionRequest -> Completion,
                              c2: CompletionRequest -> Completion)
    requires c1(ReviewRequest(prText)) == c2(ReviewRequest(prText))
    ensures GenerateReview(cfg, prText, c1) == GenerateReview(cfg, prText, c2)
  {
  }

  /** An error reported this way always starts with the error prefix, and an
      exception's own text follows it unchanged. */
  lemma {:induction false} ErrorsCarryCause(e: string)
    ensures ErrorPrefix <= ReviewText(Raised(e))
    ensures ReviewText(Raised(e))[|ErrorPrefix|..] == e
    ensures ErrorPrefix <= ReviewText(Answered([]))
  {
    assert ReviewText(Raised(e)) == ErrorPrefix + e;
  }

  lemma ExampleFirstBlock()
    ensures ReviewText(Answered(["Looks good", "extra"])) == "Looks good"
  {
  }

  lemma ExampleEmptyAnswer()
    ensures ReviewText(Answered([])) == "Error generating review: list index out of range"
  {
    assert ErrorPrefix + IndexErrorText == "Error generating review: list index out of range";
  }

  /** An empty API key counts as missing. */
  lemma ExampleEmptyKey(complete: CompletionRequest -> Completion)
    ensures GenerateReview(Config(Some("ghp"), Some("")), "PR", complete) == "Claude API key not configured"
  {
  }
}
