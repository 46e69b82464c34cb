/**
 * Everything a check reads besides the document. The AI service and the
 * previous-paper query are inputs: the AI answers are the issue lists it
 * returned before any exception, and the duplicate rate is `None` when the
 * AI call raised. Float formatting of percentages is a parameter.
 */
module CheckInputs {
  import opened Common
  import opened Similarity

  /** An entry of the AI content answer; a missing key is `None`. */
  datatype AiIssue = AiIssue(location: Option<string>, description: Option<string>)

  /** Everything a check reads besides the document. */
  datatype Env = Env(
    cut: Tokenizer,
    tfidf: Cosine,
    previous: seq<TitleItem>,
    aiTitleIssues: seq<string>,
    aiContentIssues: seq<AiIssue>,
    duplicateRate: Option<real>,
    percent: real -> string,
    fixed: real -> string)
}
