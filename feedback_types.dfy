/** Values shared by both sides of the bridge: the answer a review cycle
    produces and the sentinel texts it can carry. */
module FeedbackTypes {

  datatype Option<+T> = None | Some(value: T) {
    /** The wrapped value, or `default` where the source writes `x || default`. */
    function GetOr(default: T): T {
      match this
      case Some(v) => v
      case None => default
    }
  }

  /** What one review cycle answers: free text and image data URLs, in the
      order the human attached them. */
  datatype FeedbackResult = FeedbackResult(text: string, images: seq<string>)

  /** The text that marks "the human ended the conversation". */
  const ConversationEnd: string := "CONVERSATION_END"

  /** The text of an approval: nothing to adjust. */
  const ApprovedText: string := ""

  /** The result both sides synthesise when no human answer can be had
      (deadline elapsed, broker unreachable): an approval. */
  const FailOpen: FeedbackResult := FeedbackResult(ApprovedText, [])
}
