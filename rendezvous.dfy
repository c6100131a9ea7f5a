/** The bridge end to end: what the host delivers to a request is sent back
    by the broker on the request's own connection as a feedbackResult frame,
    settles the adapter's request, and is framed for the agent. */
module Rendezvous {
  import opened FeedbackTypes
  import opened PayloadCodec
  import opened ToolAdapter
  import opened FeedbackView

  /** A host answer reaches the adapter unchanged, provided nothing settled
      the adapter's request first; whatever follows is ignored. */
  lemma HostAnswerSettlesAdapter(result: FeedbackResult, before: seq<SocketEvent>, later: seq<SocketEvent>)
    requires forall k | 0 <= k < |before| :: Settles(before[k]).None?
    ensures FirstWins(before + [Message(ResultFrame(result))] + later) == Some(result)
  {
    var upTo := before + [Message(ResultFrame(result))];
    ResultFrameRoundTrip(result);
    EarliestSettlingEventWins(upTo, |before|);
    LaterEventsAreIgnored(upTo, later);
  }

  /** A human's `end` reaches the agent as the closing message, whatever the
      panel held; an empty `submit` reaches it as an approval. */
  lemma PanelActionReachesAgent(message: PanelMessage, before: seq<SocketEvent>, later: seq<SocketEvent>)
    requires !message.Other?
    requires forall k | 0 <= k < |before| :: Settles(before[k]).None?
    ensures var outcome := FirstWins(before + [Message(ResultFrame(PanelResult(message)))] + later);
      && outcome == Some(PanelResult(message))
      && (message.End? ==> BuildFeedbackResponse(outcome.value) == [TextItem(EndText)])
      && (message.Submit? && message.text.GetOr("") == "" && message.images.GetOr([]) == []
          ==> BuildFeedbackResponse(outcome.value) == [TextItem(SatisfiedText)])
  {
    HostAnswerSettlesAdapter(PanelResult(message), before, later);
  }

  /** The host's deadline answers fail-open, and the agent reads an approval. */
  lemma HostDeadlineReachesAgentAsApproval(before: seq<SocketEvent>, later: seq<SocketEvent>)
    requires forall k | 0 <= k < |before| :: Settles(before[k]).None?
    ensures var outcome := FirstWins(before + [Message(ResultFrame(FailOpen))] + later);
      outcome == Some(FailOpen) && BuildFeedbackResponse(outcome.value) == [TextItem(SatisfiedText)]
  {
    HostAnswerSettlesAdapter(FailOpen, before, later);
  }

  /** A correction typed with one pasted PNG reaches the agent as the echoed
      text followed by that image. */
  lemma ScreenshotCorrectionEndToEnd()
    ensures var message := Submit(Some("looks wrong"), Some(["data:image/png;base64,AAAA"]));
      var outcome := FirstWins([Opened, Message(ResultFrame(PanelResult(message)))]);
      && outcome.Some?
      && BuildFeedbackResponse(outcome.value)
         == [TextItem(AdjustPrefix + "looks wrong" + "\n\n🖼️ 用户附加了 1 张图片："),
             ImageItem("AAAA", "image/png")]
  {
    var message := Submit(Some("looks wrong"), Some(["data:image/png;base64,AAAA"]));
    HostAnswerSettlesAdapter(PanelResult(message), [Opened], []);
    assert [Opened] + [Message(ResultFrame(PanelResult(message)))] + [] == [Opened, Message(ResultFrame(PanelResult(message)))];
    CorrectionWithScreenshot();
  }
}
