/** The tool adapter that runs in the short-lived process: it validates the
    tool call, asks the host for feedback over one connection, lets the first
    of {feedbackResult message, socket error, deadline} decide the answer, and
    frames that answer for the agent. */
module ToolAdapter {
  import opened FeedbackTypes
  import opened PayloadCodec

  // ---------------------------------------------------------------------
  // String.prototype.trim

  /** The characters JavaScript's `trim` removes: WhiteSpace (tab, vertical
      tab, form feed, BOM and every space separator) and LineTerminator. */
  predicate IsTrimmable(c: char) {
    || c == '\t' || c == '\U{000B}' || c == '\U{000C}' || c == '\U{FEFF}'
    || c == ' ' || c == '\U{00A0}' || c == '\U{1680}' || ('\U{2000}' <= c <= '\U{200A}')
    || c == '\U{202F}' || c == '\U{205F}' || c == '\U{3000}'
    || IsLineTerminator(c)
  }

  /** `s` without its leading trimmable characters. */
  function TrimStart(s: string): (r: string)
    ensures |r| <= |s| && r == s[|s| - |r|..]
    ensures forall i | 0 <= i < |s| - |r| :: IsTrimmable(s[i])
    ensures r == [] || !IsTrimmable(r[0])
  {
    if s != [] && IsTrimmable(s[0]) then TrimStart(s[1..]) else s
  }

  /** `s` without its trailing trimmable characters. */
  function TrimEnd(s: string): (r: string)
    ensures |r| <= |s| && r == s[..|r|]
    ensures forall i | |r| <= i < |s| :: IsTrimmable(s[i])
    ensures r == [] || !IsTrimmable(r[|r| - 1])
  {
    if s != [] && IsTrimmable(s[|s| - 1]) then TrimEnd(s[..|s| - 1]) else s
  }

  /** `s.trim()`: the middle of `s`, between trimmable runs at both ends. */
  function Trim(s: string): (r: string)
    ensures |r| <= |s|
    ensures r != [] ==> !IsTrimmable(r[0]) && !IsTrimmable(r[|r| - 1])
  {
    TrimEnd(TrimStart(s))
  }

  /** What `trim` keeps is a run of `s` with only trimmable characters
      cut away before and after it. */
  lemma TrimKeepsMiddle(s: string)
    ensures var lead, r := |s| - |TrimStart(s)|, Trim(s);
      && lead + |r| <= |s|
      && s[lead..lead + |r|] == r
      && (forall i | 0 <= i < lead :: IsTrimmable(s[i]))
      && (forall i | lead + |r| <= i < |s| :: IsTrimmable(s[i]))
  {
    var t := TrimStart(s);
    var lead, r := |s| - |t|, TrimEnd(t);
    assert t == s[lead..];
    assert r == t[..|r|];
    forall i | lead + |r| <= i < |s|
      ensures IsTrimmable(s[i])
    {
      assert s[i] == t[i - lead];
    }
  }

  /** A string trims to nothing exactly when every character is trimmable. */
  lemma TrimIsBlankIff(s: string)
    ensures Trim(s) == [] <==> forall i | 0 <= i < |s| :: IsTrimmable(s[i])
  {
  }

  // ---------------------------------------------------------------------
  // The CallTool handler

  const ToolName: string := "log_execution_metrics"
  const SummaryKey: string := "operation_summary"
  const MissingSummaryText: string := "Error: operation_summary parameter is required"
  const UnknownToolPrefix: string := "未知工具: "

  /** A value of the tool call's argument record, as JSON delivers it. */
  datatype ArgValue = Str(s: string) | Null | NonString

  /** What the handler does with a call: answer at once, or ask the host for
      feedback on a prompt and answer with the framed result. `Raise` is a
      TypeError escaping the handler. */
  datatype CallOutcome = Respond(content: seq<ContentItem>) | AwaitFeedback(prompt: string) | Raise

  /** The handler as written: `params.operation_summary?.trim()` dereferences
      the argument record even when the call carries none, and calls `trim`
      on whatever value the key holds. */
  function HandleCallToolAsWritten(name: string, args: Option<map<string, ArgValue>>): (r: CallOutcome)
    ensures name != ToolName ==> r == Respond([TextItem(UnknownToolPrefix + name)])
    ensures name == ToolName && args.None? ==> r == Raise
  {
    if name == ToolName then
      (match args
       case None => Raise
       case Some(params) =>
         if SummaryKey !in params || params[SummaryKey].Null? then Respond(FormatContent(MissingSummaryText, []))
         else if params[SummaryKey].NonString? then Raise
         else
           var desc := Trim(params[SummaryKey].s);
           if desc == [] then Respond(FormatContent(MissingSummaryText, [])) else AwaitFeedback(desc))
    else Respond(FormatContent(UnknownToolPrefix + name, []))
  }

  /** The summary a call carries, when it carries one as a string. */
  function SummaryOf(args: Option<map<string, ArgValue>>): Option<string> {
    if args.Some? && SummaryKey in args.value && args.value[SummaryKey].Str?
    then Some(args.value[SummaryKey].s)
    else None
  }

  /** The handler with the missing-argument check covering every call that
      carries no string summary: it never raises, asks for feedback exactly
      when the summary is non-blank (trimmed), and otherwise answers with the
      error text or, for another tool, the unknown-tool text. */
  function HandleCallTool(name: string, args: Option<map<string, ArgValue>>): (r: CallOutcome)
    ensures !r.Raise?
    ensures name != ToolName ==> r == Respond([TextItem(UnknownToolPrefix + name)])
    ensures name == ToolName ==>
      r == (if SummaryOf(args).Some? && Trim(SummaryOf(args).value) != []
            then AwaitFeedback(Trim(SummaryOf(args).value))
            else Respond([TextItem(MissingSummaryText)]))
    ensures r.AwaitFeedback? ==> r.prompt != [] && !IsTrimmable(r.prompt[0]) && !IsTrimmable(r.prompt[|r.prompt| - 1])
  {
    if name == ToolName then
      (match SummaryOf(args)
       case None => Respond(FormatContent(MissingSummaryText, []))
       case Some(summary) =>
         var desc := Trim(summary);
         if desc == [] then Respond(FormatContent(MissingSummaryText, [])) else AwaitFeedback(desc))
    else Respond(FormatContent(UnknownToolPrefix + name, []))
  }

  /** The two handlers agree on every call whose summary is a string or is
      absent or null; they differ only where the written one raises. */
  lemma HandleCallToolAgreesWhereNothingRaises(name: string, args: Option<map<string, ArgValue>>)
    ensures HandleCallToolAsWritten(name, args) != Raise
        ==> HandleCallToolAsWritten(name, args) == HandleCallTool(name, args)
    ensures HandleCallToolAsWritten(name, args) == Raise
        <==> name == ToolName && (args.None? || (SummaryKey in args.value && args.value[SummaryKey].NonString?))
  {
  }

  /** A whitespace-only summary is answered with the error text and no
      feedback is requested. */
  lemma BlankSummaryIsRejected(summary: string)
    requires forall i | 0 <= i < |summary| :: IsTrimmable(summary[i])
    ensures HandleCallTool(ToolName, Some(map[SummaryKey := Str(summary)])) == Respond([TextItem(MissingSummaryText)])
  {
    TrimIsBlankIff(summary);
  }

  // ---------------------------------------------------------------------
  // The first-wins exchange with the host

  const RequestFeedbackType: string := "requestFeedback"
  const FeedbackResultType: string := "feedbackResult"

  /** An inbound frame: one that did not decode to an object (bad JSON, or
      `null`, whose `.type` throws inside the same try), or a decoded message
      with its `type` and its optional `text` and `images` fields. */
  datatype Frame = Unparseable | Decoded(kind: string, text: Option<string>, images: Option<seq<string>>)

  /** The outbound frame the adapter sends once the socket opens. */
  datatype RequestFrame = RequestFrame(kind: string, prompt: string)

  /** What can happen on the connection, timer included. */
  datatype SocketEvent = Opened | Message(frame: Frame) | SocketError | Timeout

  /** The frame the broker sends back for a result. */
  function ResultFrame(result: FeedbackResult): Frame {
    Decoded(FeedbackResultType, Some(result.text), Some(result.images))
  }

  /** The result an event hands to `done`, if it calls `done` at all: a
      feedbackResult message with missing fields defaulted, or the fail-open
      result on an error or the deadline. */
  function Settles(event: SocketEvent): (r: Option<FeedbackResult>)
    ensures event.SocketError? || event.Timeout? ==> r == Some(FailOpen)
    ensures event.Opened? ==> r.None?
    ensures event.Message? ==> (r.Some? <==> event.frame.Decoded? && event.frame.kind == FeedbackResultType)
    ensures event.Message? && r.Some? ==>
      r.value == FeedbackResult(event.frame.text.GetOr(""), event.frame.images.GetOr([]))
  {
    match event
    case Opened => None
    case Message(frame) =>
      if frame.Decoded? && frame.kind == FeedbackResultType
      then Some(FeedbackResult(frame.text.GetOr(""), frame.images.GetOr([])))
      else None
    case SocketError => Some(FailOpen)
    case Timeout => Some(FailOpen)
  }

  /** The broker's frame carries a result to the adapter unchanged. */
  lemma ResultFrameRoundTrip(result: FeedbackResult)
    ensures Settles(Message(ResultFrame(result))) == Some(result)
  {
  }

  /** What the request's promise has settled to after `events`: the value of
      the first event that calls `done`; later events change nothing. */
  function FirstWins(events: seq<SocketEvent>): Option<FeedbackResult> {
    if events == [] then None
    else
      var earlier := FirstWins(events[..|events| - 1]);
      if earlier.Some? then earlier else Settles(events[|events| - 1])
  }

  /** Once settled, no later event changes the outcome. */
  lemma {:induction false} LaterEventsAreIgnored(events: seq<SocketEvent>, later: seq<SocketEvent>)
    requires FirstWins(events).Some?
    ensures FirstWins(events + later) == FirstWins(events)
  {
    if later != [] {
      var all := events + later;
      assert all[..|all| - 1] == events + later[..|later| - 1];
      LaterEventsAreIgnored(events, later[..|later| - 1]);
      assert FirstWins(all[..|all| - 1]) == FirstWins(events);
    } else {
      assert events + later == events;
    }
  }

  /** Nothing settles the request unless some event calls `done`. */
  lemma {:induction false} UnsettledIffNoSettlingEvent(events: seq<SocketEvent>)
    ensures FirstWins(events).None? <==> forall k | 0 <= k < |events| :: Settles(events[k]).None?
  {
    if events != [] {
      var prefix := events[..|events| - 1];
      UnsettledIffNoSettlingEvent(prefix);
      assert forall k | 0 <= k < |prefix| :: prefix[k] == events[k];
    }
  }

  /** The outcome is the value of the earliest event that calls `done`. */
  lemma {:induction false} EarliestSettlingEventWins(events: seq<SocketEvent>, k: nat)
    requires k < |events| && Settles(events[k]).Some?
    requires forall j | 0 <= j < k :: Settles(events[j]).None?
    ensures FirstWins(events) == Settles(events[k])
  {
    var prefix := events[..|events| - 1];
    if k < |events| - 1 {
      assert forall j | 0 <= j < |prefix| :: prefix[j] == events[j];
      EarliestSettlingEventWins(prefix, k);
    } else {
      assert forall j | 0 <= j < |prefix| :: prefix[j] == events[j];
      UnsettledIffNoSettlingEvent(prefix);
    }
  }

  /** The deadline settles every request that nothing settled before it, with
      the fail-open result; a request already settled keeps its outcome. */
  lemma DeadlineAlwaysSettles(events: seq<SocketEvent>)
    ensures FirstWins(events + [Timeout]) == Some(FirstWins(events).GetOr(FailOpen))
  {
  }

  /** The state of one `requestFeedbackFromPlugin` call: the `resolved` flag
      that `done` guards with, the socket, the promise's settled value, and
      (ghost) every value passed to `resolve` and every event seen. */
  class PluginRequest {
    const prompt: string
    var resolved: bool
    var socketClosed: bool
    var sent: seq<RequestFrame>
    var outcome: Option<FeedbackResult>
    ghost var resolveCalls: seq<FeedbackResult>
    ghost var events: seq<SocketEvent>

    /** `resolve` and `close` have run at most once, and together. */
    ghost predicate GuardHolds()
      reads this
    {
      && |resolveCalls| <= 1
      && (resolved <==> |resolveCalls| == 1)
      && socketClosed == resolved
      && outcome == (if resolved then Some(resolveCalls[0]) else None)
    }

    ghost predicate Valid()
      reads this
    {
      GuardHolds() && outcome == FirstWins(events)
    }

    constructor (prompt: string)
      ensures Valid() && this.prompt == prompt
      ensures !resolved && !socketClosed && sent == [] && events == []
    {
      this.prompt := prompt;
      resolved := false;
      socketClosed := false;
      sent := [];
      outcome := None;
      resolveCalls := [];
      events := [];
    }

    /** `done`: the first call resolves and closes the socket; every later
        call returns at once. */
    method Done(result: FeedbackResult)
      requires GuardHolds()
      modifies this
      ensures GuardHolds() && resolved
      ensures sent == old(sent) && events == old(events)
      ensures old(resolved) ==> outcome == old(outcome) && resolveCalls == old(resolveCalls)
      ensures !old(resolved) ==> outcome == Some(result) && resolveCalls == [result]
    {
      if resolved {
        return;
      }
      resolved := true;
      resolveCalls := resolveCalls + [result];
      outcome := Some(result);
      socketClosed := true;
    }

    /** One event on the connection or the timer. */
    method OnEvent(event: SocketEvent)
      requires Valid()
      modifies this
      ensures Valid() && events == old(events) + [event]
      ensures old(resolved) ==> outcome == old(outcome) && resolveCalls == old(resolveCalls)
      ensures !old(resolved) && Settles(event).Some? ==> resolveCalls == [Settles(event).value]
      ensures Settles(event).None? ==> outcome == old(outcome) && resolveCalls == old(resolveCalls)
      ensures sent == old(sent) + (if event.Opened? then [RequestFrame(RequestFeedbackType, prompt)] else [])
    {
      match event {
        case Opened =>
          sent := sent + [RequestFrame(RequestFeedbackType, prompt)];
        case Message(frame) =>
          if frame.Decoded? && frame.kind == FeedbackResultType {
            Done(FeedbackResult(frame.text.GetOr(""), frame.images.GetOr([])));
          }
        case SocketError =>
          Done(FailOpen);
        case Timeout =>
          Done(FailOpen);
      }
      events := events + [event];
      assert events[..|events| - 1] == old(events);
    }
  }

  /** `requestFeedbackFromPlugin`: replays what happens on the connection and
      then the deadline, and returns the value the promise settles with.
      It always returns: the deadline settles every request. */
  method RequestFeedbackFromPlugin(prompt: string, events: seq<SocketEvent>) returns (result: FeedbackResult)
    ensures FirstWins(events + [Timeout]) == Some(result)
  {
    var request := new PluginRequest(prompt);
    for i := 0 to |events|
      invariant request.Valid() && request.events == events[..i]
    {
      assert events[..i + 1] == events[..i] + [events[i]];
      request.OnEvent(events[i]);
    }
    assert events[..|events|] == events;
    request.OnEvent(Timeout);
    result := request.outcome.value;
  }

  /** The content the tool call returns: the immediate answer, or the framed
      outcome of the feedback request. */
  method CallTool(name: string, args: Option<map<string, ArgValue>>, events: seq<SocketEvent>)
    returns (content: seq<ContentItem>)
    ensures HandleCallTool(name, args).Respond? ==> content == HandleCallTool(name, args).content
    ensures HandleCallTool(name, args).AwaitFeedback? ==>
      content == BuildFeedbackResponse(FirstWins(events + [Timeout]).value)
  {
    match HandleCallTool(name, args)
    case Respond(immediate) =>
      content := immediate;
    case AwaitFeedback(prompt) =>
      var feedback := RequestFeedbackFromPlugin(prompt, events);
      content := BuildFeedbackResponse(feedback);
  }

  /** An unreachable broker makes the call complete as an approval. */
  lemma UnreachableBrokerApproves(later: seq<SocketEvent>)
    ensures FirstWins([SocketError] + later) == Some(FailOpen)
    ensures BuildFeedbackResponse(FailOpen) == [TextItem(SatisfiedText)]
  {
    LaterEventsAreIgnored([SocketError], later);
  }
}
