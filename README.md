# Hold On: a verified model of the feedback bridge

Hold On lets an AI agent pause before it finishes a task and ask a human to
approve or adjust its work. Two processes take part:

- The tool adapter (`src/mcp-stdio-wrapper.ts`) is spawned for each tool call. It exposes the
  `log_execution_metrics` tool to the agent. It opens a WebSocket to the host.
  It waits for the first of three events: a `feedbackResult` message, a socket
  error, or a 30-minute deadline. It then frames the answer as tool content.
- The host (`src/feedbackView.ts`) is the VS Code extension. It keeps a single
  pending-request slot. A `submit` or `end` from the panel resolves that slot.
  So does the request's own deadline timer.

This project models both sides in Dafny and proves what each promises:

- the data-URL parser matches its regular expression exactly, with a round trip;
- the tool-result content is ordered: one text item first, then one image item
  per parseable entry, in input order;
- a result is classified three ways (terminated, approved, adjustment), and the
  verdict can be read off the response;
- on the adapter, the first event wins and every later event is a no-op;
- on the host, each request is answered at most once, and a superseded request
  is never answered by the host;
- a human answer, the deadline, or an unreachable broker always ends as a valid
  answer, fail-open where no human answered.

Files:

- `feedback_types.dfy` (module `FeedbackTypes`): `FeedbackResult`, the sentinel
  texts and the fail-open result.
- `payload_codec.dfy` (module `PayloadCodec`): `parseBase64Image`,
  `formatResponse` (a method with a loop, specified by `FormatContent`) and
  `buildFeedbackResponse`.
- `tool_adapter.dfy` (module `ToolAdapter`): JavaScript `trim`, the `CallTool`
  handler, and the `resolved`/`done` guard. The guard is the class
  `PluginRequest`, specified by the function `FirstWins` over socket events.
- `feedback_view.dfy` (module `FeedbackView`): the class
  `FeedbackViewProvider`. It has the slot, the prompt, fresh request ids, a
  ghost log of deliveries and a ghost set of superseded requests.
- `rendezvous.dfy` (module `Rendezvous`): end-to-end lemmas from a panel action
  to the content the agent reads.

Socket events, panel messages and timer firings are inputs to the model. A
request id stands in for the identity of a request's `resolve` closure. The
broker answers each request on the connection that sent it, so a connection id
can serve as the request id.

Two behaviours of the code are kept as written:

- A second request while one is pending overwrites the slot. It is not rejected
  or queued.
- `submit` and `end` do not cancel the deadline timer. The timer's identity
  check makes it a no-op instead.

## Model

| member | source | states |
|---|---|---|
| PayloadCodec.ParseBase64Image | src/mcp-stdio-wrapper.ts:21-24 | When it returns a value, the MIME type is non-empty and `;`-free, the payload is non-empty with no line terminator, and the input is exactly `data:` + type + `;base64,` + payload. It is total: it never raises. |
| PayloadCodec.SplitAtSemicolon | src/mcp-stdio-wrapper.ts:22 | The `([^;]+)` capture: the input splits into a `;`-free head and a tail that is empty or starts with `;`. |
| PayloadCodec.SplitAtFirstSemicolon | src/mcp-stdio-wrapper.ts:22 | The split is unique: a `;`-free head followed by a `;`-led tail is split at exactly that boundary. |
| PayloadCodec.ParseDataUrl | src/mcp-stdio-wrapper.ts:22-23 | Round trip: every well-formed `data:m;base64,p` parses back to payload `p` and type `m`. |
| PayloadCodec.ParseBase64ImageIff | src/mcp-stdio-wrapper.ts:21-24 | Parsing gives `{data: p, mimeType: m}` if and only if `m` and `p` are well formed and the input is their data URL. |
| PayloadCodec.ParseBase64ImageNone | src/mcp-stdio-wrapper.ts:21-24 | Parsing gives null if and only if the input is the data URL of no well-formed type and payload. |
| PayloadCodec.ImageItems | src/mcp-stdio-wrapper.ts:28-31 | There are never more image items than entries, and every item is an image item. |
| PayloadCodec.FormatContent | src/mcp-stdio-wrapper.ts:26-33 | Exactly one text item, first, carrying the text; all later items are images; with no images only the text item. |
| PayloadCodec.ParseableIndices | src/mcp-stdio-wrapper.ts:28-31 | The positions of the parseable entries: each in range and parseable, strictly increasing, and every parseable position included. |
| PayloadCodec.ImageItemsFollowInput | src/mcp-stdio-wrapper.ts:28-31 | The k-th image item is what the k-th parseable entry parses to. So there is one item per parseable entry, in input order, and unparseable entries leave nothing. |
| PayloadCodec.FormatResponse | src/mcp-stdio-wrapper.ts:26-33 | The content built by pushing in the loop equals `FormatContent(text, images)`. |
| PayloadCodec.DecimalString | src/mcp-stdio-wrapper.ts:44 | The rendered image count is a non-empty string of decimal digits. |
| PayloadCodec.DecimalStringRoundTrip | src/mcp-stdio-wrapper.ts:44 | The rendered count reads back as `images.length`, with no leading zero. |
| PayloadCodec.Classify | src/mcp-stdio-wrapper.ts:36-41 | Terminated exactly when the text is `CONVERSATION_END`. Approved exactly when the result is the fail-open `{text: "", images: []}`. |
| PayloadCodec.BuildFeedbackResponse | src/mcp-stdio-wrapper.ts:35-47 | Terminated gives only the end message, ignoring images. Approved gives only the satisfaction message. An adjustment's items after the text are the parsed images. |
| PayloadCodec.ResponseRevealsVerdict | src/mcp-stdio-wrapper.ts:37-46 | The first character of the response text is a different mark for each verdict, so the three framings never coincide. |
| PayloadCodec.AdjustmentEchoesText | src/mcp-stdio-wrapper.ts:42-46 | With non-empty, non-sentinel text, the response text is exactly the adjustment prefix, then the feedback text, then the count line for `images.length` when there are images and nothing otherwise. |
| PayloadCodec.ImagesAloneAreNotApproval | src/mcp-stdio-wrapper.ts:39-44 | Empty text with images is an adjustment. Its text is the "feedback sent" line plus the count line for `images.length`. |
| PayloadCodec.ImageCountCanExceedItems | src/mcp-stdio-wrapper.ts:43-46 | The count line reports raw entries: one unparseable entry is reported as 1 image and yields no image item. |
| PayloadCodec.CorrectionWithScreenshot | src/mcp-stdio-wrapper.ts:35-47 | `{"looks wrong", ["data:image/png;base64,AAAA"]}` gives the echoed text with a count of 1, then the PNG item with data `AAAA`. |
| ToolAdapter.TrimStart | src/mcp-stdio-wrapper.ts:117 | A suffix of the input; everything cut is trimmable; the result does not start with a trimmable character. |
| ToolAdapter.TrimEnd | src/mcp-stdio-wrapper.ts:117 | A prefix of the input; everything cut is trimmable; the result does not end with a trimmable character. |
| ToolAdapter.Trim | src/mcp-stdio-wrapper.ts:117 | A non-empty trimmed string neither starts nor ends with JavaScript whitespace or a line terminator. |
| ToolAdapter.TrimKeepsMiddle | src/mcp-stdio-wrapper.ts:117 | `trim` keeps a contiguous run of the input and removes only trimmable characters before and after it. |
| ToolAdapter.TrimIsBlankIff | src/mcp-stdio-wrapper.ts:117-118 | A summary trims to empty if and only if every character is whitespace or a line terminator. |
| ToolAdapter.HandleCallToolAsWritten | src/mcp-stdio-wrapper.ts:112-127 | The handler as written: an unknown tool gets the "未知工具" text; a call without an argument record raises. |
| ToolAdapter.HandleCallTool | src/mcp-stdio-wrapper.ts:112-127 | Never raises. An unknown tool gets "未知工具: name". A missing, null, non-string or blank summary gets the error text and no feedback request. Otherwise feedback is requested with the trimmed, non-blank summary. |
| ToolAdapter.HandleCallToolAgreesWhereNothingRaises | src/mcp-stdio-wrapper.ts:114-118 | The two handlers agree wherever the written one does not raise. It raises exactly when the tool matches and there are no arguments or the summary is not a string. |
| ToolAdapter.BlankSummaryIsRejected | src/mcp-stdio-wrapper.ts:117-118 | A whitespace-only summary is answered with the error text and feedback is not requested. |
| ToolAdapter.Settles | src/mcp-stdio-wrapper.ts:66-83 | Error and timeout call `done` with `{text: "", images: []}`. A message calls `done` exactly when it decoded and its type is `feedbackResult`, and then with the frame's text and images, a missing field defaulting to `""` or `[]`. Opening never does. |
| ToolAdapter.ResultFrameRoundTrip | src/extension.ts:68-72 | The broker's `feedbackResult` frame for a result settles the adapter with that same result. |
| ToolAdapter.LaterEventsAreIgnored | src/mcp-stdio-wrapper.ts:55-60 | Once settled, no further events change the outcome. |
| ToolAdapter.UnsettledIffNoSettlingEvent | src/mcp-stdio-wrapper.ts:55-83 | The request stays unsettled if and only if no event calls `done`. |
| ToolAdapter.EarliestSettlingEventWins | src/mcp-stdio-wrapper.ts:55-83 | The outcome is the value of the earliest event that calls `done`. |
| ToolAdapter.DeadlineAlwaysSettles | src/mcp-stdio-wrapper.ts:83 | After the deadline the request is always settled: fail-open if nothing settled it before, unchanged otherwise. |
| ToolAdapter.PluginRequest.constructor | src/mcp-stdio-wrapper.ts:51-53 | A new request is unresolved, with its socket open, nothing sent and no events seen. |
| ToolAdapter.PluginRequest.Done | src/mcp-stdio-wrapper.ts:55-60 | The first call resolves with its argument and closes the socket. Every later call changes neither the outcome nor the log of `resolve` calls, which holds at most one entry. |
| ToolAdapter.PluginRequest.OnEvent | src/mcp-stdio-wrapper.ts:62-83 | Opening sends the `requestFeedback` frame with the prompt. A settling event resolves only an unresolved request. Other events change nothing. The outcome is always `FirstWins` of the events seen. |
| ToolAdapter.RequestFeedbackFromPlugin | src/mcp-stdio-wrapper.ts:50-85 | After any socket events and then the deadline, the promise's value is `FirstWins` of those events plus the timeout; so it always settles. |
| ToolAdapter.CallTool | src/mcp-stdio-wrapper.ts:112-127 | The tool's content is either the handler's immediate answer or `buildFeedbackResponse` of the settled feedback. |
| ToolAdapter.UnreachableBrokerApproves | src/mcp-stdio-wrapper.ts:77-80 | A connection error settles fail-open whatever follows, and the agent reads the satisfaction message. |
| FeedbackView.PanelResult | src/feedbackView.ts:36-56 | `submit` delivers its text and images, with missing ones defaulted to `''` and `[]`. `end` delivers `CONVERSATION_END` with no images, whatever the panel holds. |
| FeedbackView.FeedbackViewProvider.constructor | src/feedbackView.ts:10-17 | Starts with no panel, nothing pending, no prompt, nothing posted or delivered. |
| FeedbackView.FeedbackViewProvider.ResolveWebviewView | src/feedbackView.ts:19-24 | Attaches the panel and keeps the slot invariant. |
| FeedbackView.FeedbackViewProvider.RequestFeedback | src/feedbackView.ts:63-76 | The new request, with a fresh id, becomes pending with its prompt. Any request pending before is superseded. Nothing is delivered. `showPrompt` is posted when the panel exists. |
| FeedbackView.FeedbackViewProvider.ResolvePending | src/feedbackView.ts:38-44 | Delivers the result to the pending request, clears slot and prompt together, and posts `idle` when the panel exists. |
| FeedbackView.FeedbackViewProvider.OnDidReceiveMessage | src/feedbackView.ts:34-59 | With a request pending, `submit` or `end` delivers `PanelResult` to it, clears slot and prompt, and posts `idle`. With nothing pending, or for another message type, the state is unchanged. |
| FeedbackView.FeedbackViewProvider.OnTimer | src/feedbackView.ts:78-84 | A request's timer delivers `{text: "", images: []}` and clears the slot only if that request is still pending. Otherwise it changes nothing. |
| Rendezvous.HostAnswerSettlesAdapter | src/extension.ts:65-72 | The host's answer, sent back on the request's connection, becomes the adapter's outcome unless something settled it first. Later events are ignored. |
| Rendezvous.PanelActionReachesAgent | src/feedbackView.ts:36-56 | Through the bridge, `end` reaches the agent as the closing message, and an empty `submit` reaches it as an approval. |
| Rendezvous.HostDeadlineReachesAgentAsApproval | src/feedbackView.ts:78-84 | The host's fail-open deadline answer reaches the agent as the satisfaction message. |
| Rendezvous.ScreenshotCorrectionEndToEnd | src/extension.ts:65-72 | `submit("looks wrong", [PNG "AAAA"])` reaches the agent as the echoed text followed by the PNG image item. |

The host-side methods use `old` and `modifies`. Their invariant `Valid()`
states the core promises:

- the slot and the prompt are set and cleared together;
- no request id is delivered twice, so each request is answered at most once;
- no superseded request is ever delivered;
- every issued request is exactly one of pending, answered, or superseded.

`SupersededRequestScenario` replays the race of a superseded request: two
requests, a submit, then both timers. It checks that exactly one answer is
delivered, to the newer request.

## Findings

| source | as written | input that shows it | evidently intended | confidence | as-written member | corrected member |
|---|---|---|---|---|---|---|
| src/mcp-stdio-wrapper.ts:114-118 | `params.operation_summary?.trim()` guards only the field, not the argument record. It calls `trim` on any value the field holds. | A `tools/call` for `log_execution_metrics` with no `arguments` (optional in the call schema), or with `operation_summary: 5`. A TypeError escapes the handler instead of the error text. | Answer with "Error: operation_summary parameter is required". | medium, not executed | ToolAdapter.HandleCallToolAsWritten | ToolAdapter.HandleCallTool |

`ToolAdapter.HandleCallToolAgreesWhereNothingRaises` shows the two handlers
differ on exactly those inputs. `ToolAdapter.CallTool` uses the corrected
handler.

## Left out

- The panel's HTML, CSS and script (src/feedbackView.ts:98-429) are not modelled. That covers image pasting and removal, and clearing the draft when a new prompt is shown. It is browser UI inside a template string.
- The WebSocket transport is left out: creating sockets, registering listeners, `send` and `close` on the wire. So are the MCP SDK server, the tool list and `main` (src/mcp-stdio-wrapper.ts:88-110, 129-136). Socket events are inputs, and closing is a flag.
- Console logging is left out (src/mcp-stdio-wrapper.ts:120 and the broker's logs).
- src/extension.ts is not part of this model apart from the reply frame of lines 68-72. Activation, commands, the clipboard and the server's lifecycle are VS Code plumbing. The broker's dispatch of `requestFeedback` into the provider is represented by request ids. Its handling of other frames is left out.
- Real timers are left out. The 1800000 ms delay becomes a `Timeout` event on the adapter and an `OnTimer(id)` call on the host.
- FeedbackView.FeedbackViewProvider.OnTimer: may be called for any id at any time, more often than the one timer per request the source arms. The model is more permissive here, and the invariant still holds.
- `JSON.parse` is left out: frames arrive already decoded. A non-string `text` or a non-array `images` inside a `feedbackResult` frame is not modelled; the frame's fields are typed.
- ToolAdapter.ArgValue: an object whose own `trim` method would be called is treated like any other non-string value.
- Revealing the panel (`_view.show(true)`) is left out.
- Re-resolving the panel, which resets its HTML without showing the current prompt again, is left out.
- Promises and asynchrony are replaced by explicit event methods. There is no concurrency to verify beyond the order of events.
- ToolAdapter.PluginRequest.OnEvent: the request frame is appended on every `Opened` event, as the listener does. A real socket never opens after `close()`.
- JavaScript strings are sequences of UTF-16 code units; the model uses Unicode characters. The data-URL grammar and `trim` treat each character alike either way.
- The panel script builds data URLs with `FileReader.readAsDataURL` (src/feedbackView.ts:389-397), which lies outside the model. `PayloadCodec.DataUrl` stands in for its output.
- FeedbackView.FeedbackViewProvider.RequestFeedback: the prompt is taken to be a string. The broker forwards `msg.prompt` unchecked (src/extension.ts:67), so a `requestFeedback` frame without one would fill the slot and leave `_currentPrompt` undefined. Nothing reads `_currentPrompt`, so no behaviour depends on it.
- `esbuild.js` is build tooling and is left out.
