/** The adapter-side payload codec: parsing image data URLs, building the
    ordered tool-result content list, and framing a FeedbackResult as the
    text the agent reads. */
module PayloadCodec {
  import opened FeedbackTypes

  /** A parsed data URL: the base64 payload and its MIME type. */
  datatype ImageData = ImageData(data: string, mimeType: string)

  /** One block of the content a tool call returns. */
  datatype ContentItem = TextItem(text: string) | ImageItem(data: string, mimeType: string)

  const DataPrefix: string := "data:"
  const Base64Marker: string := ";base64,"

  /** The characters a JavaScript `.` does not match (no `s` flag). */
  predicate IsLineTerminator(c: char) {
    c == '\n' || c == '\r' || c == '\U{2028}' || c == '\U{2029}'
  }

  /** What `([^;]+)` captures: at least one character, none of them `;`.
      Line terminators are allowed here: a negated class matches them. */
  predicate IsMimeType(m: string) {
    m != [] && ';' !in m
  }

  /** What `(.+)$` captures: at least one character, no line terminator. */
  predicate IsPayload(p: string) {
    p != [] && forall i | 0 <= i < |p| :: !IsLineTerminator(p[i])
  }

  /** The data URL that carries `data` as an image of type `mimeType`. */
  function DataUrl(mimeType: string, data: string): string {
    DataPrefix + mimeType + Base64Marker + data
  }

  /** Splits `s` before its first `;` (or at its end when it has none). */
  function SplitAtSemicolon(s: string): (r: (string, string))
    ensures r.0 + r.1 == s
    ensures ';' !in r.0
    ensures r.1 == [] || r.1[0] == ';'
  {
    if s == [] then ([], [])
    else if s[0] == ';' then ([], s)
    else
      var (head, tail) := SplitAtSemicolon(s[1..]);
      ([s[0]] + head, tail)
  }

  /** `dataUrl.match(/^data:([^;]+);base64,(.+)$/)`: the whole string must be
      the prefix, a MIME type running to the first `;`, the base64 marker and
      a payload. Any other string yields None; nothing is ever raised. */
  function ParseBase64Image(dataUrl: string): (r: Option<ImageData>)
    ensures r.Some? ==> IsMimeType(r.value.mimeType) && IsPayload(r.value.data)
    ensures r.Some? ==> dataUrl == DataUrl(r.value.mimeType, r.value.data)
  {
    if |dataUrl| < |DataPrefix| || dataUrl[..|DataPrefix|] != DataPrefix then None
    else
      var (mimeType, rest) := SplitAtSemicolon(dataUrl[|DataPrefix|..]);
      if mimeType == [] || |rest| < |Base64Marker| || rest[..|Base64Marker|] != Base64Marker then None
      else
        var data := rest[|Base64Marker|..];
        if !IsPayload(data) then None
        else
          assert rest == Base64Marker + data;
          assert dataUrl == DataPrefix + dataUrl[|DataPrefix|..];
          Some(ImageData(data, mimeType))
  }

  /** Splitting a `;`-free head followed by a `;`-led tail finds that very boundary. */
  lemma {:induction false} SplitAtFirstSemicolon(head: string, tail: string)
    requires ';' !in head
    requires tail == [] || tail[0] == ';'
    ensures SplitAtSemicolon(head + tail) == (head, tail)
  {
    if head == [] {
      assert head + tail == tail;
    } else {
      assert (head + tail)[1..] == head[1..] + tail;
      SplitAtFirstSemicolon(head[1..], tail);
      assert [head[0]] + head[1..] == head;
    }
  }

  /** Round trip: every well-formed data URL parses back to its payload and type. */
  lemma ParseDataUrl(mimeType: string, data: string)
    requires IsMimeType(mimeType) && IsPayload(data)
    ensures ParseBase64Image(DataUrl(mimeType, data)) == Some(ImageData(data, mimeType))
  {
    var s := DataUrl(mimeType, data);
    assert s[..|DataPrefix|] == DataPrefix;
    assert s[|DataPrefix|..] == mimeType + (Base64Marker + data);
    SplitAtFirstSemicolon(mimeType, Base64Marker + data);
    assert (Base64Marker + data)[..|Base64Marker|] == Base64Marker;
    assert (Base64Marker + data)[|Base64Marker|..] == data;
  }

  /** Parsing yields exactly the (payload, type) pairs whose data URL the input is. */
  lemma ParseBase64ImageIff(s: string, mimeType: string, data: string)
    ensures ParseBase64Image(s) == Some(ImageData(data, mimeType))
        <==> IsMimeType(mimeType) && IsPayload(data) && s == DataUrl(mimeType, data)
  {
    if IsMimeType(mimeType) && IsPayload(data) && s == DataUrl(mimeType, data) {
      ParseDataUrl(mimeType, data);
    }
  }

  /** Parsing yields None exactly on the strings that are no well-formed data URL. */
  lemma ParseBase64ImageNone(s: string)
    ensures ParseBase64Image(s) == None
        <==> !exists m, p :: IsMimeType(m) && IsPayload(p) && s == DataUrl(m, p)
  {
    if exists m, p :: IsMimeType(m) && IsPayload(p) && s == DataUrl(m, p) {
      var m, p :| IsMimeType(m) && IsPayload(p) && s == DataUrl(m, p);
      ParseDataUrl(m, p);
    }
  }

  /** The items one image entry contributes: one when it parses, none otherwise. */
  function ImageItemsOf(image: string): seq<ContentItem> {
    match ParseBase64Image(image)
    case Some(parsed) => [ImageItem(parsed.data, parsed.mimeType)]
    case None => []
  }

  /** The image items for a list of entries, in entry order. */
  function ImageItems(images: seq<string>): (items: seq<ContentItem>)
    ensures |items| <= |images|
    ensures forall k | 0 <= k < |items| :: items[k].ImageItem?
  {
    if images == [] then []
    else ImageItems(images[..|images| - 1]) + ImageItemsOf(images[|images| - 1])
  }

  /** The content `formatResponse(text, images)` returns. */
  function FormatContent(text: string, images: seq<string>): (content: seq<ContentItem>)
    ensures |content| >= 1 && content[0] == TextItem(text)
    ensures forall k | 1 <= k < |content| :: content[k].ImageItem?
    ensures images == [] ==> content == [TextItem(text)]
  {
    [TextItem(text)] + ImageItems(images)
  }

  /** The positions of the entries that parse: all of them, each once, in
      increasing order. */
  function ParseableIndices(images: seq<string>): (idx: seq<nat>)
    ensures forall k | 0 <= k < |idx| :: idx[k] < |images| && ParseBase64Image(images[idx[k]]).Some?
    ensures forall k, l | 0 <= k < l < |idx| :: idx[k] < idx[l]
    ensures forall j | 0 <= j < |images| && ParseBase64Image(images[j]).Some? :: j in idx
  {
    if images == [] then []
    else
      var last := |images| - 1;
      var prefix := images[..last];
      assert forall j | 0 <= j < last :: images[j] == prefix[j];
      ParseableIndices(prefix) + (if ParseBase64Image(images[last]).Some? then [last] else [])
  }

  /** The image items are exactly the parsed entries at the parseable
      positions, so one per parseable entry, in input order; entries that do
      not parse leave no item. */
  lemma {:induction false} ImageItemsFollowInput(images: seq<string>)
    ensures var items, idx := ImageItems(images), ParseableIndices(images);
      && |items| == |idx|
      && forall k | 0 <= k < |idx| ::
           ParseBase64Image(images[idx[k]]) == Some(ImageData(items[k].data, items[k].mimeType))
  {
    if images != [] {
      var last := |images| - 1;
      var prefix := images[..last];
      ImageItemsFollowInput(prefix);
      var items, idx := ImageItems(images), ParseableIndices(images);
      var prefixItems, prefixIdx := ImageItems(prefix), ParseableIndices(prefix);
      var parsed := ParseBase64Image(images[last]);
      assert items == prefixItems + ImageItemsOf(images[last]);
      assert idx == prefixIdx + (if parsed.Some? then [last] else []);
      forall k | 0 <= k < |idx|
        ensures ParseBase64Image(images[idx[k]]) == Some(ImageData(items[k].data, items[k].mimeType))
      {
        if k < |prefixIdx| {
          assert idx[k] == prefixIdx[k] && items[k] == prefixItems[k];
          assert images[prefixIdx[k]] == prefix[prefixIdx[k]];
        } else {
          assert idx[k] == last && items[k] == ImageItem(parsed.value.data, parsed.value.mimeType);
        }
      }
    }
  }

  /** `formatResponse`: one text item first, then an image item for every
      entry that parses, pushed in order; other entries are skipped. */
  method FormatResponse(text: string, images: seq<string>) returns (content: seq<ContentItem>)
    ensures content == FormatContent(text, images)
  {
    content := [TextItem(text)];
    for i := 0 to |images|
      invariant content == [TextItem(text)] + ImageItems(images[..i])
    {
      assert images[..i + 1][..i] == images[..i];
      var parsed := ParseBase64Image(images[i]);
      if parsed.Some? {
        content := content + [ImageItem(parsed.value.data, parsed.value.mimeType)];
      }
    }
    assert images[..|images|] == images;
  }

  // ---------------------------------------------------------------------
  // Decimal rendering of a count, as a JavaScript template literal does it.

  function Digit(d: nat): char
    requires d < 10
  {
    ('0' as int + d) as char
  }

  predicate IsDigits(s: string) {
    forall i | 0 <= i < |s| :: '0' <= s[i] <= '9'
  }

  /** `${n}` for a non-negative integer. */
  function DecimalString(n: nat): (s: string)
    ensures s != [] && IsDigits(s)
  {
    if n < 10 then [Digit(n)] else DecimalString(n / 10) + [Digit(n % 10)]
  }

  /** The number a string of decimal digits denotes. */
  function DecimalValue(s: string): nat
    requires IsDigits(s)
  {
    if s == [] then 0
    else 10 * DecimalValue(s[..|s| - 1]) + (s[|s| - 1] as int - '0' as int)
  }

  /** The rendered count reads back as the count, with no leading zero. */
  lemma {:induction false} DecimalStringRoundTrip(n: nat)
    ensures DecimalValue(DecimalString(n)) == n
    ensures DecimalString(n)[0] != '0' || n == 0
  {
    if n >= 10 {
      DecimalStringRoundTrip(n / 10);
      var s := DecimalString(n);
      assert s[..|s| - 1] == DecimalString(n / 10);
    }
  }

  // ---------------------------------------------------------------------
  // Framing a FeedbackResult for the agent.

  /** The three meanings a FeedbackResult can carry. */
  datatype Verdict = Terminated | Approved | Adjustment

  const EndText: string := "🏁 用户结束对话，无需再调用 log_execution_metrics。"
  const SatisfiedText: string := "✅ 用户确认满意，任务完成。"
  const AdjustPrefix: string := "🔄 用户要求调整："
  const FeedbackSentText: string := "🔄 用户发送了反馈："

  /** The line that reports how many images were attached. */
  function ImageCountLine(count: nat): string {
    "\n\n🖼️ 用户附加了 " + DecimalString(count) + " 张图片："
  }

  /** The sentinel wins over everything; an approval is empty text with no
      images; anything else asks for an adjustment. */
  function Classify(feedback: FeedbackResult): (v: Verdict)
    ensures v == Terminated <==> feedback.text == ConversationEnd
    ensures v == Approved <==> feedback == FailOpen
  {
    if feedback.text == ConversationEnd then Terminated
    else if feedback.text == ApprovedText && |feedback.images| == 0 then Approved
    else Adjustment
  }

  /** The text item of an adjustment response. */
  function AdjustmentText(feedback: FeedbackResult): string {
    (if feedback.text != [] then AdjustPrefix + feedback.text else FeedbackSentText)
    + (if |feedback.images| > 0 then ImageCountLine(|feedback.images|) else [])
  }

  /** `buildFeedbackResponse`: the content the tool call returns for a result. */
  function BuildFeedbackResponse(feedback: FeedbackResult): (content: seq<ContentItem>)
    ensures |content| >= 1 && content[0].TextItem?
    ensures Classify(feedback) == Terminated ==> content == [TextItem(EndText)]
    ensures Classify(feedback) == Approved ==> content == [TextItem(SatisfiedText)]
    ensures Classify(feedback) == Adjustment ==> content[1..] == ImageItems(feedback.images)
  {
    match Classify(feedback)
    case Terminated => FormatContent(EndText, [])
    case Approved => FormatContent(SatisfiedText, [])
    case Adjustment => FormatContent(AdjustmentText(feedback), feedback.images)
  }

  /** The mark that opens the response text of each verdict. */
  function LeadingMark(v: Verdict): char {
    match v
    case Terminated => '🏁'
    case Approved => '✅'
    case Adjustment => '🔄'
  }

  /** The verdict can be read off the first character of the response text,
      so the three framings never collide. */
  lemma ResponseRevealsVerdict(feedback: FeedbackResult)
    ensures var t := BuildFeedbackResponse(feedback)[0].text;
      |t| > 0 && t[0] == LeadingMark(Classify(feedback))
  {
  }

  /** An adjustment with text echoes that text right after the prefix; the
      count line follows exactly when images are attached, and nothing else. */
  lemma AdjustmentEchoesText(feedback: FeedbackResult)
    requires feedback.text != [] && feedback.text != ConversationEnd
    ensures BuildFeedbackResponse(feedback)[0]
         == TextItem(AdjustPrefix + feedback.text
                     + (if |feedback.images| > 0 then ImageCountLine(|feedback.images|) else []))
    ensures var t := BuildFeedbackResponse(feedback)[0].text;
      && |t| >= |AdjustPrefix| + |feedback.text|
      && t[..|AdjustPrefix|] == AdjustPrefix
      && t[|AdjustPrefix|..|AdjustPrefix| + |feedback.text|] == feedback.text
  {
  }

  /** Images without text are an adjustment, not an approval: the text is
      the "feedback sent" line followed by the raw count of entries. */
  lemma ImagesAloneAreNotApproval(feedback: FeedbackResult)
    requires feedback.text == [] && |feedback.images| > 0
    ensures Classify(feedback) == Adjustment
    ensures BuildFeedbackResponse(feedback)[0]
         == TextItem(FeedbackSentText + ImageCountLine(|feedback.images|))
  {
  }

  /** The reported count is the number of entries, which can exceed the number
      of image items emitted: one entry that does not parse is still counted. */
  lemma ImageCountCanExceedItems()
    ensures var feedback := FeedbackResult("", ["not-a-data-url"]);
      BuildFeedbackResponse(feedback) == [TextItem(FeedbackSentText + ImageCountLine(1))]
  {
  }

  /** A correction with one pasted PNG becomes the echoed text and the image. */
  lemma CorrectionWithScreenshot()
    ensures BuildFeedbackResponse(FeedbackResult("looks wrong", ["data:image/png;base64,AAAA"]))
         == [TextItem(AdjustPrefix + "looks wrong" + "\n\n🖼️ 用户附加了 1 张图片："),
             ImageItem("AAAA", "image/png")]
  {
    var url := "data:image/png;base64,AAAA";
    assert url == DataUrl("image/png", "AAAA");
    ParseDataUrl("image/png", "AAAA");
    assert DecimalString(1) == "1";
    assert ImageCountLine(1) == "\n\n🖼️ 用户附加了 1 张图片：";
    assert ImageItems([url]) == ImageItems([]) + ImageItemsOf(url);
  }
}
