/** `exports.handler` of netlify/functions/info.js (lines 59-161), with the
    reply classification of `getVideoInfo` (lines 28-44), as a function from
    an abstract event, the configured API key and the outcome of the one
    upstream request to the response and the request that was sent. */
module InfoHandler {
  import opened Wrappers
  import opened VideoId
  import opened Duration
  import opened Clock

  /** The `url` property of the parsed request body. */
  datatype UrlValue =
    | Undefined                // an object without `url`, or a JSON body that is a string, number, boolean or array
    | Str(text: string)        // a JSON string
    | NonString(truthy: bool)  // a number, boolean, null or object, and whether JavaScript deems it truthy

  /** What `JSON.parse(event.body)` gives. */
  datatype ParsedBody =
    | NotJson(reason: string)  // JSON.parse throws, with this message
    | JsonNull                 // the JSON value `null` (also what a `null` event body parses to)
    | JsonValue(url: UrlValue) // any other JSON value, and its `url` property

  datatype Event = Event(httpMethod: string, body: ParsedBody)

  /** The fields of `items[0]` that the response uses. */
  datatype VideoItem = VideoItem(title: string, duration: string, thumbnail: string, channelTitle: string)

  /** A thrown JavaScript error: its `name`, `message` and `code`. */
  datatype Fault = Fault(name: string, message: string, code: Option<string>)

  /** How the HTTPS request to the YouTube Data API ends. */
  datatype Upstream =
    | RequestError(fault: Fault)     // the request emits 'error'
    | UnreadableReply(fault: Fault)  // the reply is not JSON, or is JSON `null` (a TypeError at line 29)
    | Reply(error: Option<string>, items: Option<seq<VideoItem>>)
      // `error`: the message of `response.error` when that field is truthy
      // ("" when it has none); a falsy or absent `error` is None;
      // `items`: the `items` array when it is truthy

  datatype Body =
    | Empty
    | Info(title: string, duration: string, thumbnail: string, author: string)
    | ErrorReport(error: string, message: string, errorType: string, code: Option<string>)

  datatype Response = Response(statusCode: int, headers: seq<(string, string)>, body: Body)

  /** The response, and the path of the upstream GET request if one was sent. */
  datatype Outcome = Outcome(response: Response, request: Option<string>)

  const CorsHeaders: seq<(string, string)> := [
    ("Access-Control-Allow-Origin", "*"),
    ("Access-Control-Allow-Headers", "Content-Type"),
    ("Access-Control-Allow-Methods", "POST, OPTIONS")
  ]

  /** The word "invalid" that decides between status 400 and 500. */
  const Invalid := "無效"
  const GenericError := "處理請求時發生錯誤"
  const PostOnly := "只允許 POST 請求"
  const InvalidJsonPrefix := "無效的 JSON 格式: "
  const NoUrl := "未提供 URL"
  const InvalidUrl := "無效的 YouTube URL"
  const NoApiKey := "未設置 YouTube API 密鑰"
  const VideoNotFound := "找不到影片"
  /** The messages of the TypeErrors that V8 raises in the three places the
      handler dereferences a value it has not checked. */
  const NullBody := "Cannot destructure property 'url' of " + "'parsedBody' as it is null."
  const UrlNotString := "url.match is not a function"
  const NoDurationMatch := "Cannot read properties of null (reading '1')"

  /** `new Error(message)`. */
  function Thrown(message: string): Fault {
    Fault("Error", message, None)
  }

  function TypeError(message: string): Fault {
    Fault("TypeError", message, None)
  }

  /** t occurs in s at position k. */
  predicate OccursAt(s: string, t: string, k: int) {
    0 <= k && k + |t| <= |s| && s[k..k + |t|] == t
  }

  function ContainsFrom(s: string, t: string, i: nat): (r: bool)
    ensures r <==> exists k :: i <= k && OccursAt(s, t, k)
    decreases |s| - i
  {
    if i + |t| > |s| then false
    else if s[i..i + |t|] == t then assert OccursAt(s, t, i); true
    else ContainsFrom(s, t, i + 1)
  }

  /** `s.includes(t)`. */
  function Contains(s: string, t: string): (r: bool)
    ensures r <==> exists k :: OccursAt(s, t, k)
  {
    ContainsFrom(s, t, 0)
  }

  /** JavaScript's `!url`. */
  predicate Falsy(url: UrlValue) {
    url == Undefined || url == Str("") || url == NonString(false)
  }

  /** Lines 83-113: the guards before the upstream call, in their order; on
      success, the video id and the API key. */
  function CheckRequest(e: Event, apiKey: Option<string>): (r: Result<(string, string), Fault>)
    ensures r.Ok? <==> Admissible(e, apiKey)
    ensures r.Ok? ==> r.value.0 == ExtractVideoId(e.body.url.text).value && r.value.1 == apiKey.value
  {
    if e.httpMethod != "POST" then Err(Thrown(PostOnly))
    else match e.body
      case NotJson(reason) => Err(Thrown(InvalidJsonPrefix + reason))
      case JsonNull => Err(TypeError(NullBody))
      case JsonValue(url) =>
        if Falsy(url) then Err(Thrown(NoUrl))
        else if !url.Str? then Err(TypeError(UrlNotString))
        else match ExtractVideoId(url.text)
          case None => Err(Thrown(InvalidUrl))
          case Some(id) =>
            if apiKey.None? || apiKey.value == "" then Err(Thrown(NoApiKey))
            else Ok((id, apiKey.value))
  }

  /** Line 15: the path of the GET request to www.googleapis.com. */
  function RequestPath(videoId: string, apiKey: string): string {
    "/youtube/v3/videos?part=snippet,contentDetails&id=" + videoId + "&key=" + apiKey
  }

  /** Lines 28-44: a truthy `error` (`Reply(Some(m), _)`), or a falsy or empty `items`, is a failure;
      otherwise the first item. */
  function ClassifyReply(u: Upstream): (r: Result<VideoItem, Fault>)
    ensures r.Ok? <==> u.Reply? && u.error.None? && u.items.Some? && |u.items.value| > 0
    ensures r.Ok? ==> r.value == u.items.value[0]
  {
    match u
    case RequestError(f) => Err(f)
    case UnreadableReply(f) => Err(f)
    case Reply(error, items) =>
      if error.Some? then Err(Thrown(error.value))
      else if items.None? || |items.value| == 0 then Err(Thrown(VideoNotFound))
      else Ok(items.value[0])
  }

  /** Lines 124-129: the response body built from the first item. */
  function Describe(item: VideoItem): (r: Result<Body, Fault>)
    ensures r.Ok? <==> ContainsPT(item.duration)
    ensures r.Ok? ==> r.value.Info? && r.value.title == item.title && r.value.thumbnail == item.thumbnail &&
                      r.value.author == item.channelTitle
    ensures r.Ok? ==> IsClockText(r.value.duration) &&
                      ClockValue(r.value.duration) == ParseDuration(item.duration).value % SecondsPerDay
    ensures r.Err? ==> r.error == TypeError(NoDurationMatch)
  {
    match ParseDuration(item.duration)
    case None => Err(TypeError(NoDurationMatch))
    case Some(seconds) =>
      ClockRoundTrip(seconds);
      Ok(Info(item.title, ClockText(seconds), item.thumbnail, item.channelTitle))
  }

  /** Line 148: 400 when the message contains "無效", 500 otherwise. */
  function StatusFor(message: string): int {
    if Contains(message, Invalid) then 400 else 500
  }

  /** Lines 148-159. */
  function ErrorResponse(f: Fault): Response {
    Response(StatusFor(f.message), CorsHeaders, ErrorReport(GenericError, f.message, f.name, f.code))
  }

  /** Every guard passes: a POST whose JSON body has a non-empty string `url`
      with a video id, and a non-empty API key. */
  predicate Admissible(e: Event, apiKey: Option<string>) {
    && e.httpMethod == "POST"
    && e.body.JsonValue? && e.body.url.Str? && e.body.url.text != ""
    && ExtractVideoId(e.body.url.text).Some?
    && apiKey.Some? && apiKey.value != ""
  }

  /** `exports.handler(event)`, with `process.env.YOUTUBE_API_KEY` as apiKey
      and the outcome the upstream request would have as upstream. */
  function Handle(e: Event, apiKey: Option<string>, upstream: Upstream): (o: Outcome)
    ensures o.response.headers == CorsHeaders
    ensures o.response.statusCode == 200 || o.response.statusCode == 400 || o.response.statusCode == 500
    ensures o.response.statusCode == 200 <==> !o.response.body.ErrorReport?
    ensures o.response.body.Empty? <==> e.httpMethod == "OPTIONS"
    ensures o.response.body.ErrorReport? ==>
              o.response.body.error == GenericError &&
              (o.response.statusCode == 400 <==> Contains(o.response.body.message, Invalid))
    ensures o.request.Some? <==> Admissible(e, apiKey)
    ensures o.request.Some? ==>
              o.request.value == RequestPath(ExtractVideoId(e.body.url.text).value, apiKey.value)
  {
    if e.httpMethod == "OPTIONS" then Outcome(Response(200, CorsHeaders, Empty), None)
    else match CheckRequest(e, apiKey)
      case Err(f) => Outcome(ErrorResponse(f), None)
      case Ok((videoId, key)) =>
        var request := Some(RequestPath(videoId, key));
        match ClassifyReply(upstream)
        case Err(f) => Outcome(ErrorResponse(f), request)
        case Ok(item) =>
          match Describe(item)
          case Err(f) => Outcome(ErrorResponse(f), request)
          case Ok(body) => Outcome(Response(200, CorsHeaders, body), request)
  }

  /** A message without the character '無' never selects status 400. */
  lemma StatusWithoutInvalid(message: string)
    requires '無' !in message
    ensures StatusFor(message) == 500
  {
    forall k ensures !OccursAt(message, Invalid, k) {
      if 0 <= k && k + |Invalid| <= |message| {
        assert message[k..k + |Invalid|][0] == message[k];
      }
    }
  }

  /** A message that starts with "無效" selects status 400. */
  lemma StatusWithInvalidPrefix(message: string)
    requires |Invalid| <= |message| && message[..|Invalid|] == Invalid
    ensures StatusFor(message) == 400
  {
    assert OccursAt(message, Invalid, 0);
  }

  /** Malformed JSON gives 400, whatever the parser's own message. */
  lemma InvalidJsonStatus(reason: string)
    ensures StatusFor(InvalidJsonPrefix + reason) == 400
  {
    assert (InvalidJsonPrefix + reason)[..|Invalid|] == Invalid;
    StatusWithInvalidPrefix(InvalidJsonPrefix + reason);
  }

  /** The error response for a message thrown with `new Error`. */
  function Rejection(status: int, message: string): Response {
    Response(status, CorsHeaders, ErrorReport(GenericError, message, "Error", None))
  }

  /** A request stopped by a guard is answered with that guard's error, and
      the upstream is not consulted. */
  lemma Refused(e: Event, apiKey: Option<string>, upstream: Upstream, f: Fault)
    requires e.httpMethod != "OPTIONS" && CheckRequest(e, apiKey) == Err(f)
    ensures Handle(e, apiKey, upstream) == Outcome(ErrorResponse(f), None)
  {
  }

  /** An OPTIONS preflight is answered 200 with an empty body before anything
      else is looked at, and nothing is fetched. */
  lemma OptionsPreflight(e: Event, apiKey: Option<string>, upstream: Upstream)
    requires e.httpMethod == "OPTIONS"
    ensures Handle(e, apiKey, upstream) == Outcome(Response(200, CorsHeaders, Empty), None)
  {
  }

  /** First guard: any method but POST (and OPTIONS) is refused with 500,
      whatever the body, the key and the upstream. */
  lemma MethodGuard(e: Event, apiKey: Option<string>, upstream: Upstream)
    requires e.httpMethod != "OPTIONS" && e.httpMethod != "POST"
    ensures Handle(e, apiKey, upstream) == Outcome(Rejection(500, PostOnly), None)
  {
    StatusWithoutInvalid(PostOnly);
  }

  /** Second guard: a body that is not JSON is refused with 400. */
  lemma JsonGuard(e: Event, apiKey: Option<string>, upstream: Upstream)
    requires e.httpMethod == "POST" && e.body.NotJson?
    ensures Handle(e, apiKey, upstream) ==
            Outcome(Rejection(400, InvalidJsonPrefix + e.body.reason), None)
  {
    InvalidJsonStatus(e.body.reason);
  }

  /** The JSON body `null` fails where the handler destructures it: 500. */
  lemma NullBodyRejected(e: Event, apiKey: Option<string>, upstream: Upstream)
    requires e.httpMethod == "POST" && e.body.JsonNull?
    ensures Handle(e, apiKey, upstream) ==
            Outcome(Response(500, CorsHeaders, ErrorReport(GenericError, NullBody, "TypeError", None)), None)
  {
    StatusWithoutInvalid(NullBody);
  }

  /** A truthy `url` that is not a string has no `match` method: 500 with a
      TypeError, and no request. */
  lemma UrlNotStringGuard(e: Event, apiKey: Option<string>, upstream: Upstream)
    requires e.httpMethod == "POST" && e.body.JsonValue? && e.body.url.NonString? && e.body.url.truthy
    ensures Handle(e, apiKey, upstream) ==
            Outcome(Response(500, CorsHeaders, ErrorReport(GenericError, UrlNotString, "TypeError", None)), None)
  {
    StatusWithoutInvalid(UrlNotString);
    assert ErrorResponse(TypeError(UrlNotString)) ==
           Response(500, CorsHeaders, ErrorReport(GenericError, UrlNotString, "TypeError", None));
    assert !Falsy(e.body.url);
    Refused(e, apiKey, upstream, TypeError(UrlNotString));
  }

  /** Third guard: a missing or falsy `url` is refused with 500. */
  lemma UrlGuard(e: Event, apiKey: Option<string>, upstream: Upstream)
    requires e.httpMethod == "POST" && e.body.JsonValue? && Falsy(e.body.url)
    ensures Handle(e, apiKey, upstream) == Outcome(Rejection(500, NoUrl), None)
  {
    StatusWithoutInvalid(NoUrl);
  }

  /** Fourth guard: a URL string with no `v` parameter (a short link, say) is
      refused with 400. */
  lemma VideoIdGuard(e: Event, apiKey: Option<string>, upstream: Upstream)
    requires e.httpMethod == "POST" && e.body.JsonValue? && e.body.url.Str?
    requires e.body.url.text != "" && ExtractVideoId(e.body.url.text).None?
    ensures Handle(e, apiKey, upstream) == Outcome(Rejection(400, InvalidUrl), None)
  {
    StatusWithInvalidPrefix(InvalidUrl);
  }

  /** Fifth guard: without an API key the request is refused with 500. */
  lemma ApiKeyGuard(e: Event, apiKey: Option<string>, upstream: Upstream)
    requires e.httpMethod == "POST" && e.body.JsonValue? && e.body.url.Str?
    requires e.body.url.text != "" && ExtractVideoId(e.body.url.text).Some?
    requires apiKey.None? || apiKey.value == ""
    ensures Handle(e, apiKey, upstream) == Outcome(Rejection(500, NoApiKey), None)
  {
    StatusWithoutInvalid(NoApiKey);
  }

  /** When the guards stop a request, the upstream outcome plays no part. */
  lemma UpstreamIgnoredWithoutRequest(e: Event, apiKey: Option<string>, u1: Upstream, u2: Upstream)
    requires Handle(e, apiKey, u1).request.None?
    ensures Handle(e, apiKey, u1) == Handle(e, apiKey, u2)
  {
  }

  /** A failed request, or a reply that is not JSON, answers with that error's
      message, name and code. */
  lemma UpstreamFault(e: Event, apiKey: Option<string>, f: Fault)
    requires Admissible(e, apiKey)
    ensures Handle(e, apiKey, RequestError(f)).response == ErrorResponse(f)
    ensures Handle(e, apiKey, UnreadableReply(f)).response == ErrorResponse(f)
  {
  }

  /** A reply whose `error` is truthy (`Reply(Some(m), _)`) answers with its message; the status is 500
      unless that message happens to contain "無效". */
  lemma ApiErrorReply(e: Event, apiKey: Option<string>, message: string, items: Option<seq<VideoItem>>)
    requires Admissible(e, apiKey)
    ensures Handle(e, apiKey, Reply(Some(message), items)).response ==
            Rejection(if Contains(message, Invalid) then 400 else 500, message)
  {
  }

  /** A reply without items is "video not found", with status 500. */
  lemma NoItemsReply(e: Event, apiKey: Option<string>, items: Option<seq<VideoItem>>)
    requires Admissible(e, apiKey)
    requires items.None? || items.value == []
    ensures Handle(e, apiKey, Reply(None, items)).response == Rejection(500, VideoNotFound)
  {
    StatusWithoutInvalid(VideoNotFound);
  }

  /** An item whose duration has no "PT" fails in parseDuration: 500. */
  lemma UnreadableDuration(e: Event, apiKey: Option<string>, items: seq<VideoItem>)
    requires Admissible(e, apiKey) && |items| > 0 && !ContainsPT(items[0].duration)
    ensures Handle(e, apiKey, Reply(None, Some(items))).response ==
            Response(500, CorsHeaders, ErrorReport(GenericError, NoDurationMatch, "TypeError", None))
  {
    StatusWithoutInvalid(NoDurationMatch);
  }

  /** The success case: 200 with the title, thumbnail and author of the first
      item and its duration shown as `HH:MM:SS`. */
  lemma SuccessReply(e: Event, apiKey: Option<string>, items: seq<VideoItem>, seconds: nat)
    requires Admissible(e, apiKey) && |items| > 0
    requires ParseDuration(items[0].duration) == Some(seconds)
    ensures Handle(e, apiKey, Reply(None, Some(items))).response ==
            Response(200, CorsHeaders,
                     Info(items[0].title, ClockText(seconds), items[0].thumbnail, items[0].channelTitle))
  {
    var u := Reply(None, Some(items));
    var body := Info(items[0].title, ClockText(seconds), items[0].thumbnail, items[0].channelTitle);
    assert Describe(items[0]) == Ok(body);
    Delivered(e, apiKey, u, items[0], body);
  }

  /** Once every guard passes, the reply has an item and its body is built,
      the answer is 200 with that body. */
  lemma Delivered(e: Event, apiKey: Option<string>, u: Upstream, item: VideoItem, body: Body)
    requires Admissible(e, apiKey)
    requires ClassifyReply(u) == Ok(item) && Describe(item) == Ok(body)
    ensures Handle(e, apiKey, u).response == Response(200, CorsHeaders, body)
  {
  }

  /** `PT3M20S` reads as 200 seconds. */
  lemma ThreeMinutesTwentyParsed()
    ensures ParseDuration("PT3M20S") == Some(200)
  {
    assert IsoTime(None, Some(3), Some(20)) == "PT3M20S";
    ZeroPartsOptional(0, 3, 20);
  }

  /** 200 seconds show as `00:03:20`. */
  lemma ThreeMinutesTwentyShown()
    ensures ClockText(200) == "00:03:20"
  {
    var clock := "00:03:20";
    assert clock[0..2] == "00" && clock[3..5] == "03" && clock[6..8] == "20";
    TwoDigitsValue("00");
    TwoDigitsValue("03");
    TwoDigitsValue("20");
    assert IsClockText(clock) && ClockValue(clock) == 200;
    ClockTextOfValue(clock);
  }

  /** A watch URL `base?v=ID&...` with a `PT3M20S` video: one request for ID,
      and 200 with the duration shown as `00:03:20`. */
  lemma WatchUrlScenario(base: string, videoId: string, rest: string, key: string, item: VideoItem)
    requires '?' !in base && '&' !in base
    requires |videoId| > 0 && '&' !in videoId
    requires rest == [] || rest[0] == '&'
    requires key != "" && item.duration == "PT3M20S"
    ensures
      var e := Event("POST", JsonValue(Str(base + "?v=" + videoId + rest)));
      var o := Handle(e, Some(key), Reply(None, Some([item])));
      o.request == Some(RequestPath(videoId, key)) &&
      o.response == Response(200, CorsHeaders, Info(item.title, "00:03:20", item.thumbnail, item.channelTitle))
  {
    var url := base + "?v=" + videoId + rest;
    WatchUrlGivesId(base, videoId, rest);
    var e := Event("POST", JsonValue(Str(url)));
    assert Admissible(e, Some(key));
    ThreeMinutesTwentyParsed();
    ThreeMinutesTwentyShown();
    SuccessReply(e, Some(key), [item], 200);
  }

  /** A `youtu.be/ID` short link has no `v` parameter and is refused with 400
      before any request is sent. */
  lemma ShortLinkScenario(url: string, apiKey: Option<string>, upstream: Upstream)
    requires url != "" && '?' !in url && '&' !in url
    ensures Handle(Event("POST", JsonValue(Str(url))), apiKey, upstream) == Outcome(Rejection(400, InvalidUrl), None)
  {
    ShortLinkHasNoId(url);
    StatusWithInvalidPrefix(InvalidUrl);
  }
}
