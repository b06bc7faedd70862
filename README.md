# YouTube video information function, modelled in Dafny

This project models the serverless function `netlify/functions/info.js`. It
receives a POST whose JSON body carries a YouTube `url`, extracts the video id
from the URL's `v` query parameter, asks the YouTube Data API
(`/youtube/v3/videos?part=snippet,contentDetails`) for that video, and answers
with its title, thumbnail, channel name and duration shown as `HH:MM:SS`. Every
answer carries the same three CORS headers. An OPTIONS preflight is answered
200 with an empty body. Every failure is answered with a JSON error report whose
status is 400 when the message contains "無效" ("invalid") and 500 otherwise.

The model is pure, like the code it follows:

- `VideoId` — `extractVideoId`: the leftmost match of `[?&]v=([^&]+)`,
  specified by predicates on the position of the match and proved complete.
- `Decimal` — decimal digit strings and their values (what `parseInt` does to
  a `\d+` group), with both round trips.
- `Duration` — `parseDuration`: the regular expression
  `PT(?:(\d+)H)?(?:(\d+)M)?(?:(\d+)S)?` read the way the JavaScript engine
  matches it (first `PT`, each group taken only when its whole digit run is
  followed by its designator), and the total in seconds; no `PT` at all means
  `match` returned `null`, modelled as `None`.
- `Clock` — `new Date(n * 1000).toISOString().substr(11, 8)`: the hour,
  minute and second of the time value `n * 1000` as ECMA-262 (section 21.4.1)
  computes them, each written with two digits.
- `InfoHandler` — `exports.handler` as a function from the event, the value
  of `YOUTUBE_API_KEY` and the outcome of the upstream request to the response
  and the request path that would be sent (if any); `getVideoInfo`'s
  classification of the reply is part of it.

Where `info.js` depends on the outside world, that dependency is a parameter:
the event (its method, and its body already run through `JSON.parse`, or the
parser's error message), the environment variable (`Option<string>`), and what
the HTTPS request produced (a request error, an unparsable reply, or a parsed
reply with its `error` and `items` fields).

## Model

| member | source | states |
|---|---|---|
| Decimal.DigitValue | netlify/functions/info.js:53-55 | the value of a `\d` character is below 10 |
| Decimal.DigitChar | netlify/functions/info.js:53-55 | the digit character for a value below 10 is a digit whose value is that value |
| Decimal.NatToDecimal | netlify/functions/info.js:53-55 | the decimal writing of a number is a non-empty digit string without a leading zero (except for 0) |
| Decimal.DigitsValue | netlify/functions/info.js:53-55 | `parseInt` of an n-digit `\d+` group is below 10^n; DecimalRoundTrip and CanonicalRoundTrip fix its value as the inverse of the decimal writing |
| Decimal.DecimalRoundTrip | netlify/functions/info.js:53-55 | reading back the decimal writing of n gives n |
| Decimal.LeadingDigitPositive | netlify/functions/info.js:53-55 | a digit string that does not start with 0 has a positive value |
| Decimal.CanonicalRoundTrip | netlify/functions/info.js:53-55 | writing the value of a digit string without a leading zero gives that string back |
| VideoId.FirstQueryV | netlify/functions/info.js:5-6 | the position found is a `?v=`/`&v=` followed by a non-`&` character, no earlier position is, and `None` means no position is |
| VideoId.RunEnd | netlify/functions/info.js:5 | `[^&]+` runs greedily: every character up to the end is not `&`, and the end is the string's end or a `&` |
| VideoId.ExtractVideoId | netlify/functions/info.js:4-8 | an id is returned exactly when the pattern matches somewhere; the id is non-empty and is the greedy run after the leftmost match |
| VideoId.LeftmostIsFirst | netlify/functions/info.js:5-6 | the leftmost matching position is the one the search finds |
| VideoId.RunEndUnique | netlify/functions/info.js:5 | the greedy run's end is the only end with no `&` before it and a `&` or the end of the string at it |
| VideoId.ExtractVideoIdComplete | netlify/functions/info.js:4-8 | every id characterised as the leftmost match's greedy run is what the function returns (the converse of its ensures) |
| VideoId.WatchUrlGivesId | netlify/functions/info.js:4-8 | a URL `base?v=ID` followed by nothing or `&...` yields ID |
| VideoId.ShortLinkHasNoId | netlify/functions/info.js:4-8 | a URL with no `?` and no `&` (a `youtu.be/ID` short link) yields no id |
| VideoId.SuffixVIgnored | netlify/functions/info.js:5 | a parameter merely ending in `v` (`?dev=1`) is not the `v` parameter |
| VideoId.EmptyValueSkipped | netlify/functions/info.js:5 | an empty `v=` is skipped and the next `&v=` is used |
| Duration.FirstPT | netlify/functions/info.js:52 | the position found is a `PT`, no earlier position is, and `None` means there is no `PT` |
| Duration.DigitRun | netlify/functions/info.js:52 | `\d+` is greedy: the prefix is all digits and is followed by a non-digit or the end |
| Duration.DigitRunUnique | netlify/functions/info.js:52 | the greedy digit run is the only digit prefix followed by a non-digit or the end |
| Duration.Component | netlify/functions/info.js:52-55 | when the text starts with digits followed by the designator, the group's value is those digits read in base 10 and the rest follows the designator; otherwise the value is 0 and nothing is consumed |
| Duration.ReadGroups | netlify/functions/info.js:52-56 | the H, M and S groups read in that order and totalled in seconds; ReadIsoGroups gives its value on every `[hH][mM][sS]` and OutOfOrderPartsIgnored shows the fixed order |
| Duration.ParseDuration | netlify/functions/info.js:51-57 | a number is produced exactly when the text contains `PT` (otherwise the code throws) |
| Duration.DigitRunOf | netlify/functions/info.js:52 | the digit run of digits followed by a non-digit is exactly those digits |
| Duration.ComponentOfPart | netlify/functions/info.js:52-55 | a group `nU` is read as n when U is the designator sought, and skipped without consuming anything otherwise |
| Duration.HoursGroup | netlify/functions/info.js:52-53 | the hours group of `[nH][nM][nS]` is n (0 when absent) and leaves the minutes and seconds |
| Duration.MinutesGroup | netlify/functions/info.js:52-54 | the minutes group of `[nM][nS]` is n (0 when absent) and leaves the seconds |
| Duration.SecondsGroup | netlify/functions/info.js:52-55 | the seconds group of `[nS]` is n (0 when absent) |
| Duration.ReadIsoGroups | netlify/functions/info.js:52-56 | the groups of `[hH][mM][sS]` total h*3600 + m*60 + s, absent parts counting 0 |
| Duration.ParseAfterPT | netlify/functions/info.js:51-57 | text starting with `PT` is read from just after that `PT` |
| Duration.ParseIsoTime | netlify/functions/info.js:51-57 | every ISO 8601 time duration `PT[hH][mM][sS]` parses to h*3600 + m*60 + s |
| Duration.LeadingTextIgnored | netlify/functions/info.js:52 | only the first `PT` counts: text before it that has no `PT` is skipped (so `PPT3S` reads as 3) |
| Duration.ParseFullIsoTime | netlify/functions/info.js:51-57 | `PThHmMsS` parses to h*3600 + m*60 + s |
| Duration.ZeroPartsOptional | netlify/functions/info.js:52-56 | leaving out the zero parts does not change the total |
| Duration.BarePT | netlify/functions/info.js:52-56 | `PT` alone reads as 0 seconds |
| Duration.OutOfOrderPartsIgnored | netlify/functions/info.js:52 | in `PT20S3M` the minutes come after the seconds and are not read: 20 seconds |
| Duration.DayPartRefused | netlify/functions/info.js:52-53 | `P1DT2H` has no `PT` and does not parse |
| Clock.HourFromTime | netlify/functions/info.js:126 | ECMA-262's HourFromTime of a non-negative time value is below 24; ClockFields gives its value on n*1000 |
| Clock.MinFromTime | netlify/functions/info.js:126 | ECMA-262's MinFromTime is below 60; ClockFields gives its value on n*1000 |
| Clock.SecFromTime | netlify/functions/info.js:126 | ECMA-262's SecFromTime is below 60; ClockFields gives its value on n*1000 |
| Clock.TwoDigits | netlify/functions/info.js:126 | a field below 100 is written as two digits whose value is the field |
| Clock.TwoDigitsValue | netlify/functions/info.js:126 | two digits have the value 10*first + second, below 100 |
| Clock.ClockValue | netlify/functions/info.js:126 | an `HH:MM:SS` text denotes a number of seconds below one day |
| Clock.ClockText | netlify/functions/info.js:126 | the display is always a well-formed `HH:MM:SS` with hours below 24 and minutes and seconds below 60 |
| Clock.ClockFields | netlify/functions/info.js:126 | the hour, minute and second of the time value n*1000 are (n/3600) mod 24, (n/60) mod 60 and n mod 60 |
| Clock.DayDecomposition | netlify/functions/info.js:126 | those three fields recombine to n mod 86400 |
| Clock.ClockRoundTrip | netlify/functions/info.js:126 | the display of n denotes n mod 86400 seconds |
| Clock.ClockExactBelowDay | netlify/functions/info.js:126 | below one day the display denotes exactly n seconds |
| Clock.TwoDigitsOfValue | netlify/functions/info.js:126 | two digits are rewritten identically from their value |
| Clock.FieldsOfValue | netlify/functions/info.js:126 | hh*3600 + mm*60 + ss splits back into hh, mm, ss |
| Clock.ClockTextOfValue | netlify/functions/info.js:126 | every `HH:MM:SS` text is the display of the seconds it denotes (the display is onto) |
| Clock.ClockWrapsDaily | netlify/functions/info.js:126 | durations a day apart display the same: the display wraps at 24 hours |
| InfoHandler.ContainsFrom | netlify/functions/info.js:148 | a substring occurrence at or after a position is found exactly when one exists |
| InfoHandler.Contains | netlify/functions/info.js:148 | `includes` is true exactly when the text occurs at some position |
| InfoHandler.CheckRequest | netlify/functions/info.js:83-113 | the guards pass exactly when the request is admissible (POST, a JSON body whose `url` is truthy in JavaScript's sense — `Falsy` models `!url` — and a string with a video id, a non-empty key), and then yield that id and key; MethodGuard, JsonGuard, NullBodyRejected, UrlGuard, UrlNotStringGuard, VideoIdGuard and ApiKeyGuard give each refusal |
| InfoHandler.RequestPath | netlify/functions/info.js:15 | the videos path with `part=snippet,contentDetails`, the id and the key; Handle states it is the path requested exactly when the guards pass |
| InfoHandler.ClassifyReply | netlify/functions/info.js:28-44 | a reply is usable exactly when `response.error` is not truthy (a falsy or absent `error` is `None`) and `items` is non-empty, and then its first item is used; UpstreamFault, ApiErrorReply, NoItemsReply and SuccessReply give each outcome |
| InfoHandler.Describe | netlify/functions/info.js:124-129 | a body is built exactly when the duration contains `PT`, otherwise a TypeError; it copies the title, thumbnail and channel name, and its duration is a clock text denoting the parsed seconds mod 86400 |
| InfoHandler.StatusFor | netlify/functions/info.js:148 | 400 or 500 by whether the message contains "無效"; StatusWithoutInvalid and StatusWithInvalidPrefix give it on the handler's messages |
| InfoHandler.ErrorResponse | netlify/functions/info.js:148-159 | the error report with the generic error text and the error's message, name and code; Handle states its status rule |
| InfoHandler.Handle | netlify/functions/info.js:59-161 | CORS headers always; status 200, 400 or 500; 200 exactly when no error report; empty body exactly for OPTIONS; an error report says "處理請求時發生錯誤" and is 400 exactly when its message contains "無效"; a request is made exactly when every guard passes, and it is the API path for the extracted id and the key |
| InfoHandler.StatusWithoutInvalid | netlify/functions/info.js:148 | a message without "無" gets 500 |
| InfoHandler.StatusWithInvalidPrefix | netlify/functions/info.js:148 | a message starting with "無效" gets 400 |
| InfoHandler.InvalidJsonStatus | netlify/functions/info.js:88-93 | malformed JSON gets 400 whatever the parser's message |
| InfoHandler.OptionsPreflight | netlify/functions/info.js:68-74 | OPTIONS is answered 200 with an empty body and no request, whatever else holds |
| InfoHandler.MethodGuard | netlify/functions/info.js:83-85 | any other method than POST is refused with 500 "只允許 POST 請求" and no request |
| InfoHandler.JsonGuard | netlify/functions/info.js:88-93 | a body that is not JSON is refused with 400 and the parser's message after "無效的 JSON 格式: " |
| InfoHandler.NullBodyRejected | netlify/functions/info.js:95 | the JSON body `null` fails at the destructuring with a 500 TypeError report and no request |
| InfoHandler.UrlGuard | netlify/functions/info.js:97-99 | a missing or falsy `url` is refused with 500 "未提供 URL" and no request |
| InfoHandler.UrlNotStringGuard | netlify/functions/info.js:6 | a truthy `url` that is not a string has no `match` method: a 500 TypeError report and no request |
| InfoHandler.VideoIdGuard | netlify/functions/info.js:104-107 | a URL without a video id is refused with 400 "無效的 YouTube URL" and no request |
| InfoHandler.ApiKeyGuard | netlify/functions/info.js:110-113 | a missing or empty API key is refused with 500 "未設置 YouTube API 密鑰" and no request |
| InfoHandler.Refused | netlify/functions/info.js:139-159 | a request stopped by a guard is answered with that guard's error report and no request |
| InfoHandler.UpstreamIgnoredWithoutRequest | netlify/functions/info.js:83-118 | when no request is made, the answer does not depend on the upstream |
| InfoHandler.UpstreamFault | netlify/functions/info.js:36-44 | a network error or an unparsable reply is reported with its own message, name and code |
| InfoHandler.ApiErrorReply | netlify/functions/info.js:29-30 | a reply whose `error` is truthy (`Reply(Some(m), _)`) is reported with its message m, with status 400 exactly when m contains "無效" |
| InfoHandler.NoItemsReply | netlify/functions/info.js:31-32 | a reply with no or empty `items` is refused with 500 "找不到影片" |
| InfoHandler.UnreadableDuration | netlify/functions/info.js:52-53 | a first item whose duration has no `PT` gives a 500 TypeError |
| InfoHandler.SuccessReply | netlify/functions/info.js:118-137 | otherwise 200 with the first item's title, thumbnail, channel name and its parsed duration displayed |
| InfoHandler.Delivered | netlify/functions/info.js:118-137 | once the guards pass and the reply and item are usable, the answer is 200 with the built body |
| InfoHandler.ThreeMinutesTwentyParsed | netlify/functions/info.js:51-57 | `PT3M20S` reads as 200 seconds |
| InfoHandler.ThreeMinutesTwentyShown | netlify/functions/info.js:126 | 200 seconds display as `00:03:20` |
| InfoHandler.WatchUrlScenario | netlify/functions/info.js:59-137 | a POST of `base?v=ID[&...]` with a key and a `PT3M20S` video makes one request for ID and answers 200 with `00:03:20` |
| InfoHandler.ShortLinkScenario | netlify/functions/info.js:104-107 | a `youtu.be/ID` link is refused with 400 "無效的 YouTube URL" before any request |

## Left out

- The HTTPS request, its `data`/`end`/`error` events and the `data += chunk` accumulation (lines 12-47): the model receives their outcome as the `Upstream` parameter, with the reply already run through `JSON.parse`.
- `console.log` and `console.error` (lines 77-81, 90, 101, 115, 121, 131, 140-145): they have no effect on the response.
- `process.env.YOUTUBE_API_KEY` and `event.body`'s `JSON.parse`: both are inputs. A body that fails to parse is represented by the parser's message.
- The JSON serialisation of the response body (`JSON.stringify`, lines 136 and 153-158): the body is modelled as a datatype. The detail that a missing `code` is left out of the serialised object is not modelled.
- Items whose `snippet`, `thumbnails.default` or `contentDetails` are missing (lines 119-128) would throw a TypeError (500). The model takes those fields as present strings.
- Clock.ClockText: does not model the extended-year form that `toISOString` produces from year 10000 on (durations of at least 253402300800 seconds shift the substring), nor the RangeError beyond 8.64e15 ms. Below those bounds it is exact.
- Duration.ParseDuration: the digit groups are read as unbounded integers. `parseInt` returns an IEEE double, which loses precision above 2^53; this is not modelled.
- The exact wording of the TypeErrors that V8 raises (a `null` body, a non-string `url`, a duration without `PT`) is modelled by fixed message constants. Only their type name `TypeError` and the absence of "無效" from them matter to the answer.
- A `url` that is a non-empty string is the only truthy `url` that reaches `extractVideoId` as text. Other truthy values (numbers, objects, arrays) have no `match` method and give a 500 TypeError; the model keeps only whether the value is truthy.
- InfoHandler.ApiErrorReply: an upstream error message that itself contains "無效" gets 400. The model follows the code here, whatever the intention.
- The site's front end (`script.js`) and the download function (`download.js`) are not part of this model.
- A method other than POST or OPTIONS is answered 500: the Error thrown at info.js:84 has no "無效" in its message (InfoHandler.MethodGuard).
- A `youtu.be/ID` short link has no `v` parameter, so `extractVideoId` returns `null` and the answer is 400 "無效的 YouTube URL" (InfoHandler.ShortLinkScenario).
- A reply that parses to JSON `null` throws a TypeError at line 29, which reaches `reject` at line 37; the model represents it as `UnreadableReply` with that fault.
- A truthy `items` whose `length` is not 0 but which is not an array of items (such as `{}` or `"abc"`) passes line 31 and then fails at line 125 with a 500 TypeError. The model's `Option<seq<VideoItem>>` cannot express such a value, so this case is not modelled.
- InfoHandler.Handle: `request` is the path handed to `https.request`. Node refuses a path holding a character outside U+0021-U+00FF (a space, or an id in CJK characters) with a TypeError `ERR_UNESCAPED_CHARACTERS` before anything is sent; the model still reports that path, and the answer for it is the one given by `RequestError(..)` with that TypeError.
