# BoyThrob follower counter, modelled in Dafny

BoyThrob is a band website with a follower counter for its TikTok account. This project models the part of it that finds and shows that count:

- **The lightweight endpoint** (`api/tiktok-followers.js`). It fetches the account's TikTok page and looks for the count three ways, in order:
  1. the `SIGI_STATE` JSON, searched depth-first for a follower-like key;
  2. the `og:description` meta text;
  3. raw key patterns in the HTML, then an "N followers" phrase.
  It coerces text such as `"12.5K"` or `"3,400"` to a number. It caches each answer for 60 s under a lower-cased user name, and answers network failures and non-OK pages with an explanatory field.
- **The browser-backed endpoint** (`tiktok-playwright.js`). It picks the count from the texts of elements that mention "followers", then from two JSON keys in the page, then from the description. It caches JSON payloads and screenshots for 30 s under the user name plus `:json` or `:img`.
- **The banner** (`src/components/Banner.jsx`). A four-track audio player moved by Prev / Play-Pause / Next and by the audio element's events. It also chooses the vertical or the main background video from the window's shape.
- **The follower card** (`src/components/Mission.jsx`). From the endpoint's last body and fetch error it shows one of four things: loading, an error box with a message, a dash, or the count.

JavaScript values are modelled explicitly:
- Numbers are `JsNum`: an exact real, `NaN` or an infinity.
- A parsed JSON document is a heap of containers with ordered entries, so the visited-set guard of the deep search is meaningful.
- Strings are `seq<char>`, and the `/i` regular expressions fold ASCII case.

Each text regular expression the core runs is a deterministic scanner (`...At`) plus `Leftmost`, which is `String.prototype.match`.

The code's imperative parts are Dafny methods proved equal to the specification functions the lemmas speak about:
- the deep search loops;
- the key-pattern loop;
- the strategy chain that reassigns `followers`;
- the candidate loop with early returns;
- both handlers, as classes holding the cache map;
- the banner, as a class holding its state variables.

`end_to_end.dfy` connects the endpoint's answers to what the card shows.

## Model

| member | source | states |
|---|---|---|
| JsText.Lower | api/tiktok-followers.js:145 | `toLowerCase` maps each character to its ASCII lower case and keeps the length |
| JsText.LowerChar | api/tiktok-followers.js:145 | lower-casing folds 'A'..'Z' onto 'a'..'z' and leaves other characters alone |
| JsText.StartsWithCIMeans | api/tiktok-followers.js:10 | a case-insensitive prefix match holds iff every position agrees after lower-casing |
| JsText.ContainsCIMeans | api/tiktok-followers.js:10 | an unanchored case-insensitive test holds iff some position starts a match |
| JsText.TrimStart | api/tiktok-followers.js:15 | the trimmed text never starts with white space |
| JsText.TrimStartRemovesSpaces | api/tiktok-followers.js:15 | the start of a trim removes a prefix made only of white space and keeps the rest |
| JsText.TrimEnd | api/tiktok-followers.js:15 | the trimmed text never ends with white space |
| JsText.TrimEndRemovesSpaces | api/tiktok-followers.js:15 | the end of a trim removes a suffix made only of white space and keeps the rest |
| JsText.TrimIgnoresPadding | api/tiktok-followers.js:144 | white space around a text does not change its trim |
| JsText.TrimLower | api/tiktok-followers.js:144-145 | trimming and lower-casing commute |
| JsText.DigitsOnlyAppend | api/tiktok-followers.js:27 | `replace(/[^\d]/g, "")` distributes over concatenation |
| JsNumber.ParseDecimal | api/tiktok-followers.js:19 | `Number` on digits and dots is never infinite, and non-negative when it is a number |
| CountText.DigitlessDecimal | api/tiktok-followers.js:19 | dots without digits are NaN for `Number` |
| JsNumber.ParseDecimalIsScaledDigits | api/tiktok-followers.js:19 | a parsed decimal equals its digits' integer value divided by ten to the number of fraction digits |
| JsNumber.MathRound | api/tiktok-followers.js:20 | `Math.round` is the integer nearest to x, halves rounding up |
| JsNumber.DigitsValueAppend | api/tiktok-followers.js:28 | the value of a digit string extends digit by digit (`Number` of a digit run) |
| JsNumber.NatToStringValue | api/tiktok-followers.js:178 | the decimal text written for a status reads back as that status, with no leading zero |
| CountText.Clean | api/tiktok-followers.js:15 | the clean-up keeps only digits, dots, commas and K/M letters |
| CountText.DigitsOnlyClean | api/tiktok-followers.js:15-27 | the clean-up keeps every digit in order |
| CountText.CleanIsTrimmed | api/tiktok-followers.js:15 | the `trim()` after the clean-up never changes anything |
| CountText.SuffixPart | api/tiktok-followers.js:17-22 | the anchored suffix pattern matches iff the text ends in the letter after a non-empty numeral, and captures that numeral |
| CountText.NumeralIsScaledDigits | api/tiktok-followers.js:19-24 | a numeral's value after comma removal is its digits scaled by its fraction length |
| CountText.DigitlessNumeral | api/tiktok-followers.js:19 | a digit-free numeral is 0 when it is all commas and NaN otherwise |
| ApiCoercion.NumbersPassThrough | api/tiktok-followers.js:13 | a number argument is returned iff it is finite; NaN and infinities give null |
| ApiCoercion.NonStringsAreNull | api/tiktok-followers.js:14 | null, booleans and objects give null |
| ApiCoercion.StringResultIsCount | api/tiktok-followers.js:12-30 | anything a string yields is a non-negative integer |
| ApiCoercion.SuffixScaling | api/tiktok-followers.js:17-26 | a final M or K whose numeral is a number gives the numeral's digits times 10^6 or 10^3, over the fraction scale, rounded half up |
| ApiCoercion.DigitsFallback | api/tiktok-followers.js:20-29 | when no suffix rule yields a number (no suffix, or a NaN numeral), the result is the integer of all digits, or null without digits |
| ApiCoercion.NoDigitsIsNull | api/tiktok-followers.js:16-29 | a digit-free string is null, except a K/M after commas only, which is 0 |
| ApiCoercion.ExampleThousands | api/tiktok-followers.js:22-25 | "12.5K" gives 12500 |
| ApiCoercion.ExampleMillions | api/tiktok-followers.js:17-20 | "1.2M" gives 1200000 |
| ApiCoercion.ExampleMalformed | api/tiktok-followers.js:24-28 | "1.2.3K" fails the NaN guard and falls through to 123 |
| ApiCoercion.ExampleSeparators | api/tiktok-followers.js:27-28 | "3,400" gives 3400 |
| ApiCoercion.ExampleZero | api/tiktok-followers.js:16-28 | "0" gives 0, not null |
| ApiCoercion.ExampleWords | api/tiktok-followers.js:16 | "abc" gives null |
| ApiCoercion.ExampleCommasOnly | api/tiktok-followers.js:17-20 | ",M" gives 0 since `Number("")` is 0 |
| BrowserCoercion.FalsyIsNull | tiktok-playwright.js:14 | every falsy argument, numeric 0 included, gives null |
| BrowserCoercion.ZeroDiffersFromApi | tiktok-playwright.js:14 | the two variants disagree on a numeric 0 |
| BrowserCoercion.NumbersPassThrough | tiktok-playwright.js:14-15 | a number is returned iff it is finite and non-zero |
| BrowserCoercion.MalformedIsNaN | tiktok-playwright.js:18-21 | without the NaN guard a malformed numeral under a suffix yields NaN |
| BrowserCoercion.NaNOnlyFromSuffix | tiktok-playwright.js:16-24 | NaN arises exactly from a NaN numeral under the first suffix rule that applies |
| BrowserCoercion.AgreesWithApiOnStrings | tiktok-playwright.js:16-24 | apart from NaN both variants read every string alike |
| BrowserCoercion.StringResultIsCount | tiktok-playwright.js:16-24 | any finite result from a string is a non-negative integer |
| ApiKeys.KeyMatchesMeans | api/tiktok-followers.js:10 | `KEY_REGEX.test(key)` holds iff the key contains one of the nine words, in any case |
| ApiKeys.KeyMatchesWithin | api/tiktok-followers.js:10 | the test is unanchored: surrounding text keeps a key matching |
| ApiKeys.ExampleCamelCase | api/tiktok-followers.js:10 | "followerCount" matches |
| ApiKeys.ExampleUpperCase | api/tiktok-followers.js:10 | "FANS" matches |
| ApiKeys.ExampleOtherKey | api/tiktok-followers.js:10 | "bio" does not match |
| ApiDeepSearch.Deep | api/tiktok-followers.js:32-36 | the search only grows the visited set, and a container it is given ends up visited |
| ApiDeepSearch.ScanFirst | api/tiktok-followers.js:37-63 | the first loop only grows the visited set |
| ApiDeepSearch.ScanSecond | api/tiktok-followers.js:65-71 | the second loop only grows the visited set |
| ApiDeepSearch.DeepIsFirstLoop | api/tiktok-followers.js:33-35 | a non-object or visited value gives null; otherwise the container is marked and its entries scanned |
| ApiDeepSearch.FirstLoopVisitsChildren | api/tiktok-followers.js:47-49 | when the first loop finds nothing, every child container has been visited |
| ApiDeepSearch.SecondLoopInert | api/tiktok-followers.js:65-71 | over visited children the second loop finds nothing and changes nothing |
| ApiDeepSearch.QuietMeans | api/tiktok-followers.js:42-58 | an entry is passed over by both early returns of the first loop iff it is a hit for no value |
| ApiDeepSearch.DeepFindsHits | api/tiktok-followers.js:32-58 | a returned value is a hit (coerced under a matching key, or a string of at least 10) in a container reachable from the start and not visited before |
| ApiDeepSearch.ScanFirstFindsHits | api/tiktok-followers.js:37-58 | a value the first loop returns is a hit among the remaining entries, or below a container among them |
| ApiDeepSearch.DeepComplete | api/tiktok-followers.js:32-66 | a search that returns null has fully scanned every container it marked: no hit in it, and every container it refers to marked |
| ApiDeepSearch.ScanFirstComplete | api/tiktok-followers.js:37-58 | a first loop that returns null saw no hit among the remaining entries and fully scanned every container it marked |
| ApiDeepSearch.SearchComplete | api/tiktok-followers.js:32-66 | completeness: a null result from a container means no container reachable from it, through any references and cycles, holds a hit |
| ApiDeepSearch.QuietPrefix | api/tiktok-followers.js:37-58 | keys that are neither hits nor objects are passed over without visiting anything |
| ApiDeepSearch.FirstHitWins | api/tiktok-followers.js:37-58 | in `Object.keys` order, the first key holding a hit gives the answer when no object comes before it, whatever follows |
| ApiDeepSearch.NestedHitWins | api/tiktok-followers.js:37-49 | depth first: a count found inside an earlier nested object is the answer, whatever hits later keys hold |
| ApiDeepSearch.FindFollowerDeep | api/tiktok-followers.js:32-74 | the recursive procedure with its two loops returns exactly what the specification function gives, visited set included |
| ApiDeepSearch.ExampleNested | api/tiktok-followers.js:42-49 | a count one level down is found |
| ApiDeepSearch.ExampleCycleAndZero | api/tiktok-followers.js:34-44 | a self-referencing object is visited once and a 0 under "fans" is returned |
| ApiDeepSearch.ExampleNumberUnderOtherKey | api/tiktok-followers.js:42-58 | a number under a non-matching key is not returned |
| ApiDeepSearch.ExampleDepthFirst | api/tiktok-followers.js:45-49 | `{"stats": {"fans": 5}, "followerCount": 99}` gives 5, from the nested object before the later key |
| ApiDeepSearch.ExamplePrimitiveRoot | api/tiktok-followers.js:33 | a non-object root gives null |
| TextPatterns.LeftmostMeans | api/tiktok-followers.js:124 | `match` fails iff the pattern matches nowhere, and otherwise reports the first position that matches |
| TextPatterns.KeyNumberAt | api/tiktok-followers.js:118-121 | a key pattern's capture is a digit run of at least the minimum length |
| TextPatterns.KeyNumberAtCaptures | api/tiktok-followers.js:118-121 | key, colon and digits capture the whole digit run, or nothing when too short |
| TextPatterns.KeyNumberAnywhere | api/tiktok-followers.js:124 | a key pattern is found iff it matches at some position |
| TextPatterns.FirstKeyNumberMeans | api/tiktok-followers.js:123-126 | the first key pattern that matches decides |
| TextPatterns.FirstKeyNumberNone | api/tiktok-followers.js:123-126 | when no key pattern matches, none is reported |
| ApiStrategies.SigIOrder | api/tiktok-followers.js:90-114 | the trimmed script block wins when it yields a count; otherwise the window assignment is parsed; a parse failure is caught and falls through |
| ApiStrategies.OgNumberAt | api/tiktok-followers.js:81 | `([\d.,]+(?:\s*[kKmM])?)[^\d]*followers?` at a position: the capture is never empty |
| ApiStrategies.OgNumberAtMeans | api/tiktok-followers.js:81 | the description pattern matches at a position iff a numeral starts there and "follower" follows it before any digit |
| ApiStrategies.OgAtPlain | api/tiktok-followers.js:81 | a numeral with no suffix letter, then "follower" before any digit: the capture is the numeral alone |
| ApiStrategies.OgAtSuffix | api/tiktok-followers.js:81 | a numeral, white space and a K/M letter, then "follower" before any digit: the capture is the numeral with the spaces and the letter |
| ApiStrategies.ExampleOgDescription | api/tiktok-followers.js:76-86 | the description "1.2M Followers on TikTok" gives 1200000 |
| ApiStrategies.HumanAtPlain | api/tiktok-followers.js:127 | a numeral, white space and "follower" capture the numeral alone |
| ApiStrategies.HumanAtSuffix | api/tiktok-followers.js:127 | a numeral, white space, a K/M letter and "follower" capture the numeral with its letter |
| ApiStrategies.HumanIsOgNumber | api/tiktok-followers.js:127 | every phrase the "N followers" pattern accepts is also accepted by the description pattern |
| ApiStrategies.ByRegexKeyPriority | api/tiktok-followers.js:117-126 | the first of the four key patterns that matches gives `Number` of its digits |
| ApiStrategies.ByRegexHumanLast | api/tiktok-followers.js:127-129 | only when no key pattern matches is the "N followers" phrase coerced |
| ApiStrategies.TryExtractByRegex | api/tiktok-followers.js:116-130 | the loop with its early return computes the raw-pattern strategy |
| ApiStrategies.ExtractOrder | api/tiktok-followers.js:187-200 | the count is the first strategy's that is non-null, its source names that strategy, and both are null iff every strategy is |
| ApiStrategies.DetectFollowers | api/tiktok-followers.js:188-200 | the step-by-step reassignment of `followers` and `source` computes the chain |
| ApiStrategies.ExampleKeyPattern | api/tiktok-followers.js:118-125 | `"followerCount":42` gives 42 |
| ApiStrategies.ExampleOneDigit | api/tiktok-followers.js:120 | a one-digit value does not satisfy `[0-9]{2,}` |
| ApiHandler.AbsentUserIsUndefined | api/tiktok-followers.js:144-145 | with neither parameter the key is the text "undefined" |
| ApiHandler.EmptyUserIsDefault | api/tiktok-followers.js:144-145 | a name that is empty after "@" stripping and trimming gives the default user |
| ApiHandler.KeyIgnoresCase | api/tiktok-followers.js:145 | names that lower-case alike share a key |
| ApiHandler.KeyIgnoresAt | api/tiktok-followers.js:144 | one leading "@" does not change the key |
| ApiHandler.KeyIgnoresPadding | api/tiktok-followers.js:144 | surrounding white space does not change the key |
| ApiHandler.KeyKeepsAtAfterSpace | api/tiktok-followers.js:144 | an "@" after leading white space survives, since stripping happens before trimming |
| ApiHandler.ExampleCollisions | api/tiktok-followers.js:144-145 | "@Foo", " Foo " and "foo" share a key |
| ApiHandler.ExampleAtAfterSpace | api/tiktok-followers.js:144-145 | " @Foo" has the key "@foo" |
| ApiHandler.CachedIffFresh | api/tiktok-followers.js:146-152 | the answer is marked cached iff the key holds an entry younger than 60 s |
| ApiHandler.HitReturnsStored | api/tiktok-followers.js:151 | a hit answers the stored value, null included, and leaves the cache unchanged |
| ApiHandler.MissWrites | api/tiktok-followers.js:169-202 | a miss writes the value it answers under the key and leaves every other key alone |
| ApiHandler.MissResponse | api/tiktok-followers.js:164-213 | network error: null with "network_error"; non-OK: null with "fetch returned <status>" and debug on request; otherwise the extracted count |
| ApiHandler.RepeatWithinTtl | api/tiktok-followers.js:147-202 | a second request within 60 s of the write answers the first count from the cache |
| ApiHandler.StaleAtTtl | api/tiktok-followers.js:147 | at exactly 60 s the entry is stale |
| ApiHandler.FollowerService.constructor | api/tiktok-followers.js:8 | the cache starts empty |
| ApiHandler.FollowerService.Handle | api/tiktok-followers.js:142-217 | the handler's new cache and answer are exactly the specification's |
| BrowserExtractor.DomAt | tiktok-playwright.js:41 | the DOM pattern matches at a position iff it holds a digit, dot or comma |
| BrowserExtractor.SecondAt | tiktok-playwright.js:46 | the second pattern needs two digits first |
| BrowserExtractor.OgAt | tiktok-playwright.js:58 | the description pattern matches only where the DOM pattern does |
| BrowserExtractor.DomFindsRunChar | tiktok-playwright.js:41-42 | the DOM pattern matches a text iff it contains a digit, a dot or a comma |
| BrowserExtractor.SecondNeverFires | tiktok-playwright.js:46-47 | the second pattern can only match where the first already did, so it never decides |
| BrowserExtractor.CandidateMatchMeans | tiktok-playwright.js:40-48 | a candidate yields a match iff it has a digit, dot or comma, and the match is the DOM capture |
| BrowserExtractor.FirstCandidateMatchMeans | tiktok-playwright.js:40-48 | the first candidate with a match decides |
| BrowserExtractor.DomWins | tiktok-playwright.js:40-48 | the source is "dom" iff some candidate has a digit, dot or comma, a lone "." included |
| BrowserExtractor.DomResult | tiktok-playwright.js:40-44 | the DOM result is the leftmost DOM capture of the first such candidate |
| BrowserExtractor.FallbackOrder | tiktok-playwright.js:50-62 | without a candidate: "followerCount" then "follower_count" with one digit enough, then the description, then null |
| BrowserExtractor.ExtractFollowersFromPage | tiktok-playwright.js:28-63 | the loop with early returns and the two fallbacks compute the specification |
| BrowserExtractor.ExampleLoneDot | tiktok-playwright.js:41 | a lone "." is a DOM match |
| BrowserHandler.KeySuffix | tiktok-playwright.js:76-77 | the key ends in ":img" iff a screenshot is requested |
| BrowserHandler.ServeKeepsValid | tiktok-playwright.js:154-169 | image keys hold images and JSON keys hold payloads, before and after every request |
| BrowserHandler.KeysSeparate | tiktok-playwright.js:75-77 | equal keys mean the same mode and the same name, case included |
| BrowserHandler.ExampleCaseKept | tiktok-playwright.js:75-77 | "Foo" and "foo" have different keys |
| BrowserHandler.HitIffFresh | tiktok-playwright.js:78-86 | an entry younger than 30 s answers and nothing changes; otherwise a completed run stores a fresh entry |
| BrowserHandler.ImageHit | tiktok-playwright.js:79-82 | a screenshot hit answers the stored image, and a stored failed screenshot is a 500 for 30 s |
| BrowserHandler.JsonHit | tiktok-playwright.js:84 | a JSON hit answers the stored payload |
| BrowserHandler.MissOutcomes | tiktok-playwright.js:89-162 | a browser failure is a 500 with no write; a failed screenshot is cached as null and answered with "screenshot_failed"; a screenshot is cached and sent |
| BrowserHandler.PayloadOfExtraction | tiktok-playwright.js:108-170 | the payload's count is the coerced text or null, its source is the extractor's, and it is cached |
| BrowserHandler.NaNIsSentAsNull | tiktok-playwright.js:109-170 | a count text that coerces to NaN is answered and cached as NaN, and `JSON.stringify` sends it as null |
| BrowserHandler.BrowserService.constructor | tiktok-playwright.js:11 | the cache starts empty and well-formed |
| BrowserHandler.BrowserService.Handle | tiktok-playwright.js:74-170 | the handler keeps the cache well-formed, and its new cache and answer are the specification's |
| Banner.NextIndex | src/components/Banner.jsx:133 | the next index is inside the playlist |
| Banner.PrevIndex | src/components/Banner.jsx:138 | the previous index is inside the playlist |
| Banner.TransitionsStayInRange | src/components/Banner.jsx:95-140 | every transition keeps the index in [0, 4) |
| Banner.NextPrevPlay | src/components/Banner.jsx:134-139 | Next and Prev always set playing |
| Banner.PrevUndoesNext | src/components/Banner.jsx:133-138 | Prev undoes Next and Next undoes Prev |
| Banner.NextTimesWraps | src/components/Banner.jsx:133 | n presses of Next move n places modulo 4 |
| Banner.NextCycles | src/components/Banner.jsx:133 | four presses of Next return to the starting track |
| Banner.EndedNeverWraps | src/components/Banner.jsx:95-101 | `ended` advances and keeps playing before the last track, and stops in place on it |
| Banner.EndedTimesPlaysThrough | src/components/Banner.jsx:95-101 | repeated `ended` events play on to the last track, then stop there |
| Banner.ToggleMeans | src/components/Banner.jsx:117-130 | Play/Pause keeps the track, and it is playing afterwards iff it was paused and `play()` succeeded |
| Banner.OrElse | src/components/Banner.jsx:32-33 | a zero inner size falls back to the client size |
| Banner.TallOrSmallIsRatio | src/components/Banner.jsx:31-36 | the cross-multiplied test equals `h / max(1, w) >= 1.7 \|\| w <= 480` on exact ratios |
| Banner.SmallIsPortrait | src/components/Banner.jsx:35 | a width of at most 480 always gives the vertical layout |
| Banner.WideIsPortraitIffTall | src/components/Banner.jsx:34-35 | a wider window is vertical iff 10 h >= 17 w |
| Banner.VideoFor | src/components/Banner.jsx:40-48 | the vertical video is chosen iff the layout is vertical |
| Banner.Banner.constructor | src/components/Banner.jsx:27-84 | mounting starts on track 0, paused, with the layout of the window and the first track loaded |
| Banner.Banner.Relayout | src/components/Banner.jsx:43-49 | a resize sets the layout and the matching video and nothing else |
| Banner.Banner.NextTrack | src/components/Banner.jsx:132-135 | the state becomes Next of the old state |
| Banner.Banner.PrevTrack | src/components/Banner.jsx:137-140 | the state becomes Prev of the old state |
| Banner.Banner.OnEnded | src/components/Banner.jsx:95-101 | the state becomes Ended of the old state |
| Banner.Banner.OnPlay | src/components/Banner.jsx:103 | playing becomes true |
| Banner.Banner.OnPause | src/components/Banner.jsx:104 | playing becomes false |
| Banner.Banner.TogglePlayPause | src/components/Banner.jsx:117-130 | the state becomes Toggle of the old state; an empty source gets the current track |
| Banner.Banner.OnTrackChanged | src/components/Banner.jsx:80-88 | the current track is loaded, and a refused `play()` stops the player |
| Mission.OrNull | src/components/Mission.jsx:14 | `?? null` turns only an absent value or null into null |
| Mission.ErrorMessage | src/components/Mission.jsx:42 | the error box always shows a non-empty message |
| Mission.LoadingIff | src/components/Mission.jsx:15-37 | loading shows iff there is neither a body nor an error |
| Mission.ErrorWithoutBody | src/components/Mission.jsx:19-42 | a failed first request shows the fallback message |
| Mission.ErrorIff | src/components/Mission.jsx:19-43 | the error box shows iff the request failed, `error` or `note` is truthy, or `followers` is exactly null on a response neither cached nor debug |
| Mission.NoDataIff | src/components/Mission.jsx:14-45 | the dash shows iff there is no error or note and `followers` is absent, or null on a cached or debug response |
| Mission.SuccessIff | src/components/Mission.jsx:14-47 | the count shows iff there is no error or note and `followers` is present and not null, and it is that value |
| Mission.ZeroIsShown | src/components/Mission.jsx:14-47 | a count of 0 is shown, not the dash |
| Mission.CachedNullIsNoData | src/components/Mission.jsx:19-45 | a cached null shows the dash |
| Mission.MissingFollowersIsNoData | src/components/Mission.jsx:14-45 | a body without `followers` shows the dash |
| Mission.FreshNullIsError | src/components/Mission.jsx:19-20 | a fresh null without explanation shows "no follower value found" |
| Mission.MessagePriority | src/components/Mission.jsx:20-42 | the message is the note, else the error, else "no follower value found" for a null count, else "Unable to fetch followers" |
| EndToEnd.BodyOf | api/tiktok-followers.js:151-206 | the body is null-valued iff there is no count, and carries `cached` and `debug` exactly when the handler sets them |
| EndToEnd.CardAfterServe | src/components/Mission.jsx:14-48 | what the card shows for each answer: the stored count or the dash on a hit, "network_error", "fetch returned <status>", the count, or "no follower value found" (the dash for a debug request) |
| EndToEnd.CardQueryShowsMissingCount | src/components/Mission.jsx:10 | the card's own request never asks for debug, so a page without a count shows as an error |

## Left out

- I/O is not modelled: the HTTP plumbing (CORS headers, the OPTIONS answer, status codes, logging), the debug snippets and the `details` fields. The outcome of `fetch` is a parameter.
- The clock is not modelled: `Date.now()` is given as the lookup time `now` and the write time `storedAt`.
- The browser is not modelled: launch, navigation, the element query, `page.content()` and the screenshot capture are inputs. The screenshot is given as present or absent.
- `JSON.parse` is a function parameter.
- The regular expressions that locate the `SIGI_STATE` script, the window assignment and the `og:description` meta tag are not modelled. Their captures are inputs (`Located`, and the `ogContent` of a page). The model does not tie those captures to the HTML text.
- The catch-all 500 answer of the lightweight endpoint has no path in the model, because no modelled step throws. The browser endpoint's 500 is modelled for a browser failure and for a cached failed screenshot.
- A stack overflow of the deep search on very deep JSON, caught by the `try`, is not modelled; the model recurses without a depth limit.
- The `WeakSet` of visited objects is threaded through the deep search as a set value.
- ApiHandler.FollowerService.Handle: each request is modelled as one atomic step. The code `await`s the fetch and the body read between the cache lookup and the cache write, so two overlapping requests that both miss for one key both fetch, and the one that writes last wins. The sequential `Serve` cannot express that interleaving.
- BrowserHandler.BrowserService.Handle: each request is modelled as one atomic step. The code `await`s the whole browser run between the cache lookup and the cache write, so overlapping misses for one key each launch a browser, and the last write wins.
- Floating point, because numbers are exact reals. In particular `Math.round` of a scaled decimal is exact.
- Banner.TallOrSmallIsRatio: floating-point division is not modelled. The ratio is exact, which differs from the double comparison only for windows wider than any screen.
- ApiHandler.KeyIgnoresCase: `toLowerCase` is modelled for ASCII letters only. Other letters are kept as they are.
- Query values that are arrays (repeated parameters) are not modelled; each parameter is a string or absent.
- The browser endpoint's coercion of non-string `extracted.n` values is not modelled, because `n` is always a string or null.
- The banner's loader overlay, the background video's play calls, the 3 s timer and the 120 ms resize debounce are not modelled. `Relayout` is the debounced callback firing.
- Banner.Banner.TogglePlayPause: the missing-audio-element guard is not modelled, because the element is always rendered. Pausing is modelled as immediate.
- The follower card's refresh interval, its raw-JSON panel and the number formatting (`toLocaleString`) are not modelled.
- Nav, Boys, App and the static file server are context, not part of this model.
