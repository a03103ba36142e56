# wechat-header-mcp: a Dafny model of the server core

This project models the logic inside `src/wechat_header_mcp/server.py`. That
file is an MCP server that generates WeChat article header images through the
Jimeng (Volcengine visual) text-to-image API and crops them to 2.35:1. The
model covers the parts of the server that compute something:

- **Crop geometry** (`Crop`):
  - `ImageCropper.get_crop_params`: a centred rectangle that trims one axis;
  - the `WxH` size strings and the `#crop=x,y,w,h` URL of
    `smart_crop_to_ratio`.
- **Request signing** (`Signing`, `Bytes`): `JiemengAPIClient._sign_request`.
  This is the vendor's HMAC-SHA256 scheme:
  - the canonical query, the canonical header block and the canonical
    request;
  - the credential scope and the string to sign;
  - the four-step key derivation, the `Authorization` header and the request
    URL.
- **Task client** (`Remote`):
  - the width and height normalisation of `submit_task`, and the bodies it
    and `get_result` sign and send;
  - the checks they apply to the service's answers;
  - the submit-then-poll loop of `generate_image`.
- **Text heuristics** (`Prompts`): `get_style_suggestions` and
  `PromptOptimizer.optimize_prompt`.
- `Text` holds the Python string operations these rely on: `join`,
  `str(int)`, zero-padded `strftime` fields, `in`, string ordering, `strip`
  and `lower`. It also defines `split` and integer parsing, which the server
  does not call. The round-trip lemmas use them to read values back.

Modelling choices:

- The target crop ratio is the exact rational `num / den`, not a float.
- SHA-256 and HMAC-SHA256 are function values carried in a `Crypto` record,
  so every signing property holds for any hash function.
- These are inputs:
  - the UTC instant the signer reads;
  - the JSON serialiser;
  - every answer the service gives (`Reply`);
  - the time each poll takes.
- The server's `async` methods become a method that polls, proved against a
  recursive specification function `PollFrom`.
- Python's truncating `int()` is written out (`Crop.TruncDiv`).

Three behaviours of the code are easy to misread:

- `_sign_request` stops only when a key is `None`. An empty key is signed
  with. `submit_task` and `get_result` reject empty keys before that point.
- The area bounds in `submit_task` (lines 420-424) assign a local that is
  never read. The size sent is therefore clamped only in aspect ratio
  (`Remote.AreaNotClamped`).
- A request of 100 x 1 is sent as 3 x 1. The width shrinks and the height is
  kept.

## Model

| member | source | states |
|---|---|---|
| Crop.GetCropParams | src/wechat_header_mcp/server.py:147-180 | `crop_needed` is always true, and one of the two sides is always the source's own |
| Crop.CropWidthTrim | src/wechat_header_mcp/server.py:159-169 | when `w/h >= ratio`: `y = 0`, full height, width the floor of `h*ratio` and at most `w`, `x = (w - width) // 2`, the band inside the source and centred to within one pixel |
| Crop.CropHeightTrim | src/wechat_header_mcp/server.py:170-180 | when `w/h < ratio`: `x = 0`, full width, height the floor of `w/ratio` and strictly below `h`, `y = (h - height) // 2`, the band inside the source and centred |
| Crop.CropInsideSource | src/wechat_header_mcp/server.py:147-180 | for a positive ratio the rectangle lies inside the source and covers no more pixels than it |
| Crop.CropExactRatio | src/wechat_header_mcp/server.py:159-169 | a source already at the ratio gives the whole image at offset 0,0, still with `crop_needed` true |
| Crop.CropNonPositiveRatio | src/wechat_header_mcp/server.py:159-169 | a ratio of zero or below is not rejected: the width-trim branch runs and the width collapses to zero or below |
| Crop.CropHeaderExample | src/wechat_header_mcp/server.py:170-180 | 2000x1000 at 2.35 keeps rows 74 to 924 at full width |
| Crop.TruncDiv | src/wechat_header_mcp/server.py:161 | `int()` of a quotient by a positive divisor truncates toward zero: `q*b <= a < (q+1)*b` for `a >= 0`, `(q-1)*b < a <= q*b <= 0` below |
| Crop.SizeString | src/wechat_header_mcp/server.py:234-236 | the `WxH` string; `SizeStringRoundTrip` reads it back |
| Crop.CropUrl | src/wechat_header_mcp/server.py:244 | the `#crop=` URL; `CropUrlRoundTrip` reads it back |
| Crop.SizeStringRoundTrip | src/wechat_header_mcp/server.py:234-236 | a `WxH` string splits at `x` into exactly the two integers it was made from |
| Crop.CropUrlShape | src/wechat_header_mcp/server.py:244 | the crop URL is the image URL, `#crop=` and the four fields joined by commas |
| Crop.CropUrlRoundTrip | src/wechat_header_mcp/server.py:244 | the crop URL starts with the image URL and `#crop=`, and its fragment reads back as exactly x, y, width and height, in that order |
| Crop.SmartCrop | src/wechat_header_mcp/server.py:220-311 | `None` exactly when the size probe failed, the height is zero, or the `base64`/`compressed` re-download raised. Otherwise the rectangle is `get_crop_params` of the probed size, with both size strings, and a crop URL exactly for the `params` format |
| Text.Strip | src/wechat_header_mcp/server.py:116 | the stripped prompt is a slice `s[i..j]` of the prompt with only whitespace before `i` and after `j`, and it neither begins nor ends with whitespace |
| Text.LowerAscii | src/wechat_header_mcp/server.py:134-138 | `.lower()` keeps the length, turns each capital ASCII letter into its lower-case letter (code point plus 32), leaves no capital ASCII letter, and keeps every other character |
| Text.IntToStringRoundTrip | src/wechat_header_mcp/server.py:236 | decimal formatting of an integer is undone by parsing, so it is injective |
| Bytes.Utf8 | src/wechat_header_mcp/server.py:339 | `.encode('utf-8')` gives one to four bytes per character |
| Bytes.Utf8Ascii | src/wechat_header_mcp/server.py:339 | an ASCII string encodes to one byte per character, its code point |
| Bytes.Hex | src/wechat_header_mcp/server.py:339 | `hexdigest()` gives two lowercase hex characters per byte: the high nibble's digit, then the low nibble's |
| Bytes.Sha256Hex | src/wechat_header_mcp/server.py:339 | `hashlib.sha256(s.encode('utf-8')).hexdigest()` (also line 359) is made of hex characters only |
| Bytes.HmacOf | src/wechat_header_mcp/server.py:361-362 | `sign(key, msg)`: the supplied HMAC of the UTF-8 message; `SigningKey` and `AuthorizationMatchesXDate` state where it is used |
| Bytes.HexInjective | src/wechat_header_mcp/server.py:339 | equal hex strings come from equal digests |
| Signing.DateStamp | src/wechat_header_mcp/server.py:334 | the date stamp is eight digits whose fields, in `%Y%m%d` order, read back as the year, the month and the day |
| Signing.XDate | src/wechat_header_mcp/server.py:333 | the X-Date value has sixteen characters: the date stamp, `T`, digits reading back as the hour, the minute and the second, in that order, then `Z` |
| Signing.XDateLayout | src/wechat_header_mcp/server.py:332-334 | X-Date is eight digits, `T`, six digits and `Z`, and its first eight characters are the date stamp |
| Signing.DateStampIdentifiesDay | src/wechat_header_mcp/server.py:334 | two instants share a date stamp if and only if they fall on the same UTC day |
| Signing.XDateIdentifiesInstant | src/wechat_header_mcp/server.py:333 | two instants share an X-Date if and only if they are the same second |
| Signing.InsertSorted | src/wechat_header_mcp/server.py:337 | inserting a pair with a fresh key into a key-sorted list keeps it sorted and adds exactly that pair |
| Signing.SortByKey | src/wechat_header_mcp/server.py:337 | `sorted(params.items())` is strictly sorted by key and a permutation of the items |
| Signing.SortedUnique | src/wechat_header_mcp/server.py:337 | two key-sorted lists holding the same pairs are equal |
| Signing.CanonicalQueryOrderFree | src/wechat_header_mcp/server.py:337 | the canonical query does not depend on the insertion order of the parameters |
| Signing.CanonicalQueryOfTwo | src/wechat_header_mcp/server.py:337 | two parameters are rendered smaller key first, as `k=v` items joined by `&` with no encoding |
| Signing.CanonicalQueryExample | src/wechat_header_mcp/server.py:337 | `{b: 2, a: 1}` gives `a=1&b=2` |
| Signing.CanonicalQueryRoundTrip | src/wechat_header_mcp/server.py:337 | when no key or value holds `&` or `=`, the query splits back into one `k=v` item per sorted parameter, each splitting into its key and value |
| Signing.QueryWithoutNewline | src/wechat_header_mcp/server.py:337 | parameters without line breaks give a query without line breaks |
| Signing.Render | src/wechat_header_mcp/server.py:337 | one `k=v` item per parameter; `CanonicalQueryRoundTrip` reads each item back |
| Signing.CanonicalQuery | src/wechat_header_mcp/server.py:337 | the sorted `k=v` items joined by `&`; its order-freedom and read-back are the lemmas above |
| Signing.CanonicalHeaders | src/wechat_header_mcp/server.py:342-345 | the header block starts with `content-type:` and ends with the X-Date value and a line break; `CanonicalRequestSplits` reads its four `name:value` lines back |
| Signing.CanonicalRequest | src/wechat_header_mcp/server.py:347-352 | the canonical request starts with `POST`, `/` and the query, each on its own line, and ends with the payload hash; `CanonicalRequestSplits` reads all its lines back |
| Signing.CredentialScope | src/wechat_header_mcp/server.py:355 | the scope is the date stamp followed by `/cn-north-1/cv/request` |
| Signing.StringToSign | src/wechat_header_mcp/server.py:356-359 | the string to sign starts with the algorithm, X-Date and scope, one per line, ends with the hex hash of the canonical request, and has exactly the length of those four lines, so nothing lies between them |
| Signing.SigningKey | src/wechat_header_mcp/server.py:361-372 | HMAC of the secret by the date, then the region, the service and `request`; `SigningKeyPerDay` states that it depends on the day only |
| Signing.Authorization | src/wechat_header_mcp/server.py:375-377 | the header starts with `HMAC-SHA256 Credential=`, the access key and the scope, and ends with `Signature=` and the signature |
| Signing.CanonicalRequestSplits | src/wechat_header_mcp/server.py:342-352 | the canonical request splits at line breaks into exactly: method, path, query, the four header lines, an empty line, the signed-header list and the payload hash |
| Signing.SignRequest | src/wechat_header_mcp/server.py:326-388 | signing fails if and only if a key is `None`. The URL is the endpoint, `?` and the canonical query. The payload-hash header is the hash of the body, X-Date is the instant's stamp and Content-Type is `application/json` |
| Signing.SigningKeyPerDay | src/wechat_header_mcp/server.py:361-372 | with one secret, two signings on the same UTC day share the date stamp and the signing key, whatever the bodies, queries, access keys or times |
| Signing.AuthorizationMatchesXDate | src/wechat_header_mcp/server.py:355-377 | Authorization is `HMAC-SHA256 Credential=<ak>/<date>/cn-north-1/cv/request, SignedHeaders=content-type;host;x-content-sha256;x-date, Signature=` plus the hex HMAC of the string to sign under that date's key. The date is the first eight characters of the X-Date header |
| Signing.CanonicalRequestMatchesHeaders | src/wechat_header_mcp/server.py:339-384 | the signed canonical request has ten lines. Its last line is the X-Content-Sha256 header and its `x-date:` line carries the X-Date header |
| Remote.ActionQuery | src/wechat_header_mcp/server.py:405-408 | the `Action`/`Version` query, as at lines 405-408 and 471-474, has distinct keys |
| Remote.ActionQueryCanonical | src/wechat_header_mcp/server.py:337 | the canonical form of that query is `Action=<action>&Version=2022-08-31`, whatever the action |
| Remote.BelowThird | src/wechat_header_mcp/server.py:428 | `width / height < 1/3` without dividing; `RatioTests` states that it is the exact ratio test |
| Remote.AboveThree | src/wechat_header_mcp/server.py:430 | `width / height > 3` without dividing; `RatioTests` states that it is the exact ratio test |
| Remote.RatioTests | src/wechat_header_mcp/server.py:427-430 | for any non-zero height the two tests hold exactly when the rational quotient is below 1/3 or above 3 |
| Remote.Configured | src/wechat_header_mcp/server.py:400 | both keys present and non-empty; `SubmitRequest` and `ResultRequest` send nothing otherwise |
| Remote.SubmitBody | src/wechat_header_mcp/server.py:411-439 | the submit body with `req_key`, the prompt, `force_single` and the width and height; `SubmitRequest` states it is what is sent |
| Remote.ResultBody | src/wechat_header_mcp/server.py:476-481 | the result body with `req_key`, the task id and the serialised `req_json`; `ResultRequest` states it is what is sent |
| Remote.ClampAspect | src/wechat_header_mcp/server.py:426-434 | nothing is sent exactly when the height is zero (division by zero) |
| Remote.RequestedSize | src/wechat_header_mcp/server.py:418-440 | 2048x2048 when a dimension is missing, and nothing exactly when both are given and the height is zero |
| Remote.ClampAspectInRange | src/wechat_header_mcp/server.py:426-431 | for positive sides the sent ratio lies in [1/3, 3], only the larger side shrinks and the smaller is kept; a width above three heights becomes `3*h`, a height above three widths becomes `3*w` |
| Remote.ClampAspectKeepsInRange | src/wechat_header_mcp/server.py:426-431 | positive sides are sent unchanged if and only if their ratio already lies in [1/3, 3] |
| Remote.ClampAspectIdempotent | src/wechat_header_mcp/server.py:426-431 | normalising a normalised size changes nothing |
| Remote.AreaNotClamped | src/wechat_header_mcp/server.py:420-424 | the area bounds have no effect: 10000x10000, above 4096x4096, is sent as it is |
| Remote.WideRequestShrinksWidth | src/wechat_header_mcp/server.py:430-431 | 100x1 is sent as 3x1 |
| Remote.SignedPost | src/wechat_header_mcp/server.py:442-446 | the request carries the body that was signed, the canonical-query URL and that body's hash |
| Remote.SubmitRequest | src/wechat_header_mcp/server.py:399-446 | nothing is sent exactly when the keys are missing or empty or the height is zero. Otherwise the body is the serialised submit body with the normalised size, and the request is the signed POST of the `CVSync2AsyncSubmitTask` query, sent to the endpoint with that canonical query |
| Remote.ResultRequest | src/wechat_header_mcp/server.py:466-487 | nothing is sent exactly when the keys are missing or empty. Otherwise the body is the serialised result body, and the request is the signed POST of the `CVSync2AsyncGetResult` query, sent to the endpoint with that canonical query |
| Remote.AcceptedTaskId | src/wechat_header_mcp/server.py:448-453 | a task id comes back if and only if the answer is HTTP 200 with code 10000 and carries one, and it is that id |
| Remote.ResultUrl | src/wechat_header_mcp/server.py:489-496 | a URL comes back if and only if the answer is HTTP 200, code 10000, status `done` and the URL list is non-empty, and it is the first URL |
| Remote.SubmittedTaskId | src/wechat_header_mcp/server.py:399-462 | a task id comes back if and only if the client is configured, the height is not zero and the answer is accepted |
| Remote.SubmitTask | src/wechat_header_mcp/server.py:390-462 | the request sent and the id returned are those of the specification functions above |
| Remote.Truthy | src/wechat_header_mcp/server.py:507 | Python truthiness of an optional string: present and non-empty; `Generate` and `PollFrom` test `if not task_id` and `if image_url` with it |
| Remote.GetResult | src/wechat_header_mcp/server.py:464-501 | a URL comes back if and only if the client is configured and the answer yields one |
| Remote.PollFrom | src/wechat_header_mcp/server.py:515-528 | the poll loop as a recursive specification; the `PollFoundIsFirst`, `PollExpiredSawNothing` and `PollCountWithoutLatency` lemmas state its meaning |
| Remote.PollStart | src/wechat_header_mcp/server.py:515-528 | the elapsed time at which a poll starts: each earlier poll adds its latency and the five-second sleep |
| Remote.PollStartShift | src/wechat_header_mcp/server.py:515-528 | counting from the next poll gives the same start times |
| Remote.PollStartSpacing | src/wechat_header_mcp/server.py:516-528 | polls start at least five seconds apart |
| Remote.Generate | src/wechat_header_mcp/server.py:503-535 | the whole of `generate_image` as a specification; `GenerateEnds` states its outcomes |
| Remote.PollUntil | src/wechat_header_mcp/server.py:515-528 | the `while` loop ends as the recursive poll specification says |
| Remote.GenerateImage | src/wechat_header_mcp/server.py:503-535 | submit then poll gives the outcome and the poll count of the specification `Generate` |
| Remote.GenerateSubmitFailure | src/wechat_header_mcp/server.py:506-512 | a failed submission gives the error result with no poll made |
| Remote.PollFoundIsFirst | src/wechat_header_mcp/server.py:516-526 | a found URL comes from the first usable answer, every earlier poll gave nothing usable, every poll started (latencies included) before `max_wait`, and the time reported is the start of the last poll plus its latency |
| Remote.PollExpiredSawNothing | src/wechat_header_mcp/server.py:516-530 | an expired loop saw nothing usable, every poll it made started (latencies included) before `max_wait`, and the next one would have started at or after it |
| Remote.PollNothingExpires | src/wechat_header_mcp/server.py:516-530 | if no answer is usable the loop expires, whatever the latencies |
| Remote.PollCountWithoutLatency | src/wechat_header_mcp/server.py:516-528 | with instant answers and nothing usable, the loop makes `ceil(max_wait / 5)` polls |
| Remote.GenerateEnds | src/wechat_header_mcp/server.py:503-535 | after an accepted submission the result is success or timeout, naming the task, and every poll starts before `max_wait`. Success carries the first usable URL, the end of that poll as generation time, the prompt and the caller's unadjusted dimensions. Timeout follows polls that all failed, once the next poll would start at or after `max_wait` |
| Remote.GenerateNoWait | src/wechat_header_mcp/server.py:516-535 | a non-positive `max_wait` times out without polling |
| Remote.SuccessReportsRequestedDimensions | src/wechat_header_mcp/server.py:506-525 | a 100x1 request reports `100x1`, although 3x1 was sent |
| Remote.PendingThenDone | src/wechat_header_mcp/server.py:514-526 | two pending answers and then `done` give the first URL after three polls, ten seconds in |
| Remote.NeverReadyTimesOut | src/wechat_header_mcp/server.py:516-535 | with `max_wait` 10 and answers never ready, the loop polls twice and times out |
| Prompts.BaseSuggestions | src/wechat_header_mcp/server.py:769 | the table entry for the content type, or the `casual` entry; `BaseSuggestionsFallback` states it |
| Prompts.BaseSuggestionsFallback | src/wechat_header_mcp/server.py:769 | an unknown content type gets the `casual` list |
| Prompts.MatchesAny | src/wechat_header_mcp/server.py:773-777 | `k1 in s or k2 in s or k3 in s`; `KeepMatching` and `MoodFiltered` state the filter through it |
| Prompts.KeepMatching | src/wechat_header_mcp/server.py:773-777 | the filter keeps exactly the suggestions that contain a key, and no more than there were |
| Prompts.KeepMatchingAppend | src/wechat_header_mcp/server.py:773-777 | the filter distributes over concatenation, so kept styles stay in their original order |
| Prompts.KeepMatchingAll | src/wechat_header_mcp/server.py:773-777 | a list whose every entry matches is kept whole |
| Prompts.MoodKeys | src/wechat_header_mcp/server.py:772-777 | a mood has keywords if and only if it is professional, friendly or creative, and then exactly three |
| Prompts.MoodFiltered | src/wechat_header_mcp/server.py:772-777 | a recognised mood keeps exactly the matching suggestions. Any other mood keeps the list |
| Prompts.OtherMoodKeeps | src/wechat_header_mcp/server.py:772-777 | a mood other than professional, friendly or creative leaves the list unchanged |
| Prompts.ExampleAt | src/wechat_header_mcp/server.py:783-789 | example `k` pairs style `k/2` with base prompt `k%2`; `UsageExamples` is proved to build exactly these |
| Prompts.UsageExamples | src/wechat_header_mcp/server.py:780-789 | there are `2*min(3, len(styles))` examples, and example `k` pairs style `k/2` with base prompt `k%2` as `base + "，" + style` |
| Prompts.GetStyleSuggestions | src/wechat_header_mcp/server.py:768-802 | the report echoes the content type, the mood and the tips. Its styles are the mood-filtered list for the content type, and its examples are as above |
| Prompts.BusinessStyles | src/wechat_header_mcp/server.py:46-47 | the business list is its four styles in table order |
| Prompts.KeepMatchingDropsThird | src/wechat_header_mcp/server.py:773 | when all but the third of four entries match, the filter drops only the third |
| Prompts.BusinessProfessional | src/wechat_header_mcp/server.py:769-773 | business content with the professional mood keeps everything but `corporate style` |
| Prompts.QualityTerms | src/wechat_header_mcp/server.py:119-131 | there are at least three quality terms in every branch |
| Prompts.QualitySuffix | src/wechat_header_mcp/server.py:125-131 | the quality suffix starts with `, ` |
| Prompts.Mentions | src/wechat_header_mcp/server.py:134-138 | the Chinese keyword in the text, or the English one in its lower-cased text; `StyleOf` states the choice through it |
| Prompts.StylePhrase | src/wechat_header_mcp/server.py:135-139 | the three style phrases; `SuffixAsWrittenDiffers` and `OptimizedPromptJoined` place them |
| Prompts.StyleOf | src/wechat_header_mcp/server.py:134-139 | a style is picked only when the text mentions it (its Chinese keyword, or its English one after lower-casing); none is picked if and only if no style is mentioned; nature only when technology is not mentioned, business only when neither of those is |
| Prompts.StyleSuffixAsWritten | src/wechat_header_mcp/server.py:134-139 | the suffix each branch appends, the business one without `, `; `SuffixAsWrittenDiffers` states the difference |
| Prompts.StyleSuffix | src/wechat_header_mcp/server.py:134-139 | a style suffix is empty or starts with `, ` |
| Prompts.SuffixAsWrittenDiffers | src/wechat_header_mcp/server.py:134-139 | the written suffixes match the separated ones except for business, which lacks the leading `, ` |
| Prompts.QualityTermsFree | src/wechat_header_mcp/server.py:121-131 | no quality term of any branch mentions tech, nature or business |
| Prompts.SuffixKeepsStyle | src/wechat_header_mcp/server.py:125-138 | appending `, `-joined terms that mention no style does not change which style the text mentions |
| Prompts.QualityKeepsStyle | src/wechat_header_mcp/server.py:125-138 | the style picked after the quality terms are added is the one the stripped prompt mentions |
| Prompts.AppendStylePhrase | src/wechat_header_mcp/server.py:133-139 | the style step appends the written phrase of the first style the text mentions |
| Prompts.OptimizePrompt | src/wechat_header_mcp/server.py:116-141 | the result is the stripped prompt, its quality suffix and the written phrase of the style the stripped prompt mentions |
| Prompts.StylePhrases | src/wechat_header_mcp/server.py:135-139 | at most one style phrase, and the separated suffix is `, ` and that phrase or empty |
| Prompts.OptimizedPrompt | src/wechat_header_mcp/server.py:116-141 | the corrected optimiser, with `, ` before the business phrase; `OptimizedPromptJoined` states its layout |
| Prompts.OptimizedPromptJoined | src/wechat_header_mcp/server.py:116-141 | the corrected result is the stripped prompt followed by the quality terms and the style phrase, all joined by `, ` |
| Prompts.BusinessPhraseUnseparated | src/wechat_header_mcp/server.py:139 | for a business prompt, the written result runs the last quality term into `professional business style`, where the corrected one puts `, ` between them |
| Prompts.BusinessPlanIsBusiness | src/wechat_header_mcp/server.py:116-138 | `business plan` is unchanged by strip and is a business prompt |

## Left out

- HTTP traffic is not modelled. This covers the size probe, the two POSTs and
  the image re-downloads. Each answer is an input, and `Broken` stands for any
  exception inside a `try`.
- Pillow decoding, `crop`, `thumbnail`, JPEG encoding and base64 are foreign
  calls on pixel data. `SmartCrop` keeps only the rectangle, the size strings
  and the `#crop=` URL.
- Crop.SmartCrop: for the `base64` and `compressed` formats it models only
  whether the second download and decoding raised (`refetchRaises`, giving
  `None`); the encoded image, its length and the compressed size it reports
  are not modelled.
- The internals of SHA-256 and HMAC-SHA256 are not modelled. They are function
  parameters.
- `datetime.utcnow`, `time.time` and `asyncio.sleep` are not modelled. They
  become an instant parameter and per-poll latencies.
- Each poll's `get_result` signs at its own instant. `GenerateImage` passes one
  instant to the submission only. The poll requests are not built.
- Generation time is a whole number of seconds. `round(..., 1)` on floats is
  not modelled.
- Floating-point ratios are not modelled. The crop ratio is an exact rational,
  and the aspect tests of `submit_task` are exact comparisons.
- FastMCP tool registration, `json.dumps` formatting, logging and environment
  loading are plumbing. The serialiser is a parameter, and the tool wrappers
  other than `get_style_suggestions` are not part of this model.
- Static dimension tables and `get_standard_dimensions` are trivial lookups and
  are not part of this model.
- Text.LowerAscii: lower-cases ASCII letters only, because Python's Unicode
  case mapping is out of scope. Non-ASCII letters keep their case, which only
  matters for the English keyword tests.
- Signing.XDate: years before 1000 are excluded by `UtcInstant`, because
  `%Y` would not print four digits for them.
- Crop.GetCropParams: a zero height is excluded by `requires`, because the
  source raises there. `Crop.SmartCrop` models that path as `None`, as the
  exception handler returns.
- Signing.SignRequest: `print` on a missing key is not modelled. Callers never
  reach that branch with the keys `submit_task` checks.

## Findings

| source | as written | input that shows it | evidently intended | confidence | as-written member | corrected member |
|---|---|---|---|---|---|---|
| src/wechat_header_mcp/server.py:139 | the business style phrase is appended with `+=` and no `, `, so it runs into the last quality term | `optimize_prompt("business plan")` ends in `professional photographyprofessional business style` | `, professional business style`, like the tech and nature branches | not executed | Prompts.BusinessPhraseUnseparated | Prompts.OptimizedPromptJoined |
