# Review site routes: comment stream, uploads and request rules

A Dafny model of the two route files of the review site's Express server:

- `server/src/routes/reviews.ts`, which covers:
  - the live-comment registry that `GET /:id/comments` fills and `POST /:id/comments` broadcasts to;
  - the gallery upload of `POST /gallery`;
  - the options `GET /` builds for the review list.
- `server/src/routes/user.ts`, which covers:
  - `validIdParam`;
  - the self-or-admin rule `authorized`;
  - the profile update of `PUT /:id`;
  - the avatar checks;
  - the banned check of `GET /me`;
  - the `likesCount` pass of the profile view.

| file | module | what it holds |
|---|---|---|
| `outcomes.dfy` | `Outcomes` | `Option` and `Result`. |
| `js_numbers.dfy` | `JsNumbers` | The global `parseInt` without a radix (section 19.2.5 of ECMA-262) and the decimal rendering of an integral Number (Number::toString, section 6.1.6.1.20 of ECMA-262), with the round trip between them. |
| `http.dfy` | `Http` | The replies the handlers send and their status codes. |
| `image_files.dfy` | `ImageFiles` | The per-file image check. It is written out twice in the source, for gallery files and for avatars. |
| `comment_stream.dfy` | `CommentStream` | The `subscribers` registry as a class. It records every stream write in order and keeps an invariant that each stream is filed once, under the key its close handler captured. |
| `review_routes.dfy` | `ReviewRoutes` | The `GET /` options, the gallery upload as written and corrected, and the counter of finished uploads as a class. |
| `user_routes.dfy` | `UserRoutes` | The `user.ts` handlers listed above. |

The comment stream and the ids:
- Subscribing files a stream under the raw path text `id`.
- Posting looks subscribers up under `parseInt(id)`, and JavaScript turns that number back into its decimal text.
- `CommentStream.NonCanonicalIdNeverReached` proves that a stream opened on `"042"` or `"42abc"` never receives a post, although both ids pass `validIdParam`.

The registry as the code keeps it:
- Empty registry keys are never removed. A closed stream leaves its key with a possibly empty list.
- A failed write does not unsubscribe anything. There are no locks or snapshots: Node runs each handler to completion and the broadcast loop has no `await`.
- Subscribe and publish do not use the same key. Subscribe uses the raw id text; publish uses the decimal rendering of `parseInt` of it.

## Model

| member | source | states |
|---|---|---|
| `JsNumbers.ParseInt` | server/src/routes/user.ts:115 | `parseInt(s)` is a number exactly when, after white space and one sign, `s` starts with a decimal digit, or with "0x"/"0X" followed by a hexadecimal digit; a negative result comes from a leading "-" |
| `JsNumbers.ParseIntStopsAt` | server/src/routes/reviews.ts:29 | `parseInt` reads nothing past a character that is not white space, a sign, a digit or "x": the text before it gives the same result |
| `JsNumbers.ParseIntStopsAtComma` | server/src/routes/reviews.ts:29 | `parseInt(a + "," + b)` equals `parseInt(a)` for all `a` and `b` |
| `JsNumbers.ParseIntOfDecimalString` | server/src/routes/reviews.ts:278 | reading back the decimal rendering of any integer gives that integer |
| `JsNumbers.DecimalString` | server/src/routes/reviews.ts:289 | the rendering of a number used as a property key is "0" or an optional '-' and digits without a leading zero, with '-' exactly for negatives |
| `JsNumbers.DecimalStringInjective` | server/src/routes/reviews.ts:289 | different numbers give different property keys |
| `JsNumbers.ParseIntRejectsNonNumerals` | server/src/routes/user.ts:115 | "abc", "" and a bare "0x" are NaN |
| `JsNumbers.ParseIntReadsDecimal` | server/src/routes/user.ts:115 | "42" reads as 42 |
| `JsNumbers.ParseIntStopsAtFirstNonDigit` | server/src/routes/user.ts:115 | "12abc" reads as 12 |
| `JsNumbers.ParseIntSkipsSpaceAndSign` | server/src/routes/user.ts:115 | " -3" reads as -3 and "-0" as 0 |
| `JsNumbers.ParseIntLeadingZeros` | server/src/routes/reviews.ts:278 | "042" reads as 42 |
| `JsNumbers.ParseIntHexPrefix` | server/src/routes/reviews.ts:278 | "0x1f" reads as 31 |
| `JsNumbers.ParseIntOfNumeral` | server/src/routes/reviews.ts:278 | a string of decimal digits, optionally after one '-', is read whole |
| `ImageFiles.CheckImage` | server/src/routes/reviews.ts:125-141 | a file passes exactly when it is present, at most 3·1024·1024 bytes and image/jpeg or image/png; otherwise the message of the first failing check, in the order missing, too large, wrong type |
| `ImageFiles.SizeLimitIsInclusive` | server/src/routes/reviews.ts:130-135 | a file of exactly 3145728 bytes passes and one of 3145729 bytes gets "Size exceeded 3 MB" |
| `CommentStream.PublishKey` | server/src/routes/reviews.ts:278-289 | the key a post looks up is the canonical decimal rendering of `parseInt(id)` |
| `CommentStream.Without` | server/src/routes/reviews.ts:265-267 | the filtered list holds exactly the streams of the old list other than the closed one |
| `CommentStream.WithoutKeepsNoDuplicates` | server/src/routes/reviews.ts:265-267 | filtering a list without duplicates leaves a list without duplicates |
| `CommentStream.SubscribeKeepsConsistent` | server/src/routes/reviews.ts:261-262 | filing a new stream keeps every stream filed once, under the key its close handler captured |
| `CommentStream.CloseKeepsConsistent` | server/src/routes/reviews.ts:264-267 | filtering a closed stream out keeps that invariant |
| `CommentStream.CloseKeepsOthersInOrder` | server/src/routes/reviews.ts:265-267 | closing a stream removes it and leaves the other streams of that review in their order |
| `CommentStream.CloseUndoesSubscribe` | server/src/routes/reviews.ts:261-267 | opening and then closing a stream restores the review's list, but the key stays, possibly with an empty list |
| `CommentStream.ReceivedBroadcast` | server/src/routes/reviews.ts:290-293 | one broadcast gives each listed stream exactly one frame and any other stream none |
| `CommentStream.PostReachesExactly` | server/src/routes/reviews.ts:252-289 | a post reaches an open stream exactly when the stream is still filed and its raw id equals the rendering of `parseInt` of the post's id |
| `CommentStream.NonCanonicalIdNeverReached` | server/src/routes/reviews.ts:252-289 | a stream opened on an id that is not a canonical decimal is never reached by any post |
| `CommentStream.PaddedAndSuffixedIdsAreNotCanonical` | server/src/routes/reviews.ts:252 | "042" and "42abc" are not canonical decimals, and "42" is |
| `CommentStream.CanonicalIdIsItsOwnKey` | server/src/routes/reviews.ts:278-289 | a post to the canonical id of a review looks up the key that streams opened on that same id were filed under |
| `CommentStream.Registry.constructor` | server/src/routes/reviews.ts:249 | the registry starts empty, with no streams and no writes |
| `CommentStream.Registry.Subscribe` | server/src/routes/reviews.ts:261-262 | a review without an entry gets a one-element list; otherwise the new stream goes at the end; nothing is written |
| `CommentStream.Registry.Close` | server/src/routes/reviews.ts:264-267 | only the closed stream's list changes, the stream is no longer in it, and the key stays |
| `CommentStream.Registry.Publish` | server/src/routes/reviews.ts:289-293 | exactly one frame `"data: " + json + "\n\n"` is written to each listed stream, in list order; other streams receive nothing; the registry is not modified |
| `CommentStream.Registry.OpenStream` | server/src/routes/reviews.ts:251-262 | an id `parseInt` rejects gets 400 and changes nothing; otherwise the new stream is filed under the raw id |
| `CommentStream.Registry.PostComment` | server/src/routes/reviews.ts:273-295 | a rejected id gets 400 and writes nothing; otherwise it broadcasts under `parseInt(id)` and answers 200, also when no stream is listed |
| `ReviewRoutes.BuildListQuery` | server/src/routes/reviews.ts:28-76 | no answer exactly for a category that is not a string; order by likes exactly when `top` is present; a category filter exactly for a non-empty string; a limit, with the sub-query turned off, exactly when `parseInt(limit)` is a non-zero number |
| `ReviewRoutes.NoLimitWithoutNumeral` | server/src/routes/reviews.ts:29 | an absent limit ("undefined") and an object limit ("[object Object]") are NaN |
| `ReviewRoutes.ZeroLimitParses` | server/src/routes/reviews.ts:76 | `?limit=0` parses to 0, which the falsy test turns into no limit |
| `ReviewRoutes.RequestedLimit` | server/src/routes/reviews.ts:29 | the limit is a number exactly when the query value's string form starts with a numeral; with no `limit` in the query it is NaN |
| `ReviewRoutes.ArrayLimitReadsFirstItem` | server/src/routes/reviews.ts:29 | for every non-empty repeated `limit`, the limit is `parseInt` of its first value: the values are joined with commas and reading stops at the first comma |
| `ReviewRoutes.JoinFirst` | server/src/routes/reviews.ts:29 | joining two or more values gives the first value, a comma, then the join of the rest |
| `ReviewRoutes.Join` | server/src/routes/reviews.ts:29 | joining a one-element array gives that element |
| `ReviewRoutes.FailureCount` | server/src/routes/reviews.ts:124-142 | at most one failure per file, and none exactly when every file passes its check |
| `ReviewRoutes.ValidationPass` | server/src/routes/reviews.ts:124-142 | the validation pass sends the 400 of the first failing file only; the `send` of a second failing file throws because the headers are sent, which ends the handler; after a 400 any further failure throws at once |
| `ReviewRoutes.FanIn` | server/src/routes/reviews.ts:160-163 | the upload callbacks answer at most once, and they answer exactly when at least one file is expected and that many uploads have finished |
| `ReviewRoutes.FanInAnswersOnce` | server/src/routes/reviews.ts:144-163 | the upload callbacks answer once, when the count of finished uploads reaches the number of files, with the urls in completion order (failed uploads as undefined); they never answer when no file is expected |
| `ReviewRoutes.OversizedFileIsAnsweredTwice` | server/src/routes/reviews.ts:124-166 | as written, a file one byte over the limit draws a 400 and is still uploaded, and its callback answers a second time |
| `ReviewRoutes.GalleryRepliesAsWritten` | server/src/routes/reviews.ts:119-166 | as written: no file list gets 400 "No file was uploaded."; with no failing file only the upload callbacks answer; with one failing file its 400 comes first and the upload callbacks answer again; with two or more the first 400 is the only answer, as the thrown second `send` stops the uploads |
| `ReviewRoutes.SecondBadFileStopsTheHandler` | server/src/routes/reviews.ts:124-166 | as written, two oversized files get the first 400 only and nothing is uploaded |
| `ReviewRoutes.EmptyGalleryIsNeverAnswered` | server/src/routes/reviews.ts:119-166 | as written, an empty file list gets no answer at all |
| `ReviewRoutes.FirstFailure` | server/src/routes/reviews.ts:124-141 | the corrected check yields no message exactly when every file passes, and otherwise the message of the first failing file |
| `ReviewRoutes.GalleryError` | server/src/routes/reviews.ts:119-141 | the corrected check rejects a missing or empty file list with "No file was uploaded." and accepts exactly when the list is non-empty and every file passes |
| `ReviewRoutes.GalleryReplies` | server/src/routes/reviews.ts:119-166 | the corrected endpoint answers at most once: 400 with the corrected check's message, or the answer of the upload callbacks |
| `ReviewRoutes.GalleryAnswersOnce` | server/src/routes/reviews.ts:119-163 | with the correction every request is answered exactly once, after its uploads have finished |
| `ReviewRoutes.CorrectionKeepsValidRequests` | server/src/routes/reviews.ts:119-166 | on requests that pass every check, the corrected endpoint answers as the code does |
| `ReviewRoutes.GalleryUpload.constructor` | server/src/routes/reviews.ts:144 | the counter starts with no urls and no reply |
| `ReviewRoutes.GalleryUpload.OnUploaded` | server/src/routes/reviews.ts:160-163 | a finished upload appends its url and answers with all urls exactly when the count reaches the number of files |
| `ReviewRoutes.GalleryEndpoint` | server/src/routes/reviews.ts:118-166 | the corrected endpoint answers 400 with the corrected check's message, or starts a fresh counter for all the files |
| `UserRoutes.ValidIdParam` | server/src/routes/user.ts:113-119 | the request is rejected with 400 exactly when the id does not start with a numeral as `parseInt` reads it |
| `UserRoutes.ValidIdParamExamples` | server/src/routes/user.ts:113-119 | "12abc" and " -3" pass, while "abc" and "" get 400 |
| `UserRoutes.Authorize` | server/src/routes/user.ts:121-136 | 401 without a signed-in caller; 404 when the caller's row or the target row is missing; otherwise the request proceeds with the target row exactly when caller and target are the same user or the caller is an admin, and is refused with 401 otherwise; a caller and target that both exist are never refused with 404 |
| `UserRoutes.AdminMayActOnAnyone` | server/src/routes/user.ts:130-134 | an admin proceeds on every existing user |
| `UserRoutes.NonAdminOnlyOnSelf` | server/src/routes/user.ts:124-134 | a non-admin proceeds exactly when the raw id finds a row with the caller's own id, whatever its spelling ("042" included), and then acts on that row |
| `UserRoutes.Stored` | server/src/routes/user.ts:56 | an empty string is stored as null and any other value as sent, so "" is never stored |
| `UserRoutes.ApplyProfileBody` | server/src/routes/user.ts:55-60 | each of email, avatar and username present in the body is stored as above; absent keys are unchanged |
| `UserRoutes.ProfileUpdateIdempotent` | server/src/routes/user.ts:55-60 | sending the same body twice has the effect of sending it once |
| `UserRoutes.UserRow.constructor` | server/src/routes/user.ts:124 | a row holds the given id, role, status and profile |
| `UserRoutes.UserRow.UpdateProfile` | server/src/routes/user.ts:54-64 | the three profile fields change as the body says, every other field stays, and the answer is "OK" |
| `UserRoutes.AvatarReply` | server/src/routes/user.ts:72-107 | a file failing a check gets 400 with that check's message; otherwise the answer is the url the upload reports |
| `UserRoutes.AvatarSizeLimit` | server/src/routes/user.ts:73-81 | exactly 3 MiB is uploaded; one byte more gets "Size exceeded 3 MB" even with a wrong type; no file gets "No file was uploaded." |
| `UserRoutes.Request.constructor` | server/src/routes/user.ts:17 | a request holds the given signed-in user and session |
| `UserRoutes.Request.Me` | server/src/routes/user.ts:17-33 | a missing or banned user clears the session and gets `{authenticated: false}`; anyone else keeps the session and gets `authenticated: true` with their row |
| `UserRoutes.CountLikes` | server/src/routes/user.ts:47-49 | every review's `likesCount` becomes the length of its `Likes`, and nothing else about the reviews changes |

## Left out

- Review create, update, delete, read and the like toggle (server/src/routes/reviews.ts:80-112 and 170-247). Their outcome is decided by database uniqueness and `findOrCreate`, which are outside the model.
- `authenticated()` and `adminOrAuthor()`. server/src/routes/handlers.ts is not part of this model. `validIdParam` in reviews.ts is imported from there and is taken to be the same rule as server/src/routes/user.ts:113-119.
- Stream headers, `flushHeaders`, `flush` and `end` (server/src/routes/reviews.ts:254-260, 269, 292). A stream is a number with a log of the frames written to it.
- Storing and re-reading the comment (server/src/routes/reviews.ts:280-288). The comment's `JSON.stringify` text is a parameter.
- Cloudinary uploads. Their results are inputs: the completion order and `secure_url` of each gallery upload, and the `secure_url` of an avatar.
- Upload failure. A failed upload contributes `undefined`; nothing else about the failure is modelled. A gallery element that is itself missing would make the upload stream throw; this is not modelled, because multer never produces such an element.
- Replies after the first, outside the validation pass. Express throws when a handler answers twice. The throw inside the validation pass is modelled, as it ends the handler before any upload. The second answer of an upload callback, after a 400, is recorded as an attempt to answer; the exception it raises in that callback is not modelled.
- Numbers are unbounded integers:
  - no rounding above 2^53;
  - no exponent notation in the rendering of numbers from 10^21 up;
  - no `Infinity` from a numeral of more than 308 digits.
  - For such ids the real publish key differs from `CommentStream.PublishKey`.
- JSON numbers in request bodies are modelled as integers.
- `User.findByPk`, passed as a function from key text to row. The PostgreSQL cast of the raw id text, `sanitize()` and `save()` are left out.
- `req.isAuthenticated()` is modelled as "a signed-in user id is present".
- The lookup and 404 of `GET /:id` in user.ts (server/src/routes/user.ts:36-46, 50). Only the `likesCount` pass is modelled. `Reviews` is taken to be present, as the query always includes it.
- server/src/index.ts mounts its own `/api/users` handlers, so the user.ts router is never reached there. Its handlers are modelled as written.

## Findings

| source | as written | input that shows it | evidently intended | confidence | as-written member | corrected member |
|---|---|---|---|---|---|---|
| server/src/routes/reviews.ts:124-166 | the `return res.status(400).send(...)` inside the `files.map` callback only leaves the callback, so an invalid file is answered with 400 and then uploaded, and the upload callback answers a second time | one gallery file of 3145729 bytes of type image/png | answer 400 once and upload nothing | not executed | `ReviewRoutes.OversizedFileIsAnsweredTwice` | `ReviewRoutes.GalleryAnswersOnce` |
| server/src/routes/reviews.ts:119-163 | an empty `files` array passes the `!files` test; no upload starts, so no callback ever answers and the request hangs | a request with an empty gallery field list, `files = []` | answer 400 "No file was uploaded." | not executed | `ReviewRoutes.EmptyGalleryIsNeverAnswered` | `ReviewRoutes.GalleryError` |
