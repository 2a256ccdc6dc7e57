# ringringv2 in Dafny

ringringv2 is an English-conversation practice app: a user takes scheduled
"phone calls" with an AI tutor, then reviews a transcript, an analysis of the
call, quizzes and practice drills. This project models the deterministic
bookkeeping at the centre of the app and proves properties of it:

- the backend's single-table record store: the key scheme under
  `DEVICE#id`, `USER#id` and the secondary `SESSION#sid` index; session
  start, end, listing, detail and delete with the owner checks; message keys;
  usage counters; and the long-term memory merge;
- the signed URL for the streaming transcription socket, following the AWS
  Signature Version 4 query-string signing scheme;
- the formatting of a conversation for analysis;
- the usage-limit arithmetic on the server (`usageHandler.js`) and in the
  client's usage context;
- the client utilities: time and word formatting, typed local storage,
  call history, the learning cycle (sessions, the streak, quiz and review
  results, generated call settings, achievements) and the feature
  scheduler;
- the notification schedule: reminder ids, the next call instant, and
  syncing reminders;
- the per-weekday schedule editors;
- the state machines of the practice, quiz, script, call, analysis, calendar,
  progress, custom-tutor, streak and home screens.

Each source file has its own module. Pure code becomes functions and lemmas.
React state and stored objects become classes whose methods state their
whole new state. Loops become methods with invariants. Clocks, time zones,
randomness, the cloud services and the hash functions are parameters.

Shared modules:

- `Wrappers`: `Option` and `Result`.
- `Text`: JavaScript white space, `trim`, `split`, `join`, digits and code-point order (Python's string order).
- `Sorting`: a stable sort.
- `Lists`: distinct lists and last-n windows.
- `Calendar`: day numbers and civil dates, including the `setMonth` overflow of JavaScript dates.

## Model

| member | source | states |
|---|---|---|
| Conversation.Speaker | backend/lambda_function.py:1636-1638 | a message is the student's exactly when its role, `user` by default, is `user`; every other role is the tutor |
| Conversation.Lines | backend/lambda_function.py:1632-1639 | one labelled line per message, in message order |
| Conversation.FormatReadsBack | backend/lambda_function.py:1632-1640 | when no message holds a line break, the transcript splits on line breaks back into exactly the messages' labelled lines, in order |
| Memory.NotIn | backend/lambda_function.py:1623 | keeps exactly the new items the old list lacks, in order |
| Memory.CombineAsWritten | backend/lambda_function.py:1621-1624 | the list merge as written: at most 20 entries, only old or new items, nothing dropped while the total fits, and exactly the last 20 of the old list followed by the new items it lacks (repeats included) |
| Memory.CombineAsWrittenKeepsDuplicates | backend/lambda_function.py:1621-1624 | a new list holding one fact twice leaves it twice in the merged list (the dedupe comment is not honoured); the corrected merge keeps it once |
| Memory.CombineNoDup | backend/lambda_function.py:1621-1624 | the corrected merge of a duplicate-free list stays duplicate-free, also after the cap |
| Memory.Combine | backend/lambda_function.py:1621-1624 | the corrected merge: at most 20 entries, only old or new items, duplicate-free when the old list is, the old list kept whole while everything fits, the newest facts always at the end, and exactly the last 20 of the old list followed by each new item it lacks, once |
| Memory.CombineAgreesWithoutRepeats | backend/lambda_function.py:1621-1624 | on a new list without repeats of its own the corrected and the written merge give the same list |
| Memory.MergeMemory | backend/lambda_function.py:1611-1629 | per category: empty new values change nothing, a new category is added, two lists are combined by the corrected `Combine` (see Left out), any other value replaces the old one; no category is ever lost |
| Memory.MergeIsUnique | backend/lambda_function.py:1615-1627 | the merged document is determined by the two inputs, whatever order the categories are visited in |
| Store.UserIdOf | backend/lambda_function.py:97-99 | the user id is `userId` when that is truthy, else `deviceId`; the result is truthy exactly when one of them is |
| Store.ValidateRequired | backend/lambda_function.py:89-94 | a 400 error exactly when some required field is falsy |
| Store.Missing | backend/lambda_function.py:91 | the missing names are empty exactly when every field is present |
| Store.ValidateOneMissing | backend/lambda_function.py:92-93 | one missing field reads "<name> is required" |
| Store.PyTake | backend/lambda_function.py:760 | Python's `s[:n]`: a prefix of `n` items, or all of them, with a negative `n` counting from the end |
| Store.NewerFirstPreorder | backend/lambda_function.py:759 | the newest-first order on start times is a total preorder, so the stable sort is well defined |
| Store.GsiOrderPreorder | backend/lambda_function.py:776-781 | the secondary-index sort-key order is a total preorder |
| Store.WidenRange | backend/lambda_function.py:728-752 | a header found below the moving cursor also lies below the caller's start key |
| Store.MaxExists | backend/lambda_function.py:726 | every non-empty set of keys has one with the greatest sort key (the first item of a descending page) |
| Store.Ended | backend/lambda_function.py:647-658 | the ended header carries the end time, the reported duration, turn and word counts (0 when missing) and `completed`, and nothing else of it changes |
| Store.Bump | backend/lambda_function.py:1716-1727 | `if_not_exists(f, 0) + 1`: that counter rises by one from 0 when missing, and no other counter changes |
| Store.BumpOne | backend/lambda_function.py:1708-1735 | raising `chat`, `tts` or `analyze` moves exactly that reported counter by one; any other usage type leaves the three reported counters alone |
| Store.MetaKeyListed | backend/lambda_function.py:593-595 | a new session header falls into its owner's `SESSION#` listing range and never into the usage range |
| Store.MessageKeyApart | backend/lambda_function.py:675-682 | a message shares the listing prefix but its index sort key is never `META` |
| Store.SplitDetail | backend/lambda_function.py:783-804 | the scan of the detail query: a header is reported exactly when one was found, and it is the last one found; the messages are exactly the views of the message items found |
| Store.Backend.constructor | backend/lambda_function.py:53-56 | an empty table satisfies the table invariant |
| Store.Backend.QueryGsi | backend/lambda_function.py:776-781 | the index query returns every item under the index key, each once, as stored, ascending by index sort key |
| Store.Backend.QueryPage | backend/lambda_function.py:716-732 | one page of the descending range query: at most 100 stored items of the range, strictly descending, every omitted item of the range below the last, and a last key exactly when the page is full, which is the range's continuation key (`IsCursor`) |
| Store.Backend.PageCursor | backend/lambda_function.py:725-752 | the key of a full page's last item is the continuation key: exactly 100 keys of the range lie at or above it, and there is none exactly when fewer than 100 keys remain |
| Store.Backend.CursorIsUnique | backend/lambda_function.py:752 | a range has one continuation key at most, so the cursor contracts pin the returned key |
| Store.Backend.TakeGreatest | backend/lambda_function.py:716-732 | the page loop stops with at most 100 items, and with exactly 100 unless the range ran out; its invariant (`PageLoop`) holds at the end: every key taken is on the page, the page is stored, in range and descending, and every key not taken lies below its last item |
| Store.Backend.PageStep | backend/lambda_function.py:716-732 | taking the greatest remaining key keeps the loop invariant `PageLoop`: the page stays descending, stored and within range, the taken key is on it, and every remaining key lies below it |
| Store.Backend.StartSession | backend/lambda_function.py:580-618 | 400 without a user or session id and no write; otherwise exactly one new header with the settings' defaults (`daily`, `us`, `intermediate`, `female`, tutor `Gwen`), zero counters, status `active` and the 90-day expiry |
| Store.Backend.EndSession | backend/lambda_function.py:621-662 | 400 without ids, 404 exactly when the session has no header, 403 for another device's header, each without writing; otherwise only that header is updated as `Ended` states |
| Store.Backend.SaveMessage | backend/lambda_function.py:665-696 | 400 when an id or the message is missing or empty, with no write; otherwise exactly one new message indexed under the session with `MSG#<now>`, defaults `user`, empty content and turn 0 |
| Store.Backend.PageListed | backend/lambda_function.py:715-756 | after a page is walked without filling up, every header of the range above the new cursor has been listed |
| Store.Backend.ScanPage | backend/lambda_function.py:734-750 | the walk of one page returns exactly the entries so far followed by the page's headers in page order, cut at the first point where the limit is reached, and reports a full walk exactly when the limit was reached |
| Store.Backend.CollectSessions | backend/lambda_function.py:707-756 | between one and ten fetches, each started at the continuation key of the one before, the returned key being the last page's `LastEvaluatedKey`; it stops before ten only with `limit` entries or an exhausted range; the entries are the headers of the ghost `keys` in order, and those keys are a walk of the requester's range (`Walked`): strictly descending, all wanted, and holding every wanted header from the start key down to the last of them; below the limit every header at or above the returned key is collected |
| Store.Backend.FetchPage | backend/lambda_function.py:716-752 | one round of the loop: the new key continues the chain of cursors, the walk (`Walked`) is extended by the page's headers in page order up to the limit, a full walk has reached the limit, and after a walk to the page's end every wanted header at or above the new key is walked |
| Store.Backend.PageEntriesListed | backend/lambda_function.py:734-750 | entries taken from a page of the current range are headers of the requested range |
| Store.Backend.GetSessions | backend/lambda_function.py:699-765 | 400 without a user id; otherwise the answer is exactly the first `limit` (10 by default) of the collected headers sorted newest first, and the collected headers are a walk (`Walked`) of the requester's range from the request's key, which `WalkUnique` fixes by its length; `lastKey` is the continuation key of the last page fetched along the chain from the request's key, `hasMore` exactly when it is present; fewer than ten fetches only with a full list or no last key; a list below the limit holds every header at or above `lastKey`, and every header of the range when there is no last key; a list that reached the limit mid-page still gets that page's continuation key, so the contract claims nothing about headers after the cut, which the next request (starting below `lastKey`) does not return |
| Store.WalkStep | backend/lambda_function.py:734-750 | walking a page's first `m` headers keeps the walk invariant: the keys stay strictly descending and wanted, each entry is its key's header, and every wanted header from the start down to the last key walked is walked |
| Store.WalkReachAbove | backend/lambda_function.py:734-752 | after a page walked to its end every key walked lies at or above the page's continuation key |
| Store.WalkReachCovers | backend/lambda_function.py:734-752 | after a page walked to its end every wanted header at or above the page's continuation key is walked |
| Store.StartReached | backend/lambda_function.py:710-711 | before the first page no wanted header lies at or above the start key, so the empty walk has reached it |
| Store.WalkAgree | backend/lambda_function.py:734-750 | two strictly descending key lists, each holding the other's keys at or above its own last, agree position by position |
| Store.WalkUnique | backend/lambda_function.py:734-750 | two walks of one range with the same length are the same keys and the same headers, so `Walked` and the length pin the collected list |
| Store.Backend.GetSessionDetail | backend/lambda_function.py:768-809 | 400 without ids; otherwise a header exactly when the session has one, taken from it, and exactly the session's messages, ordered by turn number; the owner is not checked |
| Store.Backend.DetailFound | backend/lambda_function.py:776-804 | the index query's items are exactly the session's header and messages |
| Store.Backend.DeleteSession | backend/lambda_function.py:812-846 | 400 without ids, 404 exactly when nothing is indexed under the session, 403 when the header belongs to another device, each without deleting; otherwise exactly the session's items are removed and their number is reported |
| Store.Backend.GetUsage | backend/lambda_function.py:1653-1698 | 400 without a user id; otherwise today's counters (all 0 and plan `free` when there is no record), the default limits 50/100/10 and a reset at midnight KST |
| Store.Backend.IncrementUsage | backend/lambda_function.py:1701-1740 | 400 without a user id and no write; otherwise only today's record changes: `<usageType>Count` (type `chat` by default) rises by one, `updatedAt` and `ttl` are set, the stored plan is kept, and the answer reports the new counters and today's Korean date |
| Store.Backend.SaveUserMemory | backend/lambda_function.py:1462-1506 | 400 without `userId` and no write; otherwise the stored document is replaced by exactly the merge (`Memory.IsMerge`) of the stored and the new categories, kept a year past the usual expiry |
| Store.Backend.GetUserMemory | backend/lambda_function.py:1509-1538 | 400 without `userId`; otherwise the stored document, with the "No memory found for this user" note exactly when there is none |
| Signer.Utf8Char | backend/lambda_function.py:1230 | one to four octets per character, and an ASCII character is its own single octet |
| Signer.Utf8 | backend/lambda_function.py:1230 | `encode('utf-8')` never yields fewer octets than characters |
| Signer.UpperDigitValue | backend/lambda_function.py:1204 | reads an upper-case hex digit back to the only value that prints as it |
| Signer.Hex | backend/lambda_function.py:1213 | `hexdigest()`: two lower-case hex digits per octet |
| Signer.QuoteBytes | backend/lambda_function.py:1204 | octet encoding yields only unreserved characters and `%` escapes |
| Signer.Quote | backend/lambda_function.py:1204 | `quote(…, safe="")` never leaves a `&` or `=` in the result |
| Signer.UnquoteQuoteBytes | backend/lambda_function.py:1204 | decoding the encoding of any octets gives them back |
| Signer.UnquoteQuote | backend/lambda_function.py:1204 | decoding the encoding of any string gives back its UTF-8 octets |
| Signer.QuoteUnreserved | backend/lambda_function.py:1204 | a string of unreserved characters is its own encoding |
| Signer.AmzDate | backend/lambda_function.py:1178-1179 | the `X-Amz-Date` stamp begins with the date stamp of the same instant |
| Signer.EncodePairs | backend/lambda_function.py:1203-1206 | one `key=value` piece per parameter, both encoded, in order |
| Signer.Signature | backend/lambda_function.py:1243 | the signature is lower-case hex |
| Signer.PresignedUrl | backend/lambda_function.py:1158-1258 | the answer names region `us-east-1`, a 300-second expiry, and the language and sample rate asked for, `en-US` and 16000 by default |
| Signer.Keys | backend/lambda_function.py:1205 | the parameter names, in order |
| Signer.KeyLePreorder | backend/lambda_function.py:1205 | ordering by parameter name is a total preorder |
| Signer.TokenSignedIffPresent | backend/lambda_function.py:1199-1200 | the session token is signed exactly when the credentials carry a non-empty one, giving nine parameters instead of eight |
| Signer.ParamKeysAscending | backend/lambda_function.py:1187-1200 | the parameter names in ascending code-point order, upper-case `X-Amz-*` before the lower-case names |
| Signer.ArrangedSorted | backend/lambda_function.py:1205 | the parameters in canonical order are sorted by name |
| Signer.ArrangedKeysDistinct | backend/lambda_function.py:1187-1200 | no parameter name occurs twice |
| Signer.ArrangedDistinct | backend/lambda_function.py:1187-1200 | two parameters with equal names are the same parameter |
| Signer.ArrangedPermutes | backend/lambda_function.py:1187-1205 | the canonical order is a permutation of the parameters as built |
| Signer.CanonicalOrder | backend/lambda_function.py:1203-1206 | `sorted(all_params.items())` is the build order with the session token moved between `X-Amz-Expires` and `X-Amz-SignedHeaders` |
| Signer.KeysUnreserved | backend/lambda_function.py:1187-1200 | every parameter name is unreserved ASCII |
| Signer.KeysEncodeAsThemselves | backend/lambda_function.py:1203-1206 | every parameter name is its own encoding, so sorting raw names sorts encoded names |
| Signer.JoinSnoc | backend/lambda_function.py:1203-1206 | joining one more piece after a separator extends the join |
| Signer.NoAmpInPair | backend/lambda_function.py:1204 | an encoded `key=value` piece holds no `&` |
| Signer.NoAmpInSignature | backend/lambda_function.py:1249 | the signature parameter holds no `&` |
| Signer.PairReadsBack | backend/lambda_function.py:1204 | each piece splits on `=` into its encoded key and value, which decode to the original octets |
| Signer.QuerySplits | backend/lambda_function.py:1203-1206 | the canonical query followed by the signature splits on `&` back into its pieces |
| Signer.UrlSplits | backend/lambda_function.py:1246-1250 | the URL begins with the endpoint prefix and its query splits into the encoded parameters and the last piece |
| Signer.UrlQueryPieces | backend/lambda_function.py:1246-1250 | the presigned URL reads back as the fixed prefix, the encoded parameters in canonical order and the signature, nothing else |
| Signer.SigningKeyChain | backend/lambda_function.py:1209-1243 | the signature is the HMAC chain over date, region, service and terminator applied to the string to sign built from the canonical request |
| UsageLimits.UserPlan | lambda/usageHandler.js:78-92 | the stored plan, or `free` when there is none or it is empty |
| UsageLimits.TodayUsage | lambda/usageHandler.js:97-133 | exactly the three counters; all zero without a record, each missing counter zero |
| UsageLimits.CheckLimit | lambda/usageHandler.js:174-203 | unknown plan throws; a limit of -1 is allowed and unlimited; otherwise `remaining = max(0, limit - current)` and allowed exactly while the count is below the limit; an undefined limit or count gives `NaN` and a refusal |
| UsageLimits.KnownKeys | lambda/usageHandler.js:179-180 | the limit key is `daily` + capitalised type + `Count` and the usage key is type + `Count`, for `chat`, `tts` and `analyze` |
| UsageLimits.KnownTypesHaveQuota | lambda/usageHandler.js:30-46 | every plan has a limit for every known type and every usage report a counter, so the check never yields `NaN` for them |
| UsageLimits.PlansBehave | lambda/usageHandler.js:30-46 | premium is never refused; the free plan starts with 3 chats a day and refuses a fourth |
| UsageLimits.KstDayBoundary | lambda/usageHandler.js:51-57 | the Korean date turns over exactly at 15:00 UTC and at no other instant |
| UsageLimits.ExpirationDate | lambda/usageHandler.js:315-321 | no expiration exactly on the free plan |
| UsageLimits.ExpirationOverflows | lambda/usageHandler.js:318-319 | the one-month step from 31 January lands on 3 March, as `setMonth` does |
| UsageLimits.UsageService.constructor | lambda/usageHandler.js:26-27 | both tables start empty |
| UsageLimits.HandleIncrementUsage | lambda/usageHandler.js:237-260 | a refused check answers limit-exceeded with the check and writes nothing; otherwise only the type's counter for today rises by one, from zero when missing, and the new counters and plan are reported |
| UsageLimits.IncrementRaisesOne | lambda/usageHandler.js:138-169 | an allowed increment of a known type raises exactly that counter of today's usage by one and no other |
| UsageContext.LimitsOf | src/context/UsageContext.jsx:82-84 | the plan's limits, the free plan's for an unknown plan, always with the three limit keys |
| UsageContext.Usage.constructor | src/context/UsageContext.jsx:23-35 | free plan, nothing used, dialog closed and no limit type |
| UsageContext.Usage.Remaining | src/context/UsageContext.jsx:91-110 | -1 for an unlimited type, otherwise the limit minus the count and never below zero, 0 for an unknown type |
| UsageContext.Usage.CheckAndShowLimit | src/context/UsageContext.jsx:129-138 | true and nothing changes exactly when the type can be used; otherwise the dialog opens for that type and the counters stay |
| UsageContext.Usage.IncrementLocal | src/context/UsageContext.jsx:144-157 | exactly the named counter rises by one; an unknown type changes nothing |
| UsageContext.Usage.CloseUpgradeModal | src/context/UsageContext.jsx:162-165 | the dialog closes and forgets the limit type, the counters stay |
| UsageContext.Usage.Load | src/context/UsageContext.jsx:40-71 | signed out: plan `free` with the counters kept and nothing fetched; a failed fetch changes nothing; a fetched report sets the plan (`free` when empty) and counters (0 when missing); the dialog is untouched |
| UsageContext.CanUseAgreesWithServer | src/context/UsageContext.jsx:117-120 | for a known plan and type the client may use the type exactly when the server's check allows it |
| Helpers.JsRem | src/utils/helpers.js:35 | JavaScript's `%`: the remainder has the sign of the dividend and is below the divisor in size |
| Helpers.PadStartOfNat | src/utils/helpers.js:36 | `padStart(2, '0')` of a rendered count is its two-digit padding |
| Helpers.ColonJoin | src/utils/helpers.js:36 | two digit fields joined by a colon read back as their two values |
| Helpers.MinSecReadsBack | src/utils/helpers.js:34-36 | a non-negative time renders as its whole minutes, a colon and its remaining seconds in two digits |
| Helpers.FormatTime | src/utils/helpers.js:28-37 | "0:00" for a missing or zero time; a positive time reads back as minutes and seconds |
| Helpers.FormatTimeExample | src/utils/helpers.js:24 | 125 seconds render as "02:05" |
| Helpers.CountWords | src/utils/helpers.js:183-188 | 0 for a missing text; otherwise 0 exactly when the text is all white space |
| Helpers.CountWordsOfInterleave | src/utils/helpers.js:183-188 | words separated by non-empty runs of white space, with any white space before and after, count as exactly that many words |
| Helpers.CountWordsExample | src/utils/helpers.js:180 | the documented example `"  Hello   world  "` counts 2 |
| Text.RunsOfSpace | src/utils/helpers.js:187 | a run of white space adds no word |
| Text.RunsOfInterleave | src/utils/helpers.js:187 | words between white-space runs, followed by white space, are that many `\s+`-separated words |
| Helpers.SpaceFreeRuns | src/utils/helpers.js:187 | a text has no word exactly when it is all white space |
| Helpers.GetFromStorage | src/utils/helpers.js:61-72 | the default for a missing or unparsable key |
| Helpers.SetToStorage | src/utils/helpers.js:84-92 | stores under the key, adding it to the stored keys |
| Helpers.StorageRoundTrip | src/utils/helpers.js:61-92 | a saved value reads back, and every other key reads as before |
| Helpers.PrependCapped | src/utils/helpers.js:139-146 | the new entry first, then the most recent of the old list, never past the cap |
| Helpers.PrependTwice | src/utils/helpers.js:139-146 | two entries added in turn come out newest first |
| Helpers.Device.constructor | src/utils/helpers.js:247-248 | the stored id and history as given |
| Helpers.Device.History | src/utils/helpers.js:123-125 | empty when the history is missing or unparsable |
| Helpers.Device.AddCallHistory | src/utils/helpers.js:139-146 | the record goes first, the old records follow in order, at most ten are kept, the id is untouched |
| Helpers.Device.GetDeviceId | src/utils/helpers.js:247-254 | a stored non-empty id is returned unchanged; otherwise the generated id is returned and stored; the history is untouched |
| Helpers.TutorName | src/utils/helpers.js:198-203 | the chosen name when non-empty, else `James` exactly for the male gender and `Gwen` otherwise |
| Helpers.TutorInitial | src/utils/helpers.js:211-213 | one character: the name's first, or `G` for a missing or empty name |
| Helpers.FilterByRole | src/utils/helpers.js:267-274 | `[]` without a list; otherwise only messages of the role (by `role` or by `speaker`, `ai` for the assistant), each as often as in the input |
| Helpers.Filter | src/utils/helpers.js:271-273 | keeps exactly the messages of the role, each as often as in the input |
| LearningCycle.OrElse | src/utils/learningCycle.js:114-118 | `x \|\| d` on a number: the default replaces a missing value and zero |
| LearningCycle.AreaOf | src/utils/learningCycle.js:106 | a question's area is never empty (`focus`, else `type`, else `general`) |
| LearningCycle.WrongAreas | src/utils/learningCycle.js:101-108 | exactly the areas of the wrongly answered questions |
| LearningCycle.LowestDay | src/utils/learningCycle.js:45-60 | no session lies before this day, so the streak walk ends |
| LearningCycle.StreakAtLeast | src/utils/learningCycle.js:384-387 | a streak reaches `n` days exactly when the `n` days back from its start all have sessions |
| LearningCycle.Log.constructor | src/utils/learningCycle.js:19 | the log holds the stored sessions and results |
| LearningCycle.Log.CalculateStreak | src/utils/learningCycle.js:37-63 | 0 without sessions; otherwise the number of consecutive days with a session ending today, or yesterday while today has none yet, with no session the day before them |
| LearningCycle.Log.CheckAchievements | src/utils/learningCycle.js:370-390 | `COMPLETE_CYCLE` exactly when today has a quiz, a call and a review; each `STREAK_n` exactly when the streak's last `n` days all have sessions |
| LearningCycle.Log.SaveLearningSession | src/utils/learningCycle.js:68-88 | the session with empty lists for missing ones is appended last and the newest hundred are kept; the results are untouched |
| LearningCycle.Log.SaveQuizResult | src/utils/learningCycle.js:97-138 | the weak areas are exactly the wrongly answered questions' areas, each once; missing figures default to 0 (the total to the question count); the newest thirty results kept; a quiz session logged with those areas |
| LearningCycle.Log.SaveCallResult | src/utils/learningCycle.js:173-185 | a call session under the given id or a generated one, scored 70 when the accuracy is missing or zero |
| LearningCycle.Log.SaveReviewResult | src/utils/learningCycle.js:216-238 | mode `free`, retention 80 and practice 0 by default; the newest thirty results kept; a review session logged with the retention as score |
| LearningCycle.Achievements | src/utils/learningCycle.js:374-389 | each badge exactly when its condition holds, at most four |
| LearningCycle.BadgesCumulative | src/utils/learningCycle.js:385-387 | a longer streak badge always comes with every shorter one |
| LearningCycle.CallSettingsFromQuiz | src/utils/learningCycle.js:143-164 | general at intensity 50 without a quiz; otherwise the latest quiz's weak areas, focused exactly when there are some, intensity `max(30, 100 - accuracy)` with accuracy 50 when missing |
| LearningCycle.IntensityFalls | src/utils/learningCycle.js:155 | a better quiz never raises the next call's intensity |
| LearningCycle.LastOfKind | src/utils/learningCycle.js:192 | the position of the latest session of a kind, none exactly when there is no such session |
| LearningCycle.ReviewSettingsFromCall | src/utils/learningCycle.js:190-207 | general exactly when there was no call; otherwise the latest call's weak points as priorities, intensive exactly when there are some; always medium intensity |
| LearningCycle.InsertAt | src/utils/learningCycle.js:313-314 | `splice(i, 0, x)`: `x` at position `i` with the rest in order, or at the end when `i` is past it |
| LearningCycle.ListeningQuestions | src/utils/learningCycle.js:307-326 | question `k` is numbered `k + 1`, reads the correct sentence and offers it at its drawn position, the wrong sentences around it in order |
| LearningCycle.OnDay | src/utils/learningCycle.js:22-24 | exactly the sessions of the day |
| LearningCycle.TodayProgress | src/utils/learningCycle.js:18-32 | each flag holds exactly when today has a session of that kind |
| ClockTime.Number | src/utils/featureScheduler.js:19 | `Number(s)` is a number exactly for a string of ASCII digits |
| ClockTime.ParseHm | src/utils/featureScheduler.js:19 | an hour and a minute only when the time has at least two colon-separated fields |
| ClockTime.ParseHmOfPadded | src/utils/featureScheduler.js:19 | a time written with two-digit fields reads back as its hour and minute |
| ClockTime.DigitPrefix | src/components/DailyScheduleInput.jsx:129 | the longest run of digits at the start of the text |
| ClockTime.ParseInt | src/components/DailyScheduleInput.jsx:129 | `parseInt` is `NaN` exactly when no digit follows the leading space and sign |
| ClockTime.ParseIntOfDigits | src/components/DailyScheduleInput.jsx:129 | on a string of digits `parseInt` and `Number` agree on its value |
| ClockTime.ParseIntStopsAtNonDigit | src/components/DailyScheduleInput.jsx:129 | `parseInt` reads the leading digits and ignores what follows them |
| FeatureScheduler.InWindow | src/utils/featureScheduler.js:15-27 | false for an empty or unreadable time, else whether now lies within the window of minutes around today's instance of the time |
| FeatureScheduler.WindowEdges | src/utils/featureScheduler.js:15-27 | five minutes early or late is inside the default window; six minutes either way is outside |
| FeatureScheduler.RanWithinDay | src/utils/featureScheduler.js:44-55 | no record means not run; otherwise run exactly when the record is less than 24 hours old |
| FeatureScheduler.Overlay | src/utils/featureScheduler.js:74 | each given field replaces the current one and each absent one keeps it |
| FeatureScheduler.OverlayLaws | src/utils/featureScheduler.js:72-77 | saving the same update twice is saving it once, and an empty update changes nothing |
| FeatureScheduler.Scheduler.constructor | src/utils/featureScheduler.js:60-67 | the stored schedule and run records as given |
| FeatureScheduler.Scheduler.Settings | src/utils/featureScheduler.js:60-67 | the defaults (quiz at 07:00, call at 20:00, both on) when nothing readable is stored |
| FeatureScheduler.Scheduler.AutoSchedule | src/utils/featureScheduler.js:105-117 | the morning quiz exactly when it is due, else the review call exactly when that is due, else nothing |
| FeatureScheduler.Scheduler.SaveSettings | src/utils/featureScheduler.js:72-77 | stores and returns the update laid over the current settings, the run records untouched |
| FeatureScheduler.Scheduler.RecordRun | src/utils/featureScheduler.js:33-37 | only that feature's run time becomes now |
| FeatureScheduler.Scheduler.Navigate | src/utils/featureScheduler.js:124-137 | the quiz opens `/morning-quiz` and the call `/review-call`, each recording its run, so it is not offered again for 24 hours; any other feature changes nothing |
| Notifications.Wrap32 | src/services/notificationService.js:536 | the 32-bit two's-complement value, which is the number itself when it already fits |
| Notifications.WrapStep | src/services/notificationService.js:535-536 | wrapping after every step of the hash is wrapping once at the end, so the id is the exact polynomial of the codes reduced to 32 bits |
| Notifications.GenerateNotificationId | src/services/notificationService.js:531-539 | the absolute value of the 32-bit `h * 31 + code` hash over the id's UTF-16 code units, at most 2^31 |
| Notifications.HashOfShort | src/services/notificationService.js:531-539 | the empty id gives 0 and a one-character id below U+10000 its character code |
| Notifications.HashOfAstral | src/services/notificationService.js:531-539 | a one-character id above U+FFFF hashes its two surrogates, `31 * high + low` |
| Notifications.UnitPolynomialIsPolynomial | src/services/notificationService.js:531-539 | the hash polynomial taken character by character, each pushing its one or two code units, is the polynomial of the whole code-unit sequence the loop reads |
| Text.Utf16OfBasic | src/services/notificationService.js:533-534 | below U+10000 the code units `charCodeAt` reads are the characters' codes, one each |
| Text.CharUnitsDecode | src/services/notificationService.js:534 | a character above U+FFFF is a high and a low surrogate that read back as the character |
| Notifications.FindDay | src/services/notificationService.js:276-279 | a found index names the day by its full or three-letter name |
| Notifications.DayIndex | src/services/notificationService.js:276-282 | a day number exists only for one of the fourteen names, and lies in 0..6 |
| Notifications.DayNamesAgree | src/services/notificationService.js:276-282 | the full and the three-letter name of the i-th day both give index i, Sunday 0 to Saturday 6 |
| Notifications.DaysUntil | src/services/notificationService.js:290-295 | the offset is in 0..7 and congruent to target minus today's weekday; 0 only for today's slot not yet passed, 7 only for today's slot already passed |
| Notifications.CallAtAhead | src/services/notificationService.js:284-295 | the call instant is strictly after now, less than eight days ahead, and a whole number of days after today's slot |
| Notifications.CallInstant | src/services/notificationService.js:281-295 | an instant exists exactly when the day name and the time can be read |
| Notifications.CallInstantAhead | src/services/notificationService.js:264-321 | a scheduled call is strictly in the future, at the chosen time, on the chosen weekday, less than eight days from now |
| Notifications.MotivationInstantAsWritten | src/services/notificationService.js:341-355 | defined exactly when the call instant is |
| Notifications.MotivationCanBePast | src/services/notificationService.js:346-355 | on Monday at 23:58, a Tuesday slot at 00:05 gets its reminder at 23:55 on Monday, which has already passed |
| Notifications.MotivationInstant | src/services/notificationService.js:330-388 | defined exactly when the call instant is |
| Notifications.MotivationAtAhead | src/services/notificationService.js:346-355 | the intended reminder is strictly after now, at most a week ahead, and ten minutes before a slot on the chosen weekday |
| Notifications.MotivationInstantAhead | src/services/notificationService.js:330-388 | the intended reminder read from the day and time strings is strictly ahead, at most a week away, ten minutes before a slot of the weekday |
| Notifications.MotivationAtAgrees | src/services/notificationService.js:346-355 | for a slot at least ten minutes after midnight the written instant is the intended one |
| Notifications.MotivationAgreesLaterInDay | src/services/notificationService.js:330-388 | the same for the reminder read from the day and time strings |
| Notifications.ActionRoute | src/services/notificationService.js:236-255 | nothing without data; `incoming_call` opens `/incoming-call`, `analysis_report` opens `/analysis`, every other type `/` |
| Notifications.DayPlan | src/services/notificationService.js:420-435 | two notifications per time of the day, the reminder at the corrected `MotivationInstant` (see Left out) |
| Notifications.PlanSize | src/services/notificationService.js:419-437 | every stored slot gets exactly one call and one motivation reminder |
| Notifications.Service.constructor | src/services/notificationService.js:46-49 | not initialized, no push token, nothing pending |
| Notifications.Service.Initialize | src/services/notificationService.js:54-84 | setup is attempted only on the first call on a native device; afterwards the service is initialized whatever happened, and the token changes only when setup succeeded |
| Notifications.Service.ScheduleReminder | src/services/notificationService.js:264-321 | off-native or with reminders off nothing changes; otherwise exactly one call notification is appended, under the hashed id, at `CallInstant` |
| Notifications.Service.ScheduleMotivationReminder | src/services/notificationService.js:330-388 | the same for the reminder, under the hash of `motivation-` + id, at the corrected `MotivationInstant` rather than the written instant (see Left out) |
| Notifications.Service.SyncReminders | src/services/notificationService.js:404-443 | off-native nothing changes; otherwise everything pending is cancelled, and with reminders on the pending list becomes exactly the plan of all slots, with ids `${day}-${time}`, each call before its reminder, the reminders at the corrected instant (see Left out) |
| Notifications.Service.ScheduleDay | src/services/notificationService.js:420-435 | appends the plan of one day's times in order, the reminders at the corrected instant (see Left out) |
| Notifications.Service.PushToken | src/services/notificationService.js:544-546 | the token of this run when it is non-empty, else the stored one |
| ScheduleSettings.ByTimeIsTotalPreorder | src/pages/ScheduleSettings.jsx:71 | comparing slots by time string is total and transitive, so the day's sort is well defined |
| ScheduleSettings.Placed | src/pages/ScheduleSettings.jsx:62-70 | add mode appends the item after the day's slots; edit mode writes it over exactly the slot at the index and keeps every other slot |
| ScheduleSettings.SavedIsSortedPlacement | src/pages/ScheduleSettings.jsx:60-75 | after a save the day is sorted by time and is a permutation of the placed slots: the old ones plus the new item, less the replaced slot in edit mode |
| ScheduleSettings.SaveInOrderAppends | src/pages/ScheduleSettings.jsx:69-71 | adding a slot no earlier than the rest leaves it at the end of the day |
| ScheduleSettings.Removed | src/pages/ScheduleSettings.jsx:80 | `splice(index, 1)` drops exactly that slot and keeps the others in order |
| ScheduleSettings.AfterDelete | src/pages/ScheduleSettings.jsx:79-83 | other days are untouched; the day keeps its key exactly when a slot remains, holding the list without the deleted slot |
| ScheduleSettings.Editor.constructor | src/pages/ScheduleSettings.jsx:29-39 | the table read from storage, the sheet closed, the `normal` kind and `19:00` preselected |
| ScheduleSettings.Editor.OpenAddModal | src/pages/ScheduleSettings.jsx:41-47 | opens the sheet in add mode for the day with the defaults, leaving the table alone |
| ScheduleSettings.Editor.OpenEditModal | src/pages/ScheduleSettings.jsx:49-58 | on an existing slot opens the sheet in edit mode with that slot's kind and time; with no slot at the index nothing changes |
| ScheduleSettings.Editor.SelectType | src/pages/ScheduleSettings.jsx:33 | only the selected kind changes |
| ScheduleSettings.Editor.SelectTime | src/pages/ScheduleSettings.jsx:34 | only the selected time changes |
| ScheduleSettings.Editor.CloseModal | src/pages/ScheduleSettings.jsx:30 | closes the sheet and keeps the table |
| ScheduleSettings.Editor.HandleSave | src/pages/ScheduleSettings.jsx:60-75 | only the edited day changes, to the sorted placement of the selected slot in its list (an empty list when missing); the table is stored and the sheet closed |
| ScheduleSettings.Editor.HandleDelete | src/pages/ScheduleSettings.jsx:77-87 | in add mode nothing changes; otherwise the table becomes `AfterDelete` of the slot, is stored, and the sheet closes |
| DailySchedule.TodayKeyFields | src/components/DailyScheduleInput.jsx:33-36 | today's key splits on `-` into the year as written and the month and day padded to two digits |
| DailySchedule.ByTimeIsTotalPreorder | src/components/DailyScheduleInput.jsx:47 | comparing events by time string is total and transitive, so the sort is well defined |
| DailySchedule.Purge | src/components/DailyScheduleInput.jsx:57-63 | a date key survives exactly when it is not a date before the cut-off, with its list unchanged |
| DailySchedule.WithoutId | src/components/DailyScheduleInput.jsx:103 | the events kept are exactly those whose id differs |
| DailySchedule.WithoutAbsentId | src/components/DailyScheduleInput.jsx:103 | deleting an id no event carries changes nothing |
| DailySchedule.WithoutIdCount | src/components/DailyScheduleInput.jsx:103 | the list shrinks by exactly the number of events carrying the id |
| DailySchedule.Toggled | src/components/DailyScheduleInput.jsx:110-112 | each position holds the old event, with its flag flipped when it carries the id |
| DailySchedule.ToggleProperties | src/components/DailyScheduleInput.jsx:108-114 | only the events carrying the id change, only in their English flag, and toggling twice restores the list |
| DailySchedule.NewEvent | src/components/DailyScheduleInput.jsx:81-85 | the draft with its title trimmed and the clock's reading as id |
| DailySchedule.WithPreset | src/components/DailyScheduleInput.jsx:117-124 | the preset's type always; its caption only when the title is empty |
| DailySchedule.FormatTimeOfPadded | src/components/DailyScheduleInput.jsx:127-133 | a well-formed `HH:MM` shows 오후 exactly from noon, the 12-hour hour with 0 shown as 12, and the minutes as written |
| DailySchedule.Planner.constructor | src/components/DailyScheduleInput.jsx:23-48 | today's stored list, missing as empty, shown sorted by time; the form empty and closed |
| DailySchedule.Planner.SaveEvents | src/components/DailyScheduleInput.jsx:51-71 | today's key takes the new list unsorted, every other date before the cut-off is dropped, the rest is untouched, and the shown list is the new one sorted |
| DailySchedule.Planner.HandleAddEvent | src/components/DailyScheduleInput.jsx:74-98 | a blank title changes nothing; otherwise the new event is appended and saved as `SaveEvents` saves (today's list, other dates kept, stale dates dropped), the form reset and closed |
| DailySchedule.Planner.AddAndSave | src/components/DailyScheduleInput.jsx:86-97 | the accepted add: the list with the event appended is saved, the other dates kept and the stale ones dropped, and the form resets and closes |
| DailySchedule.Planner.HandleDeleteEvent | src/components/DailyScheduleInput.jsx:101-105 | saves the list without the events carrying the id under today's key, keeps the other dates and drops the stale ones; today's key stays exactly when it is not stale |
| DailySchedule.Planner.ToggleEnglish | src/components/DailyScheduleInput.jsx:108-114 | saves the list with the matching events' flags flipped under today's key, keeps the other dates and drops the stale ones; today's key stays exactly when it is not stale |
| DailySchedule.Planner.HandlePresetSelect | src/components/DailyScheduleInput.jsx:117-124 | the draft takes the preset, nothing else changes |
| DailySchedule.ShownIsSortedSaved | src/components/DailyScheduleInput.jsx:66 | the shown list is in time order and a permutation of the saved events |
| MorningQuiz.CountTrue | src/pages/MorningQuiz.jsx:41 | the number of right answers is at most the number of answers |
| MorningQuiz.RoundDiv | src/pages/MorningQuiz.jsx:184 | `Math.round(n / d)`: the result is within half of the exact quotient, halves rounding up |
| MorningQuiz.ScorePercent | src/pages/MorningQuiz.jsx:169-171 | 0 for an empty quiz, else within half of the exact percentage of right answers |
| MorningQuiz.RoundedPercentBounds | src/pages/MorningQuiz.jsx:169-171 | any value within half of the percentage lies in 0..100, and is 100 for all right and 0 for none |
| MorningQuiz.ScoreBounds | src/pages/MorningQuiz.jsx:169-171 | the score lies in 0..100, a perfect quiz scores 100 and an all-wrong one 0 |
| MorningQuiz.ScoreMonotone | src/pages/MorningQuiz.jsx:169-171 | more right answers never lower the score |
| MorningQuiz.Quiz.constructor | src/pages/MorningQuiz.jsx:22-36 | the first question, nothing selected or recorded, the clock started |
| MorningQuiz.Quiz.HandleSelectAnswer | src/pages/MorningQuiz.jsx:85-89 | choosing is ignored once the answer is checked, else the selection becomes the option |
| MorningQuiz.Quiz.HandleCheckAnswer | src/pages/MorningQuiz.jsx:92-109 | without a selection nothing happens; otherwise exactly one answer, right exactly when the selection is the correct index, and one response time are recorded |
| MorningQuiz.Quiz.HandleNextQuestion | src/pages/MorningQuiz.jsx:112-129 | before the last question, the next one with the selection, check, play count and clock reset; after the last, the result screen; the record is unchanged |
| MorningQuiz.Quiz.HandleRetry | src/pages/MorningQuiz.jsx:150-160 | back to the starting state with the clock restarted |
| MorningQuiz.Quiz.ResultData | src/pages/MorningQuiz.jsx:174-187 | the saved result carries the answers, the question count, the score, the right-answer count and the rounded mean response time (0 with none) |
| MorningQuiz.ResultHasEveryAnswer | src/pages/MorningQuiz.jsx:120-129 | on the result screen every question has exactly one answer and one time, and the score lies in 0..100 |
| Practice.ChooseCorrections | src/pages/Practice.jsx:44-59 | the passed corrections when there are any, else the call's list whenever it has one (even empty), else the built-in sample |
| Practice.Progress | src/pages/Practice.jsx:66-70 | 50 while repeating (steps 2-3), 100 in the dialogue (steps 4-5), 0 otherwise |
| Practice.Next | src/pages/Practice.jsx:232-276 | steps 1-4 advance by one on the same correction; step 4 records its correction; step 5 moves to the next correction's step 1, or to the wrap-up after the last |
| Practice.Back | src/pages/Practice.jsx:313-322 | step 2 returns to 1 and step 4 to 3; from any other step the page is left |
| Practice.BackUndoesNext | src/pages/Practice.jsx:232-244 | back undoes the move next made from step 1 or step 3 |
| Practice.OneCorrection | src/pages/Practice.jsx:232-270 | five presses take one correction from its step 1 to the next correction's step 1, or to the wrap-up, recording it once |
| Practice.FullRun | src/pages/Practice.jsx:232-270 | five presses per correction reach the wrap-up on the last one having recorded one dialogue per correction, in order |
| Practice.ProgressRises | src/pages/Practice.jsx:66-70 | the progress bar never falls while working through one correction |
| Practice.Mask | src/pages/Practice.jsx:536-541 | the words with exactly the chosen run replaced by the blank |
| Practice.FillInBlank | src/pages/Practice.jsx:527-529 | a sentence of at most three words is shown whole with no blanks |
| Practice.ShownIsMask | src/pages/Practice.jsx:536-543 | the shown sentence splits back into the masked words |
| Practice.MaskRefill | src/pages/Practice.jsx:534-541 | writing the blanked words back into the masked slots restores the words |
| Practice.FillInBlankShape | src/pages/Practice.jsx:527-544 | a longer sentence keeps its word count, blanks `min(2, n/3)` words from index `n/3`, which are exactly the blanks, keeps every other word, and refills to the original words |
| Practice.Page.constructor | src/pages/Practice.jsx:23-59 | step 1 of the first chosen correction, nothing recorded |
| Practice.Page.SavePracticeToHistory | src/pages/Practice.jsx:279-305 | unparsable history is left alone; otherwise the new entry goes first and the list is cut at 50 |
| Practice.Page.HandleNext | src/pages/Practice.jsx:232-276 | the stage moves as `Next` says; step 4 appends exactly one result for the current correction; the transcript clears when a dialogue or a new correction starts; step 6 saves the entry of this run (the history as `SavePracticeToHistory` leaves it) and opens the history tab; results change only at step 4 |
| Practice.Page.HandleBack | src/pages/Practice.jsx:313-322 | step 2 to 1, step 4 to 3, otherwise the previous page; the results and the history are untouched |
| Script.PieceCount | src/pages/Script.jsx:60 | no content counts 0; otherwise the number of space-separated pieces, empty ones included, at least 1 |
| Script.FromDb | src/pages/Script.jsx:54-61 | a missing or empty id becomes `msg-<idx>`, a missing or zero turn number becomes the position; role and content are kept |
| Script.FromDbAll | src/pages/Script.jsx:54-61 | one screen message per stored message, each mapped with its own position |
| Script.PositionalIdsDistinct | src/pages/Script.jsx:56 | two messages without their own id get different positional ids |
| Script.Seen | src/pages/Script.jsx:244-245 | how many messages a loop over 0..index reads, positions past the end reading nothing |
| Script.GetUserTurnNumber | src/pages/Script.jsx:242-250 | the number of learner messages among positions 0..index |
| Script.GetCumulativeWordCount | src/pages/Script.jsx:253-261 | the non-empty words of the learner's messages among positions 0..index |
| Script.CountsGrow | src/pages/Script.jsx:242-261 | the turn number and the word count never fall further along the transcript |
| Script.UserTurnIsNext | src/pages/Script.jsx:242-250 | a learner message is numbered one past the learner messages before it |
| Script.NonEmptyAtMost | src/pages/Script.jsx:257 | the non-empty words never exceed the space-separated pieces |
| Script.NextCorrection | src/pages/Script.jsx:131-156 | done hides, hidden shows again without loading, anything else starts loading |
| Script.CorrectionToggles | src/pages/Script.jsx:131-150 | once a correction has loaded, two presses restore the view |
| Script.Transcript.constructor | src/pages/Script.jsx:21-45 | no messages and every per-message table empty |
| Script.Transcript.LoadSessionMessages | src/pages/Script.jsx:47-64 | a session with messages replaces the list with their mapped form; otherwise the list stays |
| Script.Transcript.ToggleTranslation | src/pages/Script.jsx:98-128 | a shown translation is hidden; otherwise it is shown and fetched exactly when nothing is cached, a failure caching the fallback text and an empty answer caching nothing |
| Script.Transcript.RequestCorrection | src/pages/Script.jsx:131-165 | the message's view moves as `NextCorrection` says and the timer starts exactly when it starts loading |
| Script.Transcript.CorrectionLoaded | src/pages/Script.jsx:159-164 | the timer shows the message's correction |
| LearningCalendar.Completed | src/components/LearningCalendar.jsx:150 | the number of flags set, 3 exactly when all are and 0 exactly when none is |
| LearningCalendar.LoadLearningData | src/components/LearningCalendar.jsx:38-53 | a date has an entry exactly when some session is on it, and each flag is set exactly when a session of that kind is on that date |
| LearningCalendar.GenerateCalendarDays | src/components/LearningCalendar.jsx:78-98 | `firstDay` empty cells followed by the days 1 to the month's length in order |
| LearningCalendar.GridColumns | src/components/LearningCalendar.jsx:78-98 | with the month's first weekday and length, every day of the month lands once, in the column of its weekday, Sunday first |
| LearningCalendar.FirstWeekday | src/components/LearningCalendar.jsx:82 | a weekday in 0..6 |
| LearningCalendar.GetMonthStats | src/components/LearningCalendar.jsx:140-157 | the counts are exactly the month's dates with all three flags and with one or two |
| LearningCalendar.StatsDisjoint | src/components/LearningCalendar.jsx:150-152 | no date is counted twice, a date with no flag is counted in neither, and each flagged date of the month is counted in one |
| LearningCalendar.IsFutureDate | src/components/LearningCalendar.jsx:121-127 | an empty cell is not in the future; otherwise the cell's date is exactly when it lies after today |
| LearningCalendar.TodayIsNotFuture | src/components/LearningCalendar.jsx:121-127 | today and every earlier date are not in the future |
| LearningCalendar.ChangeMonthSkipsFebruary | src/components/LearningCalendar.jsx:56-61 | on 31 January "next month" shows 3 March, skipping February |
| LearningCalendar.ChangeMonth | src/components/LearningCalendar.jsx:56-61 | the corrected month step of Findings row 2 (where the written `setMonth` overflows): the shown month moves by exactly `delta` months and stays a valid date |
| LearningCalendar.ChangeMonthReturns | src/components/LearningCalendar.jsx:56-61 | forward then back by the same count returns to the same month |
| LearningCalendarView.MonthView.constructor | src/components/LearningCalendar.jsx:24-53 | today's month, nothing selected, an entry exactly for the dates that have a session |
| LearningCalendarView.MonthView.Days | src/components/LearningCalendar.jsx:78-98 | the grid of the shown month with every day in its weekday column |
| LearningCalendarView.MonthView.ChangeMonthBy | src/components/LearningCalendar.jsx:56-61 | the shown month moves by the corrected `ChangeMonth`, not the overflowing `setMonth` (see Left out) |
| LearningCalendarView.MonthView.HandleDateClick | src/components/LearningCalendar.jsx:64-75 | an empty cell does nothing; otherwise the cell's date is selected and handed on with its status, none when it has no entry |
| TodayProgress.StepStatus | src/components/TodayProgress.jsx:61-72 | completed exactly when the step's done flag is set, with no progress counting as not done; every other id is available |
| TodayProgress.Recommended | src/components/TodayProgress.jsx:75-80 | none exactly when all three steps are done; otherwise the first step in order that is not done |
| TodayProgress.Steps | src/components/TodayProgress.jsx:84-106 | three steps in order, numbered from 1, each with its status and recommended exactly when it is the recommended one |
| TodayProgress.AtMostOneRecommended | src/components/TodayProgress.jsx:82-106 | at most one step is recommended, and it is never a completed one |
| TodayProgress.CompletedCount | src/components/TodayProgress.jsx:108 | at most the number of steps |
| TodayProgress.CompletedCountIsDoneFlags | src/components/TodayProgress.jsx:108-109 | the count is the number of done flags, and all are counted exactly when all three are done |
| TodayProgress.AllCompletedIffNoRecommendation | src/components/TodayProgress.jsx:75-109 | the card is all completed exactly when nothing is left to recommend |
| TodayProgress.StepRoute | src/components/TodayProgress.jsx:43-58 | only the three step ids open a screen |
| CustomTutor.Without | src/components/CustomTutorModal.jsx:126 | the tags kept are exactly the others |
| CustomTutor.WithoutAbsent | src/components/CustomTutorModal.jsx:126 | filtering out a tag that is not selected changes nothing |
| CustomTutor.WithoutShrinks | src/components/CustomTutorModal.jsx:125-126 | filtering out a selected tag shortens the selection |
| CustomTutor.TagToggle | src/components/CustomTutorModal.jsx:122-132 | a selected tag is dropped; an unselected one is appended while fewer than two are selected, and ignored otherwise |
| CustomTutor.TagToggleKeepsCap | src/components/CustomTutorModal.jsx:122-132 | the selection never grows past two tags |
| CustomTutor.WithoutKeepsNoDup | src/components/CustomTutorModal.jsx:126 | filtering keeps a selection free of repeats |
| CustomTutor.TagToggleKeepsDistinct | src/components/CustomTutorModal.jsx:122-132 | toggling never puts a tag in the selection twice |
| CustomTutor.TagToggleTwice | src/components/CustomTutorModal.jsx:122-132 | pressing an unselected tag twice, with room to add it, restores the selection |
| CustomTutor.Nationality | src/components/CustomTutorModal.jsx:166 | the country label of a known accent, and 미국 for any other |
| CustomTutor.KeptVoice | src/components/CustomTutorModal.jsx:169 | the stored record's voice id when it is non-empty, else none |
| CustomTutor.TutorRecord | src/components/CustomTutorModal.jsx:158-172 | the fixed id, the custom flag, the trimmed name, the chosen tags or the default pair when none, and the kept voice with the custom-voice flag set exactly when there is one |
| CustomTutor.TutorRecordLabels | src/components/CustomTutorModal.jsx:162-171 | the gender's Korean label, the accent's country, and the chosen style, accent, gender and time |
| CustomTutor.SaveOutcome | src/components/CustomTutorModal.jsx:144-200 | nothing is saved exactly when uploading a new image threw; otherwise the record, with the server's presigned image when it re-read the record, else the uploaded URL, else the earlier URL or the image itself |
| CustomTutor.SavedTagsAtMostTwo | src/components/CustomTutorModal.jsx:167 | a saved record has one or two tags |
| CustomTutor.Modal.constructor | src/components/CustomTutorModal.jsx:21-29 | an empty form with the `teacher`, `us` and `female` defaults, nothing loading and no error |
| CustomTutor.Modal.HandleTagToggle | src/components/CustomTutorModal.jsx:122-132 | the selection becomes `TagToggle` of it and stays within two |
| CustomTutor.Modal.HandleSave | src/components/CustomTutorModal.jsx:134-204 | a blank name only sets the name error; otherwise the outcome is stored and returned, and a failed save sets the save error and stores nothing |
| CustomTutor.Modal.HandleDelete | src/components/CustomTutorModal.jsx:211-244 | with no image and no name nothing changes; a failed server delete sets the error, clears the loading flag and keeps the stored record and every form field; a successful one stores `null` and resets every field to its default |
| Analysis.FillerText | src/pages/Analysis.jsx:55 | the sentence quotes the word right after its fixed opening |
| Analysis.TransformFillers | src/pages/Analysis.jsx:50-59 | no card exactly for missing fillers or a count of 0; otherwise the count (0 when missing) and one example per listed word, highlighting that word |
| Analysis.MissingFillerCountShowsZero | src/pages/Analysis.jsx:51-53 | fillers without a count still show a card, with the count 0 |
| Analysis.TransformGrammar | src/pages/Analysis.jsx:62-74 | no card exactly for a missing or empty list; otherwise the count is the number of corrections and each example keeps its fields and marks the whole original as the error |
| Analysis.FormatTime | src/pages/Analysis.jsx:1197-1202 | "00:00" for a missing or zero time |
| Analysis.FormatTimeReadsBack | src/pages/Analysis.jsx:1197-1202 | a positive time reads back as its whole minutes and remaining seconds, each in two digits around the colon |
| Analysis.FormatTimeZeroReadsBack | src/pages/Analysis.jsx:1198 | the zero rendering reads back as zero minutes and zero seconds |
| Analysis.NextPlaying | src/pages/Analysis.jsx:99-122 | pressing the sentence that is playing stops it; any other press plays that sentence |
| Analysis.PressTwiceStops | src/pages/Analysis.jsx:99-122 | pressing the same sentence twice from rest leaves nothing playing |
| Analysis.Player.constructor | src/pages/Analysis.jsx:99-123 | nothing playing, no audio loaded, no progress |
| Analysis.Player.HandlePlayAudio | src/pages/Analysis.jsx:99-164 | the playing index moves as `NextPlaying` says; a stop unloads the audio; a start resets that sentence's progress to 0 and loads audio exactly when the speech service sent some |
| Analysis.Player.PlaybackEnded | src/pages/Analysis.jsx:140-144 | nothing is playing, the audio is unloaded and the sentence's progress is 0 |
| Home.OrElse | src/pages/Home.jsx:16-17 | `value \|\| fallback`: the value when present and non-empty, else the fallback |
| Home.AccentLabel | src/pages/Home.jsx:19-24 | one of the four country labels, the United States for any unknown accent |
| Home.AccentLabelAgreesWithTutorDialog | src/pages/Home.jsx:19-24 | the home card and the custom tutor dialog name the same country for every accent |
| Home.GenderLabel | src/pages/Home.jsx:26 | shown as male exactly for `male`, as female otherwise |
| Home.TutorName | src/pages/Home.jsx:29-33 | the saved name when non-empty; else Gwen exactly for a female and James exactly for a male tutor, and no name for any other gender, whose lookup fails |
| Home.TutorInitial | src/pages/Home.jsx:34 | the name's first character |
| Home.EmptySettingsDefaults | src/pages/Home.jsx:15-34 | with nothing saved the card shows Gwen, an American woman |
| Home.FilteredHistory | src/pages/Home.jsx:70-77 | exactly the calls of the month and year on view, and with the filter on only those with at least 150 words |
| Home.FilteredCounts | src/pages/Home.jsx:70-77 | a shown call appears as many times as in the history, a hidden one never |
| Home.FilteredAppend | src/pages/Home.jsx:70-77 | filtering a concatenation is the concatenation of the filtered parts, so the order of the history is kept |
| Home.AnalysisFilterNarrows | src/pages/Home.jsx:74-75 | turning the filter on keeps part of the month's calls, all with an analysis |
| Home.Hour12 | src/pages/Home.jsx:93 | an hour in 1..12 of the same remainder modulo 12, so midnight and noon show 12 |
| Home.Hour12RoundTrip | src/pages/Home.jsx:92-93 | the twelve-hour hour with the afternoon mark gives back the hour of the day |
| Home.TailLayout | src/pages/Home.jsx:94 | the positions of the fields after the year in the rendered date |
| Home.FormatCallDateFields | src/pages/Home.jsx:83-95 | the year, then twenty characters whose fields read back as the padded month and day, the weekday's name, the half of the day, the twelve-hour hour and the minutes |
| HomeScreen.Screen.constructor | src/pages/Home.jsx:10-12 | no calls, the current month on view, the filter off |
| HomeScreen.Screen.LoadHistory | src/pages/Home.jsx:46-60 | a readable non-empty history is shown; a missing or empty one gives the sample calls; an unreadable one leaves the list as it was |
| HomeScreen.Screen.ChangeMonth | src/pages/Home.jsx:63-67 | the corrected month step of Findings row 3: the month on view moves by exactly `delta` months (see Left out) |
| HomeScreen.Screen.ToggleFilter | src/pages/Home.jsx:12 | the analysis-only filter flips |
| CallPage.StripCues | src/pages/Call.jsx:27 | the global removal of `*cue*` and the white space after it never lengthens the text |
| CallPage.CleanSubtitleText | src/pages/Call.jsx:23-30 | "" for no text; otherwise a subtitle that neither starts nor ends with white space |
| CallPage.NoStarsUnchanged | src/pages/Call.jsx:27 | text without a star keeps every character |
| CallPage.LeadingCueDropped | src/pages/Call.jsx:26-29 | a leading tone cue and the blanks after it vanish, leaving the rest |
| CallPage.SubtitleContent | src/pages/Call.jsx:322-328 | nothing exactly when subtitles are off; the translation or its placeholder in translation mode; the cleaned subtitle in the other two modes |
| CallPage.SubtitleTrimmed | src/pages/Call.jsx:322-328 | outside translation mode the shown subtitle never starts or ends with white space |
| CallPage.Pieces | src/pages/Call.jsx:228 | `split(' ')` always gives at least one piece |
| CallPage.NumberedSnoc | src/pages/Call.jsx:227-239 | appending the learner's message with the next turn number and running total keeps every message numbered by its turn |
| CallPage.FormatTime | src/pages/Call.jsx:272-276 | reads back as the whole minutes and the remaining seconds in two digits each, zero included |
| CallPage.TutorName | src/pages/Call.jsx:54-56 | James exactly for a male tutor, Gwen otherwise, the same name the shared helper gives |
| CallPage.Session.constructor | src/pages/Call.jsx:114-138 | the tutor's greeting, or the fixed greeting with the tutor's name when the service fails, is the only message and the subtitle; the counters and the timer are 0 |
| CallPage.Session.Tick | src/pages/Call.jsx:60-65 | the call time grows by one second |
| CallPage.Session.HandleUserSpeech | src/pages/Call.jsx:224-270 | blank speech changes nothing; otherwise the learner's message is appended with the next turn number and running word total, the counters grow by one turn and its pieces, and the reply, when there is one, follows and becomes the subtitle |
| CallPage.SpeechAsWritten | src/pages/Call.jsx:68-111 | with the callback bound at mount, every utterance counts as turn 1 with only its own words, and the list keeps only the last exchange |
| CallPage.SecondUtteranceCountsOne | src/pages/Call.jsx:76-94 | after "Hi" and "I am fine" the written screen counts one turn, three words and two messages where four words were said |
| CallPage.Session.HandleEndCall | src/pages/Call.jsx:278-319 | the call's duration, messages, date, counters and tutor are stored as the last result in every case; an unreadable history then fails before the history is written and the result screen is not opened; otherwise the call's record goes first and the history keeps at most 50 entries |
| CallPage.EndedCallFirst | src/pages/Call.jsx:303-316 | the saved history starts with the call just ended, never exceeds 50 entries, and keeps the earlier ones in order while under the cap |
| StreakStats.DatePart | src/pages/StreakStats.jsx:41 | the date key holds no `T`, is a prefix of the start instant, and stops exactly at its first `T` |
| StreakStats.DatePartIsFirstPiece | src/pages/StreakStats.jsx:41 | the date key is the first piece of splitting the instant on `T` |
| StreakStats.AddGet | src/pages/StreakStats.jsx:42 | adding a session's words to a date raises that date's count by those words and leaves every other date's count alone |
| StreakStats.AddKeys | src/pages/StreakStats.jsx:42 | adding raises the total by the words, keeps the keys distinct, and introduces only the date added |
| StreakStats.HasDayStep | src/pages/StreakStats.jsx:39-44 | one more session adds its date, its words to that date and its words to the total exactly when it is counted (non-empty start, non-zero words) |
| StreakStats.DailyWordCounts | src/pages/StreakStats.jsx:37-46 | distinct keys, exactly the dates some counted session started on, each holding the words of that date's counted sessions; their total (`totalWords`, lines 79-81) is the words of all counted sessions |
| StreakStats.KoreanMidnightIsPreviousUtcDay | src/pages/StreakStats.jsx:64 | `toISOString` of local midnight nine hours ahead of UTC names the previous UTC day |
| StreakStats.SundayWeekStartsTomorrow | src/pages/StreakStats.jsx:53 | on a Sunday `getDate() - getDay() + 1` is tomorrow, so the week it names does not contain today |
| StreakStats.WeekStart | src/pages/StreakStats.jsx:53 | the intended week start is a Monday at most six days before today |
| StreakStats.WeekStartAgreesOffSunday | src/pages/StreakStats.jsx:87 | from Monday to Saturday the written week start is that Monday |
| StreakStats.StreakWeeks | src/pages/StreakStats.jsx:49-76 | at most 52; every week counted back from the current one has a day with words, and the first week not counted (below 52) has none; weeks start on the corrected Monday `WeekStart` (see Left out) |
| StreakStats.WeekComparison | src/pages/StreakStats.jsx:84-108 | this week's words minus the previous week's, each summed over its seven day keys (missing keys count 0), from the corrected Monday `WeekStart` (see Left out) |
| StreakStats.RangeActive | src/pages/StreakStats.jsx:99-104 | with no negative counts a run of days sums to at least 0, and to more than 0 exactly when one of its days has words |
| StreakStats.ActiveIffWords | src/pages/StreakStats.jsx:61-68 | with no negative counts a week counts toward the streak exactly when its summed words are positive |
| StreakStats.WordsOnNonNegative | src/pages/StreakStats.jsx:37-46 | sessions with no negative word count give no negative daily count |
| StreakStats.StartDay | src/pages/StreakStats.jsx:119-120 | the blanks before the 1st are the 1st's distance from Monday (Sunday gives 6) |
| StreakStats.CalendarData | src/pages/StreakStats.jsx:111-144 | the blanks, then one cell per day of the month with that day's number, the count under its key and whether the key is today's |
| StreakStats.MondayColumns | src/pages/StreakStats.jsx:119-127 | in the Monday-first grid every day of the month falls in the column of its distance from Monday |
| StreakStats.KoreanCellShowsPreviousDay | src/pages/StreakStats.jsx:131-133 | keyed as written on a device in Korea, a day's cell shows the words of the sessions of the day before |
| StreakStats.LocalCellShowsItsDay | src/pages/StreakStats.jsx:131-133 | keyed by the local date, a day's cell shows the words of the sessions of that day |
| StreakStatsPage.Page.constructor | src/pages/StreakStats.jsx:15-17 | no sessions, the month of today, loading |
| StreakStatsPage.Page.LoadSessions | src/pages/StreakStats.jsx:20-34 | a response carrying sessions replaces the list, anything else keeps it; loading ends either way |
| StreakStatsPage.Page.ShiftMonth | src/pages/StreakStats.jsx:148 | the first of the month `delta` months away, with the year carried |
| StreakStatsPage.Page.HandlePrevMonth | src/pages/StreakStats.jsx:146-149 | the first of the previous month |
| StreakStatsPage.Page.HandleNextMonth | src/pages/StreakStats.jsx:151-154 | the first of the next month |
| Calendar.SetMonthSkipsFebruary | src/components/LearningCalendar.jsx:58 | `setMonth` from 31 January to February lands on 3 March; clamping the day would give 28 February |
| Calendar.SetMonthWhenDayFits | src/components/LearningCalendar.jsx:58 | when the day exists in the target month, `setMonth` lands on that day of that month |
| Calendar.CivilRoundTrip | src/pages/StreakStats.jsx:132 | a valid date turned into its day number and back is the same date |
| Sorting.Sort | backend/lambda_function.py:1205 | `sorted` returns a permutation of its input |
| Sorting.SortIsUnique | backend/lambda_function.py:1205 | when only equal elements tie, the sort is the one sorted arrangement of the elements |

## Left out

- Cloud services: the document store is an in-memory map, and SHA-256 and HMAC are parameters of the signer. The language-model, speech, translation and object-storage calls are not part of this model.
- Concurrency, and the exception and HTTP 500 paths of the handlers: a store call that fails is not modelled.
- In `usageHandler.js`: `handleGetUsage`, `getResetTime`, `handleCheckUsageLimit` and `handleUpgradePlan`, which only wrap the modelled checks around table writes.
- Time: `Date` parsing, time zones and daylight saving. Instants are integer milliseconds, and local days are day numbers or midnight instants passed in. `toDateString` keys are day numbers.
- String order is code-point order. Python compares code points, so the backend is exact; JavaScript's `<` compares UTF-16 code units, which differs only between a character above U+FFFF and one in U+E000..U+FFFF, and `localeCompare` is modelled as the same code-point order.
- Floating point: `Math.round` in the quiz score is computed on exact rationals, and the Analysis playback percentages (`ontimeupdate`) are left out.
- Randomness: the choices of `getImprovementSentences` and `getRandomMotivationMessage` are left out, and the generated device id is an input of `getDeviceId`.
- `getLearningStats` and `buildPersonalizedQuiz` are left out; they are not among the modelled operations.
- Timers (`createAutoScheduleChecker`), window events (`handleNotification`, the `learning-session-updated` reload), haptics, navigation, and media: audio, text-to-speech and speech recognition, including the MorningQuiz `handlePlayAudio` and the Practice audio and recording handlers.
- `fetchTranslation` in Practice and `setTutorInfo`/`topicMap` in Script; the Script `callData` branch (Script.jsx:92-93).
- The notification plugin itself: the listeners and channels, `cancelReminder`, `showIncomingCallNotification`, `triggerIncomingCallNow` and `showAnalysisCompleteNotification`.
- LearningCalendar `getDayStatus`, which is the same lookup as `HandleDateClick`, and `isToday`/`isSelected`.
- The DailySchedule `onScheduleChange` callback and `getEventIcon`; the ScheduleSettings shallow-copy aliasing of the day lists.
- The CustomTutor load effect (CustomTutorModal.jsx:33-79), `handleFileSelect` with its image resize (83-120), and `handleClose`.
- CustomTutor.Modal.HandleSave: does not model the in-flight `isLoading` flag.
- The Analysis highlight regex; ScheduleSettings `toggleItem`; Home's `completedCalls` (Home.jsx:80), which is the length of the loaded history.
- CallPage.Session.HandleEndCall: src/pages/Result.jsx, which reads `lastCallResult` back, is not part of this model; the two `new Date()` readings are separate parameters.
- Call: the stale `isSpeakerOn` seen by `speakText`.
- MergeMemory (`Memory.MergeMemory`): list categories are combined by the corrected `Combine`, which keeps a repeated new item once; the written code keeps every repeat (`CombineAsWritten`, Findings row 1). The two agree whenever the new list has no repeats of its own (`CombineAgreesWithoutRepeats`).
- SaveUserMemory (`Store.Backend.SaveUserMemory`): stores the corrected merge of `MergeMemory`, as above.
- DayPlan (`Notifications.DayPlan`, with `SlotPlan`): plans each reminder at the corrected `MotivationInstant`, not the written `MotivationInstantAsWritten` (Findings row 4). They agree for every slot at 00:10 or later (`MotivationAgreesLaterInDay`).
- ScheduleMotivationReminder (`Notifications.Service.ScheduleMotivationReminder`): schedules at the corrected instant; for a slot before 00:10 the written code can schedule a reminder in the past, one the model places a week later.
- SyncReminders (`Notifications.Service.SyncReminders`): its plan uses the corrected reminder instant, as DayPlan.
- ScheduleDay (`Notifications.Service.ScheduleDay`): appends DayPlan, so uses the corrected reminder instant.
- ChangeMonth (`LearningCalendar.ChangeMonth`): the corrected month step, not the written `setMonth` step (`ChangeMonthAsWritten`, Findings row 2). They agree whenever the day exists in the target month (`Calendar.SetMonthWhenDayFits`).
- ChangeMonthBy (`LearningCalendarView.MonthView.ChangeMonthBy`): moves by the corrected ChangeMonth, so from 31 January "next" gives 28 February where the screen shows 3 March.
- ChangeMonth (`HomeScreen.Screen.ChangeMonth`): the same corrected step for the home calendar (Findings row 3).
- StreakWeeks (`StreakStats.StreakWeeks`): counts weeks from the corrected Monday `WeekStart`, not the written `getDate() - getDay() + 1`, which on a Sunday is the next day (Findings row 5). They agree from Monday to Saturday (`WeekStartAgreesOffSunday`).
- WeekComparison (`StreakStats.WeekComparison`): the same corrected week start.
- ClockTime.Number: reads only plain ASCII digit strings; blanks, signs, fractions, exponents and hexadecimal, which JavaScript's `Number` also accepts, read as `NaN`, since only colon-split `HH:MM` pieces reach it.
- Helpers.TutorInitial: returns the name's first character; JavaScript's `name[0]` is its first UTF-16 code unit, which for a character above U+FFFF is a lone high surrogate that a Dafny `char` cannot hold.
- Home.TutorInitial: the same first character for `tutorName[0]` (Home.jsx:34), with the same difference above U+FFFF.
- Store.MessageFalsy: a message object whose keys are all unknown counts as empty here; Python treats any non-empty dict as truthy.
- Memory: values are compared by structure; Python's `1 == True` and `1 == 1.0` equalities, which the `not in` test would follow, are not modelled.
- Sorting.Sort: stability (the original order of equal times) is not stated as a lemma; `SortIsUnique` fixes the result only where equal keys mean equal elements.
- Store.SplitDetail: states which messages belong to the session, not their order.
- Store.Backend.GetSessionDetail: states which messages belong to the session, not their order.
- Helpers.FilterByRole: states the multiset of the kept messages, not their order.
- LearningCycle.Log.SaveQuizResult: the session's weak points are `{type: area}` objects in the source, but area strings in the model.
- Helpers.FormatTime: the doc comment of `formatTime` gives 0 as "00:00", but the code gives "0:00"; the model follows the code.

## Findings

| source | as written | input that shows it | evidently intended | confidence | as-written member | corrected member |
|---|---|---|---|---|---|---|
| backend/lambda_function.py:1621-1624 | the list merge drops only new items already in the existing list, so a value repeated inside the new list is kept twice | existing `["tennis"]`, new `["chess", "chess"]` gives `["tennis", "chess", "chess"]` | a merge without duplicates, as the comment says | not executed | Memory.CombineAsWrittenKeepsDuplicates | Memory.Combine |
| src/components/LearningCalendar.jsx:56-61 | `setMonth(getMonth() + delta)` keeps the day of the month, and an overflowing day rolls into the month after | on 31 January 2025, "next month" shows 3 March and skips February | move to the month `delta` months away | not executed | LearningCalendar.ChangeMonthSkipsFebruary | LearningCalendar.ChangeMonth |
| src/pages/Home.jsx:63-67 | the same `setMonth` overflow in the home calendar | on 31 January, "next month" shows March | move to the month `delta` months away | not executed | LearningCalendar.ChangeMonthSkipsFebruary | HomeScreen.Screen.ChangeMonth |
| src/services/notificationService.js:346-355 | the week offset of the motivation reminder is chosen for the call time, then ten minutes are taken off, so the reminder can fall before now | on a Monday at 23:58, a Tuesday 00:05 call is reminded at 23:55 that Monday | a reminder strictly in the future | not executed | Notifications.MotivationCanBePast | Notifications.MotivationInstantAhead |
| src/pages/StreakStats.jsx:53 | the week start is `getDate() - getDay() + 1`, which on a Sunday is the next day | on any Sunday, the current week excludes today (the same at line 87) | the Monday of the current week | not executed | StreakStats.SundayWeekStartsTomorrow | StreakStats.WeekStart |
| src/pages/StreakStats.jsx:131-133 | a calendar cell is keyed by `toISOString()` of local midnight, which is a UTC date | on a device in Korea (UTC+9), each cell shows the previous day's words | each cell keyed by its own local date | not executed | StreakStats.KoreanCellShowsPreviousDay | StreakStats.LocalCellShowsItsDay |
| src/pages/Call.jsx:68-111 | the speech-recognition callback is bound once at mount, so `handleUserSpeech` always sees the mount-time messages and counters | "Hi", then "I am fine": the second utterance reports turn 1 and 3 words and keeps only its own 2 messages | turn 2 and 4 words, with the earlier messages kept | not executed | CallPage.SecondUtteranceCountsOne | CallPage.Session.HandleUserSpeech |
