# terms-plain in Dafny

A model of the deterministic core of terms-plain, a lease-reading assistant. It has a
backend half and a frontend half.

**Backend.** It flags risky clauses with a fixed rule table and cuts an evidence snippet
around each match. It strips and parses the JSON replies of a language model, then
normalises those replies with fixed fallbacks. It also guards the request texts and caches
responses for ten minutes.

**Frontend.** It decodes API responses with defaults and keeps a browser-side store of
Exit Board listings. It filters and sorts the Exit Board, validates the new-listing form and
checks the sign-up form before requesting an account.

One Dafny module per source file, plus four shared modules:
- `Wrappers`: `Option` and `Result`.
- `Text`: JavaScript string operations on ASCII text, namely `trim`, `toLowerCase`,
  `indexOf`, `lastIndexOf`, `slice`, `split`, `join`, `startsWith` and `endsWith`.
- `JsValue`: a decoded JSON value, as the source sees it through `unknown`.
- `Listing`: the `ExitListing` record.

Code that computes a value is modelled as functions. Code that updates variables step by
step is modelled as methods proved against those functions, for example `ExtractSnippet`,
`DetectFlags`, `StripFence`, the padding loop and the sort. Objects with state are classes:
- the cache table;
- the listing store around `localStorage`;
- the new-listing page;
- the sign-up page.

The following are parameters of the operations that use them:
- regular-expression `exec`;
- `JSON.parse`;
- SHA-256;
- `Number(...)`;
- date parsing;
- the clock;
- the account service.

## Model

| member | source | states |
|---|---|---|
| Snippet.EnsurePrefixEllipsis | backend/src/utils/extractSnippet.ts:1-6 | the result starts with `...`; a value already starting with it is returned as is; otherwise `...` is prepended |
| Snippet.EnsureSuffixEllipsis | backend/src/utils/extractSnippet.ts:8-13 | the result ends with `...`; a value already ending with it is returned as is; otherwise `...` is appended |
| Snippet.EnsurePrefixIdempotent | backend/src/utils/extractSnippet.ts:1-6 | adding the leading marker twice is the same as once |
| Snippet.EnsureSuffixIdempotent | backend/src/utils/extractSnippet.ts:8-13 | adding the trailing marker twice is the same as once |
| Snippet.Window | backend/src/utils/extractSnippet.ts:20-27 | the window lies in the text, starts at or before the match and is at most 260 long; a window reaching the end starts at `max(0, len - 260)`; otherwise it starts 120 before the match and is exactly 260 long |
| Snippet.ExtractSnippet | backend/src/utils/extractSnippet.ts:15-44 | the loop-free step-by-step computation equals the snippet function; the result is at most 266 characters; a match of at most 140 characters with non-space ends appears verbatim in it |
| Snippet.CutWindow | backend/src/utils/extractSnippet.ts:20-27 | the window bounds the source computes are those of `Window`, inside the text and covering the match start |
| Snippet.AddMarkers | backend/src/utils/extractSnippet.ts:31-36 | the two conditional marker steps give the decorated text |
| Snippet.CapLength | backend/src/utils/extractSnippet.ts:38-41 | the 300-character cap step gives the capped text |
| Snippet.RenderedParts | backend/src/utils/extractSnippet.ts:29-36 | the rendered window is the trimmed window with at most one `...` before it, added only when the window starts after 0, and at most one after it, added only when it ends before the text |
| Snippet.DecorateParts | backend/src/utils/extractSnippet.ts:31-36 | the markers are added only at cut edges, and only where the text does not already carry one |
| Snippet.SnippetLength | backend/src/utils/extractSnippet.ts:29-41 | the snippet is at most 266 characters, so the 300-character cap never changes it |
| Snippet.ShortTextShownWhole | backend/src/utils/extractSnippet.ts:20-36 | a text of at most 260 characters is shown whole and trimmed, without markers |
| Snippet.SnippetMarkers | backend/src/utils/extractSnippet.ts:31-36 | a window cut at the start gives a snippet starting with `...`, an uncut start gives one starting with the trimmed window; likewise at the end |
| Snippet.SnippetParts | backend/src/utils/extractSnippet.ts:20-36 | the snippet is the trimmed window of `Window` with the two conditional markers |
| Snippet.LeadingMarkerOnlyAfterStart | backend/src/detectFlags.test.ts:29-31 | a snippet starting with `...`, over a window whose text does not itself start with a dot, comes from a match after offset 0 |
| Snippet.SnippetNonEmpty | backend/src/detectFlags.test.ts:35-37 | a match starting at a non-space character yields a non-empty snippet |
| Snippet.WindowCoversMatch | backend/src/utils/extractSnippet.ts:22-27 | a match of at most 140 characters lies inside the window |
| Snippet.SnippetContainsMatch | backend/src/detectFlags.test.ts:27 | the matched text of at most 140 characters with non-space ends appears in the snippet |
| Snippet.MarkersKeepNoFourDots | backend/src/utils/extractSnippet.ts:31-36 | markers around a text without a four-dot run and without dots at its ends create no four-dot run |
| Snippet.NoFourDotsFromMarkers | backend/src/detectFlags.test.ts:28 | when the trimmed window has no four-dot run and does not begin or end with a dot, neither does the snippet |
| Snippet.FourDotsAfterSentenceEnd | backend/src/detectFlags.test.ts:38 | a window whose trimmed text ends with a sentence's dot and is cut at the end does give `....`, so the dot condition above is needed |
| Snippet.DotBeforeMarker | backend/src/utils/extractSnippet.ts:8-13 | a text ending with a dot followed by an added marker contains `....` |
| Flags.TableIds | backend/src/flags.ts:12-175 | the table holds ten rules with these ids in this order |
| Flags.IdsDistinct | backend/src/flags.ts:12-175 | no two rules share an id |
| Flags.Severities | backend/src/flags.ts:12-175 | rules 0, 4, 8 and 9 are red, rule 5 is green, the rest are yellow |
| Flags.KeywordsWellFormed | backend/src/flags.ts:12-175 | every rule has keywords, each non-empty and without outer whitespace |
| Flags.EarlyTerminationPenaltyKeywordsOk | backend/src/flags.ts:13-30 | the rule's keywords are non-empty and without outer whitespace |
| Flags.AutomaticRenewalKeywordsOk | backend/src/flags.ts:31-46 | the rule's keywords are non-empty and without outer whitespace |
| Flags.NoticePeriodRequirementKeywordsOk | backend/src/flags.ts:47-62 | the rule's keywords are non-empty and without outer whitespace |
| Flags.SubleaseRestrictionKeywordsOk | backend/src/flags.ts:63-78 | the rule's keywords are non-empty and without outer whitespace |
| Flags.LateFeeChargesKeywordsOk | backend/src/flags.ts:79-94 | the rule's keywords are non-empty and without outer whitespace |
| Flags.RepairResponsibilityKeywordsOk | backend/src/flags.ts:95-110 | the rule's keywords are non-empty and without outer whitespace |
| Flags.SecurityDepositDeductionsKeywordsOk | backend/src/flags.ts:111-126 | the rule's keywords are non-empty and without outer whitespace |
| Flags.LandlordEntryRightsKeywordsOk | backend/src/flags.ts:127-142 | the rule's keywords are non-empty and without outer whitespace |
| Flags.RentIncreaseTermsKeywordsOk | backend/src/flags.ts:143-158 | the rule's keywords are non-empty and without outer whitespace |
| Flags.CollectionsLiquidatedDamagesKeywordsOk | backend/src/flags.ts:159-174 | the rule's keywords are non-empty and without outer whitespace |
| Flags.EveryRuleHasRegex | backend/src/flags.ts:8 | every rule defines a non-empty regular expression, though the type makes it optional |
| Detect.KeywordScan | backend/src/detectFlags.ts:11-26 | the best keyword start is -1 or an offset whose keyword fits in the text |
| Detect.KeywordScanIsBest | backend/src/detectFlags.ts:14-26 | the keyword loop finds the earliest occurring keyword, the longest one on a tie, and -1 exactly when none occurs |
| Detect.KeywordScanCaseInsensitive | backend/src/detectFlags.ts:15-16 | keywords that lower-case alike give the same winner |
| Detect.RegexScan | backend/src/detectFlags.ts:28-41 | a span exists exactly when the rule has a non-empty pattern that matches; it lies in the text; an exception gives no span |
| Detect.RunRegex | backend/src/detectFlags.ts:28-41 | the pattern step yields the span of `RegexScan`: `(-1, -1)` without a pattern, for an empty one, without a match or on an exception |
| Detect.ChooseSpan | backend/src/detectFlags.ts:47-65 | once a keyword or the pattern matched, the chosen span is the reconciled one: the keyword's unless the pattern's starts 30 or more characters earlier |
| Detect.ScanKeywords | backend/src/detectFlags.ts:11-26 | the loop computes the keyword scan |
| Detect.DetectRule | backend/src/detectFlags.ts:11-75 | one rule's loop body gives the rule's flag, or none where the source continues |
| Detect.DetectFlags | backend/src/detectFlags.ts:5-79 | the loop returns, in table order, the flag of every rule that fires, at most one per rule |
| Detect.RuleSpanWithin | backend/src/detectFlags.ts:47-67 | the reconciled span lies inside the original text, because lower-casing keeps the length |
| Detect.NoFlagIff | backend/src/detectFlags.ts:43-45 | a rule gives no flag exactly when no keyword occurs case-insensitively and the pattern is absent, empty, unmatched or throws |
| Detect.ReconcileBoth | backend/src/detectFlags.ts:56-65 | with both matches the keyword span wins unless the regular-expression match starts 30 or more characters earlier |
| Detect.RuleFlagFields | backend/src/detectFlags.ts:67-75 | a fired rule's flag copies the rule's id, label, severity and explanation, and its evidence is the snippet of the span |
| Detect.DetectedFromFired | backend/src/detectFlags.ts:10-76 | the flags correspond one to one, in increasing rule order, to the rules that fire |
| Detect.RuleFlagId | backend/src/detectFlags.ts:69-70 | a rule's flag carries the rule's id |
| Detect.FlagIdsFromRules | backend/src/detectFlags.ts:69-75 | each flag carries the id of the rule it came from |
| Detect.DistinctFlagIds | backend/src/detectFlags.test.ts:20 | rules with distinct ids give flags with distinct ids, no more flags than rules |
| Detect.NoMatchNoFlags | backend/src/detectFlags.test.ts:86-92 | a text that fires no rule gives no flags |
| Detect.TableFlags | backend/src/detectFlags.test.ts:20 | over the rule table: at most ten flags, with pairwise distinct ids |
| Gemini.AsConfidence | backend/src/ai/gemini.ts:22-23 | `high` and `medium` exactly for those strings, `low` for anything else |
| Gemini.IncludesPhrase | backend/src/ai/gemini.ts:179-180 | true exactly when some lower-cased item contains the phrase |
| Gemini.AllInclude | backend/src/ai/gemini.ts:233-237 | true exactly when every lower-cased item contains the phrase |
| Gemini.Cap | backend/src/ai/gemini.ts:355 | a string within the cap is unchanged; a longer one is cut and trimmed to within the cap; no outer whitespace is introduced; a string starting with a non-space stays non-empty |
| Gemini.FirstKeyword | backend/src/ai/gemini.ts:186-196 | the found offset is -1 or a keyword occurrence inside the text |
| Gemini.GroundingSnippet | backend/src/ai/gemini.ts:202-209 | the snippet is at most 120 characters |
| Gemini.ExtractBasedOnSnippets | backend/src/ai/gemini.ts:182-212 | the loop computes the snippet list |
| Gemini.FirstKeywordSource | backend/src/ai/gemini.ts:190-196 | a found offset is where some listed keyword occurs, and the length is that keyword's |
| Gemini.FirstKeywordWinner | backend/src/ai/gemini.ts:190-196 | the loop picks the first listed keyword among those occurring earliest, and -1 exactly when none occurs |
| Gemini.BasedOnSnippetsShape | backend/src/ai/gemini.ts:198-211 | no snippet exactly when no keyword occurs; otherwise exactly one, of at most 120 characters |
| Gemini.BasedOnSnippetHasMatch | backend/src/ai/gemini.postvalidation.test.ts:5-12 | for keywords of at most 80 characters without outer whitespace, the snippet contains the matched text |
| Gemini.WinnerSpan | backend/src/ai/gemini.ts:190-196 | the winning match is at most 80 characters, inside the text and without outer whitespace |
| Gemini.SnippetIncludesSpan | backend/src/ai/gemini.ts:202-209 | the grounding snippet contains the matched span |
| Gemini.GroundingSnippetHasSpan | backend/src/ai/gemini.ts:202-209 | the matched span occurs in the grounding snippet at some offset |
| Gemini.WindowKeepsSpan | backend/src/ai/gemini.ts:202-204 | the trimmed window holds the span within its first 120 characters |
| Gemini.CapKeepsSpan | backend/src/ai/gemini.ts:207-209 | a span with non-space ends inside the first `cap` characters survives the cap |
| Gemini.MatchEndsNotSpace | backend/src/ai/gemini.ts:191 | text matched by a keyword without outer whitespace has none either |
| Gemini.CutKeepsSpan | backend/src/ai/gemini.ts:208 | cutting and trimming keeps a span that lies inside the cut |
| Gemini.ApplyExplainPostValidation | backend/src/ai/gemini.ts:214-253 | the explanation is kept; the key points are kept exactly when they mention written notice, 60 days and 12 months, else replaced by the fixed three; the questions are kept unless all of them are the filler |
| Gemini.LowerKeepsOccurrence | backend/src/ai/gemini.ts:180 | a phrase without capitals found in a text is found in its lower-cased form |
| Gemini.PhraseInItem | backend/src/ai/gemini.ts:179-180 | one item containing the phrase makes the check true |
| Gemini.FirstKeyPointMentionsTerm | backend/src/ai/gemini.ts:226 | the first fixed key point mentions 12 months |
| Gemini.SecondKeyPointMentionsNotice | backend/src/ai/gemini.ts:227 | the second fixed key point mentions written notice |
| Gemini.SecondKeyPointMentionsDeadline | backend/src/ai/gemini.ts:227 | the second fixed key point mentions the 60-day deadline |
| Gemini.FallbackKeyPointsCover | backend/src/ai/gemini.ts:219-229 | the fixed key points pass the check they replace |
| Gemini.FallbackQuestionsSpecified | backend/src/ai/gemini.ts:232-245 | the fixed questions are not fillers |
| Gemini.PostValidationIdempotent | backend/src/ai/gemini.ts:214-253 | post-validating a post-validated result changes nothing |
| Gemini.PostValidationReplacesFillers | backend/src/ai/gemini.postvalidation.test.ts:15-34 | filler key points and questions are replaced by both fixed lists |
| Gemini.LowerNotSpecified | backend/src/ai/gemini.ts:232 | the lower-cased filler is the sentence searched for |
| Gemini.TrimmedOrNotSpecified | backend/src/ai/gemini.ts:346-349 | a non-blank string field gives its trim, anything else the filler; never empty, no outer whitespace |
| Gemini.CleanItems | backend/src/ai/gemini.ts:351-356 | the item pipeline keeps only non-empty trimmed strings within the cap, never more than it was given |
| Gemini.CleanItemsIdempotent | backend/src/ai/gemini.ts:351-356 | a cleaned list passes the pipeline unchanged |
| Gemini.CleanedPassThrough | backend/src/ai/gemini.ts:352-355 | non-empty items within the cap and without outer whitespace are kept as they are |
| Gemini.Filled | backend/src/ai/gemini.ts:297-301 | a short list is padded with the filler to the minimum, a long one is cut to the maximum, in order |
| Gemini.FilledBounds | backend/src/ai/gemini.ts:297-301 | the filled list has between the minimum and maximum items, each non-empty and within the cap |
| Gemini.PadWithNotSpecified | backend/src/ai/gemini.ts:365-367 | the push loop pads with the filler to the requested count, keeping the items in order |
| Gemini.FillList | backend/src/ai/gemini.ts:297-301 | padding then cutting gives the filled list |
| Gemini.NormalizeSummary | backend/src/ai/gemini.ts:287-301 | a null reply throws; otherwise 3 to 6 bullets, each non-empty and at most 140 characters, from the cleaned items and fillers |
| Gemini.NormalizeExplain | backend/src/ai/gemini.ts:340-380 | a null reply throws; otherwise the post-validated capped explanation with 2 to 6 key points and questions of at most 120 characters |
| Gemini.PostValidationBounds | backend/src/ai/gemini.ts:376-380 | post-validation keeps the explanation's count and length bounds |
| Gemini.FallbacksWithinBounds | backend/src/ai/gemini.ts:225-245 | each fixed list has three non-empty items of at most 120 characters |
| Gemini.NormalizeQa | backend/src/ai/gemini.ts:421-515 | a null reply throws; otherwise the answer is the capped trimmed answer, at most 900 characters; confidence is high for an early-leave question over a lease mentioning early termination, else the coerced one; the grounding is the one `QaGroundingIs` describes for the cleaned list of at most five lines |
| Gemini.GroundQa | backend/src/ai/gemini.ts:444-509 | the grounding has at most five lines of at most 120 characters and is non-empty over a non-blank lease or a filler answer. It is fixed in every case. With no termination snippet: a non-empty cleaned list is kept; an empty one gives exactly `No clause found about this in provided text` after a filler answer, and otherwise the lease's trimmed first 120 characters, or nothing for a blank lease. With a snippet: the cleaned list, or the snippet when that list is empty or holds the filler. For an early-leave question, a snippet naming the early termination fee is used alone; otherwise it is put first (at most five lines) unless a line already names the fee |
| Gemini.GroundOnOpening | backend/src/ai/gemini.ts:507-509 | an empty grounding over a non-blank lease becomes the lease's trimmed opening 120 characters; a non-empty one is kept |
| Gemini.GroundOnLease | backend/src/ai/gemini.ts:444-459 | an empty list, or one holding the filler, becomes the termination snippet when there is one; every other list is kept; the result is non-empty exactly when the input was or a snippet exists |
| Gemini.PreferEarlyTermination | backend/src/ai/gemini.ts:480-505 | without a termination snippet the grounding is unchanged. A snippet naming the early termination fee, or an empty list, gives the snippet. Otherwise the snippet is put first (at most five lines) unless some line already names the fee, in which case the list is kept. The result stays within bounds |
| ParseJson.FenceBody | backend/src/ai/parseJson.ts:5-9 | the opening line is dropped, and the last line too when it is a closing fence |
| ParseJson.Unfenced | backend/src/ai/parseJson.ts:2-11 | the stripped text has no outer whitespace |
| ParseJson.StripFence | backend/src/ai/parseJson.ts:2-11 | the shift and pop on the line array give the stripped text |
| ParseJson.ParsePossiblyFencedJson | backend/src/ai/parseJson.ts:1-28 | the stripped text's value if it parses, else the brace candidate's, else exactly the `Invalid JSON from Gemini` error |
| ParseJson.UnfencedPlain | backend/src/ai/parseJson.ts:2-4 | a reply not starting with a fence is only trimmed |
| ParseJson.FencedOneLine | backend/src/ai/parseJson.ts:4-10 | a fenced reply on one line strips to the empty string |
| ParseJson.FencedOneLineFails | backend/src/ai/parseJson.ts:13-27 | such a reply fails both parses when the empty text does not parse |
| ParseJson.FencedBody | backend/src/ai/parseJson.test.ts:10-22 | a reply fenced with an info string and a closing fence strips to its trimmed body |
| ParseJson.FencedLines | backend/src/ai/parseJson.ts:5 | a fenced reply splits into its opening line, the body's lines and its closing line |
| ParseJson.FencedUnclosed | backend/src/ai/parseJson.ts:5-10 | a fenced reply without a closing fence keeps every line but the first |
| ParseJson.CandidateShape | backend/src/ai/parseJson.ts:16-20 | with a `{` before a `}` the candidate runs from the first `{` to the last `}`; otherwise it is the text itself |
| ParseJson.PlainReplyUnchanged | backend/src/ai/parseJson.test.ts:5-8 | an unfenced reply without outer whitespace is parsed as it is |
| Trimming.SafeTrim | backend/src/utils/safeTrim.ts:1-13 | empty gives empty; the result is a prefix of the trimmed text of at most `maxChars`; the whole trim when it fits, exactly `maxChars` otherwise; no leading space |
| Trimming.NotIdempotent | backend/src/utils/safeTrim.ts:9-12 | cutting can leave a trailing space, so a second call can shorten the result |
| Validation.IsEmpty | backend/src/utils/validation.ts:1-7 | absent text and all-whitespace text are empty, and nothing else |
| Validation.IsValidText | backend/src/utils/validation.ts:9-11 | valid exactly when present with a non-space character |
| Validation.ValidTextSurvivesSafeTrim | backend/src/utils/validation.ts:9-11 | valid text keeps at least one character under a positive trim limit |
| Cache.MakeKey | backend/src/utils/cache.ts:7-10 | a key is at most 32 characters of the digest of the joined parts |
| Cache.Lookup | backend/src/utils/cache.ts:12-22 | a value exactly for a present entry that has not expired, and then the stored one |
| Cache.AfterLookup | backend/src/utils/cache.ts:12-22 | a lookup deletes the key's expired entry and nothing else |
| Cache.Stored | backend/src/utils/cache.ts:24-26 | the key's entry is the value with expiry `now + ttl`; other entries are unchanged |
| Cache.Table.constructor | backend/src/utils/cache.ts:5 | the table starts empty |
| Cache.Table.Get | backend/src/utils/cache.ts:12-22 | returns the lookup and leaves the table as the lookup does |
| Cache.Table.Set | backend/src/utils/cache.ts:24-26 | the table becomes the stored table |
| Cache.SetThenGet | backend/src/utils/cache.test.ts:5-9 | a read before expiry gives the stored value and keeps the table |
| Cache.GetAfterExpiry | backend/src/utils/cache.test.ts:11-21 | a read at or after expiry gives nothing and deletes only that entry |
| Cache.GetKeepsTable | backend/src/utils/cache.ts:13-21 | a read of a missing key or live entry leaves the table unchanged |
| Cache.KeysDependOnJoinedParts | backend/src/utils/cache.ts:7-9 | only the joined text counts, so `["a", "b"]` and `["a\|\|b"]` share a key |
| Cache.ExpiryScenario | backend/src/utils/cache.test.ts:11-21 | a value stored for 10 ms is read at once and is gone 20 ms later |
| JsValue.ItemsOrEmpty | frontend/src/lib/api.ts:7-8 | an array gives its items, anything else none |
| Api.SafeString | frontend/src/lib/api.ts:4-5 | a string value is returned, anything else gives the fallback |
| Api.NormalizeSeverity | frontend/src/lib/api.ts:10-15 | red and green exactly for those strings; everything else, `yellow` included, is yellow |
| Api.Decimal | frontend/src/lib/api.ts:48 | the printed index has at least one digit, one digit exactly below ten, and ends in the last decimal digit |
| Api.DecimalInjective | frontend/src/lib/api.ts:48 | different indices print differently |
| Api.DefaultFlagIdsDistinct | frontend/src/lib/api.ts:48 | default ids of different positions differ |
| Api.DecodeFlag | frontend/src/lib/api.ts:47-53 | a `null` or `undefined` element throws; anything else decodes |
| Api.DecodeFlags | frontend/src/lib/api.ts:47-53 | decoding throws exactly when some element is `null` or `undefined`; otherwise one flag per element, each decoded at its index |
| Api.Strings | frontend/src/lib/api.ts:56-58 | one string per array element, the empty string for a non-string |
| Api.AnalyzeLease | frontend/src/lib/api.ts:42-61 | throws exactly for a null response or a null flag element |
| Api.ExplainClause | frontend/src/lib/api.ts:63-75 | throws exactly for a null response |
| Api.AskQuestion | frontend/src/lib/api.ts:77-95 | throws exactly for a null response |
| Api.AnalyzedFlags | frontend/src/lib/api.ts:47-53 | flags keep the response's count and order; a string id is kept and a missing one defaults by position; a non-object element gets every default |
| Api.DefaultIdsUnique | frontend/src/lib/api.ts:48 | flags that arrive without ids get pairwise different ids |
| Api.ListsKeepLength | frontend/src/lib/api.ts:68-73 | the lists keep the response's length, with `""` for non-strings |
| Api.AnsweredConfidence | frontend/src/lib/api.ts:83-88 | the confidence is the response's when it is one of the three names, else low |
| Listing.HousingName | frontend/src/lib/types.ts:40 | every housing type has a non-empty stored name |
| Storage.Loaded | frontend/src/lib/storage.ts:5-21 | no window, no item or an empty item gives no listings; any listing comes from an item that decodes to a list |
| Storage.ItemAfterLoad | frontend/src/lib/storage.ts:10-20 | loading either keeps the item or removes it |
| Storage.Without | frontend/src/lib/storage.ts:43 | a listing is kept exactly when it was there and has another id |
| Storage.FindById | frontend/src/lib/storage.ts:50 | a found listing is stored and has the id; nothing is found exactly when no listing has it |
| Storage.ListingStore.constructor | frontend/src/lib/storage.ts:3 | the store holds the given window, writability and item |
| Storage.ListingStore.Load | frontend/src/lib/storage.ts:5-21 | returns the loaded list, and removes an item that does not parse |
| Storage.ListingStore.Save | frontend/src/lib/storage.ts:23-32 | writes the encoded list only with a window and writable storage |
| Storage.ListingStore.Add | frontend/src/lib/storage.ts:34-39 | the new listing goes before the stored ones, and the result is saved |
| Storage.ListingStore.Delete | frontend/src/lib/storage.ts:41-46 | the stored listings without the id are returned and saved |
| Storage.ListingStore.Get | frontend/src/lib/storage.ts:48-51 | finds the id among the loaded listings |
| Storage.ParseFailureClears | frontend/src/lib/storage.ts:15-19 | text that does not parse gives no listings, and the item is removed |
| Storage.NotAListIgnored | frontend/src/lib/storage.ts:16 | a stored value that is not a list gives no listings and is kept |
| Storage.SavedIsLoaded | frontend/src/lib/storage.ts:15-28 | with a codec whose parse undoes its stringify, what was saved loads back |
| Storage.WithoutAppend | frontend/src/lib/storage.ts:43 | removal by id distributes over concatenation, so order is kept |
| Storage.WithoutAbsent | frontend/src/lib/storage.ts:43 | a list without the id is unchanged |
| Storage.FindByIdIsFirst | frontend/src/lib/storage.ts:50 | the first listing with the id is found |
| Storage.GetAfterDelete | frontend/src/lib/storage.ts:41-51 | after deleting an id, it is not found |
| Storage.AddKeepsExisting | frontend/src/lib/storage.ts:34-39 | adding puts the listing first, keeps the stored ones, and finds it by its id |
| ExitBoard.Filter | frontend/src/app/exit-board/page.tsx:49-62 | each element passing the test is kept as often as it occurs, and the others are dropped |
| ExitBoard.SortInPlace | frontend/src/app/exit-board/page.tsx:65-87 | the array ends sorted by the key, is a permutation of what it held, and keeps the order of listings with equal keys (a stable sort) |
| ExitBoard.Insert | frontend/src/app/exit-board/page.tsx:65-87 | one insertion step extends the sorted prefix, keeps the contents and keeps the order within every key |
| ExitBoard.SwapDown | frontend/src/app/exit-board/page.tsx:65-87 | exchanging a neighbour with a larger key keeps the order within every key |
| ExitBoard.SwapKeepsKeyOrder | frontend/src/app/exit-board/page.tsx:65-87 | two neighbours with different keys can trade places without changing the listings of any key or their order |
| ExitBoard.Swap | frontend/src/app/exit-board/page.tsx:65-87 | two neighbours trade places and nothing else moves |
| ExitBoard.FilterAndSort | frontend/src/app/exit-board/page.tsx:44-90 | the result holds exactly the filtered listings, sorted by the chosen order, with listings of equal keys in their filtered order |
| ExitBoard.FilteredIsPassing | frontend/src/app/exit-board/page.tsx:47-63 | the filters keep exactly the listings passing every active filter, each as often as it occurs |
| ExitBoard.InactiveFiltersKeepAll | frontend/src/app/exit-board/page.tsx:47-63 | a blank city, an empty or non-numeric rent and no housing type keep everything |
| ExitBoard.SortOrders | frontend/src/app/exit-board/page.tsx:66-87 | rent ascending, rent descending, move-in date ascending or lease end ascending |
| ExitBoard.RentBoundInclusive | frontend/src/app/exit-board/page.tsx:54-57 | a listing at exactly the rent bound stays |
| NewListing.Get | frontend/src/app/exit-board/new/page.tsx:66-72 | the two confirmations hold a checked flag, the other inputs text |
| NewListing.Cleared | frontend/src/app/exit-board/new/page.tsx:75-81 | the input's error is removed and every other one kept |
| NewListing.CollectErrors | frontend/src/app/exit-board/new/page.tsx:84-139 | the checks in their written order give the error record `ErrorsOf` |
| NewListing.CheckBasics | frontend/src/app/exit-board/new/page.tsx:87-102 | the city, state, rent and lease-end entries become those of `ErrorsOf`; the rest are kept |
| NewListing.CheckDates | frontend/src/app/exit-board/new/page.tsx:103-113 | the move-in entry becomes that of `ErrorsOf`; the rest are kept |
| NewListing.CheckDetails | frontend/src/app/exit-board/new/page.tsx:114-125 | the rooms, housing-type and description entries become those of `ErrorsOf`; the rest are kept |
| NewListing.CheckContact | frontend/src/app/exit-board/new/page.tsx:126-138 | the contact and confirmation entries become those of `ErrorsOf`; the rest are kept |
| NewListing.LaterCheckWins | frontend/src/app/exit-board/new/page.tsx:103-131 | an over-long description or contact is reported as too long even when blank; the move-in order message appears exactly when both dates are set and out of order |
| NewListing.NoErrorsIffValid | frontend/src/app/exit-board/new/page.tsx:140-141 | the record is empty exactly when every check passes |
| NewListing.TrimmedOrNull | frontend/src/app/exit-board/new/page.tsx:155 | blank text gives `null`, anything else its trim |
| NewListing.NewListingPage.constructor | frontend/src/app/exit-board/new/page.tsx:22-42 | the page starts with the empty form, no errors and no submission error |
| NewListing.NewListingPage.HandleChange | frontend/src/app/exit-board/new/page.tsx:63-82 | the field takes the new value or checked state, and only its error is removed |
| NewListing.NewListingPage.Validate | frontend/src/app/exit-board/new/page.tsx:84-142 | the errors become `ErrorsOf`, and the result is true exactly when the form is valid and the record empty |
| NewListing.NewListingPage.HandleSubmit | frontend/src/app/exit-board/new/page.tsx:144-169 | the submission error is cleared, the errors become `ErrorsOf` of the form, the form is kept, and a payload is built exactly for a valid form |
| NewListing.UpdatedTouchesOneField | frontend/src/app/exit-board/new/page.tsx:70-73 | a change sets its own input and leaves every other input as it was |
| NewListing.ValidPayload | frontend/src/app/exit-board/new/page.tsx:152-169 | a valid form sends trimmed non-empty required text, a positive rent, texts within their limits, and a move-in not after the lease end |
| NewListing.SameDayAccepted | frontend/src/app/exit-board/new/page.tsx:106-112 | equal move-in and lease-end dates pass |
| NewListing.BlankOptionalsAreNull | frontend/src/app/exit-board/new/page.tsx:155-167 | blank neighbourhood and reason, and an empty deposit, are sent as `null` |
| SignUp.FirstFailure | frontend/src/app/auth/sign-up/page.tsx:22-35 | the first failing check in order: blank email or empty password, then under 6 characters, then mismatch; none exactly when all pass |
| SignUp.SignUpPage.constructor | frontend/src/app/auth/sign-up/page.tsx:12-16 | empty fields, no error, not loading |
| SignUp.SignUpPage.HandleSubmit | frontend/src/app/auth/sign-up/page.tsx:18-52 | a failed check shows its message and nothing is requested; otherwise one request with the trimmed email and untrimmed password; a refusal shows its message without redirect; a created user goes to `/exit-board`; loading ends off |
| SignUp.SixCharactersEnough | frontend/src/app/auth/sign-up/page.tsx:27-35 | a six-character password passes the length check |
| SignUp.SpacesArePassword | frontend/src/app/auth/sign-up/page.tsx:22-39 | the password is never trimmed: six spaces pass |
| SignUp.ChecksInOrder | frontend/src/app/auth/sign-up/page.tsx:22-30 | a blank email is reported before a short password, a short password before a mismatch |

## Left out

- Regular expressions are not interpreted. A rule's pattern is handed to the `exec` parameter, which may report a match, no match or an exception; the model requires only that a reported match lies inside the text.
- `JSON.parse`, `JSON.stringify`, SHA-256, `Number(...)` and `new Date(...)` are parameters. Numbers are whole numbers. `NaN` is `None`, an invalid date is `None`, and an invalid date compares false, as in the source.
- ExitBoard.SortKey: an invalid date in the sort, which gives `NaN` in the source's comparator, is not modelled; the clock parameter returns a whole number for every string.
- ExitBoard.SortInPlace: `Array.prototype.sort` is modelled as an insertion sort, which is stable as the language requires; the comparison steps the engine makes are not modelled, only their result.
- Text is ASCII. `toLowerCase` maps only `A`-`Z`, and whitespace is space, tab, line feed, vertical tab, form feed and carriage return; Unicode case folding and Unicode whitespace are not modelled.
- Floating point: rents and deposits are whole numbers, and JavaScript `number` arithmetic is not modelled.
- The Gemini client, the schemas, the prompts, `getResponseText`, the `generateContent` calls, and the cache reads and writes inside the `generate*` functions are not modelled. Only the normalisation of the decoded response is.
- `postJson` and the network are not part of this model. The `Api` functions start from the decoded body.
- `createListing`, the account service, authentication, analytics, routing other than the sign-up redirect, and rendering are not part of this model.
- Storage.ListingStore: `localStorage.getItem` throwing is not modelled; a refused write is modelled by the `writable` field.
- Storage.Decoded: the elements of a stored array are taken to be listings, as the `as ExitListing[]` cast of `loadListings` asserts; `Array.isArray` is the only check, so a stored array holding `null`, a non-object or an object without an `id` is not represented.
- Storage.ListingStore.Delete: the TypeError `deleteListing` throws before saving when a stored element is `null` (reading its `id`) is not modelled, nor that an element without an `id` is kept; both follow from `Storage.Decoded` reading elements as listings.
- Storage.ListingStore.Get: the TypeError `getListing` throws when it reaches a `null` element before a match is not modelled, for the same reason as `Storage.Decoded`.
- Detect.DetectFlags: the rule table is a parameter. `Detect.TableFlags` states the result for the table itself.
- Trimming.SafeTrim: `maxChars` is a natural number; the source's behaviour for a negative or fractional limit, and JavaScript's negative `slice` indices, are not modelled.
- NewListing.Form: each input's kind (checkbox or text) is fixed by its name; an event whose `type` does not match the input is not modelled.
- NewListing.NewListingPage.HandleSubmit: the `createListing` call and what follows it are left out; the method ends with the payload to send.
- The sign-in page is not modelled: its required-fields check is the first check of the sign-up chain.
