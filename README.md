# Valentine's gift finder — a Dafny model of its decision logic

The site helps a visitor choose a Valentine's Day gift. It has:

- a curated catalog, filtered by the site's category pages;
- a five-question quiz whose answers become a free-text query for an AI suggestion endpoint;
- a search page that matches the catalog and also asks the AI endpoint;
- retailer search links, with an affiliate tag on Amazon only;
- a blog with sorting, tag and related-post queries;
- a newsletter endpoint that tags each subscriber with their quiz context;
- a countdown banner that grows more urgent as the day approaches.

This project models that logic in Dafny and proves what it promises. There is one module per source file:

| module | models |
|---|---|
| `Types` | the enumerations and record shapes of `lib/types.ts` |
| `Gifts` | catalog lookups, the category filter and the random sample of `lib/gifts.ts` |
| `Categories` | the fixed table of eight category pages and its lookups |
| `Retailers` | the retailer router and the search-URL builder |
| `Quiz` | the quiz: the step machine (`QuizController`) and the query compiler (`BuildSearchQuery`) |
| `SearchPage` | the search page's curated filter and its state (`SearchPage`) |
| `BlogPosts` | the blog store (`BlogStore`): its in-place sort and its queries |
| `SearchRoute` | `POST /api/search`: validation, JSON extraction and id stamping |
| `SubscribeRoute` | `POST /api/subscribe`: guards, tag list and reply selection |
| `Countdown` | the countdown's day arithmetic, its urgency tiers and its render guards |

Two helper modules hold the JavaScript behaviour the others rely on:

- `Js` covers ASCII `toLowerCase`/`toUpperCase`, `includes`, `join`, `slice`, `filter`, `find`/`findIndex`, `trim` and the decimal rendering of numbers.
- `UriComponent` models ECMAScript `encodeURIComponent` on strings of Unicode scalar values. It applies the percent-encoding of section 2.1 of RFC 3986 to the UTF-8 bytes of every character outside the unreserved set. The module also has a decoder, so the round trip can be proved. Lone surrogates, for which `encodeURIComponent` throws, cannot occur in this model.

Where the page or route holds state, the model is a class whose methods update fields. These are the quiz controller, the search page and the blog store, whose sort happens in place. The inputs the code receives from outside are all parameters:

- the catalog and the blog posts;
- environment variables;
- fetch outcomes;
- `JSON.parse`;
- `Date.now()`;
- the draws of `Math.random`;
- the millisecond distance to Valentine's Day.

## Model

| member | source | states |
|---|---|---|
| Types.PriceRangesExactlyFour | lib/types.ts:2 | there are exactly four price ranges, all listed, with distinct names |
| Types.RecipientTypesExactlyFive | lib/types.ts:3 | there are exactly five recipient types, all listed, with distinct names |
| Types.VibesExactlyFour | lib/types.ts:4 | there are exactly four vibes with distinct names, and "luxury" is not one of them |
| Types.RelationshipStagesExactlyThree | lib/types.ts:5 | there are exactly three relationship stages with distinct names |
| Types.AsList | lib/types.ts:34-39 | a single filter value acts as the one-element list, and a list as itself |
| Gifts.GetAllGifts | lib/gifts.ts:8-10 | the catalog is returned unchanged, in order |
| Gifts.GetGiftById | lib/gifts.ts:13-15 | the result is none iff no gift has the id; otherwise it is the first gift with that id |
| Gifts.GetPriceLabel | lib/gifts.ts:23-25 | each of the four price ranges reads its own budget-tier label |
| Gifts.SomeIncludedIff | lib/gifts.ts:45-47 | the recursive `some(... includes ...)` holds iff the two lists share an element |
| Gifts.KeepGift | lib/gifts.ts:29-73 | the filter callback keeps a gift iff it passes every present field: AND across fields, OR within a field |
| Gifts.FilterGiftsByCategory | lib/gifts.ts:28-74 | the result is exactly the catalog gifts that match the filter, as a subsequence in catalog order, each as many times as the catalog lists it |
| Gifts.EmptyFilterKeepsCatalog | lib/gifts.ts:63-72 | a filter with no fields, with an absent interests list or an empty one, returns the whole catalog |
| Gifts.SinglePriceIsOneElementList | lib/gifts.ts:31-38 | a single price range filters exactly like the one-element list |
| Gifts.SingleRecipientIsOneElementList | lib/gifts.ts:41-51 | a single recipient type filters exactly like the one-element list |
| Gifts.SingleVibeIsOneElementList | lib/gifts.ts:54-60 | a single vibe filters exactly like the one-element list |
| Gifts.EmptyListRejectsAll | lib/gifts.ts:31-60 | an explicit empty list for price, recipient or vibe rejects every gift |
| Gifts.ShuffleCopy | lib/gifts.ts:81-85 | the Fisher–Yates swaps on a copy yield a permutation of the input |
| Gifts.SamplePool | lib/gifts.ts:78 | the pool is a subsequence of the catalog, and it is the whole catalog when there is no filter |
| Gifts.SubMultisetDistinct | lib/gifts.ts:87 | a sub-multiset of a list of distinct gifts has distinct gifts |
| Gifts.GetRandomGifts | lib/gifts.ts:77-88 | for count ≥ 0 it returns min(count, pool size) gifts, all from the pool; with count ≥ pool size the result is a permutation of the pool; distinct in, distinct out |
| Categories.CategoryTableShape | lib/categories.ts:3-84 | there are eight categories with distinct slugs, each filtering on exactly one field; for-him is [boyfriend, husband] and for-her is [girlfriend, wife] |
| Categories.GetCategoryBySlug | lib/categories.ts:86-88 | the result is the table entry with that slug, or none iff no slug matches |
| Categories.SlugLookupFindsEachCategory | lib/categories.ts:86-88 | looking up any table entry's slug returns that very entry |
| Categories.GetAllCategories | lib/categories.ts:90-92 | the table is returned unchanged, in declared order |
| Retailers.ParseKey | lib/retailers.ts:7 | a string names a retailer key exactly when parsing returns that key |
| Retailers.RetailerTables | lib/retailers.ts:3-15 | every key has a non-empty display name, and only Amazon has an affiliate tag |
| Retailers.GetRetailerSearchUrl | lib/retailers.ts:18-33 | the result is non-null iff the key is one of the four, and it is then that key's prefix, the encoded term and the key's suffix |
| Retailers.UrlCarriesTermUnchanged | lib/retailers.ts:19-29 | the URL starts with the retailer's fixed prefix, and the part between prefix and suffix decodes back to the product name exactly |
| Retailers.OnlyAmazonIsTagged | lib/retailers.ts:3-5 | a URL contains `&tag=aanthony08-21` iff the key is Amazon |
| Retailers.GetBestRetailerForGift | lib/retailers.ts:36-51 | virginexp iff some tag lowercases to "experience"; otherwise noths iff some lowercased tag is a personalisation word; otherwise amazon; never etsy |
| Retailers.NoTagsGoToAmazon | lib/retailers.ts:50 | an empty tag list routes to Amazon |
| Retailers.BestRetailerIgnoresOrder | lib/retailers.ts:37-47 | reordering the tags never changes the chosen retailer |
| Retailers.BestRetailerIgnoresCase | lib/retailers.ts:37 | uppercasing any one tag never changes the chosen retailer |
| Quiz.StepIndex | app/quiz/page.tsx:94-101 | the index is -1 iff the step is loading or results; otherwise it is the step's position in the step order |
| Quiz.Progress | app/quiz/page.tsx:102-104 | progress is 100 off the questions and index/5 × 100 on them |
| Quiz.ProgressGrows | app/quiz/page.tsx:101-104 | progress starts at 0, rises strictly along the step order, and stays within 0–100 |
| Quiz.Toggle | app/quiz/page.tsx:111-114 | the toggled value's membership flips, every other value's stays; a new value is appended at the end, and removing a value keeps the rest in order with their counts |
| Quiz.ToggleTwice | app/quiz/page.tsx:111-114 | selecting a new interest and then selecting it again restores the list |
| Quiz.ToggleKeepsDistinct | app/quiz/page.tsx:111-114 | toggling keeps the interests list free of duplicates |
| Quiz.ClauseKindOf | app/quiz/page.tsx:168-199 | each clause is recognised by the fixed text it opens with: the recipient, interests, budget and personality openings and the two relationship sentences |
| Quiz.ClauseKinds | app/quiz/page.tsx:166-199 | each question contributes at most one clause of its own kind, and the recipient question exactly one |
| Quiz.BuildSearchQuery | app/quiz/page.tsx:165-202 | the query begins with "Valentine's gift for my " and the recipient |
| Quiz.ClausesInQuestionOrder | app/quiz/page.tsx:166-201 | the query has one to five clauses, recipient first, in strictly increasing question order |
| Quiz.ClausePresence | app/quiz/page.tsx:170-199 | the relationship clause appears iff the stage is new or longterm, with the right wording; the interests clause iff some interest was chosen, the interests joined by ", "; the budget clause iff the budget is set and not "any"; the personality clause iff one was chosen |
| Quiz.BudgetClauses | app/quiz/page.tsx:180-188 | "any" or no budget adds no clause; each tier adds "budget " and its mapped phrase |
| Quiz.QuizController.constructor | app/quiz/page.tsx:97-99 | the quiz starts at the recipient question with no answers and no results |
| Quiz.QuizController.StartResults | app/quiz/page.tsx:141-145 | the step becomes loading and the query compiled from the final answers is sent |
| Quiz.QuizController.FinishResults | app/quiz/page.tsx:154-162 | the step becomes results whatever the fetch did; only an ok reply replaces the results |
| Quiz.QuizController.HandleSelect | app/quiz/page.tsx:106-129 | on interests the value is toggled and the step stays; on any other question the answer is stored under that step and the quiz moves to the next step, or after personality to loading with the compiled query, every one of the five questions then being answered |
| Quiz.QuizController.HandleContinue | app/quiz/page.tsx:131-139 | from the interests step, with at least one interest chosen, the quiz moves to budget |
| Quiz.QuizController.Restart | app/quiz/page.tsx:204-208 | the quiz goes back to recipient with no answers and no results |
| SearchPage.CuratedMatches | app/search/page.tsx:45-53 | the matches are exactly the catalog gifts whose lowercased name, description or one interest contains the lowercased query, as a subsequence in catalog order with each gift's count kept |
| SearchPage.CuratedMatchesIgnoreCase | app/search/page.tsx:48-51 | uppercasing the query never changes the matches |
| SearchPage.VerbatimOccurrenceMatches | app/search/page.tsx:48-51 | a gift whose name, description or interest contains the query verbatim is always matched |
| SearchPage.SearchPage.constructor | app/search/page.tsx:22-26 | the page starts with an empty query, no results and both flags false |
| SearchPage.SearchPage.TotalResults | app/search/page.tsx:84 | the total is the curated count plus the AI count |
| SearchPage.SearchPage.SetQuery | app/search/page.tsx:22 | typing changes only the query |
| SearchPage.SearchPage.HandleSearch | app/search/page.tsx:38-57 | a whitespace-only query changes nothing and sends nothing; otherwise loading and searched are set, the curated results match the untrimmed query, and the query is posted |
| SearchPage.SearchPage.SettleSearch | app/search/page.tsx:64-72 | loading always ends; only an ok reply replaces the AI results |
| SearchPage.SearchPage.HandleSubmit | app/search/page.tsx:75-82 | a blank box does nothing; otherwise the address becomes `/search?q=` and the encoded query, and the search runs |
| SearchPage.SearchPage.Mount | app/search/page.tsx:29-36 | a non-empty `q` parameter fills the box and runs the search; otherwise nothing changes |
| SearchPage.RejectedQueryKeepsResults | app/search/page.tsx:64 | a request the route rejects with 400 is not an ok reply, so it cannot replace results |
| BlogPosts.Insert | lib/blog-posts.ts:76-78 | inserting adds exactly the one post |
| BlogPosts.InsertSorted | lib/blog-posts.ts:76-78 | inserting into a newest-first list keeps it newest-first |
| BlogPosts.SortNewestFirst | lib/blog-posts.ts:76-78 | the sort is a permutation of its input |
| BlogPosts.SortSorted | lib/blog-posts.ts:76-78 | the sort's output is newest-first |
| BlogPosts.SortStable | lib/blog-posts.ts:76-78 | posts with the same date keep their relative order, as the stable `Array.prototype.sort` does |
| BlogPosts.SortKeepsSorted | lib/blog-posts.ts:76-78 | sorting an already newest-first list leaves it unchanged, so repeated calls do not reorder |
| BlogPosts.InCategory | lib/blog-posts.ts:86 | the result is exactly the posts of that category, as a subsequence in list order with each post's count kept |
| BlogPosts.WithTag | lib/blog-posts.ts:90-92 | the result is exactly the posts with a tag equal to the given tag ignoring case, as a subsequence in list order with each post's count kept |
| BlogPosts.WithTagIgnoresCase | lib/blog-posts.ts:91 | uppercasing the tag never changes the result |
| BlogPosts.RelatedCandidates | lib/blog-posts.ts:100-104 | the candidates are exactly the other posts sharing the category or an exact-case tag, as a subsequence in list order with each post's count kept |
| BlogPosts.RelatedPosts | lib/blog-posts.ts:96-105 | an unknown current post gives []; otherwise the candidates cut by `slice(0, limit)` |
| BlogPosts.RelatedPostsShape | lib/blog-posts.ts:100-105 | related posts never include the current slug, each shares category or tag, and for limit ≥ 0 they are the first min(limit, candidates) candidates |
| BlogPosts.BlogStore.constructor | lib/blog-posts.ts:18 | the store holds the given posts |
| BlogPosts.BlogStore.GetAllBlogPosts | lib/blog-posts.ts:75-79 | the stored array is sorted in place and returned: newest-first and a permutation of before |
| BlogPosts.BlogStore.GetBlogPostBySlug | lib/blog-posts.ts:81-83 | none iff no post has the slug; otherwise the first post with it in the current order |
| BlogPosts.BlogStore.GetBlogPostsByCategory | lib/blog-posts.ts:85-87 | the array is sorted in place, then the category's posts are returned in date order |
| BlogPosts.BlogStore.GetBlogPostsByTag | lib/blog-posts.ts:89-93 | the array is sorted in place, then the posts with the tag ignoring case are returned |
| BlogPosts.BlogStore.GetRelatedPosts | lib/blog-posts.ts:95-106 | an unknown slug gives [] and leaves the array alone; otherwise the array is sorted and the related posts are returned |
| SearchRoute.LastIndexOf | app/api/search/route.ts:118 | the result is the position of the last occurrence of the character, or -1 |
| SearchRoute.ExtractJson | app/api/search/route.ts:118-122 | there is no match iff no `}` follows a `{`; otherwise the match runs from the leftmost `{` to the last `}` after it |
| SearchRoute.ExtractedIsBraced | app/api/search/route.ts:118 | a match starts with `{` and ends with `}` |
| SearchRoute.StampIds | app/api/search/route.ts:127-130 | the length is kept, and item i is unchanged except that its id is `ai-{time}-{i}` |
| SearchRoute.AiIdInjective | app/api/search/route.ts:129 | different (time, index) pairs never give the same id |
| SearchRoute.StampedIdsDistinct | app/api/search/route.ts:127-130 | ids within one reply are distinct, start with "ai-", and all other fields are kept |
| SearchRoute.SearchGiftsWithAI | app/api/search/route.ts:39-135 | it throws iff a key is set and the upstream call fails; without a key it returns []; returned suggestions have distinct ids |
| SearchRoute.Post | app/api/search/route.ts:15-37 | 400 "Query is required" iff the query is missing, empty or not a string; 500 "Failed to search for gifts" iff the body is not JSON or the upstream call fails with a key set; otherwise 200 with suggestions under distinct ids |
| SearchRoute.NoKeyNoSuggestions | app/api/search/route.ts:40-46 | a missing or empty API key gives 200 with no suggestions |
| SearchRoute.PostSuccess | app/api/search/route.ts:109-134 | no JSON, a missing `gifts` field or a parse failure gives []; parsed gifts come back stamped, same count, distinct ids |
| SearchRoute.ClientView | app/search/page.tsx:64 | a reply is ok iff its status is 2xx, and an ok reply carries its suggestions |
| SearchRoute.SuggestionsOrEmpty | app/search/page.tsx:66 | an ok reply yields its suggestions, or [] when it carries none |
| SubscribeRoute.ValidEmailIff | app/api/subscribe/route.ts:27-32 | an address passes iff it is present and contains an at sign |
| SubscribeRoute.ContextTagsShape | app/api/subscribe/route.ts:35-38 | the tags start with "valentine-quiz", hold one more tag per present field under its own prefix, and nothing else |
| SubscribeRoute.BuildTags | app/api/subscribe/route.ts:35-38 | the pushes build exactly the specified tag list |
| SubscribeRoute.Post | app/api/subscribe/route.ts:14-73 | the guards fire in order (500 unconfigured, 500 unreadable body, 400 invalid email); otherwise the subscription is sent with the tag list and the reply maps to 200 success, 500 "Failed to subscribe" or 500 "Something went wrong" |
| Countdown.CeilDiv | components/ValentineCountdown.tsx:16 | the quotient is the least integer q with a ≤ q·d |
| Countdown.CalculateDays | components/ValentineCountdown.tsx:13-22 | days is never negative; isPast iff at least a whole day has passed since midnight starting Valentine's Day; days is 0 iff that midnight has come; otherwise it is the number of days rounded up |
| Countdown.ValentinesDayIsDayZero | components/ValentineCountdown.tsx:16-20 | during the day itself the count is 0 and not past |
| Countdown.DaysMonotone | components/ValentineCountdown.tsx:16-19 | less time left never shows more days |
| Countdown.GetUrgencyConfig | components/ValentineCountdown.tsx:51-100 | each tier gets its own banner: day 0 "It's Valentine's Day!", day 1 the "Tomorrow" banner, days 2–3 "Only n days left!" on burgundy/90, days 4–7 the gold banner "Still time for the perfect gift", days 8 and up the cream banner "Find their perfect gift", each with its subtext and classes; white text in the three urgent tiers, cream after |
| Countdown.TierMonotone | components/ValentineCountdown.tsx:52-90 | fewer days left never gives a calmer tier |
| Countdown.MessagesDistinguishDays | components/ValentineCountdown.tsx:51-100 | the banner message determines the day count: no two counts share a message |
| Countdown.UrgentMessagesAreWordy | components/ValentineCountdown.tsx:52-70 | the today and tomorrow messages differ from every numbered message |
| Countdown.Banner | components/ValentineCountdown.tsx:41-48 | the banner shows iff the component is mounted and the day is not past, and then it is the tier for the current count |
| Countdown.BannerShownUntilDayEnds | components/ValentineCountdown.tsx:41-48 | once mounted, the banner shows until the end of Valentine's Day and never before mounting |
| Js.LowerOfUpper | app/search/page.tsx:48 | lowercasing after uppercasing is plain lowercasing |
| Js.IncludesIff | app/search/page.tsx:48 | `includes` holds iff the needle occurs at some position |
| Js.LowerKeepsOccurrence | app/search/page.tsx:48 | an occurrence survives lowercasing both sides |
| Js.JoinSnoc | app/quiz/page.tsx:201 | joining one more part appends the separator and the part |
| Js.SliceEnd | lib/blog-posts.ts:105 | `slice(0, end)` stops at end, counts from the back when end is negative, and is clamped to the length |
| Js.Filter | lib/gifts.ts:29 | `filter` keeps exactly the elements that satisfy the predicate, as a subsequence in order |
| Js.FilterCounts | lib/gifts.ts:29 | `filter` keeps each satisfying element as many times as it occurs, and no other element |
| Js.FilterFilter | lib/blog-posts.ts:99-104 | two filters in a row keep the elements that pass both |
| Js.FilterConcat | lib/blog-posts.ts:86 | filtering distributes over concatenation |
| Js.FilterDistinct | app/quiz/page.tsx:113 | filtering a duplicate-free list keeps it duplicate-free |
| Js.Find | lib/gifts.ts:14 | `find` returns the first satisfying element, or none iff there is none |
| Js.TrimEmptyIff | app/search/page.tsx:39 | `trim()` is empty iff the string is all whitespace |
| Js.NatToString | app/api/search/route.ts:129 | a number renders as a non-empty string of digits |
| Js.DecimalRoundTrip | app/api/search/route.ts:129 | reading the rendered digits back gives the number |
| Js.NatToStringInjective | app/api/search/route.ts:129 | different numbers render differently |
| UriComponent.EncodeHasNoQuerySyntax | lib/retailers.ts:19 | an encoded term contains no `&`, `=`, `?` or `#`, so it cannot add URL parameters |
| UriComponent.DecodeEncode | lib/retailers.ts:19 | decoding the encoded term gives back the term |
| UriComponent.EncodeInjective | lib/retailers.ts:19 | different terms encode differently |

## Left out

- Network I/O and awaiting are not modelled. The fetches to the AI provider, to the mailing service and to `/api/search` are input values: `Upstream`, `FetchOutcome`.
- `JSON.parse` is a function parameter of `SearchRoute.Post`. A body that is not JSON is the `Unparsable` case.
- `SearchRoute.SearchGiftsWithAI`: an ok upstream reply whose body is not JSON makes `response.json()` throw outside the `try`, so the route answers 500. The model has no case for it; it is folded into `Unreachable`, which gives the same response.
- `SearchRoute.SearchGiftsWithAI`: a `content` that is truthy but not a string makes `content.match` throw inside the `try`, so the function returns []. The model's content is a string or absent; that case is folded into `Replied(None)`, which also returns [].
- `UriComponent.Encode`: strings are sequences of Unicode scalar values, so the `URIError` that `encodeURIComponent` throws on a lone surrogate, in `getRetailerSearchUrl` and in the search page's submit, is not modelled.
- `Date.now()` is a parameter of `SearchRoute.StampIds`. It is a function of the index, which covers the clock moving during the `map`.
- `Countdown.CalculateDays`: the clock and the date arithmetic are not modelled; the millisecond difference to midnight starting Valentine's Day is an integer parameter.
- `Countdown.GetUrgencyConfig`: the tier icons are left out; they are emoji glyphs used only for display.
- `Quiz.Progress`: the floating-point percentage is not modelled. Progress is stated as the exact rational index/5 × 100, which is the integer index × 20.
- `Js.ToLower` and `Js.ToUpper`: Unicode case mapping is not modelled; only ASCII letters change case.
- `Gifts.GetRandomGifts`: `Math.random` is a sequence of draws, each within its step's range. Uniformity of the shuffle is not stated.
- `Quiz.QuizController.FinishResults`: a late reply after `restart` is not excluded. This is the same stale-response race the page has; the method needs no precondition, so the model allows it.
- `Quiz.QuizController.HandleSelect` requires a question step. The page only renders options on question steps.
- `Quiz.QuizController.HandleContinue` requires the interests step with an interest chosen. The button exists only there and is disabled otherwise, so its branch that fetches results cannot run and is not modelled.
- Answer values and subscribe-body fields are strings or absent. A JSON value of another type in those fields, and prototype keys such as "constructor" in `budgetMap`, are not modelled. The search route's `query` does keep its non-string case.
- `BlogPosts.BlogStore.GetAllBlogPosts` returns the stored list as a value. In the source it returns the module array itself, so a caller that mutates the result mutates the store; that aliasing is not modelled.
- A blog post's `publishedAt` is an integer time rather than an ISO date string; parsing dates is not modelled.
- The catalog JSON and the blog post array are data, so they are parameters: a `GiftDatabase`, and the posts given to `BlogStore`.
- `getRelatedPosts`'s default `limit = 3` is not modelled; the limit is always passed explicitly.
- `SearchPage.SearchPage.HandleSubmit`: `history.pushState` is modelled as the returned URL. Reading the `q` parameter back from the address (`URLSearchParams`) is not modelled; `Mount` receives it as a parameter.
- The fetch in `handleSearch` is split in two: `HandleSearch` runs up to the request, and `SettleSearch` handles the reply. Interleavings of two searches in flight are not modelled.
- `getMetadata` and `getAllInterests` in lib/gifts.ts are plain accessors of the catalog JSON. They are not modelled.
- The JSX rendering, styling and static content are not part of this model. The same holds for the other pages and components, analytics, cookies, the sitemap and the PDF script.
