# Google reviews widget: a verified model

This project models `GoogleReviewsWidget`, the browser script that shows a business's Google
reviews as cards on a web page. When the widget starts, it looks in the page's `localStorage`
for reviews cached less than 24 hours ago. If it finds them, it shows them and stops. Otherwise
it asks the Places details endpoint (through a CORS proxy) for the reviews. It keeps the first
three, caches them with the current time, and shows them as cards. If the request fails, or the
answer has no review list, it shows three fixed five-star cards instead.

Files and modules:

- `wrappers.dfy` (`Wrappers`): `Option`.
- `decimal.dfy` (`Decimal`): the cache timestamp's text. `NatToDecimal` stands for
  `Date.now().toString()` and `ParseInt` for `parseInt`. The module proves that reading the
  text back gives the same time.
- `provider.dfy` (`Provider`): the review record, the three shapes a provider response can
  take (`Failure`, `NoReviews`, `Reviews(list)`), and `slice(0, 3)`.
- `codec.dfy` (`Codec`): the text stored under the payload key. It stands in for
  `JSON.stringify` and `JSON.parse`, and the module proves that decoding undoes encoding.
- `rendering.dfy` (`Rendering`): what one card shows (star indicator, shortened text,
  author), the list of cards, and the fixed fallback cards.
- `cache.dfy` (`Cache`): the two store keys, the 24-hour duration, `ReadCache` (which models
  `getCachedReviews`) and `WriteCache` (which models `cacheReviews`), with the freshness rules.
- `widget.dfy` (`Widget`): the `GoogleReviewsWidget` class and `Fetch`, the function that
  specifies `fetchReviews`, with the lemmas about its decision tree.

The class keeps the page's `localStorage` as a `map<string, string>` field called `store`.
It keeps the review container as `container: Option<seq<Card>>`. `None` means no element
has the widget's id. `Some(cards)` holds the cards the element shows. The methods change these
two fields the way the source changes the store and `innerHTML`. Each method's `ensures` ties
the new state to a pure function of the old state (`WriteCache`, `Displayed`,
`FallbackDisplayed`, `Fetch`), and the lemmas state the source's rules about those functions.

The clock is a parameter. `getCachedReviews` and `cacheReviews` each call `Date.now()`, and in
`fetchReviews` the second call comes after the awaited fetch. So `FetchReviews` takes two
times: `checkTime` for the cache check and `writeTime` for the cache write. The network call
is a `Response` parameter.

Some behaviours of the code are easy to misread; the model follows the code as written:

- An empty review list (`result.reviews` is `[]`) is truthy in JavaScript. It takes the success
  branch at js/google-reviews.js:52: it is cached and shown as no cards, not as the fallback.
  Reading it back from the cache later is a hit, because the array `JSON.parse` returns is truthy
  (js/google-reviews.js:38).
- `displayReviews` shows every review it is given. It does not limit the list to three; only
  `fetchReviews` applies `slice(0, 3)`.
- A cached payload that `JSON.parse` rejects throws at js/google-reviews.js:22. That is
  outside the `try` that starts at line 44, so the promise of `fetchReviews` rejects and nothing
  is shown. The model has this as `CacheRead.Unparseable` and `Outcome.Rejected`.
- A rating outside 0..5 is not clamped. `'☆'.repeat(5 - rating)` or `'★'.repeat(rating)`
  throws a RangeError before `innerHTML` is assigned. On the fetch path the `catch` shows the
  fallback, after the reviews were cached. On the cache-hit path the error escapes, the promise
  rejects, and the container is left as it was. `RenderCards` returns `None` exactly when some
  rating is out of range, and `Fetch` follows both paths.
- A store entry holding the empty string is falsy at js/google-reviews.js:19, so it counts as
  missing (`Cache.Holds`).

## Model

| member | source | states |
|---|---|---|
| Decimal.NatToDecimal | js/google-reviews.js:31 | the time text is a non-empty run of decimal digits without a leading zero |
| Decimal.ParseInt | js/google-reviews.js:20 | a plain run of decimal digits parses to its value; a timestamp text parses back to its time (`Decimal.ParseIntOfDecimal`) |
| Decimal.ParseIntOfDecimal | js/google-reviews.js:20 | `parseInt` of the time text written by `cacheReviews` gives back exactly that time |
| Codec.EncodeReviews | js/google-reviews.js:30 | the stored payload is never the empty string, so a written payload is always truthy |
| Codec.DecodeReviews | js/google-reviews.js:22 | the empty string never decodes; decoding undoes encoding (`Codec.DecodeEncoded`) |
| Codec.DecodeEncoded | js/google-reviews.js:22 | decoding the stored payload gives back the cached reviews, unchanged and in order |
| Provider.TopReviews | js/google-reviews.js:53 | keeps min(3, n) reviews, each the review at the same position in the provider's list |
| Rendering.Repeat | js/google-reviews.js:71 | `repeat(n)` of one glyph has length n and holds only that glyph |
| Rendering.Stars | js/google-reviews.js:71 | the indicator has five glyphs; its pattern and count are stated by `Rendering.StarsShape` and `Rendering.StarsCountRating` |
| Rendering.Excerpt | js/google-reviews.js:72-74 | the shown text has at most 203 characters, and a text of at most 200 is shown unchanged; the long case is `Rendering.ExcerptOfLongText` |
| Rendering.RenderCard | js/google-reviews.js:70-75 | a card shows the author as given, five star glyphs and a text of at most 203 characters; the full statement is `Rendering.CardShowsReview` |
| Rendering.StarsShape | js/google-reviews.js:71 | for a rating r in 0..5 the indicator has 5 glyphs: r filled stars, then 5 - r empty stars |
| Rendering.StarsCountRating | js/google-reviews.js:71 | the indicator holds exactly `rating` filled stars, counted by an independent function |
| Rendering.StarsDetermineRating | js/google-reviews.js:71 | two ratings in 0..5 with the same indicator are equal |
| Rendering.ExcerptOfLongText | js/google-reviews.js:72-74 | a text longer than 200 characters is shown as its first 200 characters followed by "...", 203 characters in all |
| Rendering.ExcerptUnchangedIff | js/google-reviews.js:72-74 | a text is shown unchanged exactly when it has at most 200 characters or already is 203 characters ending in "..." |
| Rendering.ExcerptIdempotent | js/google-reviews.js:72-74 | shortening an already shortened text changes nothing |
| Rendering.CardShowsReview | js/google-reviews.js:70-75 | a card shows the author as given, `rating` filled stars out of five, and the text unchanged or cut to 200 plus "..." |
| Rendering.RenderCards | js/google-reviews.js:70-86 | the cards exist exactly when every rating is in 0..5; then there is one card per review, in input order |
| Rendering.FallbackShape | js/google-reviews.js:96-118 | the fallback is three five-star cards by "Sarah M.", "John D." and "Lisa W.", in that order, laid out as `displayReviews` lays out those reviews |
| Cache.WriteCache | js/google-reviews.js:29-32 | writing sets the payload key to the encoded reviews and the time key to the time text; every other entry keeps its value |
| Cache.ReadAfterWrite | js/google-reviews.js:15-32 | after a write at time t, a read at `now` returns exactly the written reviews if now - t < 86,400,000, and a miss otherwise |
| Cache.StaleAtExactlyOneDay | js/google-reviews.js:11-21 | a read exactly 24 hours after the write is a miss; one millisecond earlier it is a hit |
| Cache.ReadCache | js/google-reviews.js:15-26 | a read other than a miss needs both entries non-empty and a timestamp that parses to a time less than 24 h before `now`; a hit returns what the payload decodes to (characterised by `Cache.HitIff`, `Cache.UnparseableIff` and `Cache.ReadAfterWrite`) |
| Cache.StaleOrUnreadableTimeMisses | js/google-reviews.js:19-25 | on any store, a timestamp that is stale (age of 24 h or more) or does not parse makes the read a miss, whatever the payload holds |
| Cache.UnparseableIff | js/google-reviews.js:19-22 | a read throws exactly when both entries are non-empty, the timestamp is fresh and the payload does not decode |
| Cache.HitIff | js/google-reviews.js:15-25 | a read returns reviews exactly when both entries are non-empty, the time parses to a time with age < 24 h, and the payload decodes to those reviews |
| Cache.MissingEntryMisses | js/google-reviews.js:16-19 | a missing or empty payload or time entry makes the read a miss |
| Cache.ReadIgnoresOtherEntries | js/google-reviews.js:15-17 | store entries other than the two cache keys do not affect a read |
| Cache.WriteOverwrites | js/google-reviews.js:29-32 | a second write replaces the first completely |
| Widget.GoogleReviewsWidget.constructor | js/google-reviews.js:5-12 | keeps the place id, key and container id; the store and container start as given |
| Widget.GoogleReviewsWidget.GetCachedReviews | js/google-reviews.js:15-26 | the read result is `ReadCache` of the current store; the store is not modified |
| Widget.GoogleReviewsWidget.CacheReviews | js/google-reviews.js:29-32 | the new store is `WriteCache` of the old one; the container is unchanged |
| Widget.GoogleReviewsWidget.DisplayReviews | js/google-reviews.js:66-89 | without a container nothing happens; otherwise the content becomes the cards, or stays as it was when a card throws; the store is unchanged |
| Widget.GoogleReviewsWidget.DisplayFallbackReviews | js/google-reviews.js:92-119 | without a container nothing happens; otherwise the content becomes the fallback cards; the store is unchanged |
| Widget.GoogleReviewsWidget.FetchReviews | js/google-reviews.js:35-63 | the new store, container and promise outcome are those of `Fetch` on the old state |
| Widget.Fetch | js/google-reviews.js:35-63 | a rejection changes nothing; a container exists afterwards exactly when it did before; the store is either unchanged or the cache write of the first three provider reviews, and unchanged unless the cache read missed |
| Widget.Displayed | js/google-reviews.js:66-89 | showing throws exactly when the container exists and some rating is outside 0..5; otherwise a container stays present or absent and shows as many cards as there are reviews |
| Widget.FallbackDisplayed | js/google-reviews.js:92-119 | the fallback is shown exactly when the container exists, as three five-star cards |
| Widget.FetchOnHit | js/google-reviews.js:37-42 | on a cache hit the fetch does exactly what showing the cached reviews does, and nothing else |
| Widget.CacheHitSkipsNetwork | js/google-reviews.js:37-42 | on every cache hit the result does not depend on the response or the write time, and the store is unchanged |
| Widget.CacheHitShowsCached | js/google-reviews.js:37-42 | on a cache hit whose ratings are all in 0..5 the promise resolves and the container shows exactly the cached reviews' cards |
| Widget.StalePayloadNotParsed | js/google-reviews.js:19-22 | with a stale or unreadable timestamp the payload is never parsed: the fetch goes to the network, resolves, and a review list replaces the cache |
| Widget.MissWithReviews | js/google-reviews.js:52-55 | on a miss with a list, the first min(3, n) reviews are cached at `writeTime`, read back by any fetch within 24 h, and shown |
| Widget.EmptyListIsCachedNotFallback | js/google-reviews.js:52-55 | an empty list is cached and shown as no cards, not as the fallback; the next fetch within 24 h is a hit on it and changes nothing |
| Widget.MissWithoutReviewsShowsFallback | js/google-reviews.js:56-62 | on a miss with a failed fetch or no review list, the fallback is shown and the store is left untouched |
| Widget.StaleCacheRefetches | js/google-reviews.js:19-25 | once the cache is 24 h old, the fetch is a miss and shows what it would show with no cache at all |
| Widget.UnparseablePayloadRejects | js/google-reviews.js:22 | a fresh payload that does not decode rejects the promise and changes nothing |
| Widget.MissNeverRejects | js/google-reviews.js:44-62 | past the cache check every path resolves, and a container exists afterwards exactly when it existed before |
| Widget.MissingContainerShowsNothing | js/google-reviews.js:66-68 | without a container nothing is shown, and the promise rejects only on an unparseable payload |
| Widget.DisplayReplacesContent | js/google-reviews.js:88 | the container's new content does not depend on its old content |
| Widget.FetchKeepsWithinLimit | js/google-reviews.js:52-55 | if at most three reviews are cached and at most three cards are shown, the same holds after a fetch |

## Left out

- Building the proxy and Places URLs, `encodeURIComponent`, `fetch` and `response.json()`
  (js/google-reviews.js:45-50) are network calls. Their result is the `Response` parameter.
  The response is classified by its parsed body, whatever the HTTP status: a network error or a
  body that `response.json()` rejects is `Failure`, a body without `result.reviews` is `NoReviews`.
- `async`/`await`: `FetchReviews` runs its steps in sequence. Concurrent calls to
  `fetchReviews` on the same page are not modelled.
- `init` (js/google-reviews.js:122-124) only calls `fetchReviews` and drops its promise. The
  `DOMContentLoaded` bootstrap with its fixed place id and key (js/google-reviews.js:127-135)
  is page wiring. Neither is modelled.
- `console.log` and `console.error` are not modelled.
- Codec.EncodeReviews: the payload is a length-prefixed text, not JSON text. The model keeps
  three facts about it: it is never empty, it decodes back to the same reviews, and any other
  text may fail to decode. Some other stored texts do not throw in `JSON.parse` but are still
  not arrays, such as `null` (a miss) or an object (an error later in `displayReviews`). These
  are not modelled. Provider fields other than author, rating and text are not stored.
- Decimal.ParseInt: leading whitespace and a `0x` prefix are not handled the way `parseInt`
  handles them. A failed parse (NaN) is a miss, as in the source.
- `localStorage.setItem` can throw when the quota is exceeded. The model does not cover this:
  `CacheReviews` always succeeds.
- Text lengths are counted in Unicode characters. JavaScript counts UTF-16 code units, so a
  text with characters outside the Basic Multilingual Plane is cut at a different place.
- Ratings are integers. `repeat` truncates a fractional count, and that case is not modelled.
  A review without a `text` field, which would throw a TypeError, is not modelled either.
- Cards are records of stars, text and author. The HTML and CSS markup around them
  (js/google-reviews.js:77-85, 96-118), the quotes around the text, and the insertion of
  author and text into `innerHTML` without escaping are not modelled.
