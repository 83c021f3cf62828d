# Scraper service model

This project models `services/scraperService.ts`, the scraping core of a
browser front-end for a movie listing site. The core does five things:

- `fetchWithFallback` requests a page through three CORS proxies in order.
- `searchMovies` folds the listing page's detail anchors into an
  insertion-ordered map keyed by title id.
- `makePoster` builds a poster address from a numeric id.
- `fetchDetails` groups a detail page's playable links into seasons.
- `cleanVideoUrl` rewrites a playable link to `https://`.

The records `MovieItem`, `Episode` and `SeasonData` come from `types.ts`.

## Modules

- `Wrappers`: `Option` and `Result`, the helper `Map` (a function applied to each element of a sequence), and
  `Present`, the values held by a list of options.
- `JsStrings`: the few JavaScript string built-ins the core calls, defined
  concretely:
  - `trim`, with the ECMAScript white-space set;
  - `startsWith` and `includes`;
  - `replace` with a string pattern, which replaces the first occurrence;
  - `split` on one character;
  - the regular expression `/i=(\d+)/`;
  - decimal printing and parsing of digit strings.
- `Types`: the records, and `Apis`. `Apis` holds the browser facilities the
  core calls, as uninterpreted functions:
  - `encodeURIComponent`;
  - `new URL(rel, base).href`;
  - `URLSearchParams.get`;
  - whether `new URL(s)` throws.
- `Urls`: `cleanVideoUrl` and `makePoster`.
- `Seasons`: `SeasonData` as its keys in insertion order together with the
  list stored under each key. Assigning an existing key keeps its place and
  replaces its value. Assigning a new key appends it.
- `FirstWins`: the `Map` of `searchMovies`. It is written only for a new
  key, over a sequence of optional entries.
- `Listing`: the anchor fold of `searchMovies`.
- `Grouping`: the grouped strategy of `fetchDetails` over what it reads from
  each element: a box's trimmed name, or the episode a link contributes.
- `Details`: the detail page's elements, how each one is read, and the
  grouped and flat strategies of `fetchDetails` on them.
- `Relay`: `fetchWithFallback` over a network given as a function from
  request URL to response.
- `Scraper`: `searchMovies` and `fetchDetails` end to end. The HTML parser
  is a parameter.

The code is imperative where the source is:

- the `forEach` of `searchMovies` is the method `Listing.ExtractListing`,
  and its callback is `Listing.AnchorItem`;
- the box loop of `fetchDetails` is `Details.ExtractGrouped`, and its sibling
  walk is `Details.FillSeason`;
- the flat branch of `fetchDetails` is `Details.ExtractFlat`, its `forEach`
  is `Details.FillFlat`, and that loop's callback is `Details.LinkEpisode`;
- the proxy loop is `Relay.FetchWithFallback`.

Each method is proved equal to a recursive specification function. The
properties are proved as lemmas about that function.

### Behaviour of the code worth knowing

The comment on `cleanVideoUrl` (services/scraperService.ts:40) says it
forces HTTPS and removes proprietary schemes. What the code does is narrower:

- **`cleanVideoUrl` is not idempotent.** `vlc://vlc://a` cleans to
  `https://vlc://a`, and a second pass gives `https://a`; the same holds for
  any remainder in place of `a` that holds no `http://`. This is proved by
  `Urls.CleanNotIdempotent`. Idempotence holds if no `vlc://` and no
  `http://` is left after one pass (`Urls.CleanIdempotentWhenNoSchemeLeft`).
- **The scheme rewrite is not anchored at the start.** `String.replace` with
  a string pattern acts on the first occurrence, so the code removes the
  first `vlc://` anywhere in the string, then upgrades the first `http://`
  anywhere.
- **The flat strategy ignores `.mp4`.** The grouped strategy accepts `vlc://`,
  `.mkv` and `.mp4` links (line 136), but the flat selector (line 148) only
  matches `vlc://` and `.mkv`. A page with no box and only `.mp4` links
  therefore yields no season at all (`Details.Mp4OnlyFlat`,
  `Details.Mp4Grouped`).
- **The last error is rethrown as is.** When every proxy fails,
  `fetchWithFallback` rethrows the last caught error itself (line 27). With
  three proxies, `All proxies failed.` is never thrown
  (`Relay.NeverAllProxiesFailed`).

## Model

| member | source | states |
|---|---|---|
| Urls.CleanVideoUrl | services/scraperService.ts:38-46 | Empty input gives empty output, and only empty input does. Every non-empty input gives a string starting with `https://`. |
| Urls.CleanVlcLink | services/scraperService.ts:41-45 | `vlc://` + r becomes `https://` + r when r holds no `http://` and does not start with `https://`. Only the leading `vlc://` is removed, even when r holds another. |
| Urls.CleanHttpLink | services/scraperService.ts:41-45 | `http://` + r becomes `https://` + r when the input holds no `vlc://`. |
| Urls.CleanKeepsHttps | services/scraperService.ts:41-45 | An `https://` URL without `vlc://` or `http://` is left unchanged. |
| Urls.CleanIdempotentWhenNoSchemeLeft | services/scraperService.ts:38-46 | Cleaning twice equals cleaning once when the first result holds no `vlc://` and no `http://`. |
| Urls.VlcAfterHttps | services/scraperService.ts:41 | In `https://vlc://` + r the leftmost `vlc://` is the one right after the scheme. |
| Urls.CleanVlcVlc | services/scraperService.ts:41-45 | For r holding no `http://`, `vlc://vlc://` + r cleans to `https://vlc://` + r: the second `vlc://` survives. |
| Urls.CleanHttpsVlc | services/scraperService.ts:41-45 | For r holding no `http://`, `https://vlc://` + r cleans to `https://` + r. |
| Urls.CleanNotIdempotent | services/scraperService.ts:38-46 | For every r holding no `http://`, cleaning `vlc://vlc://` + r twice gives `https://` + r, which differs from cleaning it once. |
| Urls.BucketLow | services/scraperService.ts:31-32 | For id >= 1 the bucket start satisfies low <= id <= low + 999, and low - 1 is a multiple of 1000. Id 0 gives -999. |
| Urls.Wsrv | services/scraperService.ts:34 | The image-proxy address starts with `https://wsrv.nl/?url=`. |
| Urls.MakePoster | services/scraperService.ts:30-35 | A poster for a digit-string id is an image-proxy address. |
| Urls.PosterBucketHoldsId | services/scraperService.ts:31-33 | The poster path is `<list>/<low>-<low+999>/<id>.jpg`, and the two printed bounds parse back to numbers around the id. |
| Urls.Poster2500 | services/scraperService.ts:30-33 | Id 2500 is filed under the bucket `2001-3000`. |
| JsStrings.IndexOf | services/scraperService.ts:41 | Gives the leftmost occurrence of the pattern, and None only when the pattern occurs nowhere. |
| JsStrings.ReplaceFirstAtStart | services/scraperService.ts:41 | `replace` of a pattern the string starts with replaces exactly that prefix. |
| JsStrings.CharIndex | services/scraperService.ts:76 | A one-character pattern is found at the first position holding that character, and not found exactly when the character is absent. |
| JsStrings.Split | services/scraperService.ts:76 | `split` gives at least one field, no field holds the separator, and joining the fields gives the input back. |
| JsStrings.Trim | services/scraperService.ts:66 | The result is empty exactly when the input is all white space. Otherwise it neither starts nor ends with white space. |
| JsStrings.TrimSplit | services/scraperService.ts:66 | Every input is white space, then the result of `trim`, then white space. |
| JsStrings.TrimUnique | services/scraperService.ts:66 | Conversely, for white space, then a middle part that is empty or neither starts nor ends with white space, then white space, `trim` returns exactly that middle part. |
| JsStrings.MatchId | services/scraperService.ts:62-63 | `/i=(\d+)/` fails only when no `i=` followed by a digit occurs anywhere. Otherwise it gives the maximal run of digits right after the leftmost such `i=`. |
| JsStrings.NatToString | services/scraperService.ts:33 | Printing a number gives a non-empty digit string with no leading zero, except `0` itself. |
| JsStrings.ParseNatToString | services/scraperService.ts:31-33 | Parsing a printed number gives the number back. |
| FirstWins.FoldOnePerId | services/scraperService.ts:93-103 | The map's values have pairwise distinct ids, and an id is present exactly when some entry carries it. |
| FirstWins.FoldFromFirst | services/scraperService.ts:93-100 | Each value is the entry at the first index carrying its id. |
| FirstWins.FoldFirstSeenOrder | services/scraperService.ts:103 | Values appear in the order in which their ids are first seen. |
| FirstWins.FoldComplete | services/scraperService.ts:93-100 | Every id carried by an entry ends up in the map. |
| FirstWins.FoldIdsOccur | services/scraperService.ts:93-100 | Every id in the map is carried by some entry. |
| FirstWins.FirstIndex | services/scraperService.ts:93 | Gives the first entry carrying an id, or the length when no entry does. |
| Listing.FirstNonEmpty | services/scraperService.ts:69-71 | The chain of `or` fallbacks gives the first non-empty candidate, and "" only when every candidate is empty. |
| Listing.AnchorId | services/scraperService.ts:55-65 | An anchor yields an id only when it is selected by `detiles.php`. The id is a digit string. |
| Listing.TitleOf | services/scraperService.ts:66-80 | The title is never empty. |
| Listing.TitlePriority | services/scraperService.ts:66-80 | The title is the first non-empty candidate in this order: `tfa` parameter, trimmed text, `title` attribute, image `alt`, `Film <id>`. |
| Listing.TitleFromAlt | services/scraperService.ts:66-72 | With no `tfa=`, no visible text and no `title` attribute, the title is the image's `alt`. |
| Listing.TitleFromTfa | services/scraperService.ts:74-80 | A non-empty `tfa` parameter becomes the title, whatever the visible text. |
| Listing.PosterOf | services/scraperService.ts:82-91 | A truthy image `src` gives the proxied absolute image. Otherwise the poster is `makePoster(id)`. Either way it is an image-proxy address. |
| Listing.LinkOf | services/scraperService.ts:97 | The link starts with `http` and ends with the href. An absolute href is kept. Any other href is put under `https://flzios.ir/`. |
| Listing.Entry | services/scraperService.ts:59-100 | An anchor yields an entry exactly when it yields an id, and the entry carries that id. |
| Listing.EntrySkips | services/scraperService.ts:59-63 | An anchor is skipped exactly when it has no href, or the href lacks `detiles.php`, or the href lacks `i=<digits>`. |
| Listing.AnchorItem | services/scraperService.ts:59-99 | The callback's early returns, its step-by-step reassignment of the title and the poster, and the item it builds agree with the specified entry of the anchor. |
| Listing.ExtractListing | services/scraperService.ts:55-103 | The `forEach` with its `items.has` / `items.set` yields exactly the specified listing. |
| Listing.FirstAnchor | services/scraperService.ts:58-63 | Gives the index of the first anchor carrying an id. |
| Listing.ListingDistinctIds | services/scraperService.ts:93-103 | No two listed items share an id. |
| Listing.ListingIds | services/scraperService.ts:59-63 | An id is listed exactly when some anchor carries it. |
| Listing.ListingFromFirstAnchor | services/scraperService.ts:93-100 | Each item is the one built from the first anchor carrying its id. |
| Listing.ListingFirstSeenOrder | services/scraperService.ts:58-103 | Items come in the order in which their first anchors appear. |
| Seasons.PutValid | services/scraperService.ts:130 | An assignment keeps the keys exactly the names holding a list, with no name twice. |
| Seasons.LookupPut | services/scraperService.ts:130 | After an assignment the key reads the assigned list, and every other key reads as before. |
| Seasons.PutPut | services/scraperService.ts:130 | Assigning a key twice is the same as assigning the second value. |
| Seasons.PushAfterPut | services/scraperService.ts:130-141 | Pushing onto a freshly assigned key extends the assigned list. |
| Seasons.PutPresentNext | services/scraperService.ts:150-157 | Filling one season from optional episodes: a present episode is one more push, an absent one changes nothing. |
| Grouping.GroupedNext | services/scraperService.ts:128-130 | A box assigns its name the episodes of the walk after it; any other element changes nothing. |
| Grouping.WalkStep | services/scraperService.ts:133-144 | The walk passes a non-box element, taking its episode when it has one. |
| Grouping.DedupMembers | services/scraperService.ts:130 | The names without repetition hold every name, each once. |
| Grouping.GroupedValid | services/scraperService.ts:127-146 | The grouped result is well formed. |
| Grouping.GroupedKeys | services/scraperService.ts:127-130 | Every box name is a key, even with no episode, in first-seen order and without repetition. |
| Grouping.GroupedStepKeeps | services/scraperService.ts:130 | An element other than a box of a given name leaves that name's season as it was. |
| Grouping.GroupedLastBoxWins | services/scraperService.ts:130 | A name's episodes are exactly the walk after its last box; an earlier box with the same name is reset. |
| Grouping.NextBox | services/scraperService.ts:133 | Gives the first box at or after a position, or the end. |
| Grouping.WalkIsSegment | services/scraperService.ts:131-145 | The walk from a box takes exactly the episodes, in order, of the elements before the next box. |
| Grouping.TwoBoxes | services/scraperService.ts:127-146 | Two differently named boxes with an episode and a non-playable element between them give two keys in box order, the second with no episode. |
| Grouping.OneBox | services/scraperService.ts:127-146 | One box followed by one episode gives one season holding it. |
| Details.GroupedEpisode | services/scraperService.ts:137-141 | A non-empty href gives an episode URL starting with `https://`. |
| Details.ViewsBox | services/scraperService.ts:129-133 | An element is read as a box exactly when it is a `SessionBox`, and the box's name is its trimmed text. |
| Details.ViewsItem | services/scraperService.ts:134-141 | A link with a playable href contributes its episode; any other non-box element contributes none. |
| Details.WalkAt | services/scraperService.ts:131-145 | One step of the sibling walk on the page: a playable link adds its episode in front of the rest of the walk. |
| Details.ExtractGrouped | services/scraperService.ts:127-146 | The `forEach` over the boxes yields exactly the specified grouped result. |
| Details.FillSeason | services/scraperService.ts:129-145 | One box resets its season and then pushes the playable links found by the sibling walk. |
| Details.FlatLinks | services/scraperService.ts:148 | Every matched element is a link whose href starts with `vlc://` or contains `.mkv`. Some link is matched exactly when some link's href does. |
| Details.FlatLinksOne | services/scraperService.ts:148 | A single element is matched exactly when it is such a link. |
| Details.FlatLinksAppend | services/scraperService.ts:148 | Matching a concatenation gives the matches of each part, in document order. With `FlatLinksOne` this pins the selection to exactly the matching links, in order. |
| Details.FlatEpisode | services/scraperService.ts:152-156 | A non-empty href gives an episode URL starting with `https://`. |
| Details.Flat | services/scraperService.ts:147-160 | The flat result is non-empty exactly when some link matches the selector, and then it is the one season `فایل اصلی`. |
| Details.ExtractFlat | services/scraperService.ts:147-160 | The flat branch yields exactly the specified flat result. |
| Details.FillFlat | services/scraperService.ts:150-158 | The flat `forEach` yields the one season `فایل اصلی` holding, in order, the episodes of the selected links with a non-empty href. |
| Details.LinkEpisode | services/scraperService.ts:152-156 | The callback gives the link's episode exactly when its href is non-empty. |
| Details.DetailsValid | services/scraperService.ts:124-161 | The result is well formed whichever strategy applies. |
| Details.LastBoxOfName | services/scraperService.ts:127-146 | On a page, a box whose name no later box repeats holds exactly the episodes of the walk after it. |
| Details.ExtractDetails | services/scraperService.ts:124-161 | The grouped strategy applies when any box exists, and the flat one otherwise. |
| Details.TwoBoxesExample | services/scraperService.ts:127-146 | Two boxes with one playable and one non-playable link between them give two keys, and only the playable link becomes an episode of the first. |
| Details.FlatTwoLinksExample | services/scraperService.ts:147-160 | No box and two matching links give one season with both episodes in order. |
| Details.Mp4OnlyFlat | services/scraperService.ts:148 | A box-less page whose only link is neither `vlc://` nor `.mkv` has no season. |
| Details.Mp4Grouped | services/scraperService.ts:136 | After a box, an `.mp4` link is an episode. |
| Details.Mp4IsGroupedOnly | services/scraperService.ts:136-148 | `x.mp4` is playable for the grouped strategy but not matched by the flat selector. |
| Relay.RequestUrl | services/scraperService.ts:16 | The request URL starts with the proxy base. |
| Relay.FirstOkFrom | services/scraperService.ts:14-20 | Gives the first proxy whose request succeeds, or None exactly when none does. |
| Relay.FirstSuccess | services/scraperService.ts:11-28 | The outcome is an error exactly when every proxy fails. |
| Relay.FallbackIsFirstSuccess | services/scraperService.ts:11-28 | The loop's outcome is the first successful body. If none succeeds, it is the last proxy's error. With no proxies, it is `All proxies failed.`. |
| Relay.NeverAllProxiesFailed | services/scraperService.ts:4-27 | With the three proxies, the outcome is never `All proxies failed.`. A failure is the third proxy's error. |
| Relay.ThirdProxyAnswers | services/scraperService.ts:14-25 | Two failing proxies and a succeeding third give the third body after exactly three requests. |
| Relay.FirstProxyAnswers | services/scraperService.ts:14-20 | A succeeding first proxy is the only one asked. |
| Relay.AttemptCount | services/scraperService.ts:14-25 | At most one request is made per proxy. |
| Relay.FetchWithFallback | services/scraperService.ts:11-28 | Returns the first successful body or the last error. The URLs requested are exactly those up to the first success, in order. |
| Scraper.SearchUrl | services/scraperService.ts:49 | The search URL is the encoded query between the fixed prefix and the fixed `send` parameter. |
| Scraper.SearchMovies | services/scraperService.ts:48-108 | In the model, the result fails with `Failed to fetch results.` exactly when every proxy fails. Otherwise it is the listing of the first page fetched. |
| Scraper.DetailRequestUrl | services/scraperService.ts:111-118 | A parseable URL is kept. Otherwise the result is the prefix up to the second `&`: it has at most one `&`, and equals the URL exactly when the URL has at most one `&`. |
| Scraper.FetchDetails | services/scraperService.ts:110-166 | The result fails with `Could not extract episodes.` exactly when every proxy fails. Otherwise it is the extraction of the first page fetched; an empty result is not an error. |

## Left out

- Network, `async` and logging: `fetch`, `res.text()` and `console.warn` / `console.error` are not modelled as I/O. The network is a function from request URL to response. A rejected `res.text()` is folded into a network failure.
- Concurrency: the model does not cover overlapping calls or the stale-response race, because each call is modelled on its own.
- HTML parsing: `DOMParser`, `querySelectorAll`, `querySelector`, `innerText`, `nextElementSibling` and `classList` are not modelled. A page is a parameter:
  - a listing page is a list of anchors with the attributes the fold reads;
  - a detail page is one sibling list of boxes, links and other elements.
- The document tree: all `SessionBox` elements are taken to share one parent, and links nested inside other elements are not modelled.
- Browser URL facilities: `encodeURIComponent`, `new URL`, `URLSearchParams` and whether `new URL` throws are uninterpreted functions, so percent-encoding and decoding are not modelled.
- Listing.TitleFromTfa: it states the override in terms of the `URLSearchParams.get` result rather than a decoded `<value>`, because decoding is not modelled.
- `SeasonData` keys: a JavaScript object lists integer-like keys (a season named `2`, say) before the others, in numeric order, and `results['__proto__'] = []` (line 130) replaces the object's prototype instead of creating a key. The model keeps plain insertion order for every key and treats `__proto__` like any other name.
- Urls.MakePoster: ids are exact natural numbers. The model does not capture the precision that `parseInt` loses on ids beyond 2^53, nor the exponent notation (`1e+21`) that `${low}` prints for numbers of 10^21 and above.
- The `try`/`catch` around `URLSearchParams` (lines 75-79) is not modelled, because it never catches anything with a string argument.
- Exception wrapping: the `catch` blocks of `searchMovies` and `fetchDetails` are one error message each. In the model no error other than a failed fetch reaches them.
- Scraper.SearchMovies: `new URL(imgSrc, 'https://flzios.ir')` (line 88) throws on an image `src` that does not resolve (for example `//`), which aborts the `forEach` and makes the search reject with `Failed to fetch results.`. The model resolves every image, so it does not capture this rejection. Likewise `encodeURIComponent(query)` (line 49, outside the `try`) throws a `URIError` on a lone surrogate, which a Dafny `char` cannot hold, so that path is not representable.
- `types.ts` `SearchState` and `ViewMode` are not modelled, because the core does not use them.
- The React components, including the player's own `vlc://` rewriting and its fallback, are not part of this model.
