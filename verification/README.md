# wikidist crawler core, modelled in Dafny

This project models the two sequential decision procedures at the centre of
the wikidist crawler:

- **Fetching one article** (`pkg/crawler/fetcher.go`). `CrawlArticle` takes
  the reply to the MediaWiki API request. It accepts only the 2xx status
  class (section 15.3 of RFC 9110). It hands the decoded JSON answer to
  `parseResponse` and wraps every parsed link title into a stub article.
  `parseResponse` walks `query` → `pages` → one page entry →
  `pageid`, `missing`, `description`, `links[*].title`. It returns the
  tuple `(missing, description, links, pageID)` and maybe an error. The Go
  code reads the answer through unchecked type assertions. In the model a
  value of the wrong shape yields a `Crash` outcome, one constructor per
  assertion. Such a panic is kept apart from the errors the function
  returns.
- **Refilling the frontier** (`pkg/crawler/crawler.go`). `refillQueue`
  runs only when the URL queue holds at most `80*nWorkers` entries. It asks
  the store for `100*nWorkers` candidates. For each candidate in order, it
  skips a URL already seen, stops at the first unseen URL that finds the
  queue at its capacity `100*nWorkers`, and otherwise marks the URL seen
  and appends it. A worker receiving from the queue drops an empty URL
  without fetching it.

Files:

- `wrappers.dfy`: `Option` and `Result`.
- `json.dfy`: the decoded JSON value, and `Lookup`, Go's `v, ok := m[key]`
  on a decoded object.
- `fetcher.dfy`: `ParseResponse`, `ParsePage`, `LinkTitles`,
  `CrawlArticle`, the API's page entry as a typed schema with its JSON
  rendering, and the round trips between the two.
- `crawler.dfy`: the capacity constants, `Admit`/`Refill` (the refill pass
  as a pure function), `RefillQueue` (the Go loop with `continue` and
  `break`, proved equal to `Refill`), the worker's empty-URL guard, and the
  frontier over any sequence of refill ticks and worker receives.

The HTTP reply and the store's answer are inputs. The queue channel is a
sequence whose front is received next. The expiring seen-cache is a plain
set.

Behaviours of the code that the model keeps as they are:

- A `pageid` that is present but not a number panics at fetcher.go:88; it
  is not defaulted to 0. The assertion runs before the `missing` check at
  fetcher.go:92, so a missing page with a non-numeric `pageid` panics too.
- A page with no `links` member returns page id 0 even when `pageid` was
  present (fetcher.go:102).
- The error for a status outside the 2xx class is a fixed message. The
  status code is only logged (fetcher.go:40-43).
- The two late error paths (fetcher.go:112 and fetcher.go:119) return
  `missing = true`. `CrawlArticle` then discards these values and returns
  the empty article.
- `CrawlArticle` does not check that the title is non-empty.

## Model

| member | source | states |
|---|---|---|
| `Json.Lookup` | pkg/crawler/fetcher.go:74-81 | a key is absent exactly when no member carries it; otherwise the value is that of the last member with the key, as a decoded Go map keeps it |
| `Fetcher.LinkTitles` | pkg/crawler/fetcher.go:105-114 | the walk over `links` succeeds exactly when every link is an object with a string title, and then yields one title per link in array order; otherwise it names the first link that stops it, a non-object (panic) or a link without a string title (error), with every earlier link well formed |
| `Fetcher.ParsePage` | pkg/crawler/fetcher.go:84-116 | it panics exactly when the page is not an object, or `pageid` is not a number (checked before `missing`), or, for a page not flagged missing, `description` is not a string, `links` is not an array, or the first link that is not a well-formed title link is not an object, and it never panics at the `query` or `pages` assertions; a page not flagged missing, with well-typed `pageid` and `description` and every link a well-formed title link, succeeds; a `missing` marker yields `(true, "", [], 0)` whatever else the entry holds; with no `links` the result is the description (or "") with no links and page id 0; with links it is the description, the `pageid` (0 if absent) and every title in order; the result is an error exactly when a link lacks a string title, and then it is `(true, "", [], 0)` with no partial list |
| `Fetcher.ParseResponse` | pkg/crawler/fetcher.go:73-120 | no `query`, or a `query` object without `pages`, gives "Malformed response" with `(false, "", [], 0)`, and only those do; a non-object `query` or `pages` panics; an empty `pages` gives the no-page error with `missing = true`; otherwise one entry of the decoded `pages` map, the live binding of its key, decides; no error comes with a description, links or a page id |
| `Fetcher.MessagesDistinct` | pkg/crawler/fetcher.go:75-119 | the malformed-response, incorrect-title and no-page errors carry three different texts, so the text tells which error occurred |
| `Fetcher.VisitedPage` | pkg/crawler/fetcher.go:83-84 | the page entry the loop looks at is the value its key has in the decoded map, never a member overridden by a later duplicate key |
| `Fetcher.DuplicatePageKeyExample` | pkg/crawler/fetcher.go:83-94 | when `pages` repeats a key with a non-object value first and a missing-page object second, only the second reaches the decoded map and the parse returns the missing-page result |
| `Fetcher.Stubs` | pkg/crawler/fetcher.go:57-62 | wrapping link titles into stub articles gives title-only articles and keeps every title, in order: reading the stubs' titles back gives the list |
| `Fetcher.DecodedBody` | pkg/crawler/fetcher.go:45-48 | a top-level JSON object answers every key lookup as the document does; an undecodable body or a non-object top level leaves a nil map in which every lookup misses |
| `Fetcher.CrawlArticle` | pkg/crawler/fetcher.go:32-70 | a transport error, a status outside 200..299 or a parse error each return the empty article with that error, and an undecodable 2xx body is the malformed-response error; a parse panic propagates at the same assertion; on success the article has the requested title, the parsed description, missing flag and page id, and one stub per parsed link in order; a missing article carries nothing but its title |
| `Fetcher.ParsePageRoundTrip` | pkg/crawler/fetcher.go:84-116 | parsing the JSON rendering of any typed page entry yields that entry's meaning: the missing flag alone, or the description with page id 0 when there are no links, or the description, page id and link titles |
| `Fetcher.ParseRoundTrip` | pkg/crawler/fetcher.go:73-117 | a whole API answer rendered from a typed page entry, under any page key, parses without error to that entry's meaning |
| `Fetcher.CrawlRoundTrip` | pkg/crawler/fetcher.go:40-70 | with any 2xx status, fetching a rendered answer yields the article the typed entry describes under the requested title, and no error |
| `Fetcher.CatExample` | pkg/crawler/fetcher.go:21-71 | the answer for "Cat" with page id 1, description "a feline" and links "Animal" and "Mammal" yields exactly that article, with two title-only stubs |
| `Crawler.Admit` | pkg/crawler/crawler.go:77-87 | one pass over the candidates keeps the old queue as a prefix, never fills the queue past capacity, admits nothing into a full queue, appends only URLs that were unseen, each at most once, as a subsequence of the candidates in order; it marks exactly the appended URLs; the count equals the number appended; a pass that leaves room has marked every candidate |
| `Crawler.Refill` | pkg/crawler/crawler.go:69-93 | the store is called, for `100*nWorkers` candidates, exactly when the queue holds at most `80*nWorkers`; when it is not called, or it fails, queue and seen-set are unchanged and its error is returned; the queue never exceeds `100*nWorkers` unless it was already that long; otherwise the candidates are admitted as `Admit` states |
| `Crawler.RefillQueue` | pkg/crawler/crawler.go:69-93 | the loop with `continue` on a seen URL and `break` on a full queue computes exactly the pass `Refill` describes |
| `Crawler.LowWaterExample` | pkg/crawler/crawler.go:70-71 | with one worker, a queue of 81 URLs does not call the store and a queue of 80 asks it for 100 |
| `Crawler.AdmitAppend` | pkg/crawler/crawler.go:77-87 | a pass over two batches of candidates equals a pass over the first batch followed by a pass over the second, and the counts add up |
| `Crawler.StopsAtCapacity` | pkg/crawler/crawler.go:81-83 | once a pass has filled the queue, later candidates are neither enqueued nor marked seen |
| `Crawler.TakeWork` | pkg/crawler/crawler.go:108-112 | a worker waits exactly when the queue is empty; otherwise it removes the front URL, and fetches it only when it is not the empty string |
| `Crawler.Drain` | pkg/crawler/crawler.go:108-112 | workers emptying the queue fetch every non-empty URL exactly as often as it was queued, never an empty one, in queue order |
| `Crawler.NewCrawler` | pkg/crawler/crawler.go:31-33 | the URL queue is given a buffer of `100*nWorkers` and the results channel one of `2*nWorkers`; the fresh queue and the fresh seen-cache are both empty, so the queue fits its buffer and every queued URL is in the seen-set |
| `Crawler.Step` | pkg/crawler/crawler.go:69-112 | a refill tick only appends at the back of the queue and marks exactly what it appends; a worker receive removes the front URL, if any, and leaves the seen-set unchanged |
| `Crawler.Run` | pkg/crawler/crawler.go:52-58 | over any sequence of ticks and receives, the seen-set grows by exactly the URLs appended, and every URL left in the queue was queued before or appended during the run |
| `Crawler.StepKeepsFrontier` | pkg/crawler/crawler.go:69-112 | a refill tick or a worker receive keeps the queue within its buffer and every queued URL marked seen; what a tick appends is distinct and was unseen, and the seen-set grows by exactly that |
| `Crawler.RunNeverReadmits` | pkg/crawler/crawler.go:52-58 | over any sequence of refill ticks and worker receives, no URL is appended twice, none seen before the run is appended, the seen-set grows by exactly the appended URLs, and the queue never exceeds its buffer |

## Left out

- HTTP transport and request building (fetcher.go:22-32): the URL and query string, `hg.Get` and reading the body. The model takes the reply as an input: a transport error, or a status code with the decoded body.
- Byte-level JSON decoding (`json.Unmarshal`, fetcher.go:47-48). The model starts from the decoded value. An undecodable body, or a top level that is not an object, leaves the result map nil, which the model treats as an empty object.
- Floating-point page ids: `int(id.(float64))` at fetcher.go:88 is modelled for integer-valued numbers only. Truncation of fractions and overflow of the conversion are not modelled.
- Map iteration order: the Go loop over `pages` looks at whichever entry the map yields first, and that order is unspecified. The model takes the last member of the decoded object, which is always the live binding of its key. With several distinct keys, Go may pick a different one of them.
- Logging and statsd metrics in both files, and the periodic gauge loop (crawler.go:61-67).
- Concurrency: goroutines, channel blocking and the worker pools (crawler.go:38-59, 95-118). Ticks and receives are interleaved one at a time in `Crawler.Run`. A race between a worker's receive and the refill's capacity check cannot arise in this model.
- Time: the cache's two-minute expiry and five-minute sweep (crawler.go:33), and the sleeps (crawler.go:57, 65). Without expiry a URL, once seen, is never admitted again.
- The results channel and the registerer workers (crawler.go:95-104). Only the channel's capacity is stated, as `Crawler.ResultsCapacity`.
- The initial enqueue of the start URL (crawler.go:50). It bypasses the seen-set, so after it the invariant "every queued URL is seen" would not hold for that one URL.
- The worker's call at crawler.go:115 passes one argument to a three-argument `CrawlArticle`. It cannot be connected to the fetch model. `Crawler.Drain` states which URLs are fetched, not what fetching them returns.
- pkg/db/main.go declares an `Article` with URL, Title and string links, and a `NextToVisit` method. Both disagree with their use in fetcher.go and crawler.go. The model's `Fetcher.Article` follows fetcher.go. The store is only an input: `NextsToVisit` becomes the store result passed to `Refill`, and `AddVisited` is not modelled.
- Crawler.NewCrawler: the worker count is a `nat` and every size (`100*nWorkers`, `80*nWorkers`, `2*nWorkers`) is exact, unbounded arithmetic. A negative count, for which creating the channel at crawler.go:31 panics, is excluded by the type. A count large enough for `100*nWorkers` to overflow Go's `int` is not modelled either.
- The store is asked for `100*nWorkers` candidates, but the code does not check how many it returns. `Crawler.Refill` accepts a candidate list of any length.
