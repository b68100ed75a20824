# SkunkyArt, modelled in Dafny

SkunkyArt is a proxy in front of DeviantArt. This project models the machinery
that keeps its upstream traffic low and safe, the printer that turns a document
description into trusted HTML, and the round trip of a media URL through an
instance, and proves what they promise.

| modules | source | form |
|---|---|---|
| `ApiStore`, `ApiCache` | `app/apicache.go`, the store | a recency sequence, and the class of map, linked list and byte total proved to follow it |
| `CacheProtocol`, `CacheRuns` | `app/apicache.go`, `RoundTrip` | a step system, one step per critical section, and theorems over every run |
| `Throttle` | `app/httpclient.go`, `daThrottle` | a step system of counter, semaphore, mutex, stamp and cancellation |
| `Chain` | `app/httpclient.go`, `chain` | the product of the two step systems |
| `RateLimit`, `RateLimiter` | `app/ratelimit.go` | histories over a table of buckets, and the class of bucket cells updated in place |
| `Html`, `Document`, `DocumentRenderer`, `RenderedText`, `ParsedDocument` | `app/document.go`, `esc` | a character scanner, the element tree a node stands for, the imperative printer into one builder, the HTML of each type spelt out, and a parser that reads the output back |
| `Paths`, `Urls`, `MediaUrl`, `MediaRoundTrip` | `app/util.go`, `app/router.go`, `app/cache.go` | path segments and cleaning, URL building, routing and rebuilding, and exactly what comes back |
| `MemCache`, `DiskCache` | `app/cache.go` | the aging memory cache and the disk rotation |
| `Common` | | options, counting, sequences |

`dafny verify dfyconfig.toml` checks everything.

How to read it. Concurrent code is a state, a set of labels, a predicate saying
when a label is enabled and a function doing the step. A run is a sequence of
states joined by enabled steps, and a theorem speaks of every state of every
run, so it holds for every interleaving. Logs in a state (`replies`, `puts`,
`grants`, `calls`) are written and never read by a step. Code that updates
objects in place is a class with a ghost abstract value; its methods are proved
to do to that value what a function says, and the theorems are about the function.

Results that say where the code does *not* do what one would hope:

- The throttle's queue bound needs the load and the increment of `waiting` to
  happen together. They are two atomic operations, and
  `Throttle.UnserialisedQueueUnbounded` gives a run in which the counter reaches
  any height. `Throttle.QueueBoundIff` says exactly which bounds hold: with an
  interval, those from the floor plus the number of requests that may pass the
  test together on; without one, none.
- Pruning a client's bucket is invisible exactly when ten minutes' worth of the
  configured rate is at least the burst (`RateLimit.PruningUnobservableIff`).
  With 10 * per-minute < burst there is a history, made of requests alone, in
  which a client gets more than an unpruned bucket would give, and more than the
  window bound allows (`RateLimit.WindowBoundIff`).
- A media URL with a plain host label and a path from the root comes back as it
  was exactly when, after its first slash, the path has none of `?`, `#` and `%`,
  no `&` in front, and no `.`, `..` or empty segment but perhaps the last, and its
  token demands no blur or the path has no fit transform without one
  (`MediaRoundTrip.RoundTripIff`): the path is pasted into the instance URL
  unescaped, `net/http` cleans paths before the handler sees them, and a blur is
  inserted where one is demanded. For an empty host label, building that URL
  panics (`MediaUrl.PanicsIff`).
- `docs/superpowers/specs/2026-09-10-api-cache-design.md:35-36` and `:62-63` say
  that a block is not remembered and that an expired entry is removed on lookup.
  The code remembers a block for a minute and keeps an expired entry for the
  stale window. The model follows the code.
- The comment at `app/cache.go:289-290` says files *more* than the lifetime old
  go. The code also removes one exactly that old, and so does the model.

## Model

| member | source | states |
|---|---|---|
| ApiStore.EvictIsLongestFit | app/apicache.go:245-251 | eviction from the back keeps a prefix of the recency order, and a prefix fits the room if and only if it is no longer than the one kept |
| ApiStore.PutIsExactLru | app/apicache.go:236-259 | a stored entry that fits leads with its new expiry, followed by exactly the longest prefix of the previous order, less the same key, that still fits the bound with it |
| ApiStore.OversizedPutKeeps | app/apicache.go:237-240 | a body larger than the bound leaves the whole store as it was, the key's older entry included |
| ApiStore.PutMembers | app/apicache.go:236-259 | a put adds no entry but its own, and unless oversized leaves no other entry under that key |
| ApiStore.PutKeepsStoreOk | app/apicache.go:236-259 | keys stay distinct and the bodies stay within the bound across a put |
| ApiStore.GetKeepsStoreOk | app/apicache.go:211-232 | and across a lookup, whether it hits, is stale or drops the entry |
| ApiStore.GetIsExactLru | app/apicache.go:219-231 | wherever an entry stands in the order, a fresh lookup moves it to the front past those before it, a stale one hands it back and moves nothing, one past the window drops it alone; the first is a hit, the others misses |
| ApiStore.GetOfAbsent | app/apicache.go:215-218 | looking up an absent key changes nothing but the count of misses |
| ApiStore.HeldWithout | app/apicache.go:262-266 | dropping a key frees exactly the bytes of its entry |
| ApiStore.RecencyIsLastTouch | app/apicache.go:207-259 | after any history of lookups and puts, the recency order is the order of last fresh hit or store, told from the history alone |
| ApiCache.Cache.constructor | app/apicache.go:59-69 | a new cache is the empty store |
| ApiCache.Cache.Place | app/apicache.go:50-57 | every entry of the map has exactly one place in the list, and its elem is that place |
| ApiCache.Cache.MapFinds | app/apicache.go:215-219 | looking a key up in the map is looking it up in the recency sequence |
| ApiCache.Cache.Get | app/apicache.go:211-232 | on the map, list and counters, get does what the recency-sequence lookup does and returns the entry object of the map |
| ApiCache.Cache.MakeRoom | app/apicache.go:242-251 | the old entry of the key goes and the back is evicted until the new body fits; the list is never empty when its back is taken, and the loop ends |
| ApiCache.Cache.Put | app/apicache.go:236-259 | put does to the recency sequence exactly what the LRU specification says and keeps map, list and byte total in agreement; if the body is oversized, map, list and total are as they were |
| ApiCache.Cache.Remove | app/apicache.go:262-266 | list, map and byte total all lose that one entry, by element identity |
| ApiCache.Cache.StartBlock | app/apicache.go:166-172 | a block is remembered with its response until 60 seconds from now, and nothing else changes |
| ApiCache.Cache.BlockedResponse | app/apicache.go:176-183 | a response comes back exactly while the backoff runs, and it is the last block's |
| ApiCache.Cache.Stats | app/apicache.go:270-274 | the reported numbers are those of the recency sequence: its counters, its length and the sum of its bodies, within the bound |
| CacheProtocol.InvStep | app/apicache.go:112-164 | every step of every request keeps the protocol's invariant: flights, replies, puts, stored entries, the remembered block and what each request has in hand |
| CacheProtocol.RunInv | app/apicache.go:112-164 | the invariant holds in every reachable state |
| CacheRuns.Coherence | app/apicache.go:112-164 | over every run, a 200 handed out for a key was sent by upstream for that key; from the store, it was put before the lookup and looked up inside the window of that put, fresh or stale as served; a non-200 is the result of a flight for the key, or the last block recorded when the request was checked, less than a minute old |
| CacheRuns.Availability | app/apicache.go:117-163 | a request whose lookup found an entry, fresh or stale, always ends with a 200, whatever upstream does |
| CacheRuns.StoreBounded | app/apicache.go:236-259 | in every reachable state keys are distinct and the bodies held are within the bound |
| CacheRuns.OneFlightPerKey | app/apicache.go:129-147 | two unfinished upstream calls never share a key |
| CacheRuns.LookUpFinds | app/apicache.go:117-121 | in every reachable state a lookup answers at once with an entry still fresh, keeps a stale one for the request, and finds nothing past the window or without an entry; then comes the backoff check |
| CacheRuns.CheckPassesIff | app/apicache.go:121-127 | a request goes on to a flight exactly if no 403 or 429 was recorded in the last 60 seconds; otherwise it is served its stale entry, or else the last block |
| CacheRuns.EnterJoinsOrLeads | app/apicache.go:129 | it joins the unfinished flight for its key if there is one, and leads a new one exactly if there is none |
| CacheRuns.RecordingStores | app/apicache.go:139-145 | recording a 200 that fits puts it in front with its expiry; a 403 or 429 is remembered as a block for 60 seconds; an oversized 200, any other status and an error change nothing |
| CacheRuns.RecordedIsServed | app/apicache.go:139-145 | from then until its time to live is over the recorded 200 is what a lookup of its key hits, and after an oversized one lookups find what they found before |
| CacheRuns.RequestPersists | app/apicache.go:112-164 | a request keeps its key, its lookup and its flight, and once its check fell inside a backoff it never goes past it |
| CacheRuns.WaiterGetsItsFlight | app/apicache.go:129-163 | whoever is inside a flight, leader or waiter, leaves with that flight's 200 whatever its lookup found; with its stale entry if the flight brought anything else and it has one; and with what the flight brought if not |
| CacheRuns.Conservation | app/apicache.go:117-126 | over every run, hits plus misses is the number of lookups, hits are the lookups that were fresh, stale answers are counted one by one and are at most misses, and flights started are at most misses |
| CacheRuns.BlockIsLast | app/apicache.go:166-172 | the block remembered in any state is the last 403 or 429 recorded, and ends a minute after that; if none is remembered none was recorded |
| CacheRuns.BackoffServed | app/apicache.go:121-127 | a request answered with a block was checked at a step inside the backoff, and its answer is the block then remembered |
| CacheRuns.BackoffNeverShrinks | app/apicache.go:167-183 | the end of the backoff never moves earlier |
| CacheRuns.CheckedInsideStartsNoFlight | app/apicache.go:121-127 | a request whose check falls inside the backoff is never part of a flight |
| CacheRuns.FlightsDuringBackoff | app/apicache.go:121-147 | while a backoff lasts, the flights that start are paid for one by one by requests already past their check when it began |
| CacheRuns.LruInEveryState | app/apicache.go:207-259 | in every reachable interleaved state the store's order is that of its lookups and puts replayed one after the other, so it is the order of last fresh hit or store |
| CacheRuns.StoredIsMostRecent | app/apicache.go:148-162 | an entry present for a key is the most recent 200 for it whose body fits, except that one reply may be waiting for its flight to record it |
| Throttle.Conservation | app/httpclient.go:71-102 | base calls in flight <= slots taken <= the queue counter, slots are at most the limit, the counters equal the requests in those sections, all are zero once everyone has returned, and a slot being released is there to release |
| Throttle.SlotsIff | app/httpclient.go:78-83 | the bounds the slots taken keep in every run are exactly those from the configured limit on: every slot can be used |
| Throttle.GrantsSpan | app/httpclient.go:88-100 | any k + 1 successive grants span at least k intervals |
| Throttle.WindowBound | app/httpclient.go:88-100 | any window holds at most its length over the interval, plus one, grants |
| Throttle.WindowBoundIff | app/httpclient.go:88-100 | and that bound is attained: the bounds a window keeps in every run are exactly those from there on |
| Throttle.ExactlyOneOutcome | app/httpclient.go:67-102 | a returned request was dispatched to base exactly once, or was shed or cancelled and then never dispatched nor granted |
| Throttle.ShedIff | app/httpclient.go:69-73 | over every run, a request is shed exactly if at its arrival the queue times the interval was more than 20 seconds, whoever makes it |
| Throttle.CancelGivesBack | app/httpclient.go:74-98 | in every reachable state a request that waits for a slot or out the interval can leave, and then gives back exactly its place in the queue, its slot and the mutex |
| Throttle.LastIsDispatched | app/httpclient.go:71-102 | in every reachable state the last start is that of the latest grant, made to a request bound for base or past it: shed and cancelled requests never moved it |
| Throttle.QueueBoundIff | app/httpclient.go:69-76 | when at most m > 0 requests are ever between check and increment, the bounds the queue counter keeps in every run are exactly those from twenty seconds' worth of intervals plus m on, and none at all if the interval is zero |
| Throttle.SerialisedQueueBound | app/httpclient.go:69-76 | with check and increment serialised that is the floor plus one |
| Throttle.UnserialisedQueueUnbounded | app/httpclient.go:71-75 | without it, for any interval and any height some run brings the counter there |
| Chain.Projections | app/httpclient.go:131-140 | each part of a run of the chain is a run of the cache, or of the throttle, on its own |
| Chain.UpstreamTraffic | app/httpclient.go:131-140 | over every run of the chain, no flight has more than one upstream call, so the cache's calls, counted as often as made, are at most its flights and its flights at most its misses, while all calls granted stay within the window bound |
| Chain.ServedWasFetched | app/httpclient.go:131-140 | a 200 handed out for a key was brought by a base call granted to a flight for that key and made exactly once |
| Chain.FreshHitSparesThrottle | app/apicache.go:117-120 | over every run of the chain, a request that hit leads no flight and is in none, and whatever the throttle admitted, granted or called for a flight was made for a request that missed |
| RateLimit.NewConfig | app/ratelimit.go:33-40 | perMinute a minute and a bucket of burst, whose buckets refill before they can be pruned exactly when 10 * perMinute >= burst |
| RateLimit.MinuteGain | app/ratelimit.go:33-40 | a minute earns perMinute tokens, and other times earn in proportion |
| RateLimit.NewClientBurst | app/ratelimit.go:44-67 | of n requests a new client makes at one moment, whatever others have done, exactly n or burst are granted, whichever is less |
| RateLimit.InsertionPrunes | app/ratelimit.go:50-57 | a new client's first request keeps every other bucket as it is, but with every 1000th insertion drops exactly those idle for more than 600 seconds |
| RateLimit.TokensInBounds | app/ratelimit.go:44-76 | after any history and any schedule of prunes, tokens lie between zero and the burst |
| RateLimit.FindsTheSame | app/ratelimit.go:49-60 | a client that was pruned finds the bucket it would have found had it not been |
| RateLimit.PruningUnobservable | app/ratelimit.go:44-76 | when buckets refill within the idle limit, a client's answers under any mix of others and any prunes are those of an ideal bucket run on its requests alone |
| RateLimit.PruningObservable | app/ratelimit.go:31-76 | when they do not, a history of requests alone shows a client different answers |
| RateLimit.PruningUnobservableIff | app/ratelimit.go:31-76 | so pruning goes unnoticed in every history exactly when 10 * perMinute >= burst |
| RateLimit.WindowBound | app/ratelimit.go:44-76 | under that condition a client is granted at most burst + perSecond * T requests in any interval of length T |
| RateLimit.WindowBoundIff | app/ratelimit.go:31-76 | every history grants a client at most burst + perMinute * T / 60 requests in any T seconds exactly when 10 * perMinute >= burst |
| RateLimit.PacedNeverRefused | app/ratelimit.go:44-76 | a client whose requests are at least 1 / perSecond apart is never refused, condition or not |
| RateLimiter.Limiter.constructor | app/ratelimit.go:33-40 | a new limiter is the empty table, with perMinute / 60 tokens a second and a bucket of burst |
| RateLimiter.Limiter.Allow | app/ratelimit.go:44-67 | on the map of bucket objects, allow answers and changes what the table specification says, with no two clients sharing a bucket |
| RateLimiter.Limiter.Insert | app/ratelimit.go:50-57 | a new client's bucket is full, and every thousandth insertion prunes, never that client |
| RateLimiter.Limiter.PruneIdle | app/ratelimit.go:70-76 | the loop drops exactly the buckets idle past the limit |
| Html.UnescEsc | app/util.go:48-54 | unescaping gives back every string that was escaped |
| Html.EscAppend | app/util.go:48-54 | escaping works character by character |
| Html.EscClean | app/util.go:48-54 | no escaped string contains `<`, `>` or a quote |
| Html.EscChars | app/util.go:48-54 | the five characters escaped and what each becomes; every other stays |
| Html.TokensOfPrinted | app/document.go:52-60 | scanning printed tokens character by character ends in text and gives the tokens back, with adjacent text merged |
| Html.MergeKeeps | app/document.go:52-60 | merging keeps all tags and all text in order and leaves no empty or adjacent text |
| Document.RenderedFaithfully | app/document.go:52-241 | for every document, scanning the output gives back the intended elements and attribute values, and its unescaped text is exactly the document's visible text: no payload adds or ends a token |
| Document.RenderedWellNested | app/document.go:62-138 | the scanned output is balanced, with br, hr and img standing alone, for every node tree and mark list |
| ParsedDocument.ParsedBack | app/document.go:52-241 | for every document, building a tree from the scanned output with a stack of open elements gives back exactly the intended elements, nested as intended, up to adjacent text |
| ParsedDocument.NormalKeeps | app/document.go:52-241 | up to adjacent text means that every tag, attribute and character of text stays, in order |
| Document.IntentShows | app/document.go:62-241 | the intended elements carry exactly the visible text, told from the type names: the text of "text" nodes, "@name" of mentions, "[GIF]", and author and title of artworks without an image, in order |
| Document.FlatNests | app/document.go:62-138 | flattening a tree of good tags closes exactly what it opened |
| DocumentRenderer.MarkedPrints | app/document.go:151-172 | openings in mark order, the text, and closings in reverse are the nested elements of the marks |
| DocumentRenderer.OpenMarks | app/document.go:151-166 | the first loop collects the openings and closings of the marks that render |
| DocumentRenderer.RenderDocText | app/document.go:151-172 | a text leaf appends its marked element tree to the shared builder |
| DocumentRenderer.RenderDocEmote | app/document.go:177-204 | an emote appends its image, by its own URL or by its code without colons, or nothing |
| DocumentRenderer.RenderDocDeviation | app/document.go:208-241 | an embedded artwork appends its image or label, in a link if it has one, or nothing if hidden or undecodable |
| DocumentRenderer.RenderDocNode | app/document.go:62-138 | whatever the node, exactly its intended tree is appended to what the builder held |
| DocumentRenderer.RenderDocument | app/document.go:56-60 | the rendered document is the printed intended tree |
| RenderedText.BlocksRendered | app/document.go:77-97 | paragraphs, lists, items, quotes and code blocks are p, ul, ol, li, blockquote and pre around their children |
| RenderedText.HeadingRendered | app/document.go:79-87 | a heading is h2 up to level 1, h3 at 2, h4 beyond, and h2 again at the largest int |
| RenderedText.LeavesRendered | app/document.go:75-101 | breaks and rules are br and hr, unmarked text is itself, escaped |
| RenderedText.UnknownRendered | app/document.go:135-137 | a node of any type not named renders its children |
| RenderedText.GifRendered | app/document.go:106-115 | a GIF is a link to its URL, or nothing without one |
| RenderedText.MentionRendered | app/document.go:116-134 | a mention links "@name" to the user's page on this instance, or is nothing without a name |
| RenderedText.EmoteRendered | app/document.go:177-204 | an emote is its image captioned by title or else code, or nothing without one |
| RenderedText.EmoteByCode | app/document.go:186-190 | without an image of its own an emote is looked up by its code less any colons around it |
| RenderedText.ArtworkRendered | app/document.go:208-241 | an artwork is its image or "author - title", in a link if it has one, or nothing if hidden or undecodable |
| RenderedText.MarkIs | app/document.go:143-166 | what each mark wraps its text in, and which wrap nothing |
| RenderedText.MarksNest | app/document.go:151-172 | marks nest in order, the first outermost |
| RenderedText.TrackingGone | app/document.go:46-50 | exactly the outgoing redirector's prefix is taken off a link |
| Urls.URLBuilder | app/util.go:210-222 | host, base path and segments, joined with a slash only between path segments |
| MediaUrl.LabelHost | app/util.go:338-345 | prefix, label and suffix give back the host: the label is never cut short |
| MediaUrl.WixmpMediaIff | app/util.go:338-345 | a URL is media with a label exactly if its host is "images-wixmp-", the label and ".wixmp.com"; its path loses one leading slash and its token is kept |
| MediaUrl.ServedUrl | app/util.go:347-363 | the instance URL is media/file/, the label, a slash unless the path is empty or starts like a query, and the path |
| MediaUrl.QueryCarries | app/util.go:355-361 | its query has the token and the filename, each if there is one, and nothing else |
| MediaUrl.ParsePath | app/router.go:45-64 | the parsed map is the path from the base path's last slash, split at its slashes |
| Paths.JoinSplit | app/router.go:45-75 | rejoining a split path gives the path |
| Paths.CleanIff | app/router.go:27 | the path cleaning of the mux the handler is registered on leaves a path alone exactly if it has no ".", no ".." and no empty segment but perhaps the last; any other gets shorter |
| Paths.CleanTwice | app/router.go:27 | a cleaned path is not cleaned again, so one redirect reaches the handler |
| MediaUrl.ReceivedIff | app/router.go:45-50 | the handler sees the very text of a URL exactly if nothing in it ends the path, is cleaned or is decoded; anything else it sees is shorter |
| MediaUrl.Next | app/router.go:66-75 | next gives the segments from one on, joined again |
| MediaUrl.Dispatch | app/router.go:163-170 | a media/file request goes to the media proxy with segment 3 as its label and the segments from 4 on as its path, missing ones empty |
| MediaUrl.PasteableFetched | app/util.go:347-363 | for a URL with a plain label and a pasteable path (no `?`, `#`, `%`, no leading `&`, and no segment that cleaning changes) the proxy fetches that very URL, but for the blur its token may demand |
| MediaRoundTrip.RoundTripIff | app/cache.go:164-189 | whatever the token demands, the round trip reproduces host, path and token if and only if the URL is of that kind and the token demands no blur or the path has no fit transform a blur would change |
| MediaRoundTrip.BlurNeverMakesUp | app/cache.go:172-174 | if adding the demanded blur to what the router hands on gives the path that was pasted in, the blur changed nothing: it never makes up for what was lost on the way |
| MediaUrl.RoutedPasteable | app/router.go:45-75 | if the router takes the label and path of an instance URL out of it again, the path was pasteable: whatever else it is served as is too short to hold both |
| MediaUrl.HostReadIff | app/cache.go:87-90 | reading the host back out of the built URL's text gives the host that was meant exactly if the label has none of `/`, `?`, `#`, `@` and `:` |
| MediaUrl.FetchedHost | app/cache.go:164-189 | for any request path and token, a URL is built exactly if the routed label is letters, digits and dashes and not empty, and however its path is then written out, the host read from its text is that label between "images-wixmp-" and ".wixmp.com" |
| MediaUrl.PanicsIff | app/util.go:214-218 | building an instance URL fails exactly for an empty label before a path joined with a slash |
| MediaUrl.BlurAdded | app/cache.go:137-153 | a path with a fit transform whose operations name no blur gains ",blur_n" right after them, and nothing else changes |
| MediaUrl.BlurIff | app/cache.go:137-153 | and those are exactly the paths that change |
| MediaUrl.IndexOfFound | app/cache.go:138-139 | the fit transform looked at is the path's first |
| MediaUrl.BlurOnce | app/cache.go:137-153 | adding a blur to a path that was given one changes nothing |
| MediaUrl.DigitsRead | app/cache.go:152 | the radius is written so that reading it in decimal gives it back |
| MemCache.ClosedForm | app/cache.go:32-85 | over any history a body is held exactly if every aging round since its last non-empty put found its score positive, and the score is twice the reads less the rounds since then, never negative |
| MemCache.ReadReturnsLastPut | app/cache.go:32-43 | a hit returns the body of the latest non-empty put for its key |
| MemCache.LeftAlone | app/cache.go:71-85 | an entry left alone at score s survives exactly s rounds |
| MemCache.Cache.MemGet | app/cache.go:32-43 | a read returns the stored body and scores it up by two, in place, for that key only |
| MemCache.Cache.MemPut | app/cache.go:46-53 | a non-empty body replaces the key's file at score zero; an empty one changes nothing |
| MemCache.Cache.AgeMemCache | app/cache.go:74-85 | one round drops exactly the files out of points and takes one from each of the others |
| DiskCache.TrimIsForced | app/cache.go:328-338 | with distinct modification times the trim has no choice: a file stays exactly if it and everything newer fit together |
| DiskCache.FitsSoNothingCut | app/cache.go:328-338 | when the unexpired files fit, only expired ones go |
| DiskCache.RotatedWell | app/cache.go:295-340 | with removals succeeding, what is left is unexpired and within the cap, what was not a readable file is untouched, and no unexpired file that went is newer than one that stayed |
| DiskCache.RotatedFiles | app/cache.go:308-338 | file by file, with removals succeeding: directories and unreadable entries stay, files at least the lifetime old go, the others stay but for those cut; what is left fits the cap, none cut is newer than one left, and one cut would not have fitted |
| DiskCache.FileStaysIff | app/cache.go:311-338 | with distinct ages, an unexpired file stays exactly if it and all newer ones fit the cap |
| DiskCache.SortByAge | app/cache.go:331 | the same files, oldest first |
| DiskCache.Disk.Sweep | app/cache.go:308-326 | the first loop removes exactly the expired files and lists and totals the others |
| DiskCache.Disk.Trim | app/cache.go:332-338 | the second removes a minimal set of oldest files whose going makes the rest fit |
| DiskCache.Disk.RotateCache | app/cache.go:295-340 | a rotation removes the expired files and such a minimal set; a missing directory is made, an unreadable one left alone |

## Left out

- Clocks: they are monotone, and timers never fire early. Cache and throttle have clocks of their own in `Chain`, so no theorem compares their times.
- Timeliness: nothing is claimed about blocking, fairness or liveness of mutexes, the semaphore or flights.
- `singleflight`, `container/list`, `sort.Slice` and `html.EscapeString`: modelled by what they are specified to do. The list is a sequence of elements compared by identity.
- Go's int64 for byte counts, counters and durations, and the overflow of `queued * daMinInterval`: unbounded integers, except for the heading level, which wraps.
- Floating point in the rate limiter: exact reals.
- `cacheable`, `cacheKey` and hosts that are not DeviantArt's: a request of the model is one the cache or the throttle handles, with its key given.
- `response`: that each caller gets its own header clone and body reader is not modelled; a response is a value.
- `ProxiedTransport`: each call makes a throttle of its own; the bounds are per throttle. A grant bounds the start of a request only up to the scheduling between unlocking and the base call.
- MediaUrl.PasteableFetched: the configured base path starts and ends with a slash and is itself served as it is. Query encoding is a lossless map, as is a client's encoding of other characters in a path; a URL whose text fails to parse is not media. `ServeMux` is taken to redirect to the cleaned path with the query kept, decoded once. A client that normalises dot segments itself is not modelled; the paths concerned do not come back either way.
- MediaRoundTrip.RoundTripIff: `garbled` stands for whatever token a server would read from a query that a `?` or `#` in the path has cut off.
- `blurConstraint`: reading the demand out of a token is a parameter, an arbitrary function from tokens to integers.
- Download filename, cache lookups and errors of `downloadAndSendMedia`, and the SHA-1 keys of the media caches: keys are opaque and no claim is made that one determines a URL.
- `emoticonURL`, `ConvertDeviantArtURLToSkunkyArt`, `ParseMedia` and `VisibleDeviation`: their results are arbitrary attributes of a node, as are all decoded attributes.
- `parseDocument`, the Draft.js and HTML branches of `ParseDescription`, the Atom feed and templates: other formats, with output that is not balanced in general.
- DocumentRenderer: strings are byte strings, which is what the builder and the escaper see; browsers' own error recovery is not modelled, only tag, attribute and text states.
- MemCache.Cache.MemGet: a nil body and an empty one are the same; neither is ever stored.
- DiskCache.Disk.RotateCache: creating the missing directory always succeeds, and the directory does not change under the rotation. A removal that fails is passed over, as in the code.
- `clientAddr`, `limited`, `robotsTXT`, configuration, command line, languages and themes: small case splits that would only add easy members.
