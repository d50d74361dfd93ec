# s-size, verified

s-size is a small catalog server: an HTTP thread serves a feed out of an immutable
snapshot and logs what visitors do; one database thread writes the log in batches,
matches affiliate postbacks to clicks, keeps daily statistics and prunes the log.
This project models that server in Dafny and proves what its design rests on.
`dafny verify dfyconfig.toml` checks everything.

## How the model is laid out

| part | files | form |
|---|---|---|
| tables and SQL statements on values | `Metrics.dfy`, `Counting.dfy` | functions, lemmas |
| in-order selections | `Selections.dfy` | lemmas |
| queues, connection, database thread | `Queues.dfy`, `Database.dfy`, `Worker.dfy` | classes with loops |
| the two threads, the clock, faults and restarts | `Pipeline.dfy` | transition system |
| theorems about its runs | `Conservation.dfy`, `Shutdown.dfy`, `Rollup.dfy`, `Retention.dfy`, `Conversions.dfy`, `Postbacks.dfy`, `Completeness.dfy`, `VisitCounts.dfy` | lemmas |
| text codecs, links, routes | `Bytes.dfy`, `UrlCodec.dfy`, `Query.dfy`, `Links.dfy`, `ClickTokens.dfy`, `AffiliateLink.dfy`, `Redirects.dfy`, `Decimal.dfy`, `Routes.dfy` | functions, methods, lemmas |
| snapshot, loading, page cache | `Catalog.dfy`, `Loading.dfy`, `FeedCache.dfy` | classes with loops, lemmas |
| migrations, impression tracker | `Migrations.dfy`, `Impressions.dfy` | classes with loops, lemmas |

In the transition system every step of either thread is one action, the event drain
and the postback drain are two actions, every database call may fault, the clock may
move by any amount, and the process may be killed and started again between any two
steps. `Sys` is the program's state; `Audit` is a record of the run that no step
reads. `Worker.DbWorker.Pass` relates the two views: a pass of the thread's loop,
written over the queue and connection objects and taken without interruption, does
exactly what a stated sequence of those actions does, each given fault included. What
the other thread, the clock or a kill may do between two actions is only in the
transition system.

## Main results

- Every push of every run is dropped, pending, in flight, or in a batch that was committed,
  rolled back or taken by a kill, in push order. At shutdown the log is exactly what was
  accepted if and only if no insert faulted or met a repeated click token and no kill caught
  events; so without a fault, without a kill and with distinct tokens nothing accepted is
  missing. The tokens matter: in a run where nothing faults, one repeated token loses a whole
  batch (`Conservation`, `Shutdown`).
- With a clock that never goes back and at least two days of retention, every daily
  counter is the count over the full history up to the last rollup that covered its day,
  although the rows it was counted from are deleted meanwhile. So counters never
  overcount, never fall, and are exact if and only if nothing was committed since that
  rollup. Two days is the exact bound: counters never fall if and only if retention is at
  least two days (or the queue has no room, so that nothing is ever counted) (`RollupTheorems`, `Retention`).
  The counts are numbers of rows, by type, item, day and class of visitor; an accepted,
  committed visit shows in its item's counter after the next rollup of its day (`Counting`,
  `VisitCounts`).
- Every conversion row names an outbound click that was really committed, in every
  reachable state. A postback is recorded if and only if its click is committed and not
  pruned when it is taken up. Order of arrival decides: with no kill, lost batch or prune in
  between, it is recorded if the event queue was drained between click and postback turn, and
  settled as unmatched if not. The comment at src/db_worker.cpp:73-74 therefore does not extend
  to a click and its postback that both arrive between the two drains of a pass. An accepted
  postback is lost outright exactly when a fault hits it or an earlier one of its batch, or a
  kill catches it (`Postbacks`, `Completeness`).
- The conversions table is a fold of the recorded postbacks, equal to a direct summary of
  them; redelivery changes only a time (`Conversions`).
- Percent-encoding, query strings, template rendering and routes round-trip over arbitrary
  byte strings, end to end from a click to the partner's link and back to the queued
  postback (`UrlCodec`, `Query`, `Links`, `AffiliateLink`, `Redirects`, `Routes`). The decoder
  reads back every spelling a writer may choose, of either case and with plus signs; a parsed
  query holds exactly what its pieces name and assign.
- Feed order, indexes, tag list, paging and the in-memory join agree with their naive forms
  (`Catalog`, `Loading`).
- Over any vocabulary of filters, the page cache serves every request of every sequence its
  own page if and only if no two filters of the vocabulary share a key; and for each single
  reply, which earlier requests make it wrong is stated on the requests (`FeedCache`).
- Migrations survive any sequence of failed runs, every script runs if and only if the
  versions are distinct (`Migrations`).
- A page reports exactly the first full showing of each item, with the position and surface of
  the card that fired, unless 200 reports wait at that moment; a page with at most 200
  different items loses none (`Impressions`).

Where code and documentation differ the code is modelled: `raw` is described as the full
query string (migrations/001_init.sql:129) but the handler leaves it empty; impressions
are described as deduplicated per session (docs/analytics.md:128-129) but are deduplicated per
page; a query limit of zero returns one item, since the limit is looked at after adding.

## Model

| member | source | states |
|---|---|---|
| Queues.EventQueue.Push | src/events.cpp:11-19 | refuses and counts exactly the events that find the buffer full; otherwise appends |
| Queues.EventQueue.Drain | src/events.cpp:21-25 | hands over the whole buffer and leaves it empty |
| Queues.ConversionQueue.Push | src/events.cpp:32-38 | never refuses a postback |
| Queues.ConversionQueue.Drain | src/events.cpp:40-44 | hands over the whole buffer and leaves it empty |
| Database.DbConn.InsertEvents | src/db.cpp:318-351 | all rows or none; succeeds exactly when no statement faults and all non-empty tokens stay distinct |
| Database.DbConn.RecordConversion | src/db.cpp:353-382 | recorded, unmatched or failed as the click, the CHECK and the faults decide; the table changes only by the order_ref upsert |
| Database.DbConn.RollupDaily | src/db.cpp:384-404 | in every row of the days in range whose item has an event by a non-bot: the numbers of its impressions, card clicks and outbound events of that day; every other row is left alone |
| Database.DbConn.PruneEvents | src/db.cpp:406-411 | deletes exactly the events older than the cutoff and counts them |
| Metrics.KeepDistinct | migrations/001_init.sql:116-117 | pruning keeps the unique token index |
| Worker.DbWorker.FlushEvents | src/db_worker.cpp:97-111 | in the loop and on the way out: drain, then commit or lose the batch, as the two actions do; it throws if and only if there is something to insert and a statement faults or tokens clash |
| Worker.DbWorker.FlushConversions | src/db_worker.cpp:113-128 | drain, then record one postback after another until the first given fault ends the batch, as exactly that sequence of actions |
| Worker.DbWorker.Maintenance | src/db_worker.cpp:130-142 | rollup of yesterday and today, then prune; a failed rollup skips the prune |
| Worker.DbWorker.Pass | src/db_worker.cpp:71-87 | an uninterrupted pass is exactly a stated sequence of the thread's actions from the top of the loop back to it, with every given fault where it strikes; a failed event flush skips the postbacks |
| Pipeline.HandlePostback | src/handlers.cpp:463-507 | queues a postback exactly when configured, signed, carrying a subid, a readable amount and an allowed status, with the subid, order, amount and status sent and "pending" by default; a bad signature is refused before anything else of the request is looked at, and every refusal names a true reason |
| Conservation.ConservedStep | src/db_worker.cpp:46-111 | every action of either thread, every fault and every restart keeps the accounts of events |
| Conservation.EveryPushIsAccountedFor | src/events.cpp:11-30 | in every state of every run: accepted events are the finished or killed batches, the batch in flight and the queue, in push order; dropped is exact; the queue is within capacity; the log is the committed batches and the table is the log less what was pruned |
| Shutdown.ShutdownLosesNothing | src/main.cpp:97-98 | once the thread has finished after the server stopped, the log holds exactly the accepted events in push order, if and only if no insert of the run faulted or met a token clash and no kill caught events |
| Shutdown.NoFaultNoLoss | src/db_worker.cpp:95-101 | without insert faults and kills, and with distinct non-empty tokens among the accepted events, nothing accepted is missing after shutdown |
| Shutdown.ClashLosesBatch | src/db.cpp:318-351 | a run without faults and kills in which one repeated token loses every accepted event |
| RollupTheorems.PruneIsBehindRollup | src/db_worker.cpp:131-139 | with two days of retention a pruned event lies at least two days before the day of the maintenance |
| Counting.DayIff | src/db.cpp:387 | the day of a timestamp, on both sides of the epoch |
| Counting.TallyCounts | src/db.cpp:389-391 | adding up event by event gives, for each type, the number of rows of that type, item and day by non-bots |
| Counting.RollupWrites | src/db.cpp:384-404 | what a rollup leaves in each row, in those numbers |
| Counting.KeepSelects | src/db.cpp:407 | a prune keeps exactly the rows not before the cutoff, in order |
| RollupTheorems.ExactRollup | src/db.cpp:384-404 | a rollup over the pruned table writes the counts of the full history |
| RollupTheorems.CountersAreExact | src/db_worker.cpp:130-142 | in every state of every forward run each counter is the count over the history up to the last rollup that covered its day |
| RollupTheorems.CountersCountEvents | src/db_worker.cpp:130-142 | the same, read as numbers of rows of each type |
| RollupTheorems.PruneLeaves | src/db_worker.cpp:138-139 | a prune leaves exactly the rows of the last retention days before its maintenance, in milliseconds |
| RollupTheorems.CountersNeverOvercount | src/db.cpp:397-400 | no counter exceeds the true count |
| RollupTheorems.CountersNeverFall | src/db.cpp:397-400 | no counter is ever smaller than before |
| RollupTheorems.CounterIsExactIff | src/db.cpp:384-404 | a counter equals the true count if and only if nothing it counts was committed after the last rollup that covered its day |
| RollupTheorems.ExactForever | src/db_worker.cpp:134-139 | after a maintenance of day d or d+1 that follows the last commit of day d, day d's counters equal the full history's counts in every later state |
| Retention.FallingRun | src/db_worker.cpp:138-139 | with at most one day of retention, a run in which a counter falls |
| Retention.RetentionBoundIsTight | src/db_worker.cpp:138-139 | counters never fall in any forward run if and only if retention is at least two days or the queue has capacity zero |
| VisitCounts.VisitIsStored | src/handlers.cpp:203-213 | a visit that is accepted and whose batch commits is stored with its own time, visitor, type, item, position, surface, token and source |
| VisitCounts.VisitAddsOne | src/db.cpp:389-391 | its row adds one to the counter of its kind, for its item and day and unless a bot made it, and changes no other |
| VisitCounts.VisitReachesCounter | src/db_worker.cpp:130-137 | it shows in its item's counter from the first rollup of its day on, although its row is deleted later |
| Conversions.OneRowPerOrder | migrations/001_init.sql:133-134 | at most one row per order reference |
| Conversions.FoldIsSummary | src/db.cpp:366-381 | the upserted table has one row per order and per postback without order, with token and raw text from the first and status, amount and time from the last |
| Conversions.RedeliveryChangesOnlyTime | src/db.cpp:372-375 | redelivering an order's latest postback any number of times changes only that row's time |
| Postbacks.ConversionsAreSound | src/db.cpp:359-364 | in every state of every run each conversion carries the non-empty token of a committed outbound click and an allowed status, and stored tokens are distinct |
| Postbacks.StatusNeverRefused | src/handlers.cpp:499-503 | without a fault no queued postback trips the status CHECK or ends its batch |
| Postbacks.TableIsFold | src/db.cpp:366-381 | in every state of every run the table is the fold of the recorded postbacks, and every accepted postback is settled, in work or queued, in order of arrival |
| Postbacks.LostIffFaultOrKill | src/db_worker.cpp:113-126 | an accepted postback settles as lost exactly when a fault hits it or an earlier one of its batch, or a kill catches it |
| Completeness.RecordedIffClickStands | src/db.cpp:359-364 | without a fault a postback is recorded if and only if a committed, unpruned click has its token |
| Completeness.AcceptedClickIsStored | src/db_worker.cpp:104-110 | a click accepted before a drain whose insert commits is in the table afterwards |
| Completeness.PostbackIsRecorded | src/db_worker.cpp:71-78 | every postback taken up after its click's batch committed is recorded and leaves its row, unless a prune deleted the click |
| Completeness.FailedFlushKeepsPostbacks | src/db_worker.cpp:71-78 | in every run, after a rolled-back event batch no postback is taken up before events are drained again; the postback queue only grows |
| Completeness.EarlyPostbackIsUnmatched | src/db_worker.cpp:71-78 | in every run: a postback whose click's token was not logged before and whose turn comes with no event drain since that click settles as unmatched |
| Completeness.ArrivalOrderDecides | src/db_worker.cpp:71-78 | with no kill, no lost batch and no prune of the click in between, a postback whose turn comes after its click was accepted is recorded if an event drain lies between the two, and unmatched if none does |
| Completeness.PostbackBetweenDrainsIsLost | src/db_worker.cpp:72-75 | a fault-free run in which a postback that follows its click is lost because both arrive between the two drains |
| UrlCodec.UrlEncode | src/links.cpp:26-40 | the loop computes the encoding that the lemmas below are about |
| UrlCodec.UrlDecode | src/handlers.cpp:81-106 | the loop computes the decoding that the lemmas below are about |
| UrlCodec.RoundTrip | src/handlers.cpp:81-106 | decoding undoes encoding for every byte string |
| UrlCodec.AnySpellingDecodes | src/handlers.cpp:84-103 | whichever way each byte was written (as it is, a space as a plus sign, an escape with digits of either case), decoding reads the text back |
| UrlCodec.BrokenEscapeStays | src/handlers.cpp:86-99 | a percent sign without two hexadecimal digits after it stands for itself |
| UrlCodec.EncodedIsUpper | src/links.cpp:20-40 | the encoder escapes exactly what is not unreserved, in upper case |
| UrlCodec.UnreservedIff | src/links.cpp:15-18 | the unreserved characters are the letters, the digits and four marks |
| UrlCodec.EncodedAlphabet | src/links.cpp:15-40 | the output consists of unreserved characters and percent signs |
| UrlCodec.UnreservedIsFixed | src/links.cpp:15-33 | unreserved text is its own encoding |
| UrlCodec.FixedIsUnreserved | src/links.cpp:15-37 | only unreserved text is its own encoding |
| UrlCodec.DecodedIsIdentityIff | src/handlers.cpp:84-103 | decoding leaves a text alone if and only if it has no plus sign and no complete escape |
| Query.ParseQuery | src/handlers.cpp:108-126 | the loop computes the parse that the lemmas below are about |
| Query.SplitJoins | src/handlers.cpp:110-124 | every query string is the joining of its pieces between ampersands |
| Query.ParseJoined | src/handlers.cpp:108-126 | parsing adds the pieces from left to right |
| Query.QueryRoundTrip | src/handlers.cpp:108-126 | parsing an encoded list of pairs, with empty and repeated keys, gives its last-wins map |
| Query.LastWinsAt | src/handlers.cpp:118-119 | in that map the last pair of each key decides |
| Query.QueryMeans | src/handlers.cpp:108-126 | a parse has exactly the keys its pieces name; a key has the value of the last piece that assigns it, and an empty one if pieces only name it |
| Query.SplitWithoutMark | src/handlers.cpp:145-149 | a target without a question mark is all path |
| Links.MakeClickToken | src/links.cpp:42-55 | twelve base62 characters, one per random byte |
| Links.Base62Alphabet | src/links.cpp:12-13 | the digits are the 62 characters in the order of the source's alphabet |
| Links.TokensDiffer | src/links.cpp:50-54 | two tokens are equal if and only if their random bytes agree modulo 62 |
| Links.RenderLink | src/links.cpp:57-89 | the loop computes the concatenated meanings of the template's segments |
| Links.SegmentsProper | src/links.cpp:61-87 | the segments of a template concatenate back to it, and only the last can be unterminated |
| Links.SegmentsUnique | src/links.cpp:61-87 | a proper list of segments is the only split of its text |
| Links.SplitsIndependently | src/links.cpp:61-87 | two templates split independently if and only if the first closes every brace or nothing follows |
| Links.RenderConcat | src/links.cpp:57-89 | a closed template renders independently of what follows; substituted values are not rescanned |
| Links.RenderUrl | src/links.cpp:74-75 | {url} between two templates yields the product URL |
| Links.RenderUrlEnc | src/links.cpp:76-77 | {url_enc} yields the encoded product URL |
| Links.RenderSubid | src/links.cpp:78-79 | {subid} yields the token |
| Links.RenderCampaign | src/links.cpp:80-81 | {campaign} yields the campaign |
| Links.RenderUnknown | src/links.cpp:66-85 | any other placeholder, and one that is never closed, is left as it stands |
| AffiliateLink.AffiliateLinkRoundTrip | src/links.cpp:91-99 | from the rendered link the partner reads exactly the token and exactly the product URL, for every URL and every base62 token |
| AffiliateLink.FunnelCloses | src/handlers.cpp:480-503 | the token read off the link, sent back in a signed postback, is queued with the order, amount and status sent |
| Redirects.LinkCarriesLoggedToken | src/handlers.cpp:351-394 | the click that is logged and the link that is given out carry the same token, and the link leads to the item's product page |
| Redirects.UnknownItemIsRefused | src/handlers.cpp:355-357 | an id that no item has is not found |
| Redirects.RedirectIsLogged | src/handlers.cpp:366-380 | any other is logged with its id, the new token, the position and surface of the query and the visit's source |
| Redirects.RawFallback | src/handlers.cpp:359-384 | without a partner, or with a disabled one, the location is the product URL |
| Redirects.PartnerTemplate | src/handlers.cpp:382-384 | through an enabled partner the location is its template filled with product URL, token and campaign; for the template {url} that is the product URL |
| Decimal.IntRoundTrip | src/handlers.cpp:51-56 | printing and reading is the identity on 64-bit integers |
| Decimal.ParseIntIff | src/handlers.cpp:51-56 | exactly an optional minus sign and digits, in the 64-bit range, are read |
| Decimal.PlaceValue | src/handlers.cpp:51-56 | digits count by powers of ten |
| Routes.CardLinkRoundTrip | src/handlers.cpp:557-578 | a printed card link is routed back to its item page, id and position, for every prefix without a question mark |
| Routes.OutLinkRoundTrip | src/handlers.cpp:225-227 | a printed outbound link is routed back to the redirect of its id and position |
| Routes.PositionIff | src/handlers.cpp:368-371 | a query has a position exactly when its parameter p is a 64-bit integer, cut to 32 bits |
| Routes.RouteTable | src/handlers.cpp:568-591 | which verb and path reach which handler, with the query |
| Routes.TailRoutes | src/handlers.cpp:570-583 | files go by what follows their directory; an id that is no integer is refused |
| Routes.RouteUnderBase | src/handlers.cpp:556-565 | a path under the prefix, with or without a query, is routed without the prefix |
| Routes.RouteElsewhere | src/handlers.cpp:561-565 | a path that does not start with the prefix is routed as it is, and the prefix alone is the feed |
| Catalog.StableSort | src/catalog.cpp:21-26 | the feed is a permutation in feed order in which items of equal rank keep their order |
| Catalog.FeedOrderIff | src/catalog.cpp:21-26 | feed order: scores fall, and times of publication within a score |
| Catalog.StableSortUnique | src/catalog.cpp:21-26 | that determines the feed |
| Catalog.SortKeepsSelectOrder | src/db.cpp:160-162 | rows in SELECT order are left as they are, if and only if no row published before the epoch stands before an unpublished one of its score |
| Catalog.CollectTags | src/catalog.cpp:38-42 | the tag list is the strictly sorted union of the items' tags |
| Catalog.LessIff | src/catalog.cpp:38-42 | the order of the tag list is decided at the first differing byte, a proper prefix coming first |
| Catalog.Snapshot.constructor | src/catalog.cpp:18-43 | establishes the feed, both first-position indexes and the tag list |
| Catalog.Snapshot.Find | src/catalog.cpp:45-48 | agrees with a first-match linear scan, repeated ids included |
| Catalog.Snapshot.PartnerOf | src/catalog.cpp:50-53 | agrees with a first-match linear scan |
| Catalog.Snapshot.Query | src/catalog.cpp:55-77 | equals filter, then drop the offset, then take the limit |
| Catalog.FilteredSelects | src/catalog.cpp:62-74 | the filtered feed is the passing items at ascending places, none left out |
| Catalog.PagesTile | src/catalog.cpp:55-77 | the pages at 0, n, 2n, ... concatenate to the filtered feed without gap or repeat |
| Catalog.AllPages | src/catalog.cpp:55-77 | enough pages concatenate to the whole filtered feed |
| Loading.Attach | src/db.cpp:191-198 | each item gets exactly its child rows in row order; rows of other parents are skipped |
| Loading.ChildrenSelect | src/db.cpp:191-198 | the values of a parent stand in the order of its rows, none left out |
| Loading.LoadPublishedItems | src/db.cpp:150-227 | every published row, in SELECT order and otherwise as it was, with the images, tags, sizes and colours of exactly its own child rows, in row order |
| Loading.FilterIsJoin | src/db.cpp:214-219 | filtering the snapshot by tag and size, either of them possibly empty, gives exactly the published items the tables join to them |
| Loading.RefreshAndQuery | src/db_worker.cpp:36-43 | loading, building and querying without limit pressure gives exactly those items, each once and in feed order |
| FeedCache.CatalogHandle.Set | src/catalog.hpp:62-69 | replaces the current snapshot wholesale |
| FeedCache.HandlerContext.HandleFeed | src/handlers.cpp:247-306 | cache and reply follow the requests served so far; the reply is the template's rendering of the first 120 items, in feed order, that carry the tag and the size, with the feed's size, its tags and the search text; for the request's own tag and size while no tag contained the separator |
| FeedCache.CacheIsCoherent | src/handlers.hpp:27-33 | after every sequence of requests and swaps each cached page is a fresh render of the cache's own snapshot for the filters it was stored for, and there are at most 64 |
| FeedCache.ReplyIsRendered | src/handlers.cpp:255-271 | every reply is a fresh render of the snapshot current at that request |
| FeedCache.KeysCollideIff | src/handlers.cpp:264 | two filter pairs share a key if and only if they are equal or one tag contains the separator that the other pair inserts |
| FeedCache.FoundIsExplained | src/handlers.cpp:255-271 | what a request finds in the cache, from the requests alone: the keys asked for under its snapshot until 64 are held, each for the filters of the first request with that key |
| FeedCache.ReplyIsFreshIff | src/handlers.cpp:266-271 | a reply is right for its own filters under every template if and only if no earlier request under the same snapshot was the first with its key, among the first 64 keys, and had other filters |
| FeedCache.CacheLawIff | src/handlers.cpp:255-271 | every reply of every sequence of requests and swaps over a vocabulary of filters is right under every template if and only if no two of its filters share a key |
| FeedCache.SharedKeyServesWrongPage | src/handlers.cpp:264-271 | of any two different filter pairs with one key, under any snapshot, the second gets the first one's page |
| FeedCache.EveryReplyIsFresh | src/handlers.cpp:247-306 | while no tag contains the separator every reply is a fresh render for its own filters |
| FeedCache.SeparatorInTagServesWrongPage | src/handlers.cpp:264 | every tag with a separator in it has a filter pair that shares its key and whose page it gets, whatever its size |
| Migrations.Discover | src/migrations.cpp:25-47 | lists exactly the recognised files, ordered by version |
| Migrations.RecognisedIff | src/migrations.cpp:33-42 | exactly the regular files with extension .sql whose name starts with a number from 1 to 2^31 - 1, the whole leading run of digits, are migrations |
| Migrations.InitIsFirst | src/migrations.cpp:23-42 | 001_init.sql is version 1 |
| Migrations.Database.ApplyMigrations | src/migrations.cpp:59-79 | runs each listed script above the current version in one transaction with its version, and stops at the first failure; a missing directory changes nothing |
| Migrations.MigrationsSurviveFailure | src/migrations.cpp:59-79 | after any number of runs that failed anywhere and one that succeeded, the executed scripts come from the directory, are strictly increasing, cover each version above the initial one exactly once, the schema is at the largest version, and another run executes nothing |
| Migrations.EveryScriptRunsIff | src/migrations.cpp:62-76 | after such runs every script above the initial version has been executed if and only if no two of them carry one version |
| Migrations.SecondScriptIsSkipped | src/migrations.cpp:63 | two files of one version: the first runs, the run succeeds, and no later run takes up the second |
| Impressions.Tracker.EnqueueCard | static/app.js:28-39 | reports an item once, and marks it seen even when a full queue drops it |
| Impressions.Tracker.FlushQueue | static/app.js:41-60 | sends and empties the queue unless it is empty |
| Impressions.Tracker.OnIntersection | static/app.js:63-77 | starts a timer for a card without one, or cancels its timer |
| Impressions.Tracker.OnTimeout | static/app.js:68-72 | enqueues the card and forgets its timer |
| Impressions.TabStaysTidy | static/app.js:22-78 | over every sequence of visibility changes, timeouts and flushes: reported items are distinct, every seen item is reported or lost, no card has two pending timers, no batch exceeds 200 |
| Impressions.HappenReports | static/app.js:28-60 | what each happening does to reported, seen and lost items; nothing but a first showing changes them |
| Impressions.SeenIffFired | static/app.js:28-31 | an item is seen if and only if one of its cards has fired |
| Impressions.LostOnlyWhenFull | static/app.js:33 | an item is lost only in its first showing and only with 200 reports waiting |
| Impressions.FirstShowingIsReported | static/app.js:33-38 | with fewer waiting it is reported from then on, with the position and surface of the card |
| Impressions.ReportIsOfShowing | static/app.js:28-38 | every report comes from such a first showing |
| Impressions.NothingLost | static/app.js:33 | a page with at most 200 different items loses none |
| Impressions.FlushSendsAll | static/app.js:41-60 | a flush sends everything that waits |
| Impressions.TimerIffInView | static/app.js:63-77 | a card has a timeout pending if and only if it was shown and neither hidden nor fired since |
| Impressions.HandleBeacon | src/handlers.cpp:510-547 | logs the first 200 entries that name an item; anything but an array is refused |
| Impressions.VisitsSelect | src/handlers.cpp:525-544 | the impressions of a body are those of its entries, in order, none left out |
| Impressions.EntryVisitIff | src/handlers.cpp:527-541 | an entry tells of an impression exactly when it is an object whose item is an integer, with its position and surface where they have the right type |
| Impressions.ServerAcceptsEveryBatch | src/handlers.cpp:520-544 | every entry of every batch a page sends is logged, in order, with its item, position and surface |

## Left out

- Impressions.Tracker.OnTimeout: `unobserve` is not modelled, so a card may be shown again after it fired; the theorems hold for these lives too.
- Sockets, HTTP parsing, coroutines and the accept loop: no semantics of the program's own.
- SQLite itself: a transaction is atomic and a ROLLBACK does not fail; SELECTs return their rows as SQL defines.
- Randomness, hashing and the User-Agent, referrer and cookie helpers: token bytes and classified values are inputs.
- Pipeline.HandlePostback: reading the amount as a floating-point number is an input, because Dafny has no IEEE floats.
- Template rendering: the page cache is proved for every function of the page data.
- Catalog.StableSort: NaN scores are not modelled; scores are real numbers.
- Snapshot refresh against concurrent admin writes: a load reads one fixed state of the tables.
- Worker.DbWorker.Pass: one uninterrupted pass at one reading of the clock; the refresh timer and the sleep are left out, whether maintenance is due is an input, and interleaving with the other thread is stated on the transition system only.
- Postbacks still queued when the process ends: the final flush covers events only, so no conservation is claimed for them; the ledger counts them as lost on restart.
- 64-bit overflow of clock arithmetic: timestamps are unbounded integers.
- File serving, configuration, the admin command line, seeding and statistics printing: plumbing.
