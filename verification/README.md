# A verified model of locaccel

locaccel is a caching HTTP proxy. This project models the part of it that decides what is served, asked and stored, and
proves, over every interleaving of its actors, what its replies have to do with what upstream answered.

- `Http`, `Text`, `CacheControl`, `Freshness`, `Caching`, `Vary`, `Etag`: headers and the decision functions.
- `Client`, `Revalidation`, `ClientCode`: selecting stored responses, conditional requests, 304 handling, refresh and
  insertion, as functions with their laws and as the loops of the program.
- `Database`: the versioned store, as a class and as a machine over any number of callers.
- `Ingestion`, `FileCache`: the tee, publication on close, and quota-driven pruning.
- `Cleanup`: the sweep that makes the database agree with the files, and the removal of a key.
- `System`: the whole proxy as a state machine. Every database transaction, rename, file removal, upstream answer and
  clock tick is one atomic action; a run is any sequence of enabled actions.
- `Provenance`, `Runs`, `Steps`, `Theorems`, `Pool`, `Leftovers`: the invariant of all runs, its preservation by each action,
  and what follows.
- `Proxy`: `Client.Do` as a program whose steps are actions of that machine, with other actors allowed between any two
  of them.
- `Effect`: that the cache has an effect, as a family of runs from any reachable state.
- `Departures`: inputs and runs on which the program departs from RFC 9111.
- `Handlers`: the 304 that a handler makes itself.

`dafny verify dfyconfig.toml` checks the whole project.

What is taken as given: date parsing and formatting, the formatting of Age, and the hash are parameters (`Platform`); the theorems that
need it ask for an injective hash or for formatted dates that parse. Database transactions, rename and remove are
atomic and versions grow. Reads of the database find the key or do not. The environment of `Prune` and of the cleaner is an
arbitrary function of the shared state.

Where the program departs from its documentation or from the RFCs, the model follows the program, and a theorem says
exactly when the law holds:

- `EtagsMatch` slices without a length check, so a missing stored tag or `If-None-Match: *` panics
  (`Etag.PanicsExactlyWhen`, `Handlers.StarPanics`); the panic is an outcome of the model.
- The handlers compare whole `If-None-Match` lines, not the tags listed in them (`Handlers.LinesAreTags`,
  `Handlers.ListedTagIsMissed`).
- A zero max-age or s-maxage counts as absent, an Expires that cannot be read falls back to the heuristic, a private
  cache goes by s-maxage, and seconds times nanoseconds wraps around above 9223372036 s (`Freshness.LifetimeIsRfc`,
  `Freshness.AgeIsRfcAge` and the witnesses in `Departures`).
- Vary names are used as spelled while requests have canonical names (`Vary.MatchingMeansAgreeing`,
  `Departures.LowerCaseVaryIsIgnored`). Vary values are read from the request after validators were added and hop-by-hop
  fields stripped (`Theorems.HitsAgreeOnVary`, `Departures.StrippedFieldIsIgnored`).
- Authorization is looked up in the response (`Caching.CredentialsHonoured`, `Departures.AuthorizedAnswerIsShared`). So
  are Range and Content-Range, but a partial answer is refused by its status.
- The fields that Connection lists are not removed with it (`Departures.ConnectionHonoured`,
  `Departures.ListedFieldIsForwarded`).
- `Prune` dereferences a nil file info when a file vanished before its Stat (`FileCache.VanishedFileCrashes`), and a file
  touched between Stat and Remove is removed (`FileCache.TouchedTooLate`).
- When no temporary file can be created the entry is never returned to the pool (`Pool.EntriesAreAccountedFor`,
  `Effect.EntriesGetLost`).
- `Save` writes under an absent key whatever the version, so the cleaner can bring back a deleted entry
  (`Cleanup.PrunedCommitsWhen`, `Cleanup.DeletedEntryComesBack`).
- `Remove` deletes files that other keys share (`Cleanup.RemovalStaysBacked`, `Effect.RemovalLeavesNoFile`).

## Model

| member | source | states |
|---|---|---|
| `Theorems.CacheTransparency` | internal/httpclient/client.go:206-348 | in every interleaving, each hit, stale hit or revalidated reply has the complete body of an earlier upstream 200 answer for the same key that was not refused storage, and each field but Age is that answer's or the one of the last later 304 that named it |
| `Theorems.HitsAgreeOnVary` | internal/httpclient/client.go:79-93 | a hit or stale hit was stored for a request that, as it went upstream, says the same under every spelling the stored Vary lists, never "*"; if each name is listed in canonical spelling, both clients agree on every field meant, the proxy's own fields excepted; a fresh hit agrees under a name iff the first request went upstream with that field as its client sent it |
| `Theorems.HitsWerePermitted` | internal/httpclient/internal/httpcaching/caching.go:49-106 | a response stored without explicit permission is never a fresh hit until a 304 has confirmed it, in any run |
| `Theorems.HitsWereGood` | internal/httpclient/client.go:135-152 | in every run, a fresh hit has no no-cache in any form, no bare must-revalidate, and a lifetime above its age, over the text of its fields |
| `Theorems.RevalidatedWasChosen` | internal/httpclient/client.go:548-641 | in every run, a revalidated reply is about the response that a 304 for its key chose out of a list from before: the first whose tag matches unless an earlier comparison panics, and only if no tag settles it the first with the same Last-Modified |
| `Theorems.AgeIsTold` | internal/httpclient/client.go:158-160 | every reply from the store carries as Age the whole seconds since its creation instant |
| `Theorems.StoredWasAllowed` | internal/httpclient/internal/httpcaching/caching.go:49-79 | in every reachable state, a stored response comes from a 200 with readable numbers that is not partial, does not say no-store, and in a shared cache neither says private nor carries credentials nothing lets in |
| `Theorems.NoStray304` | internal/httpclient/client.go:236-335 | if upstream answers 304 only to conditional requests, a client that sent no condition never gets a 304 from Do |
| `Theorems.NotModifiedIsOwn` | internal/httpclient/client.go:281-335 | if tags are well formed and every 304 names a tag that was sent, each 304 that Do returns names a tag the client sent |
| `Theorems.NotModifiedRepeatsOwn` | internal/httpclient/client.go:281-335 | if a 304 without a tag repeats the date that was sent, each such 304 that Do returns repeats the client's date |
| `Theorems.AtMostOneMatch` | internal/httpclient/client.go:514-535 | with one "*"-free Vary name set per key, no request matches two stored responses in any reachable state |
| `Theorems.CommittedIngestMatches` | internal/httpclient/client.go:487-546 | after a committed ingestion its request matches exactly the new response and no other |
| `Theorems.StoredHeadersAreClean` | internal/httpclient/client.go:467-482 | in every reachable state a stored response has status 200, a Date that parses, no hop-by-hop field and a creation instant in the past: the branches logged as bugs are dead |
| `Theorems.PoolDiscipline` | internal/httpclient/client.go:216-223 | no pooled entry is in the pool twice, held by two requests, or in the pool while a request or an open ingestion holds it |
| `Pool.EntriesAreAccountedFor` | internal/httpclient/client.go:337-347 | in every run, each entry is in the pool or held by a task iff every answer that was to be stored had a temporary file |
| `Effect.EntryIsLost` | internal/filecache/filecache.go:83-87 | from any reachable state, an answer that is to be stored and gets no temporary file takes its entry out of pool and tasks |
| `Effect.EntriesGetLost` | internal/filecache/filecache.go:83-87 | a concrete run that loses an entry |
| `Leftovers.PooledValuesAreInvisible` | internal/database/database.go:74-103 | whatever values lie in pooled entries, every continuation of every run is still possible and gives the same replies, upstream requests, database and files |
| `Steps.StepKeepsInv` | internal/httpclient/client.go:206-348 | every atomic step of requests, body readers, pruner and cleaner keeps the invariant from which the theorems follow |
| `Steps.RunKeepsInv` | internal/httpclient/client.go:206-348 | the invariant holds after every run |
| `Steps.VerdictJustified` | internal/httpclient/client.go:254-335 | each decision after an upstream answer is taken on its grounds: a stand-in for trouble or a first 429, trouble without a stand-in, a 304 whose search finds that response, finds none, or panics, an explicit refusal, ingestion |
| `Runs.OwnedStep` | internal/httpclient/client.go:337-347 | every step keeps exclusive ownership of pooled entries |
| `Provenance.RefreshLegitimate` | internal/httpclient/client.go:594-641 | a refresh keeps a list of stored responses explained by upstream answers and pairwise distinct |
| `Provenance.InsertLegitimate` | internal/httpclient/client.go:514-535 | inserting an ingested response keeps the list explained and pairwise distinct |
| `Provenance.KeptLegitimate` | internal/httpclient/cache.go:284-306 | dropping any responses of an entry keeps the list explained and pairwise distinct |
| `Effect.StoredThenServed` | internal/httpclient/client.go:206-348 | from any reachable state, a request whose answer may be kept and is read to its end is stored, and after any further steps of anybody that leave the response stored, fresh and with its file, a request with it among its most recent candidates can go on to a hit with the same body and no further question to upstream |
| `Effect.StoredThenServedLater` | internal/httpclient/client.go:206-348 | if the key was not stored and only time passes, every request that matches the stored Vary values while the response is fresh can go on to such a hit |
| `Effect.Serves` | internal/httpclient/client.go:225-233 | a reusable response among the most recent candidates whose file is there is served without asking upstream |
| `Effect.Fills` | internal/httpclient/client.go:487-546 | an answer that may be kept and is read to its end is published under its hash and stored in the list of its key, whatever was stored there |
| `Effect.HitsHappen` | internal/httpclient/client.go:225-233 | a concrete run with a hit: the premises of the theorems about hits can be met |
| `Proxy.Proxy.Do` | internal/httpclient/client.go:206-348 | under interference between any two steps: every step is a step of the state machine; the store answers alone iff one of the most recent matching responses is usable when tried, and it is the first such one, so a candidate usable throughout means no question to upstream; otherwise each round settles on the first non-error answer; the request goes upstream with the validators of what was read; a 304 to them is searched among it: a match is served, or panics iff its file is gone, without a match it is passed through iff the client was conditional and asked again iff not; after an error, a 5xx or a first 429 the first candidate with a file stands in; notifications follow the kind of reply |
| `Proxy.Accounting` | internal/httpclient/client.go:206-348 | at most 2(n+1) upstream attempts, none iff the reply is a hit; at most one notification; "revalidated" iff a 304 matched a stored response whose file is there; a panic iff the tag comparison panics or the file of the match is gone; none iff a panic or an upstream failure is returned; a second round iff a 304 matched nothing and the client was unconditional |
| `Proxy.OthersLeaveAlone` | internal/httpclient/client.go:206-245 | a step of anybody else leaves a request in flight and its entry as they are and lets the clock and the history only grow |
| `Proxy.AllOthersLeaveAlone` | internal/httpclient/client.go:206-245 | so does any sequence of such steps |
| `Proxy.Proxy.Yield` | internal/httpclient/client.go:206-348 | what a request can rely on after any number of steps of others, in any order |
| `Proxy.Proxy.Scan` | internal/httpclient/client.go:135-170 | every response passed over was stale or without file at some moment of the scan; the one returned is reusable and its file is there |
| `Proxy.Proxy.ServeFresh` | internal/httpclient/client.go:172-185 | the first usable one of the most recent candidates is served; nothing is served only if each was unusable when tried |
| `Proxy.Proxy.ServeStale` | internal/httpclient/client.go:254-279 | a stored response stands in for an error, a 5xx or a 429; it is given up only if every most recent candidate was without file |
| `Proxy.Proxy.Ask` | internal/httpclient/client.go:428-442 | upstream caches in order, then the origin: the first answer that is not an error |
| `Proxy.Proxy.Forward` | internal/httpclient/client.go:406-485 | a round relays status, body and validators of the first non-error answer to the outgoing request without hop-by-hop fields; the request object is stripped iff the first round got to the direct attempt |
| `Proxy.Proxy.Condition` | internal/httpclient/client.go:245-250 | validators are added only when an entry was read |
| `Proxy.Proxy.Refresh` | internal/httpclient/client.go:594-616 | exactly that stored response of the entry takes the fields of the 304 and its creation instant |
| `Proxy.Proxy.RefreshAndServe` | internal/httpclient/client.go:594-641 | a matched 304 ends as a 200 served from the store iff the file is there, and as a panic otherwise |
| `Proxy.Proxy.SaveRefreshed` | internal/httpclient/client.go:618-620 | the refreshed list is written iff the key is absent or still has the version read |
| `Http.StripsExactly` | internal/httpclient/client.go:643-670 | exactly the ten hop-by-hop fields go, and the others stay |
| `Departures.ConnectionHonoured` | internal/httpclient/client.go:643-649 | every field that Connection lists goes with it iff each is one of the ten or absent |
| `Departures.ListedFieldIsForwarded` | internal/httpclient/client.go:643-649 | `Connection: X` leaves X in place |
| `Proxy.Proxy.Again` | internal/httpclient/client.go:304-323 | the retry sends the original request without hop-by-hop fields; its answer is relayed, a stored response stands in for trouble, or the trouble is returned if none could |
| `Proxy.Proxy.Handle` | internal/httpclient/client.go:254-347 | the by-case outcome of the first round: what a 304 becomes, when a stored response stands in, and that a second round follows iff a 304 matched nothing and the client was unconditional |
| `Proxy.Proxy.StoreIngested` | internal/httpclient/client.go:497-543 | the response made of the answer is written into the list that was read iff the key is absent or still has the version read; the entry goes back to the pool once |
| `ClientCode.SelectResponseCandidates` | internal/httpclient/client.go:79-93 | the loop collects the Vary-matching responses in order |
| `ClientCode.SelectMostRecentCandidates` | internal/httpclient/client.go:95-120 | the loop keeps the responses with the maximal Date, an unreadable Date counting as the zero time |
| `Client.ServeIsFirstEligible` | internal/httpclient/client.go:122-185 | a response is served iff some position holds a Vary-matching response of maximal Date that is good and whose file opens, and then the first such position is served |
| `Client.ReusableExactly` | internal/httpclient/client.go:135-152 | a response may be served without asking iff the elements read hold no no-cache and no bare must-revalidate and its lifetime exceeds its age |
| `Client.StoredDateExactly` | internal/httpclient/client.go:104-110 | the Date decides if it can be read, and counts as the zero time if not |
| `Departures.NoCacheIsNeverReused` | internal/httpclient/client.go:141 | `no-cache, max-age=60` is never served without asking |
| `ClientCode.AddConditionalRequestInformation` | internal/httpclient/client.go:350-404 | the loops compute the conditional request of the model |
| `ClientCode.LatestDate` | internal/httpclient/client.go:380-393 | the loop finds the latest Last-Modified date |
| `Revalidation.LatestIsMaximal` | internal/httpclient/client.go:380-393 | the date found is the first of the latest dates that parse |
| `Revalidation.SentDate` | internal/httpclient/client.go:375-398 | the If-Modified-Since sent is the client's own if any, else the stored date if there is one, the first of the latest that count if several, and absent iff there is none or none of several counts |
| `Revalidation.HasExactly` | internal/httpclient/client.go:400-404 | the request carries validators of the cache iff there is a stored tag, or a stored date and no date of the client; the client was conditional iff it sent a tag or a date |
| `Revalidation.StoredValuesExactly` | internal/httpclient/client.go:360-364 | the collected values are those of the stored responses |
| `Revalidation.ConditionalTouches` | internal/httpclient/client.go:350-404 | only If-None-Match and If-Modified-Since change, and nothing does without stored validators |
| `Revalidation.SentTags` | internal/httpclient/client.go:357-374 | the tags that go upstream are the stored ones, then the client's |
| `Revalidation.PassedThroughNamesClient` | internal/httpclient/client.go:281-302 | a 304 naming a sent tag that no stored response has names one of the client's tags |
| `Revalidation.PassedThroughRepeatsClient` | internal/httpclient/client.go:281-302 | a 304 without a tag repeating the date sent, which no stored response has, repeats the client's date |
| `Revalidation.ByTag` | internal/httpclient/client.go:555-571 | the first stored response whose tag matches, and no earlier one matches |
| `Revalidation.ByDate` | internal/httpclient/client.go:573-589 | the first stored response with the same Last-Modified, and no earlier one has it |
| `Revalidation.FindValidatedExactly` | internal/httpclient/client.go:548-592 | a 304 is about position i iff i is the first whose tag matches with no earlier panic, or no tag settles it and i is the first with the same Last-Modified; it panics iff a comparison does before any match |
| `ClientCode.FindStored` | internal/httpclient/client.go:548-592 | the search by tag, then by date, including the panic of the comparison |
| `ClientCode.MergeHeaders` | internal/httpclient/client.go:605-609 | the loop over the fields of a 304 is the right-biased merge without Content-Length |
| `Revalidation.MergeAllIsRightBiased` | internal/httpclient/client.go:605-616 | after any sequence of 304s each field is that of the last one naming it, Content-Length never changes and no field disappears |
| `ClientCode.InsertResponse` | internal/httpclient/client.go:514-533 | the loop replaces the first matching response or appends |
| `Revalidation.InsertByIndex` | internal/httpclient/client.go:514-533 | insertion changes exactly the first matching position, or appends when none matches |
| `CacheControl.Parse` | internal/httpclient/internal/httpcaching/cachecontrol.go:40-146 | the nested loops compute: the first occurrence of each directive decides, reading stops at the first bad number |
| `CacheControl.ReadMeans` | internal/httpclient/internal/httpcaching/cachecontrol.go:40-146 | over the text: each of the thirteen fields is set iff, of the trimmed comma-separated elements before the first bad number, the first that says its spelling has the right form |
| `Text.AtoiIsDecimal` | internal/httpclient/internal/httpcaching/cachecontrol.go:57-66 | numbers are read as decimals with an optional sign |
| `Text.TrimMeans` | internal/httpclient/internal/httpcaching/cachecontrol.go:49 | elements lose the white space around them and nothing else |
| `CacheControl.JoiningLines` | internal/httpclient/internal/httpcaching/cachecontrol.go:47-55 | joining field lines with a comma changes neither the directives nor the error |
| `Caching.OnlyOkIsKept` | internal/httpclient/internal/httpcaching/caching.go:50-52 | only a 200 can be stored |
| `Caching.RefusedExactly` | internal/httpclient/internal/httpcaching/caching.go:49-79 | refused iff the status is not 200, a number is bad, Range or Content-Range is there, no-store is said, or in a shared cache private is said or Authorization is there and nothing lets it in |
| `Caching.PermittedExactly` | internal/httpclient/internal/httpcaching/caching.go:81-106 | permitted iff not refused and private, public, a lifetime, Expires, an entity tag or a readable Last-Modified is there |
| `Caching.UnpermittedIsNeverFresh` | internal/httpclient/internal/httpcaching/caching.go:49-106 | neither allowed nor refused means lifetime zero, hence never fresh |
| `Caching.CredentialsHonoured` | internal/httpclient/internal/httpcaching/caching.go:75-79 | the verdict follows section 3.5 of RFC 9111 iff something else decides, the cache is private, or the response is barred iff the request bars it |
| `Departures.AuthorizedAnswerIsShared` | internal/httpclient/internal/httpcaching/caching.go:75-79 | a run of a shared cache in which an answer fetched with credentials is a hit for a client without |
| `Freshness.LifetimeIsRfc` | internal/httpclient/internal/httpcaching/freshness.go:14-60 | the lifetime is the one of section 4.2.1 of RFC 9111 for the elements read iff the deciding field can be read, fits in a duration, is not a zero something else is taken instead of, and is not an s-maxage in a private cache that says otherwise |
| `Departures.ZeroMaxAgeIsIgnored` | internal/httpclient/internal/httpcaching/freshness.go:22-27 | max-age=0 with a Last-Modified 1000 s before Date is reusable 99 s after creation |
| `Departures.HugeMaxAgeIsNegative` | internal/httpclient/internal/httpcaching/cachecontrol.go:66 | max-age=9223372037 gives a negative lifetime |
| `Departures.UnreadableExpiresIsIgnored` | internal/httpclient/internal/httpcaching/freshness.go:29-43 | an Expires of 0 falls back to the heuristic |
| `Departures.PrivateCacheUsesSharedAge` | internal/httpclient/internal/httpcaching/freshness.go:22-24 | a private cache takes s-maxage for its lifetime |
| `Freshness.AgeIsRfcAge` | internal/httpclient/internal/httpcaching/freshness.go:62-108 | time since the stored creation instant is current_age of section 4.2.3 of RFC 9111 iff the time since Date fits in a duration, age plus delay does not exceed one, and a sum too negative for one does not wrap around beyond the time since Date |
| `Freshness.HugeAgeIsForgotten` | internal/httpclient/internal/httpcaching/freshness.go:95 | an Age of 9223372037 s wraps around and counts as zero |
| `Freshness.VerdictBound` | internal/httpclient/internal/httpcaching/freshness.go:100-120 | the truncated verdict is exact for whole-second lifetimes and late by less than a second otherwise |
| `Freshness.StaysStale` | internal/httpclient/internal/httpcaching/freshness.go:110-120 | a stale response stays stale while time passes |
| `Freshness.AgeNotNegative` | internal/httpclient/internal/httpcaching/freshness.go:100-108 | the age of a response created in the past is not negative |
| `Freshness.EstimatedCreation` | internal/httpclient/internal/httpcaching/freshness.go:62-98 | the creation instant is never after the response was received |
| `Freshness.AgeValueExactly` | internal/httpclient/internal/httpcaching/freshness.go:71-83 | a decimal Age is the number it says, an absent one is zero |
| `Vary.MatchesIsKernel` | internal/httpclient/internal/httpcaching/vary.go:37-79 | a request matches what was extracted from another iff "*" is not listed and both say the same under every listed name |
| `Vary.MatchesIsEquivalence` | internal/httpclient/internal/httpcaching/vary.go:37-79 | for "*"-free Vary, matching is reflexive, symmetric and transitive |
| `Vary.MatchesOnlyOwn` | internal/httpclient/internal/httpcaching/vary.go:37-79 | over one set of names a request matches exactly its own extraction |
| `Vary.MatchingMeansAgreeing` | internal/httpclient/internal/httpcaching/vary.go:41-42 | requests with canonical field names that match agree on every field Vary means, for all of them, iff each name is also listed in its canonical spelling or "*" is listed |
| `Vary.AgreeingMeansMatching` | internal/httpclient/internal/httpcaching/vary.go:48-79 | requests that agree on every field Vary means match, whatever the spelling |
| `Departures.LowerCaseVaryIsIgnored` | internal/httpclient/internal/httpcaching/vary.go:41-42 | a run in which `Vary: origin` lets another Origin have the answer |
| `Departures.StrippedFieldIsIgnored` | internal/httpclient/client.go:504 | a run in which `Vary: Te` lets a client without that field have the answer |
| `Vary.GetVaryHeaderNames` | internal/httpclient/internal/httpcaching/vary.go:14-28 | the loops collect the non-empty trimmed names in order |
| `Vary.NamesExactly` | internal/httpclient/internal/httpcaching/vary.go:14-28 | the names are the non-empty trimmed parts of the Vary lines |
| `Vary.AnotherValueIsNoMatch` | internal/httpclient/internal/httpcaching/vary.go:54-76 | another value, or none, under a listed name is no match |
| `Vary.ExtractVaryHeaders` | internal/httpclient/internal/httpcaching/vary.go:37-46 | the loop extracts the normalised value of every name |
| `Etag.ComparisonIsWeak` | internal/httpheaders/etag.go:3-14 | when it answers, the comparison is the weak comparison of section 8.8.3.2 of RFC 9110 iff the first tag is not "W/" before a weak tag |
| `Etag.PanicsExactlyWhen` | internal/httpheaders/etag.go:7-12 | the exact inputs on which the slice expressions are out of range |
| `Etag.WellFormedComparison` | internal/httpheaders/etag.go:3-14 | on well-formed tags it is the weak comparison and never panics |
| `Etag.MissingTagPanics` | internal/httpheaders/etag.go:10 | a strong tag against an absent one, or against "*", panics |
| `Etag.CombinedTags` | internal/httpclient/client.go:368-374 | the list of tags in a combined If-None-Match is the stored tags followed by the client's |
| `Database.Database.Get` | internal/database/database.go:74-103 | a found key fills the entry, a missing one resets only the version |
| `Database.Database.Save` | internal/database/database.go:105-130 | commits iff the key is absent or has the version of the entry |
| `Database.Database.New` | internal/database/database.go:132-134 | never overwrites |
| `Database.Database.Delete` | internal/database/database.go:136-156 | removes iff the version is the one of the entry; an absent key is fine |
| `Database.NoLostUpdate` | internal/database/database.go:74-156 | in every interleaving, a write that replaces or removes a value was made by a caller whose last successful read returned exactly that value under that key |
| `Database.WriteBackOnlyWhenAbsent` | internal/database/database.go:105-134 | New never overwrites, and an outdated entry is written only under an absent key |
| `Database.RunKeepsInv` | internal/database/database.go:74-156 | versions stay unique and a version in a caller's hands keeps naming the value read with it |
| `Ingestion.AllOrNothing` | internal/filecache/filecache.go:97-147 | for every sequence of reads and failures the copy is accepted iff nothing failed, the source was read to its end and is small enough, and then it is the whole source |
| `Theorems.ClosesExactly` | internal/filecache/filecache.go:97-151 | in the state machine, a body is published iff accepted and renamed, stored next iff the file could be closed too, and otherwise the entry goes back to the pool |
| `Ingestion.ReadsKeepIntact` | internal/teereader/teereader.go:23-49 | until something fails the copy is exactly what has been read, and an error is remembered |
| `FileCache.TeeReader.Read` | internal/teereader/teereader.go:23-45 | the client gets the source's bytes and verdict whatever the copy does |
| `FileCache.FileCache.SetupIngestion` | internal/filecache/filecache.go:77-95 | a new temporary file and a reader that has copied nothing, or neither when no file can be created |
| `FileCache.FileCache.Close` | internal/filecache/filecache.go:97-164 | published iff accepted and renamed, under the hash of the whole source; no temporary file is left; onIngest at most once, onCleanup exactly once; it can be called again and then changes nothing |
| `FileCache.FileCache.Open` | internal/filecache/filecache.go:166-175 | opening returns the content and makes the file the most recently used |
| `FileCache.FileCache.Scan` | internal/filecache/filecache.go:279-318 | the total is the sum of the sizes and every file is under its second exactly once |
| `FileCache.FileCache.Consider` | internal/filecache/filecache.go:252-271 | a file is removed iff it is there at its Stat with the second of the scan, whatever happens between Stat and Remove; missing at the Stat, the program crashes |
| `FileCache.TouchedTooLate` | internal/filecache/filecache.go:255-266 | a file touched between Stat and Remove is removed all the same |
| `FileCache.TouchedFileIsRemoved` | internal/filecache/filecache.go:255-266 | such a file and such interference |
| `FileCache.VanishedFileCrashes` | internal/filecache/filecache.go:255-259 | a cache and interference on which Prune crashes |
| `FileCache.FileCache.Prune` | internal/filecache/filecache.go:215-277 | nothing below quotaHigh; undisturbed, a minimal least-recently-used eviction ending at quotaLow or empty with the total equal to what is left; under interference the visits follow one another from the state of the scan, oldest second first, each file once, only while the total is above quotaLow, each acting on what its Stat finds; the total drops by exactly the removed sizes; above quotaLow every file was looked at; a crash iff above quotaLow a file not yet looked at is gone |
| `FileCache.VisitsWereReal` | internal/filecache/filecache.go:250-271 | every visit saw the file as it was at its Stat, and removed it iff its second was still the one of the scan and it was there at the Remove |
| `FileCache.RanDeletesOnly` | internal/filecache/filecache.go:250-271 | a file nobody else removes is there unless a visit removed it, and is removed if a visit found it unchanged |
| `FileCache.SortStamps` | internal/filecache/filecache.go:238-242 | the timestamps in ascending order, none lost |
| `Cleanup.SweepSpares` | internal/httpclient/cache.go:221-306 | whatever others do and whatever the known hashes say, a stored response that keeps its file and that others keep stored is still stored after the sweep |
| `Cleanup.SweepCompletes` | internal/httpclient/cache.go:261-306 | without interference every stored response has its file afterwards, in order, and an entry is deleted iff it lost all its responses |
| `Cleanup.PrunedCommitsWhen` | internal/httpclient/cache.go:284-306 | exactly when the cleaner changes the store: it still holds what was read, or the key is gone and some file is left, and then the entry comes back |
| `Cleanup.DeletedEntryComesBack` | internal/httpclient/cache.go:284-306 | such an entry, with interference that deletes its key before the write |
| `Client.KeptInOrder` | internal/httpclient/cache.go:285-293 | a kept response comes right after the kept ones before it |
| `Cleanup.Cache.PruneDatabaseEntry` | internal/httpclient/cache.go:284-306 | the loop over Stat and the following Save or Delete, with others acting before every call |
| `Cleanup.Cache.RemoveUnusedDatabaseEntries` | internal/httpclient/cache.go:261-282 | the sweep over a snapshot, stopped by the first error or conflict |
| `Cleanup.HasMissing` | internal/httpclient/cache.go:265-273 | whether an entry names a hash that is not known |
| `Cleanup.Cache.CleanupOldEntries` | internal/httpclient/cache.go:221-259 | prune, list, sweep, with others at the files and the database throughout: the files are pruned as Prune does and nothing else is done to them; undisturbed it is a minimal least-recently-used eviction, and the database agrees with the files left |
| `Cleanup.Cache.Remove` | internal/httpclient/cache.go:198-219 | the entry is deleted if unchanged since it was read, then its files one by one, a failure being reported and the rest going on; undisturbed, the other keys stay backed by files iff none shares one |
| `Cleanup.RemovedQuietly` | internal/httpclient/cache.go:198-219 | undisturbed, the key and exactly the files of its entry are gone |
| `Cleanup.RemovalStaysBacked` | internal/httpclient/cache.go:198-219 | removal keeps every other stored response backed by a file iff no other key shares a hash with the removed one |
| `Cleanup.SharedFileIsRemoved` | internal/httpclient/cache.go:208-209 | two keys with one hash, where it does not |
| `Effect.RemovalLeavesNoFile` | internal/httpclient/cache.go:198-219 | from any reachable state, a run in which two keys get the same body and removing one leaves the other without its file |
| `Handlers.MatchesOriginalQuery` | internal/handlers/utils.go:247-259 | the loop over the client's lines, then the date |
| `Handlers.OwnMatchMeans` | internal/handlers/utils.go:247-259 | with a well-formed tag, it matches iff it does not panic and a client line matches weakly or the date is equal; it panics iff the tag is strong and a line shorter than two characters comes before any match |
| `Handlers.ForwardedExactly` | internal/handlers/utils.go:117-121 | a 200 becomes a 304 iff it is the client's own, and every other status stays |
| `Handlers.StarPanics` | internal/handlers/utils.go:250-254 | `If-None-Match: *` with a strong tag panics |
| `Handlers.LinesAreTags` | internal/handlers/utils.go:250-254 | for every well-formed tag, comparing whole lines is comparing the listed tags iff each listed tag stands alone on a line and no open quote swallows a line |
| `Handlers.ClosedLinesSwallowNothing` | internal/handlers/utils.go:250-254 | lines that close their quotes are all listed |
| `Handlers.ListedTagIsMissed` | internal/handlers/utils.go:250-254 | a client that lists two tags on one line and has the second is sent the body again |
| `Handlers.EveryNotModifiedIsOwn` | internal/handlers/utils.go:117-121 | in every run, a 304 that reaches the client, relayed or made by Forward, answers a condition of the client: with a tag it names one of the client's, with only a Last-Modified it repeats the client's date |

## Left out

- Requests other than GET and HEAD, which are forwarded without caching.
- HTTP transport, timeouts, proxy selection, TLS and the draining of discarded bodies: upstream is a sequence of answers.
- Badger, its stream and value-log collection, msgp encoding: a store of atomic transactions with an exact codec.
- Database read errors other than a missing key.
- blake3 and the os calls beyond success or failure; directories, and the two-character split of file names.
- FileCache.FileCache.Scan: the listing is one atomic step; directory and file errors during it are not modelled.
- FileCache.FileCache.Prune: says nothing of bytes added by others after the scan, which the program does not count either.
- Cleanup.Cache.RemoveUnusedDatabaseEntries: does not keep the marks on known hashes, which nothing reads.
- Stat, GetAllHashes and Delete of the file cache as members of their own: they are map lookups here.
- Statistics, listings, NewFileCache, NewCache and the ticker that starts the cleaner.
- Registry handlers, body rewriting, configuration and units, admin pages, middleware, metrics and logging.
