# Verified model of Butter's stateful cores

Butter is a gateway in front of language-model providers. This project models the parts of it
that keep state or parse untrusted bytes, and proves what they are for.

- **App keys and their write-behind mirror.** `AppKey`, `AppKeyStore` are the in-memory store
  and the bucket; `Persistence` is the same protocol as a step machine in which lifecycle calls,
  the timer flush and the write lock interleave. `Durability` gives the exact condition under
  which a key can come back, `NonOverlap` the guarantee for calls that do not overlap on a key,
  `CloseAndLoad` what a restart restores, `TornSnapshot` what a snapshot shows while counters move,
  `StoreRuns` what any sequence of calls, flushes and restarts amounts to.
- **Stream detection.** `JsonText` is the grammar of RFC 8259 as derivation trees with all
  whitespace kept; `StreamDetect` is the index-walking scanner. `StreamReading` is what encoding/json
  reads from the same text, and where the two agree.
- **Response cache.** `Recency` is a plain recency list with expiry; `LinkedList` and
  `MemoryCache` are the ring of heap cells and the map that implement it. `CacheKey` and
  `CachedDispatch` are the key derivation and the lookup and store inside a dispatch; `CachedRun`
  puts one cache behind any sequence of dispatches.
- **Rate limiter.** `TokenBucket` and `RateLimit`.
- **Dispatch.** `Failover` is the provider and retry loop of all four dispatchers, `SelectKey`
  the weighted key choice, `Routing` the routes, scopes and backoff around them.
- **Streams.** `Sse` is the line reader and the relay, `SseEvents` the event reader,
  `AnthropicStream` the translation of messages and events, `UsageSink` the token counter.
- **Configuration.** `Watcher` is the stat-then-load poll.

Where the source updates an object in place the model is a class with the same fields, and each
method is tied to a function on values; what the source promises is proved about those functions
over whole runs.

## Assumptions

- float64 is `real`, clocks do not run backwards, and a modification time is an integer that
  grows with every write of the file.
- Disk writes succeed and a bucket transaction is atomic. A bucket entry is a decoded snapshot.
- An instant is its UnixNano; 0 means unset, as in internal/appkey/store.go:66-68.
- JSON decoding, hashing and random draws are parameters; so is the canonical text of a field. The hash is injective, the values of a
  decoded body have canonical text without a NUL byte, and a cacheable body decodes as an object.
  Provider names hold no NUL.
- New keys drawn by Vend and Rotate are unused. Rotate reads the clock once: the source reads it again
  inside Vend (internal/appkey/store.go:166 and 274), so there the new key can expire slightly later.
- In `StreamDetect` a char carries a byte. In `StreamReading`, and in `Sse` and its clients, a char is
  a code point; the scanner treats the bytes of one outside ASCII alike.
- encoding/json decodes a member into the `stream` field when its decoded key matches up to simple
  case folding; null leaves the field alone and any other value that is not a boolean is an error.
- Plugin hooks are arbitrary functions (`post` in `CachedDispatch.Dispatch`), or leave the chunk
  alone (the relay); `Sse.ReparsedExactlyWhen` covers hooks that rewrite chunks.

## Where the code and its documentation differ

The model follows the code.

- `UsageRecord.Snapshot` says it gives a consistent point-in-time view. It loads the total before
  the stream and non-stream counters, so their sum can exceed it (`TornSnapshot.PartsCanExceedTotal`);
  `PartsExceedTotalExactlyWhen` says by how much, from any record, and `QuietSnapshotIsExact` that with
  no request in flight the snapshot is the record as it stands. The sum over models never exceeds the total.
- `isStreamRequest` says duplicate keys resolve as in encoding/json. It compares raw key bytes and
  takes null for false, so the two differ on an escaped or capitalised name
  (`StreamReading.OtherSpellingsDiffer`) and on a null behind a true (`NullBehindDiffers`).
  `ScanReadsExactlyWhen` gives the exact condition for agreeing; plainly spelled booleans always do.
- `DispatchEmbeddings` and `DispatchAnthropicNative` go on to the next provider when failover is
  off, unlike the chat dispatchers, and the native loop backs off by one power more. `Failover.Kind`
  carries both differences.
- `PersistKey` is handed a snapshot taken before the lock, so a lifecycle call that overlaps a
  Delete of the same key can undo it (`NonOverlap.OverlapUndoesDelete`).
- With a negative `MaxRetries` a dispatch can return neither a response nor an error
  (`Failover.NeitherExactlyWhen`).
- A file written between the initial load and the watcher's Start is not picked up while it stays as
  written (`Watcher.WriteBeforeStartIsLost`). `Watcher.CheckedExactlyWhen` says that over any run this is
  the only way to lose an update.

## Model

| member | source | states |
|---|---|---|
| `NonOverlap.DeleteIsDurable` | internal/appkey/persist.go:171-209 | once Delete(k) has returned, in any run in which calls on one key do not overlap and flush interleaves freely, k is never on disk again unless it is created anew; what follows the return may even overlap |
| `NonOverlap.RevokeIsDurable` | internal/appkey/persist.go:149-209 | once Revoke(k) has returned, any later entry for k on disk is revoked, over the same runs |
| `NonOverlap.OverlapUndoesDelete` | internal/appkey/persist.go:149-164 | a run with an overlapping lifecycle call in which a deleted key comes back to disk |
| `NonOverlap.OrderlyStep` | internal/appkey/store.go:214-352 | every step of every non-overlapping run keeps memory, disk, pending snapshots and the flush consistent |
| `NonOverlap.OrderlyRun` | internal/appkey/persist.go:149-209 | that consistency holds in every reachable state |
| `Durability.SafeExactlyWhenUnexposed` | internal/appkey/persist.go:149-209 | from any state, with any overlap: k stays off disk (or stays revoked there) in all futures if and only if no record, pending call or flush snapshot threatens it |
| `Durability.ExposureComesTrue` | internal/appkey/persist.go:188-209 | a threat can always be played out to a run that writes the entry |
| `Persistence.InvStep` | internal/appkey/persist.go:149-209 | every step keeps the lock discipline and the shape of calls and flush |
| `Persistence.SafeRun` | internal/appkey/persist.go:149-209 | an unthreatened key stays safe along every run that does not create it |
| `CloseAndLoad.CloseThenLoad` | internal/appkey/persist.go:81-144 | after any non-overlapping run ended by the closing flush, loading the bucket into an empty store gives exactly the records memory held |
| `CloseAndLoad.LoadOverConfig` | internal/appkey/store.go:427-488 | loaded over keys provisioned from config, each record comes back with only the config's label |
| `CloseAndLoad.FlushRun` | internal/appkey/persist.go:188-209 | a flush that runs alone to its end leaves each key's current snapshot on disk |
| `AppKey.SnapshotRoundTrip` | internal/appkey/store.go:427-531 | restoring a snapshot gives back the whole record |
| `AppKey.MergeRoundTrip` | internal/appkey/store.go:427-531 | restoring over a provisioned record changes everything but its label |
| `AppKeyStore.UsageRecord.Snapshot` | internal/appkey/store.go:491-531 | the copying loop yields the snapshot of the record's value |
| `AppKeyStore.UsageRecord.Count` | internal/appkey/store.go:372-394 | one request moves the total, one of the two parts, the access time and the model's counters, and nothing else |
| `AppKeyStore.UsageRecord.Absorb` | internal/appkey/store.go:427-458 | merging a snapshot into a record in place |
| `AppKeyStore.Store.Provision` | internal/appkey/store.go:136-147 | adds an unknown key, leaves a known one |
| `AppKeyStore.Store.Vend` | internal/appkey/store.go:161-195 | a new record in memory and its snapshot on disk |
| `AppKeyStore.Store.Update` | internal/appkey/store.go:214-320 | Revoke, SetExpiry and UpdateScopes change one record, then its disk entry, and fail on an unknown key |
| `AppKeyStore.Store.Rotate` | internal/appkey/store.go:263-295 | the old key revoked and the new one vended, both on disk |
| `AppKeyStore.Store.Delete` | internal/appkey/store.go:335-352 | the key leaves memory and disk |
| `AppKeyStore.Store.RecordRequest` | internal/appkey/store.go:372-394 | counts into a known key, ignores others |
| `AppKeyStore.Store.Restore` | internal/appkey/store.go:427-488 | merges into a known record, creates an unknown one |
| `AppKeyStore.Store.List` | internal/appkey/store.go:355-368 | a snapshot of every record |
| `AppKeyStore.Store.Flush` | internal/appkey/persist.go:188-209 | upserts every record's snapshot, deletes nothing |
| `AppKeyStore.Store.LoadAll` | internal/appkey/persist.go:81-97 | the store becomes what restoring each entry makes of it |
| `AppKeyStore.CloseAndReopen` | internal/appkey/persist.go:81-144 | flushing one store and loading a fresh one gives the same contents, when the bucket holds no foreign key, and none is left |
| `StoreRuns.Live` | internal/appkey/store.go:136-394 | any sequence of calls, flushes and restarts on a fresh store ends listing exactly what the calls alone amount to |
| `StoreRuns.Do` | internal/appkey/store.go:136-394 | every call keeps the bucket free of keys the store does not have, and up to date on labels, times and scopes |
| `StoreRuns.ListTellsRequests` | internal/appkey/store.go:355-394 | what List shows of a key after any run, restarts included, is the number of requests made with it since it came into being, how many streamed and how many not, the time of the last, and per named model the number of requests and the sums of their positive token counts |
| `StoreRuns.CountedTells` | internal/appkey/store.go:372-394 | one more request counts once, in the part, the model and the tokens it belongs to |
| `StoreRuns.LastExpiryShows` | internal/appkey/store.go:231-252 | over any run the expiry last set is the one List shows |
| `StoreRuns.LastScopesShow` | internal/appkey/store.go:300-320 | so are the scopes last set |
| `StoreRuns.FirstRevocationShows` | internal/appkey/store.go:214-226 | the first revocation is the one List shows, whatever comes after |
| `StoreRuns.VendedShows` | internal/appkey/store.go:161-195 | a vended key shows its label, scopes and, for a positive lifetime, its end |
| `StoreRuns.ProvisionedShows` | internal/appkey/store.go:136-147 | a provisioned key shows its label, and no end or scopes until some are set |
| `StoreRuns.RotatedShows` | internal/appkey/store.go:254-295 | a rotated key shows the old one's scopes and label, and ends exactly when the old one would have if that was to come |
| `StoreRuns.RotatedIsRevoked` | internal/appkey/store.go:286-290 | the old key shows as revoked |
| `StoreRuns.CrashAndReopen` | internal/appkey/persist.go:68-74 | without a closing flush, every key on disk comes back with the label, times and scopes that lifecycle calls left it |
| `StoreRuns.CountersAddUp` | internal/appkey/store.go:372-394 | over every run each record's parts make up its total and its models come to no more |
| `StoreRuns.CountedKeepsTally` | internal/appkey/store.go:372-394 | one request keeps both |
| `AppKeyStore.FlushedLoads` | internal/appkey/persist.go:81-209 | entries overwritten by the snapshots of memory load as memory, when no entry is foreign to it |
| `TornSnapshot.ModelsNeverExceedTotal` | internal/appkey/store.go:372-510 | however a snapshot's loads interleave with any number of writers, its per-model requests sum to at most its total, for any record that starts so, whatever its other counters |
| `TornSnapshot.BoundSurvivesRestarts` | internal/appkey/store.go:427-510 | the bound holds through any number of restarts, each from a snapshot that may be torn |
| `TornSnapshot.PartsExceedTotalExactlyWhen` | internal/appkey/store.go:372-510 | from any record at rest, a snapshot's parts exceed its total by what the record's did plus the additions between the loads less the requests open at the first; so they stay within it exactly when that is not positive |
| `TornSnapshot.SettledStep` | internal/appkey/store.go:372-394 | every step of every interleaving keeps the parts less the total, counting requests that still owe a part |
| `TornSnapshot.QuietSnapshotIsExact` | internal/appkey/store.go:490-531 | with no request in flight a snapshot is the record as it stands, and restoring it gives the record back |
| `TornSnapshot.PartsCanExceedTotal` | internal/appkey/store.go:490-510 | a run in which the parts exceed the total |
| `StreamDetect.StreamDetection` | internal/transport/stream_detect.go:13-130 | on every JSON text, with any whitespace, nesting and escapes, the scan is true exactly when the last top-level member with raw key `stream` is the literal true |
| `StreamDetect.IsStreamRequest` | internal/transport/stream_detect.go:13-58 | on arbitrary bytes the index loops stay in range, end, and compute the scan |
| `StreamDetect.SkipsValue` | internal/transport/stream_detect.go:91-130 | skipping stops exactly behind any JSON value |
| `StreamDetect.SkipJSONValue` | internal/transport/stream_detect.go:91-130 | the value skipper on indices, in range on arbitrary bytes |
| `StreamDetect.ScanJSONString` | internal/transport/stream_detect.go:74-87 | the string scanner on indices, -1 when unterminated |
| `StreamDetect.SkipJSONSpace` | internal/transport/stream_detect.go:60-70 | the space skipper on indices |
| `StreamDetect.TruePrefix` | internal/transport/stream_detect.go:49-51 | among JSON values only the literal true starts with its four letters |
| `StreamDetect.FlagIsLast` | internal/transport/stream_detect.go:13-58 | duplicate keys resolve to the last |
| `StreamReading.ScanReadsExactlyWhen` | internal/transport/stream_detect.go:7-58 | for every object text the scan is what encoding/json reads if and only if only booleans are decoded into the field and the last member that sets it is spelled plainly with no plain null behind a true, or has the value of the last plainly spelled one |
| `StreamReading.PlainRequestsAgree` | internal/transport/stream_detect.go:7-58 | they agree on every object whose stream members are plainly spelled booleans, duplicates included |
| `StreamReading.OtherSpellingIsMissed` | internal/transport/stream_detect.go:36-51 | every other spelling of the name, alone and true, is missed by the scan and read by encoding/json |
| `StreamReading.OnlyPlainIsSeen` | internal/transport/stream_detect.go:36-51 | a sole member whose raw key is not `stream` never makes a stream request, whatever it decodes to |
| `StreamReading.OtherSpellingsDiffer` | internal/transport/stream_detect.go:36-51 | both readings of a name with an escaped letter and of a capitalised name |
| `StreamReading.NullBehindDiffers` | internal/transport/stream_detect.go:49-51 | both readings of a true followed by a null, plainly spelled |
| `StreamReading.ReadIsLast` | internal/transport/stream_detect.go:11-12 | decoding members in turn gives the last one that sets the field, or an error exactly when one is of another type |
| `Recency.RecentlyUsedIsReturned` | internal/cache/memory.go:36-81 | over every run, a live key since whose last use fewer than max other keys were used is returned with its last value |
| `Recency.NeverStale` | internal/cache/memory.go:36-53 | no Get returns a superseded or expired value |
| `Recency.ExactlyLeastRecentlyUsed` | internal/cache/memory.go:58-95 | when nothing expires a key is held exactly while fewer than max others were used since |
| `Recency.ReachableShape` | internal/cache/memory.go:58-101 | keys stay distinct and never more than max |
| `MemoryCache.Client` | internal/cache/memory.go:26-101 | every answer of every run on the map and linked list equals the recency list's |
| `MemoryCache.Memory.Get` | internal/cache/memory.go:36-53 | a lookup on the heap structure is a lookup in the list it stands for, expiry and reordering included |
| `MemoryCache.Memory.Set` | internal/cache/memory.go:58-81 | an insert, refresh and eviction likewise |
| `MemoryCache.Memory.RemoveOldest` | internal/cache/memory.go:90-95 | drops the last entry from list and map |
| `MemoryCache.Memory.RemoveElement` | internal/cache/memory.go:97-101 | drops one entry from list and map, keeping them in bijection |
| `MemoryCache.Memory.Len` | internal/cache/memory.go:84-88 | the number of entries held |
| `CacheKey.SameKeyExactlyWhen` | internal/cache/key.go:14-43 | two cacheable requests share a key if and only if the provider and the canonical values of max_tokens, messages, model, stop, temperature and top_p agree |
| `CacheKey.KeyFields` | internal/cache/key.go:22-40 | those six are the fields the key is made of, and no others |
| `CacheKey.RawKeyExactlyWhen` | internal/cache/key.go:16-19 | bodies that do not decode share a key exactly when provider and bytes agree |
| `CacheKey.FrameInjective` | internal/cache/key.go:27-40 | the NUL-framed field text determines the fields |
| `CacheKey.DeriveKey` | internal/cache/key.go:14-43 | the loop hashes the framed text, or the raw body when it does not decode |
| `CachedDispatch.HitProvenance` | internal/proxy/engine.go:106-178 | over every interleaving of lookups and answers, a hit for a provider is the unexpired body of that provider's latest status-200 answer to a cacheable request with the same key fields |
| `CachedDispatch.StoredAnswerIsHit` | internal/proxy/engine.go:106-178 | conversely, the latest stored answer, if its body is not nil, is a hit until it expires while fewer than max other keys were used since |
| `CachedRun.HitsAreEarned` | internal/proxy/engine.go:106-197 | over any sequence of dispatches, a body served from the cache is the hooked, status-200 result of the last upstream call of an earlier dispatch to that very provider, with the same six key fields, not expired and with no store under that key between; neither request streams or has a temperature other than zero (internal/cache/key.go:47-63) |
| `CachedRun.Serve` | internal/proxy/engine.go:106-197 | one real cache behind any sequence of dispatches gives those results |
| `CachedDispatch.Dispatch` | internal/proxy/engine.go:106-197 | one dispatch does to the cache exactly its lookup under the first provider and, on an answer, its offer under the answering one |
| `CachedDispatch.Ask` | internal/proxy/engine.go:126-197 | the failover loop, the post-hooks and the store, as one step of a dispatch that missed |
| `CachedDispatch.LookUp` | internal/proxy/engine.go:107-124 | a hit needs a cacheable request and an entry whose body is not nil |
| `CachedDispatch.Offer` | internal/proxy/engine.go:174-178 | only a status-200 answer to a cacheable request is stored |
| `CachedDispatch.AnsweringProviderIsLast` | internal/proxy/engine.go:129-180 | the answer stored is the last call's, by the last provider called |
| `TokenBucket.AdmitsExactly` | internal/plugin/builtin/ratelimit/ratelimit.go:43-66 | a request is admitted if and only if for every earlier request time, and now, those admitted since plus one fit rpm + rpm * elapsed / minute |
| `TokenBucket.AdmittedWithinEveryWindow` | internal/plugin/builtin/ratelimit/ratelimit.go:53-66 | an admitted request fits every window that ends now, wherever it starts |
| `TokenBucket.NoWindowExceeded` | internal/plugin/builtin/ratelimit/ratelimit.go:43-66 | no window of any run ever holds more than its allowance |
| `TokenBucket.Bucket.TryTake` | internal/plugin/builtin/ratelimit/ratelimit.go:53-66 | refill, cap and take in place |
| `RateLimit.SweepsAreUnobservable` | internal/plugin/builtin/ratelimit/ratelimit.go:164-225 | sweeps inserted anywhere in any run change no decision |
| `RateLimit.EachKeyIsLimitedByItself` | internal/plugin/builtin/ratelimit/ratelimit.go:132-192 | a decision depends only on the times of requests with the same bucket key |
| `RateLimit.NoKeyExceedsItsAllowance` | internal/plugin/builtin/ratelimit/ratelimit.go:43-225 | in any run, sweeps included, no window of any bucket key admits more than that key's allowance |
| `RateLimit.AppKeyIsHeldToItsLimit` | internal/plugin/builtin/ratelimit/ratelimit.go:164-204 | in any run no window admits more requests with an app key than its own limit, else the common app-key rate, else the general rate allows |
| `RateLimit.AddressIsHeldToTheRate` | internal/plugin/builtin/ratelimit/ratelimit.go:164-192 | nor more without one from one address, or in all when addresses are not told apart, than the general rate |
| `RateLimit.SharesBucketExactlyWhen` | internal/plugin/builtin/ratelimit/ratelimit.go:164-192 | two requests share a bucket exactly when both carry the same app key, or neither is keyed and the addresses agree where they count |
| `RateLimit.SweepKeepsTenMinutes` | internal/plugin/builtin/ratelimit/ratelimit.go:207-225 | a sweep keeps exactly the buckets used within ten minutes |
| `RateLimit.IdleIsFresh` | internal/plugin/builtin/ratelimit/ratelimit.go:207-225 | a bucket idle over ten minutes acts as a fresh one |
| `RateLimit.PrecreatedIsFresh` | internal/plugin/builtin/ratelimit/ratelimit.go:78-104 | the global bucket made by Init acts as one made on first use |
| `RateLimit.KeyFixesRate` | internal/plugin/builtin/ratelimit/ratelimit.go:164-204 | the bucket key determines the rate its bucket is made with |
| `RateLimit.Drive` | internal/plugin/builtin/ratelimit/ratelimit.go:132-225 | a limiter object driven through any run of requests and sweeps makes exactly the decisions the run theorems are about |
| `RateLimit.Plugin.GetBucket` | internal/plugin/builtin/ratelimit/ratelimit.go:164-192 | finds or creates the bucket a request belongs to |
| `RateLimit.Plugin.Admit` | internal/plugin/builtin/ratelimit/ratelimit.go:132-154 | the decision and the new state of the limiter |
| `RateLimit.Plugin.Cleanup` | internal/plugin/builtin/ratelimit/ratelimit.go:207-225 | the sweep removes exactly the idle keyed buckets |
| `Failover.FailoverRefinement` | internal/proxy/engine.go:126-197 | a call log and reply are the dispatcher's if and only if the log runs through the registered providers in order, each called again while it fails with a status in the retry list and fewer than MaxRetries+1 times (once with failover off), up to the first success, and the reply is that success or the last error |
| `Failover.NeitherExactlyWhen` | internal/proxy/engine.go:128-197 | neither response nor error comes back exactly when every routed provider is registered and either there is no provider or no attempt is allowed |
| `Failover.PlayLogsRight` | internal/proxy/engine.go:230-283 | the log has that shape |
| `Failover.PlayRepliesRight` | internal/proxy/engine.go:230-283 | the reply fits the log |
| `Failover.Dispatch` | internal/proxy/engine.go:126-197 | the nested loops, for any outcomes, make those calls and pauses and return that reply |
| `Failover.TryProvider` | internal/proxy/engine.go:136-193 | the attempts and pauses at one provider |
| `SelectKey.ReturnedInProportion` | internal/proxy/engine.go:331-366 | with a choice to make, over all draws each key string is returned exactly as often as the configured keys with that string that may serve the model weigh |
| `SelectKey.ChosenByInterval` | internal/proxy/engine.go:355-363 | the key returned is the eligible one whose interval of weights holds the draw |
| `SelectKey.OnlyKey` | internal/proxy/engine.go:351-353 | the only key that serves the model is returned whatever the draw |
| `SelectKey.WithoutKey` | internal/proxy/engine.go:348-356 | nothing is returned exactly when no key serves the model, and the draw fails exactly when there is a choice without weight |
| `SelectKey.ExactlyProportional` | internal/proxy/engine.go:355-363 | the loop stops at each eligible index for exactly its weight's number of draws |
| `SelectKey.PickIsInterval` | internal/proxy/engine.go:355-363 | subtraction chooses a key exactly when the draw falls in its interval |
| `SelectKey.FallbackUnreachable` | internal/proxy/engine.go:357-365 | the fallback is never reached, for weights of any sign |
| `SelectKey.ChosenKeyServesModel` | internal/proxy/engine.go:331-366 | a chosen key's allowlist does not exclude the model |
| `SelectKey.SelectKey` | internal/proxy/engine.go:331-366 | the loops compute that choice |
| `Routing.ScopeConfinement` | internal/proxy/engine.go:648-675 | in all four dispatchers, over all retries: every provider called is on the key's provider list if it has one, the calls are a prefix of the usable listed routed providers in routed order, and none is made when the key's model list leaves the model out |
| `Routing.ForbiddenExactlyWhen` | internal/proxy/engine.go:648-675 | a routed request is refused exactly when the key's lists leave out its model or every routed provider |
| `Routing.EnforcedOnLists` | internal/appkey/store.go:24-48 | the filter keeps exactly the listed providers in order, or all without a list, and refuses exactly then |
| `Routing.ResolveProviders` | internal/proxy/engine.go:632-643 | an explicit provider wins over the model's route and a route over the default; there is none exactly when all three are missing |
| `Routing.BoundedDelay` | internal/proxy/engine.go:379-395 | total backoff is at most providers times retries times the maximum |
| `Routing.PauseBeforeRetry` | internal/proxy/engine.go:378-395 | the pause before each retry is the initial delay times the multiplier once per earlier retry, once more in the native dispatcher, capped |
| `Routing.Handle` | internal/proxy/engine.go:75-197 | routing, scopes and failover in turn |
| `Routing.EnforceScopes` | internal/proxy/engine.go:648-675 | the filter loop keeps the permitted providers in order, or refuses |
| `Routing.ComputePow` | internal/proxy/engine.go:389-395 | the loop computes the power |
| `Routing.DelayGrows` | internal/proxy/engine.go:378-386 | backoff never shrinks from one retry to the next when the multiplier is at least one |
| `Routing.ComputeDelay` | internal/proxy/engine.go:379-386 | the capped exponential delay |
| `Sse.RelayRoundTrip` | internal/provider/openaicompat/openaicompat.go:230-264 | re-parsing the relay's output gives the upstream's chunks and then the end, for every upstream text and every way it ends |
| `Sse.ReparsedExactlyWhen` | internal/transport/server.go:351-380 | any chunks come back from the printed stream if and only if each is trimmed, on one line, holds a colon and is not the done marker |
| `Sse.Relay` | internal/transport/server.go:351-380 | the loop prints every chunk, and the done marker only at a clean end |
| `Sse.Stream.Next` | internal/provider/openaicompat/openaicompat.go:230-264 | the next line with a colon, trimmed; a done marker or the end of input ends the stream |
| `Sse.DeliveredAreRelayable` | internal/provider/openaicompat/openaicompat.go:241-262 | every chunk delivered survives the relay |
| `Sse.LastNewlineIsOptional` | internal/provider/openaicompat/openaicompat.go:232-239 | at a clean end a last line counts with or without its newline |
| `Sse.BrokenLineIsDropped` | internal/provider/openaicompat/openaicompat.go:233-239 | when the connection breaks, the unfinished line is dropped and all before it delivered |
| `Sse.PrintedSplit` | internal/transport/server.go:378-378 | each chunk is printed with a blank line behind it |
| `Sse.PrintedEnds` | internal/transport/server.go:354-364 | the done marker is printed at a clean end and nothing at a broken one |
| `SseEvents.EventRoundTrip` | internal/provider/anthropic/anthropic.go:244-276 | printed events are read back in order if and only if every field is not empty, on one line and without space at its end |
| `SseEvents.ReadsPrinted` | internal/provider/bedrock/bedrock.go:190-190 | printed events are read back whatever text follows and however it ends |
| `SseEvents.LastEventUnfinished` | internal/provider/anthropic/anthropic.go:252-274 | behind any printed events, a last event without its newlines is read at a clean end, one without data is not, and one broken off is dropped |
| `SseEvents.ReadEvent` | internal/provider/anthropic/anthropic.go:244-276 | the loop finds the first event of the rest, and what follows it |
| `AnthropicStream.StreamingAgrees` | internal/provider/anthropic/translate.go:195-399 | for every message, every cut of its text blocks into deltas and any noise between, the chunks' id, model, text and finish reason are those of the whole translated message, and the stream ends cleanly |
| `AnthropicStream.PrintedStreamAgrees` | internal/provider/anthropic/anthropic.go:216-276 | the same from the printed bytes, with any text and any end behind them |
| `AnthropicStream.NoiseIsUnheard` | internal/provider/anthropic/translate.go:282-346 | pings, unknown events and deltas that are not text change nothing anywhere in a stream |
| `AnthropicStream.TranslateResponse` | internal/provider/anthropic/translate.go:195-231 | the builder loop joins the text blocks in order and carries id, model and token counts over; only a decoding error fails |
| `AnthropicStream.BlockInPlace` | internal/provider/anthropic/translate.go:201-207 | a block anywhere in a message adds its text, in its place, exactly when it is of type text |
| `AnthropicStream.MapStopReason` | internal/provider/anthropic/translate.go:234-250 | which reasons become stop and length; others pass, empty becomes none |
| `AnthropicStream.StreamState.TranslateStreamEvent` | internal/provider/anthropic/translate.go:282-297 | the outcome of each event and the id and model it leaves |
| `AnthropicStream.StreamState.HandleMessageStart` | internal/provider/anthropic/translate.go:299-331 | records id and model and emits the role chunk |
| `AnthropicStream.StreamState.HandleContentBlockDelta` | internal/provider/anthropic/translate.go:333-366 | emits text deltas, skips others |
| `AnthropicStream.StreamState.HandleMessageDelta` | internal/provider/anthropic/translate.go:368-399 | emits the finish chunk |
| `AnthropicStream.Stream.Next` | internal/provider/anthropic/anthropic.go:216-240 | each call delivers the next chunk of the translation of the remaining text, or how it ends |
| `AnthropicStream.Stream.Drain` | internal/provider/anthropic/anthropic.go:216-240 | calling to the end delivers the whole translation |
| `UsageSink.WriteAll` | internal/appkey/usage.go:117-153 | however a stream is cut into writes, buffer and totals are one fold over the complete lines of the whole |
| `UsageSink.Sink.Write` | internal/appkey/usage.go:117-153 | a write extends what has been absorbed by exactly its bytes |
| `UsageSink.Sink.Totals` | internal/appkey/usage.go:158-160 | the totals are the last positive counts that any complete line reported |
| `UsageSink.FoldIsLatest` | internal/appkey/usage.go:135-150 | folding lines forwards gives the last positive count, searched backwards |
| `UsageSink.PayloadTotals` | internal/appkey/usage.go:117-150 | a stream of data lines totals the last positive counts of its payloads: under the message in a start event, at the top in a delta |
| `UsageSink.DataLineReports` | internal/appkey/usage.go:126-150 | what a data line reports, with either line end, from its decoded payload |
| `UsageSink.OtherLineReportsNothing` | internal/appkey/usage.go:127-129 | any other line reports nothing |
| `UsageSink.LinesAppend` | internal/appkey/usage.go:118-126 | more bytes add exactly the lines that the leftover completes |
| `UsageSink.LinesExactlyWhen` | internal/appkey/usage.go:119-126 | lines and leftover are the one way to read a text as complete lines and an unfinished one |
| `Watcher.NoLostUpdate` | internal/config/watcher.go:36-83 | for any interleaving of writes and removals with stats and loads, after a check with no concurrent write the configuration in use is the file's content, or that content does not load |
| `Watcher.CheckedExactlyWhen` | internal/config/watcher.go:36-83 | over any run from any start, after a check with no concurrent write loadable content is in use if and only if the file is not the one Start saw, or that one was in use already |
| `Watcher.CheckTakesNewer` | internal/config/watcher.go:65-83 | with any modification times, one check brings loadable content in exactly when it looks newer or is in use already |
| `Watcher.Drive` | internal/config/watcher.go:36-83 | the watcher object, its stats and loads called at the steps of any run, ends with that run's configuration in use |
| `Watcher.WriteBeforeStartIsLost` | internal/config/watcher.go:36-41 | a write before Start is never delivered, in any run of checks, for as long as the file stays as written |
| `Watcher.RunInv` | internal/config/watcher.go:65-83 | in every reachable state a file no newer than the recorded time is in use, or is still the one Start saw and nothing has changed since |
| `Watcher.Watcher.Check` | internal/config/watcher.go:65-83 | one check, with the file as it is at the stat and as it is at the load |
| `Watcher.Watcher.Look` | internal/config/watcher.go:66-73 | the stat half of a check: the time to load for, if the file can be read and looks newer |
| `Watcher.Watcher.Reload` | internal/config/watcher.go:74-82 | the load half: what loads is delivered and the stat's time recorded, and nothing changes otherwise |
| `Watcher.Watcher.Start` | internal/config/watcher.go:36-41 | records the file's time if it can be read |

## Left out

- HTTP clients, provider wrappers, the Bedrock SDK, Redis, bbolt's own code, WASM plugins, metrics and tracing: foreign code or plumbing.
- The native passthrough route and header relaying: forwarding only.
- Parsing with encoding/json, SHA-256, random keys and address parsing: parameters or assumptions above.
- The recursive key sort behind the canonical field text: folded into the canonical-text parameter.
- The status string of a snapshot and IsActive: derived from expiry, revocation and the clock; easy members.
- Corrupt bucket entries, which loading skips: a bucket holds decoded snapshots.
- Creation times and JSON encoding of translated responses and chunks, and the data prefix that Next puts before an encoded chunk.
- The OpenAI usage sink, request translation to Anthropic, config defaults, plugin ordering, logging: easy members.
- Scheduling fairness, float64 rounding, Duration and int64 overflow.
- A dispatch without a cache configured: it is the failover loop alone.
- Byte sequences that are not UTF-8, in the trimmed stream lines and in what encoding/json decodes; its nesting limit; errors from other fields of the request.
