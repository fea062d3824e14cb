# SimpleWebhook storage and broadcast core, in Dafny

SimpleWebhook captures every HTTP request sent to its webhook endpoint and stores it. Open browser pages see the captures live. This project models the layer that does the storing and the fanning out:

- **In-memory buffer** (`lib/fallback-storage.ts`): newest first, capped at 100 records.
- **Redis adapter** (`lib/redis.ts`):
  - a lazily created client with a connect-attempt counter;
  - the reconnect back-off;
  - commands under a deadline;
  - record keys `webhook:<id>` with a seven-day expiry;
  - the `webhooks:timeline` sorted set.
- **Storage router** (`lib/storage.ts`): writes to memory always and to Redis when it can. It reads from Redis when Redis lists anything, and from memory otherwise.
- **Broadcast hub** (`pages/api/webhook-stream.ts`): the set of open Server-Sent-Events streams, their heartbeats, and the fan-out of `webhook` and `webhook-deleted` events.
- **Two request handlers:**
  - the capture endpoint, `pages/api/webhook.ts`;
  - the list endpoint, `pages/api/webhooks.ts`.

Redis is an abstract `Backend`: a map from key to stored value with its TTL, plus the timeline. The timeline is a sequence of `(member, score)` pairs. It is kept in Redis's own order, by score and then lexicographically by member, with distinct members.

Every external outcome is a parameter:

- whether a connect, a GET, a PING or a QUIT succeeds, and how long a command takes (`Redis.Exec`);
- whether a MULTI/EXEC write batch ran on the server, whether its success reply reached the client, and how long it took (`Redis.Batch`);
- whether a write to a stream throws;
- the clock, the random jitter, `uuidv4()` and the request's parsed `limit`.

A stored value is either the serialisation of a record or a foreign text that does not parse (`Records.Stored`).

The frames written on a stream are modelled concretely, so that one property can be proved: an EventSource reading a stream gets back exactly the JSON texts sent, in order. This needs three pieces:

- a JSON value type;
- a `JSON.stringify` that escapes control characters;
- the event-stream parser of section 9.2.6 of the WHATWG HTML Living Standard, restricted to `data:` fields.

Modules follow the source files:

| module | file |
|---|---|
| `FallbackStorage` | `fallback_storage.dfy` |
| `Redis` | `redis.dfy` |
| `SortedSet` | `sorted_set.dfy` |
| `Storage` | `storage.dfy` |
| `WebhookStream` | `webhook_stream.dfy` |
| `Sse` | `sse.dfy` |
| `WebhooksApi` | `webhooks_api.dfy` |
| `WebhookApi` | `webhook_api.dfy` |
| `Records`, `Json`, `Wrappers` | shared types |

Some behaviours of the code that the model keeps as written:

- **Every call tries Redis.** The router consults no cached health state and never calls `checkRedisHealth`.
- **Only Redis deletes.** `deleteWebhookData` removes records from Redis. Neither the router nor the memory buffer has a delete.
- **An empty Redis list means memory.** `getWebhooks` answers from memory whenever the Redis list is empty, whether Redis failed or simply listed nothing. `getAllWebhooks` turns every failure into an empty list.
- **A limit of 0 differs between the tiers.** `getAllWebhooks(0)` asks for `ZRANGE 0 -1`, the whole timeline, while `getFallbackWebhooks(0)` returns nothing. The list handler never passes 0.
- **A limit Redis cannot read means memory.** Redis accepts only a signed 64-bit index. When `limit - 1` lies outside that range, ZRANGE fails, `getAllWebhooks` returns an empty list, and the read is answered from memory.
- **A store reported as failed may have landed.** A batch can run on the server while the client sees an error or a timeout. The record is then in Redis, yet `storeWebhook` reports memory.

## Model

| member | source | states |
|---|---|---|
| FallbackStorage.Store | lib/fallback-storage.ts:7-14 | the new record is at index 0, the buffer never exceeds 100 entries, and the rest is the old buffer with only its tail cut |
| FallbackStorage.StoreAllBounded | lib/fallback-storage.ts:5-13 | after any sequence of stores into a buffer of at most 100 entries, it still holds at most 100 |
| FallbackStorage.StoreAllKeepsMostRecent | lib/fallback-storage.ts:7-14 | a sequence of stores leaves the most recent records, newest first, followed by the old buffer, cut at 100 |
| FallbackStorage.OverflowDropsOldest | lib/fallback-storage.ts:7-14 | after 101 stores into an empty buffer it holds exactly the last 100 records, newest first |
| FallbackStorage.StoreKeepsDuplicates | lib/fallback-storage.ts:8 | there is no de-duplication: below the cap of 100, storing a record already present adds a second copy and keeps every old entry |
| FallbackStorage.List | lib/fallback-storage.ts:16-18 | listing returns the buffer's own first items, as many as `slice(0, limit)` takes |
| FallbackStorage.ListNegative | lib/fallback-storage.ts:16-18 | a negative limit `-k` lists all but the last `k` records, and nothing once `k` reaches the length |
| FallbackStorage.ListPrefix | lib/fallback-storage.ts:16-18 | for a non-negative limit the list is the first `min(limit, length)` records |
| FallbackStorage.ClearEmpties | lib/fallback-storage.ts:20-22 | after clearing, every list is empty and the next store leaves exactly that record |
| SortedSet.Remove | lib/redis.ts:229-231 | ZREM keeps the set well formed and removes exactly the entries of the given members |
| SortedSet.RemoveAgain | lib/redis.ts:229-231 | removing the same members twice equals removing them once |
| SortedSet.Add | lib/redis.ts:115-118 | ZADD keeps the set well formed, makes the member present with the given score, and leaves other members' entries alone |
| SortedSet.AddNewest | lib/redis.ts:115-118 | adding a new member with a score above every score appends it at the end of the order |
| SortedSet.RangeCount | lib/redis.ts:150 | for a stop Redis accepts as a 64-bit index, `ZRANGE 0 stop` selects `stop + 1` entries for a non-negative stop, capped at the length, and counts a negative stop from the end; other stops are rejected in `Redis.GetAllWebhooks` |
| SortedSet.RangeRev | lib/redis.ts:150 | the REV range is the last entries of the set in reverse, so they come highest score first |
| SortedSet.RangeRevTop | lib/redis.ts:150 | every entry the REV range leaves out ranks below every entry it selects |
| Redis.ReconnectDelay | lib/redis.ts:15-21 | the delay is the capped exponential base plus the jitter, so it lies between the base and the base plus 999, and within 1000..30999 |
| Redis.BaseDelayMonotone | lib/redis.ts:18 | the base delay never decreases as retries grow |
| Redis.BaseDelaySchedule | lib/redis.ts:18 | the base is 2^retries seconds below five retries and 30000 ms from five on |
| Redis.GetClient | lib/redis.ts:7-73 | an existing client is returned unchanged; a successful connect resets the counter; a failed one counts an attempt, drops the client exactly when the counter reaches 3, and hands out nothing |
| Redis.OnConnect | lib/redis.ts:36-39 | the `connect` event resets the counter to 0 and leaves the client as it is |
| Redis.CloseConnection | lib/redis.ts:203-212 | a successful QUIT drops the client; a failed one is swallowed and keeps it; the counter is untouched |
| Redis.RunPreservesConnInv | lib/redis.ts:53-72 | over any sequence of acquisitions, connect events and quits, a retained client never carries a counter of 3 or more |
| Redis.ExistingClientReused | lib/redis.ts:8 | once a client exists, any number of acquisitions leave the connection state exactly as it was |
| Redis.ThirdFailureDropsClient | lib/redis.ts:61-70 | with a successful QUIT between failures, the first and second failed connects keep the unconnected client and the third discards it |
| Redis.Guard | lib/redis.ts:76-95 | the caller sees success exactly when the command succeeds before the deadline, and a timeout exactly when it settles at or past the deadline |
| Redis.KeyOfInjective | lib/redis.ts:109 | two ids give the same `webhook:` key exactly when they are equal |
| Redis.KeyOfNotTimeline | lib/redis.ts:109 | no record key equals the `webhooks:timeline` key |
| Redis.ApplyStore | lib/redis.ts:112-121 | the SETEX and ZADD batch stores the serialised record under its key with a seven-day TTL, adds its id to the timeline, and leaves every other key, with its value and TTL, and every other member as it was |
| Redis.ApplyDelete | lib/redis.ts:220-234 | the DEL and ZREM batch removes every given id's key and timeline entry and leaves every other key, with its value and TTL, and every other member as it was |
| Redis.DeleteIdempotent | lib/redis.ts:215-239 | deleting the same ids twice leaves the backend as deleting them once |
| Redis.DeleteWebhookData | lib/redis.ts:215-239 | reports success exactly when a client is at hand and the batch ran and acknowledged in time; a connect failure is reported as such; the delete batch lands whole exactly when a client is at hand and Redis ran it, whatever the caller was told |
| Redis.Expire | lib/redis.ts:114 | an expired record's key disappears while its timeline entry stays |
| Redis.StoreWebhookData | lib/redis.ts:106-126 | reports success exactly when a client is at hand and the batch ran and acknowledged in time; a connect failure is reported as such; the batch lands whole exactly when a client is at hand and Redis ran it, whatever the caller was told |
| Redis.TimedOutStoreLands | lib/redis.ts:76-95 | a store reported as timed out can still have landed in full |
| Redis.LostReplyStoreLands | lib/redis.ts:112-125 | a store whose reply is lost before the deadline is reported as a command failure, yet the record is in Redis |
| Redis.GetWebhookData | lib/redis.ts:128-142 | yields a record exactly when a client is at hand, the GET succeeds in time and the key holds a parseable value; that record is the one stored; otherwise null |
| Redis.StoreThenGet | lib/redis.ts:106-142 | a record stored successfully is read back by a successful get |
| Redis.Keep | lib/redis.ts:169-177 | a reply contributes a record exactly when its value is present and parses, and then the record is that value |
| Redis.CollectFromReplies | lib/redis.ts:166-181 | every collected record is the value of one of the replies |
| Redis.CollectAllParseable | lib/redis.ts:166-181 | when every reply holds a record, none is skipped and their order is kept |
| Redis.Newest | lib/redis.ts:149-151 | the timeline range has `min(limit, size)` entries for `limit >= 1`: the last entries of the timeline, highest score first, and every entry left out ranks below every entry selected |
| Redis.GetAllWebhooks | lib/redis.ts:144-186 | never fails: at most `min(limit, size)` records for `limit >= 1`; nothing when `limit - 1` is no signed 64-bit index; a non-empty answer needs a client, an accepted index and both commands done in time; on such a call the answer is every selected entry's parseable record, highest score first, with only unusable entries skipped |
| Redis.CollectFetchKept | lib/redis.ts:158-181 | reading one GET reply per selected id yields each id's parseable record in range order and skips the rest |
| Redis.ExpiredRecordSkippedAlone | lib/redis.ts:169-177 | an expired record is skipped alone: the other selected records are still listed, in the same order |
| Redis.ListsNewestFirst | lib/redis.ts:144-186 | on a healthy call over a consistent backend with an accepted index, the list is exactly the selected ids' records, in descending timeline order |
| Redis.CheckRedisHealth | lib/redis.ts:189-200 | true exactly when a client is at hand and PING succeeds within 3000 ms; never fails |
| Records.ToJson | pages/api/webhook.ts:10-17 | the record's document has `id`, `method`, `url`, `headers`, `body` only when present, then `timestamp`, and the record reads back from it unchanged |
| Records.Parse | lib/redis.ts:137 | parsing succeeds exactly on serialised records and inverts serialisation |
| Records.ParseSerialise | lib/redis.ts:114 | a serialised record parses back to itself and is never the empty string |
| Storage.StoreWebhook | lib/storage.ts:11-23 | always succeeds; the memory buffer receives the record whatever Redis does; reports Redis exactly when the Redis batch ran and acknowledged in time |
| Storage.ReportedMemoryYetInRedis | lib/storage.ts:16-21 | a store reported as kept in memory can have put the record in Redis as well, when the batch ran but its reply was lost |
| Storage.MemoryWriteUnconditional | lib/storage.ts:13 | the memory buffer after a store is the same for every Redis outcome, with the record first |
| Storage.GetWebhooks | lib/storage.ts:25-47 | always succeeds and changes neither tier; reports Redis exactly when the Redis list is non-empty and returns it; otherwise returns the memory list for the same limit |
| Storage.UnreachableRedisServesMemory | lib/storage.ts:25-47 | with no client and a failing connect, a read returns the memory list tagged memory |
| Storage.TiersAgreeOnLimit | lib/storage.ts:28-41 | for every limit whose `limit - 1` Redis accepts as an index, both tiers take the same number of entries, except at 0, where Redis takes all and memory none |
| Storage.LimitOutOfRangeServesMemory | lib/storage.ts:25-47 | a limit whose `limit - 1` is no 64-bit index is answered from memory, however healthy Redis is |
| Storage.StoresThenListNewestFirst | lib/storage.ts:11-47 | after storing distinct records with rising scores into an empty healthy Redis, a list with a positive limit returns the newest `limit` of them, newest first, from Redis; a limit past the 64-bit index range is answered from memory |
| Sse.DecodeWire | pages/api/webhook-stream.ts:27 | a stream of `data: <payload>\n\n` frames decodes to exactly its payloads, in order, when no payload holds a line break |
| Json.StringifyPrintable | pages/api/webhook-stream.ts:67-70 | JSON text never holds a control character, so never a line break |
| WebhookStream.EventJson | pages/api/webhook-stream.ts:27-90 | each event's document carries its `type` (`connected`, `heartbeat`, `webhook`, `webhook-deleted`) and payload, and the event reads back from it unchanged |
| WebhookStream.ClientReceives | pages/api/webhook-stream.ts:27-94 | an EventSource reading a stream receives one message per event sent, whose data is that event's JSON text |
| WebhookStream.Handle | pages/api/webhook-stream.ts:6-61 | a non-GET gets 405 with `Allow: GET` and the hub is untouched; a GET registers the stream, schedules its heartbeat and writes `connected`, affecting no other stream |
| WebhookStream.OnSignal | pages/api/webhook-stream.ts:30-60 | `close`, `end` and `aborted` each remove the stream; only `close` cancels its heartbeat; nothing is written |
| WebhookStream.RemovalIdempotent | pages/api/webhook-stream.ts:30-44 | removing a stream twice equals removing it once, and no other stream is affected |
| WebhookStream.OnHeartbeat | pages/api/webhook-stream.ts:47-55 | a tick writes a heartbeat; a failing write removes only that stream and cancels its interval; a cancelled interval does nothing |
| WebhookStream.HeartbeatOutlivesEnd | pages/api/webhook-stream.ts:35-60 | after `end` or `aborted` the stream still gets heartbeats; after `close` it gets none |
| WebhookStream.Broadcast | pages/api/webhook-stream.ts:73-82 | the set loses exactly the streams whose write throws; every other registered stream gets the frame once; streams outside the set get nothing |
| WebhookStream.BroadcastWebhook | pages/api/webhook-stream.ts:64-83 | a `webhook` event carrying the record is fanned out with that failure isolation |
| WebhookStream.BroadcastWebhookDeletion | pages/api/webhook-stream.ts:86-99 | a `webhook-deleted` event carrying the ids is fanned out with that failure isolation |
| WebhookStream.DroppedClientMissesLaterEvents | pages/api/webhook-stream.ts:73-82 | a stream dropped by one fan-out gets nothing from the next; a stream that stays gets both events in order |
| WebhookStream.FirstSubscriberSent | pages/api/webhook-stream.ts:6-83 | starting with no streams, a client that subscribes and is offered a capture stays the only stream and has been written `connected`, then the capture |
| WebhookStream.FirstSubscriberReadsConnectedThenCapture | pages/api/webhook-stream.ts:6-83 | that client's EventSource reads exactly two messages: the `connected` greeting, then the capture |
| WebhooksApi.ResolveLimit | pages/api/webhooks.ts:10 | the limit is the parsed number, or 50 when it is NaN or 0; it is never 0 |
| WebhooksApi.ResolvedLimitAgrees | pages/api/webhooks.ts:10-11 | with the resolved limit, whenever Redis accepts it as an index, the Redis tier and the memory tier take the same number of entries |
| WebhooksApi.LimitOutOfRangeListsMemory | pages/api/webhooks.ts:10-18 | a GET whose limit Redis cannot read as an index lists the memory buffer with `usingFallback` set: all of it for a positive limit, nothing for a negative one |
| WebhooksApi.HandleList | pages/api/webhooks.ts:4-28 | a non-GET is refused with 405 and storage untouched; a GET answers 200 with success, the data and tier `getWebhooks` returned for the resolved limit, a count equal to the data's length, `usingFallback` exactly when memory answered, at most the requested number of records, and storage unchanged |
| WebhooksApi.EmptyListingMeansNothingStored | pages/api/webhooks.ts:10-19 | with a positive limit, a listing is empty exactly when Redis listed nothing and the memory buffer is empty |
| WebhookApi.Capture | pages/api/webhook.ts:10-17 | the record keeps the request's method, or `UNKNOWN` when it is absent or empty, and its URL or `''`; id, headers, body and timestamp are kept |
| WebhookApi.Receive | pages/api/webhook.ts:7-41 | any method is accepted: the record is stored through the router, then fanned out; the 200 answer echoes id, timestamp and the tier the store reported; a Redis tier means the record is in Redis |
| WebhookApi.CaptureReachesStream | pages/api/webhook.ts:23 | a stream whose write succeeds reads exactly one more message after the capture, the `webhook` event carrying the record |

## Left out

- **Redis client internals.** `createClient` options, sockets, keepalive and the event emitter are left out. The library's own reconnect loop appears only as the `connect` event (`Redis.OnConnect`) and as the back-off arithmetic. The values `reconnectStrategy` returns are not fed into a timing model.
- **Timing.**
  - Real time, promises and timers are parameters. `executeWithTimeout` is the `Exec` outcome of a call: success and elapsed time. For a write batch it is the `Batch` outcome: whether Redis ran it, whether the reply arrived, and the elapsed time.
  - The heartbeat interval is an explicit tick event, `WebhookStream.OnHeartbeat`. Its 30-second period is not modelled.
  - TTL expiry is the explicit `Redis.Expire` step.
- **Generated values.** `uuidv4()`, `Date.now()`, `toISOString()`, `Math.random()` and `parseInt` are inputs.
- **Serialisation of stored values.** `JSON.stringify` and `JSON.parse` of stored records are the abstract pair `Records.Serialise`/`Records.Parse`. A foreign value stands for anything that does not parse.
- **Numbers on the stream.** `Json.Stringify` writes numbers as `JSON.stringify` does only for integers of magnitude at most 2^53. Fractional numbers are outside the JSON type. Larger integers print with every decimal digit, where JavaScript writes the shortest round-trip digits (`1152921504606847000` for 2^60) and, from 10^21 on, an exponent (`1e+21`). The model does not reproduce this because doubles are not modelled.
- **Lone surrogates.** A Dafny `char` is a Unicode scalar value, so `Json.Str` cannot hold the lone UTF-16 surrogate that `JSON.parse` of `"\ud800"` yields, and the `\ud800` escape `JSON.stringify` writes back for it is not modelled.
- **Headers.** Header values are single strings. Node's array-valued headers, such as `set-cookie`, are not modelled.
- **Exec replies.** Each EXEC reply is modelled as the `[error, value]` pair the code reads. The shape a particular client library version returns is not modelled.
- **Event-stream parser.** The parser covers only what the server sends: `data:` fields, blank-line dispatch, and CR/LF/CRLF line ends. It does not cover `event:`, `id:`, `retry:`, comments or the byte-order mark.
- **Response writing.** HTTP header writing and `res.status(..).json(..)` serialisation are left out, and so is logging.
- **Unguarded writes.** The handler's first `connected` write in `pages/api/webhook-stream.ts` is not wrapped in `try` in the code. It is modelled as succeeding.
- **Handler exceptions.** Exceptions thrown outside the modelled calls, such as a failing `res.json`, are not modelled. So the 500 branches of both handlers never arise.
- **Concurrency.** Interleavings of concurrent requests are not modelled. Each handler runs as one atomic step over the state it is given. `forEach` is modelled over a snapshot; this is equivalent because the only element deleted during the iteration is the current one.
- **Other files.** `components/WebhookCard.tsx`, `pages/index.tsx` and `test-redis.js` are UI and a manual connectivity script. They are not part of this model, and neither are the Next.js `config` exports.
- **Number precision of limits.** A limit is an exact integer in the model. In the code it is a double: `parseInt` rounds integers beyond 2^53, and the number is turned into a decimal string for ZRANGE. The 64-bit index bound is applied to the exact value, so near 2^63 the model and the code can decide differently.
- **Default limits.** The `limit = 50` defaults of `getFallbackWebhooks`, `getAllWebhooks` and `getWebhooks` are not modelled. Every modelled caller passes a limit.
- **Reading documents back.** `Records.RecordOf` and `WebhookStream.EventOf` read records and events back from JSON values, not from JSON text. That `Json.Stringify` is injective is not proved.
- **getWebhookData.** `Redis.GetWebhookData` treats a stored empty string as null, as the truthiness test at line 137 does. A foreign text that is not empty fails to parse, and the model reports it as null too. The code would reach the `catch` and also return null.
