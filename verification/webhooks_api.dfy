/**
 * The list endpoint of pages/api/webhooks.ts: a GET reads the stored
 * captures through the storage router and reports which tier answered.
 */
module WebhooksApi {
  import opened Wrappers
  import opened Records
  import FallbackStorage
  import SortedSet
  import Redis
  import Storage

  /** The limit used when the `limit` query parameter is absent, not a number, or zero. */
  const QueryDefaultLimit: int := 50

  /**
   * `parseInt(req.query.limit) || 50`. `parsed` is what `parseInt` yields,
   * `None` for NaN; NaN and 0 are both falsy.
   */
  function ResolveLimit(parsed: Option<int>): (limit: int)
    ensures limit != 0
    ensures parsed.Some? && parsed.value != 0 ==> limit == parsed.value
    ensures parsed.None? || parsed == Some(0) ==> limit == QueryDefaultLimit
  {
    if parsed.None? || parsed.value == 0 then QueryDefaultLimit else parsed.value
  }

  /**
   * Because the handler never passes 0 on, the Redis tier and the memory
   * tier read the same number of entries from a list of `len` entries,
   * whenever Redis accepts `limit - 1` as an index.
   */
  lemma ResolvedLimitAgrees(parsed: Option<int>, len: nat)
    ensures SortedSet.IndexInRange(ResolveLimit(parsed) - 1) ==>
      SortedSet.RangeCount(len, ResolveLimit(parsed) - 1) == FallbackStorage.SliceCount(len, ResolveLimit(parsed))
  {
    Storage.TiersAgreeOnLimit(len, ResolveLimit(parsed));
  }

  /** The JSON body of the answer: a 405 refusal or the 200 listing. */
  datatype Response =
    | MethodNotAllowed
    | Listed(success: bool, data: seq<WebhookData>, count: int, storage: Storage.Tier, usingFallback: bool)

  function StatusCode(r: Response): (code: nat)
    ensures code == 405 <==> r.MethodNotAllowed?
    ensures code == 200 <==> r.Listed?
  {
    if r.MethodNotAllowed? then 405 else 200
  }

  /**
   * The handler. Anything but GET is refused without touching storage. A
   * GET always answers 200: `getWebhooks` cannot throw, so the 500 branch
   * is never reached. `count` is the length of `data`, and
   * `usingFallback` says the memory tier answered.
   */
  function HandleList(t: Storage.Tiers, httpMethod: Option<string>, parsed: Option<int>,
                      connectOk: bool, range: Redis.Exec, fetch: Redis.Exec): (r: Storage.Stepped<Response>)
    ensures StatusCode(r.result) == 405 <==> httpMethod != Some("GET")
    ensures httpMethod != Some("GET") ==> r.tiers == t && r.result == MethodNotAllowed
    ensures httpMethod == Some("GET") ==>
      && r.result.Listed?
      && r.result.success
      && r.result.storage == Storage.GetWebhooks(t, ResolveLimit(parsed), connectOk, range, fetch).result.storage
      && r.result.count == |r.result.data|
      && (r.result.usingFallback <==> r.result.storage == Storage.MemoryTier)
      && r.tiers.memory == t.memory && r.tiers.db == t.db
      && r.tiers.conn == Redis.GetClient(t.conn, connectOk).conn
      && r.result.data == Storage.GetWebhooks(t, ResolveLimit(parsed), connectOk, range, fetch).result.data
    ensures httpMethod == Some("GET") && parsed.Some? && parsed.value > 0 ==> r.result.count <= parsed.value
    ensures httpMethod == Some("GET") && r.result.storage == Storage.MemoryTier ==>
      r.result.data == FallbackStorage.List(t.memory, ResolveLimit(parsed))
  {
    if httpMethod != Some("GET") then Storage.Stepped(t, MethodNotAllowed)
    else
      var g := Storage.GetWebhooks(t, ResolveLimit(parsed), connectOk, range, fetch);
      Storage.Stepped(g.tiers, Listed(g.result.success, g.result.data, |g.result.data|, g.result.storage,
                                      g.result.storage == Storage.MemoryTier))
  }

  /**
   * With a positive limit a GET lists nothing only when Redis listed
   * nothing and the memory buffer is empty: captures held in memory are
   * always visible.
   */
  lemma EmptyListingMeansNothingStored(t: Storage.Tiers, parsed: Option<int>,
                                       connectOk: bool, range: Redis.Exec, fetch: Redis.Exec)
    requires ResolveLimit(parsed) > 0
    ensures var r := HandleList(t, Some("GET"), parsed, connectOk, range, fetch).result;
      r.count == 0 <==>
        |t.memory| == 0 && |Redis.GetAllWebhooks(t.conn, t.db, ResolveLimit(parsed), connectOk, range, fetch).value| == 0
  {
  }

  /**
   * A `limit` too large or too small for a ZRANGE index makes the Redis read
   * fail, so a GET lists the memory buffer: all of it for a positive limit,
   * nothing for a negative one.
   */
  lemma LimitOutOfRangeListsMemory(t: Storage.Tiers, parsed: Option<int>,
                                   connectOk: bool, range: Redis.Exec, fetch: Redis.Exec)
    requires !SortedSet.IndexInRange(ResolveLimit(parsed) - 1)
    ensures var r := HandleList(t, Some("GET"), parsed, connectOk, range, fetch).result;
      && r.Listed? && r.storage == Storage.MemoryTier && r.usingFallback
      && r.data == FallbackStorage.List(t.memory, ResolveLimit(parsed))
      && (|t.memory| <= FallbackStorage.MaxWebhooks && ResolveLimit(parsed) > 0 ==> r.data == t.memory)
      && (|t.memory| <= FallbackStorage.MaxWebhooks && ResolveLimit(parsed) < 0 ==> r.data == [])
  {
    Storage.LimitOutOfRangeServesMemory(t, ResolveLimit(parsed), connectOk, range, fetch);
  }
}
