/**
 * The storage router (lib/storage.ts). Every write goes to the in-memory
 * tier first and is then tried against Redis; a read is served by Redis
 * only when Redis returns a non-empty list. There is no cached health
 * decision and no delete at this level.
 */
module Storage {
  import opened Wrappers
  import opened Records
  import FallbackStorage
  import Redis
  import SortedSet

  /** The `storage` field: `'redis'` or `'memory'`. */
  datatype Tier = RedisTier | MemoryTier

  /** The process-wide state both tiers live in. */
  datatype Tiers = Tiers(memory: FallbackStorage.Buffer, conn: Redis.Connection, db: Redis.Backend)

  /** What `storeWebhook` resolves to. */
  datatype StoreResult = StoreResult(success: bool, storage: Tier)

  /** `StorageResult`: what `getWebhooks` resolves to. */
  datatype StorageResult = StorageResult(success: bool, data: seq<WebhookData>, storage: Tier)

  datatype Stepped<T> = Stepped(tiers: Tiers, result: T)

  /**
   * `storeWebhook`. The in-memory insert happens before and regardless of
   * the Redis attempt; the call reports Redis exactly when the Redis store
   * completed, and it always succeeds.
   */
  function StoreWebhook(t: Tiers, data: WebhookData, connectOk: bool, batch: Redis.Batch, now: int): (r: Stepped<StoreResult>)
    ensures r.result.success
    ensures r.tiers.memory == FallbackStorage.Store(t.memory, data)
    ensures r.result.storage == RedisTier <==>
      (t.conn.hasClient || connectOk) && batch.lands && batch.acknowledged && batch.elapsedMs < Redis.CommandTimeoutMs
    ensures r.tiers.conn == Redis.GetClient(t.conn, connectOk).conn
    ensures r.tiers.db == Redis.StoreWebhookData(t.conn, t.db, data, connectOk, batch, now).db
  {
    var memory := FallbackStorage.Store(t.memory, data);
    var w := Redis.StoreWebhookData(t.conn, t.db, data, connectOk, batch, now);
    Stepped(Tiers(memory, w.conn, w.db), StoreResult(true, if w.status == Redis.Done then RedisTier else MemoryTier))
  }

  /** The in-memory write does not depend on anything Redis does. */
  lemma MemoryWriteUnconditional(t: Tiers, data: WebhookData, ok1: bool, b1: Redis.Batch, ok2: bool, b2: Redis.Batch, now: int)
    ensures StoreWebhook(t, data, ok1, b1, now).tiers.memory == StoreWebhook(t, data, ok2, b2, now).tiers.memory
    ensures StoreWebhook(t, data, ok1, b1, now).tiers.memory[0] == data
  {
  }

  /**
   * `getWebhooks`. `getAllWebhooks` never throws, so the `catch` is never
   * taken: a Redis failure shows up as an empty Redis list, and an empty
   * list is answered from memory.
   */
  function GetWebhooks(t: Tiers, limit: int, connectOk: bool, range: Redis.Exec, fetch: Redis.Exec): (r: Stepped<StorageResult>)
    ensures r.result.success
    ensures r.tiers.memory == t.memory && r.tiers.db == t.db
    ensures r.tiers.conn == Redis.GetClient(t.conn, connectOk).conn
    ensures var fromRedis := Redis.GetAllWebhooks(t.conn, t.db, limit, connectOk, range, fetch).value;
      && (r.result.storage == RedisTier <==> |fromRedis| > 0)
      && (r.result.storage == RedisTier ==> r.result.data == fromRedis)
      && (r.result.storage == MemoryTier ==> r.result.data == FallbackStorage.List(t.memory, limit))
  {
    var a := Redis.GetAllWebhooks(t.conn, t.db, limit, connectOk, range, fetch);
    if |a.value| > 0 then Stepped(t.(conn := a.conn), StorageResult(true, a.value, RedisTier))
    else Stepped(t.(conn := a.conn), StorageResult(true, FallbackStorage.List(t.memory, limit), MemoryTier))
  }

  /**
   * A store can be reported as kept in memory only while Redis holds the
   * record too: here the batch ran but its reply was lost.
   */
  lemma ReportedMemoryYetInRedis(t: Tiers, data: WebhookData, elapsedMs: nat, now: int)
    requires t.conn.hasClient && elapsedMs < Redis.CommandTimeoutMs
    ensures var r := StoreWebhook(t, data, false, Redis.Batch(true, false, elapsedMs), now);
      r.result.storage == MemoryTier && r.tiers.memory[0] == data
      && Redis.Lookup(r.tiers.db, Redis.KeyOf(data.id)) == Some(Serialise(data))
  {
  }

  /** With Redis unreachable, reads are the in-memory prefix. */
  lemma UnreachableRedisServesMemory(t: Tiers, limit: int, range: Redis.Exec, fetch: Redis.Exec)
    requires !t.conn.hasClient
    ensures GetWebhooks(t, limit, false, range, fetch).result
      == StorageResult(true, FallbackStorage.List(t.memory, limit), MemoryTier)
  {
  }

  /**
   * Both tiers read the same number of entries for every limit except 0
   * whose `limit - 1` Redis accepts as an index: `slice(0, limit)` and
   * `ZRANGE 0 limit-1` agree on positive and on negative limits, while a
   * limit of 0 lists nothing from memory but the whole timeline from Redis.
   * A limit outside the index range is `LimitOutOfRangeServesMemory`.
   */
  lemma TiersAgreeOnLimit(len: nat, limit: int)
    ensures limit != 0 && SortedSet.IndexInRange(limit - 1) ==>
      SortedSet.RangeCount(len, limit - 1) == FallbackStorage.SliceCount(len, limit)
    ensures limit == 0 ==> SortedSet.RangeCount(len, limit - 1) == len && FallbackStorage.SliceCount(len, limit) == 0
  {
  }

  /**
   * A limit whose `limit - 1` is no 64-bit index makes ZRANGE fail, so the
   * read is answered from memory however healthy Redis is.
   */
  lemma LimitOutOfRangeServesMemory(t: Tiers, limit: int, connectOk: bool, range: Redis.Exec, fetch: Redis.Exec)
    requires !SortedSet.IndexInRange(limit - 1)
    ensures GetWebhooks(t, limit, connectOk, range, fetch).result
      == StorageResult(true, FallbackStorage.List(t.memory, limit), MemoryTier)
  {
  }

  // ---------------------------------------------------------------------
  // Stores followed by a read, with Redis healthy throughout
  // ---------------------------------------------------------------------

  /** A command and a write batch that succeed at once. */
  const Healthy := Redis.Exec(true, 0)
  const HealthyBatch := Redis.Batch(true, true, 0)

  /** Stores `ds` in order, the i-th at time `scores[i]`, with every Redis call succeeding. */
  function StoreAllHealthy(t: Tiers, ds: seq<WebhookData>, scores: seq<int>): Tiers
    requires |scores| == |ds|
    decreases |ds|
  {
    if |ds| == 0 then t
    else
      var n := |ds| - 1;
      StoreWebhook(StoreAllHealthy(t, ds[..n], scores[..n]), ds[n], true, HealthyBatch, scores[n]).tiers
  }

  predicate DistinctIds(ds: seq<WebhookData>) {
    forall i, j :: 0 <= i < j < |ds| ==> ds[i].id != ds[j].id
  }

  predicate Increasing(scores: seq<int>) {
    forall i, j :: 0 <= i < j < |scores| ==> scores[i] < scores[j]
  }

  function Timeline(ds: seq<WebhookData>, scores: seq<int>): (z: seq<SortedSet.Scored>)
    requires |scores| == |ds|
    ensures |z| == |ds|
    ensures forall i :: 0 <= i < |ds| ==> z[i] == SortedSet.Scored(ds[i].id, scores[i])
  {
    seq(|ds|, i requires 0 <= i < |ds| => SortedSet.Scored(ds[i].id, scores[i]))
  }

  /** The backend side of `StoreAllHealthy`: every batch lands. */
  function ApplyStores(db: Redis.Backend, ds: seq<WebhookData>, scores: seq<int>): Redis.Backend
    requires |scores| == |ds|
    decreases |ds|
  {
    if |ds| == 0 then db
    else
      var n := |ds| - 1;
      Redis.ApplyStore(ApplyStores(db, ds[..n], scores[..n]), ds[n], scores[n])
  }

  lemma {:induction false} StoreAllHealthyBackend(t: Tiers, ds: seq<WebhookData>, scores: seq<int>)
    requires |scores| == |ds|
    ensures StoreAllHealthy(t, ds, scores).db == ApplyStores(t.db, ds, scores)
    decreases |ds|
  {
    if |ds| > 0 {
      var n := |ds| - 1;
      StoreAllHealthyBackend(t, ds[..n], scores[..n]);
    }
  }

  lemma TimelineSnoc(ds: seq<WebhookData>, scores: seq<int>)
    requires |scores| == |ds| > 0
    ensures var n := |ds| - 1;
      Timeline(ds, scores) == Timeline(ds[..n], scores[..n]) + [SortedSet.Scored(ds[n].id, scores[n])]
  {
    var n := |ds| - 1;
    var w := Timeline(ds, scores);
    var v := Timeline(ds[..n], scores[..n]) + [SortedSet.Scored(ds[n].id, scores[n])];
    forall i | 0 <= i < |w| ensures w[i] == v[i] {
      if i < n { assert ds[..n][i] == ds[i] && scores[..n][i] == scores[i]; }
    }
  }

  lemma {:induction false} ApplyStoresTimeline(ds: seq<WebhookData>, scores: seq<int>)
    requires |scores| == |ds| && DistinctIds(ds) && Increasing(scores)
    ensures ApplyStores(Redis.Empty, ds, scores).timeline == Timeline(ds, scores)
    decreases |ds|
  {
    if |ds| > 0 {
      var n := |ds| - 1;
      ApplyStoresTimeline(ds[..n], scores[..n]);
      var z := ApplyStores(Redis.Empty, ds[..n], scores[..n]).timeline;
      assert z == Timeline(ds[..n], scores[..n]);
      forall e | e in z ensures e.member != ds[n].id && e.score < scores[n] {
        var j :| 0 <= j < n && z[j] == e;
      }
      assert ds[n].id !in SortedSet.Members(z);
      SortedSet.AddNewest(z, ds[n].id, scores[n]);
      TimelineSnoc(ds, scores);
    }
  }

  lemma {:induction false} ApplyStoresValues(db: Redis.Backend, ds: seq<WebhookData>, scores: seq<int>, i: nat)
    requires |scores| == |ds| && DistinctIds(ds)
    requires i < |ds|
    ensures Redis.Lookup(ApplyStores(db, ds, scores), Redis.KeyOf(ds[i].id)) == Some(Serialise(ds[i]))
    decreases |ds|
  {
    var n := |ds| - 1;
    if i < n {
      ApplyStoresValues(db, ds[..n], scores[..n], i);
      assert ds[..n][i] == ds[i];
      Redis.KeyOfInjective(ds[i].id, ds[n].id);
    }
  }

  /** On the timeline of `ds`, the GET replies of the newest entries hold `ds` from the last record back. */
  lemma HealthyReplies(db: Redis.Backend, ds: seq<WebhookData>, scores: seq<int>, limit: int)
    requires |scores| == |ds| && 1 <= limit
    requires db.timeline == Timeline(ds, scores)
    requires forall i :: 0 <= i < |ds| ==> Redis.Lookup(db, Redis.KeyOf(ds[i].id)) == Some(Serialise(ds[i]))
    ensures var reps := Redis.Fetch(db, SortedSet.MemberNames(Redis.Newest(db, limit)));
      && |reps| == Min(limit, |ds|)
      && forall i :: 0 <= i < |reps| ==> reps[i].value == Some(Serialise(ds[|ds| - 1 - i]))
  {
    var top := Redis.Newest(db, limit);
    var reps := Redis.Fetch(db, SortedSet.MemberNames(top));
    forall i | 0 <= i < |reps|
      ensures reps[i].value == Some(Serialise(ds[|ds| - 1 - i]))
    {
      assert top[i] == db.timeline[|ds| - 1 - i];
    }
  }

  lemma HealthyListing(conn: Redis.Connection, db: Redis.Backend, ds: seq<WebhookData>, scores: seq<int>, limit: int)
    requires |scores| == |ds| && 0 < |ds|
    requires 1 <= limit && SortedSet.IndexInRange(limit - 1)
    requires db.timeline == Timeline(ds, scores)
    requires forall i :: 0 <= i < |ds| ==> Redis.Lookup(db, Redis.KeyOf(ds[i].id)) == Some(Serialise(ds[i]))
    ensures var r := Redis.GetAllWebhooks(conn, db, limit, true, Healthy, Healthy).value;
      |r| == Min(limit, |ds|) && forall i :: 0 <= i < |r| ==> r[i] == ds[|ds| - 1 - i]
  {
    var top := Redis.Newest(db, limit);
    var reps := Redis.Fetch(db, SortedSet.MemberNames(top));
    HealthyReplies(db, ds, scores, limit);
    Redis.CollectAllParseable(reps);
    Redis.CollectFetchKept(db, top);
  }

  /** A list holding the last `m` records of `ds`, last first, is a prefix of the reversal. */
  lemma NewestFirstIsReversedPrefix(r: seq<WebhookData>, ds: seq<WebhookData>)
    requires |r| <= |ds|
    requires forall i :: 0 <= i < |r| ==> r[i] == ds[|ds| - 1 - i]
    ensures r == FallbackStorage.Reverse(ds)[..|r|]
  {
  }

  /**
   * After storing distinct records at increasing times with Redis healthy,
   * a read with a positive limit returns the newest `limit` of them from
   * Redis, newest first; a limit too large for a ZRANGE index is answered
   * from memory instead.
   */
  lemma StoresThenListNewestFirst(t: Tiers, ds: seq<WebhookData>, scores: seq<int>, limit: int)
    requires t.db == Redis.Empty
    requires |scores| == |ds| && DistinctIds(ds) && Increasing(scores)
    requires 0 < |ds| && 1 <= limit
    ensures var s := StoreAllHealthy(t, ds, scores);
      var r := GetWebhooks(s, limit, true, Healthy, Healthy).result;
      && (SortedSet.IndexInRange(limit - 1) ==>
            r.storage == RedisTier && r.data == FallbackStorage.Reverse(ds)[..Min(limit, |ds|)])
      && (!SortedSet.IndexInRange(limit - 1) ==>
            r.storage == MemoryTier && r.data == FallbackStorage.List(s.memory, limit))
  {
    var s := StoreAllHealthy(t, ds, scores);
    if SortedSet.IndexInRange(limit - 1) {
      StoreAllHealthyBackend(t, ds, scores);
      ApplyStoresTimeline(ds, scores);
      forall i | 0 <= i < |ds|
        ensures Redis.Lookup(s.db, Redis.KeyOf(ds[i].id)) == Some(Serialise(ds[i]))
      {
        ApplyStoresValues(t.db, ds, scores, i);
      }
      HealthyListing(s.conn, s.db, ds, scores, limit);
      NewestFirstIsReversedPrefix(Redis.GetAllWebhooks(s.conn, s.db, limit, true, Healthy, Healthy).value, ds);
    }
  }
}
