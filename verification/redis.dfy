/**
 * The Redis adapter (lib/redis.ts). Redis itself is an abstract `Backend`:
 * string keys holding serialised records, and the `webhooks:timeline`
 * sorted set. The single lazily created client is the `Connection` state;
 * whether a connect, a command batch or a ping succeeds, and how long it
 * takes, are oracle parameters.
 */
module Redis {
  import opened Wrappers
  import opened Records
  import SortedSet

  const MaxConnectionAttempts: nat := 3
  /** SETEX expiry of a record: seven days. */
  const RecordTtlSeconds: nat := 86400 * 7
  const CommandTimeoutMs: nat := 5000
  const HealthCheckTimeoutMs: nat := 3000
  const MaxBaseDelayMs: nat := 30000
  const KeyPrefix: string := "webhook:"
  const TimelineKey: string := "webhooks:timeline"

  // ---------------------------------------------------------------------
  // Reconnect back-off
  // ---------------------------------------------------------------------

  function Pow2(n: nat): (p: nat)
    ensures p >= 1
  {
    if n == 0 then 1 else 2 * Pow2(n - 1)
  }

  lemma {:induction false} Pow2Monotone(a: nat, b: nat)
    requires a <= b
    ensures Pow2(a) <= Pow2(b)
    decreases b
  {
    if a < b {
      Pow2Monotone(a, b - 1);
    }
  }

  /** `Math.min(Math.pow(2, retries) * 1000, 30000)`. */
  function BaseDelay(retries: nat): nat {
    Min(Pow2(retries) * 1000, MaxBaseDelayMs)
  }

  /**
   * The value `reconnectStrategy` returns: the capped exponential delay plus
   * `jitter`, which stands for `Math.floor(Math.random() * 1000)`.
   */
  function ReconnectDelay(retries: nat, jitter: nat): (d: nat)
    requires jitter < 1000
    ensures BaseDelay(retries) <= d <= BaseDelay(retries) + 999
    ensures 1000 <= d <= MaxBaseDelayMs + 999
  {
    BaseDelay(retries) + jitter
  }

  /** The base delay never shrinks as retries accumulate. */
  lemma BaseDelayMonotone(a: nat, b: nat)
    requires a <= b
    ensures BaseDelay(a) <= BaseDelay(b)
  {
    Pow2Monotone(a, b);
  }

  /** The base delay doubles from one second up to 16 seconds, then stays at 30 seconds from the fifth retry on. */
  lemma BaseDelaySchedule(retries: nat)
    ensures retries < 5 ==> BaseDelay(retries) == Pow2(retries) * 1000
    ensures retries >= 5 ==> BaseDelay(retries) == MaxBaseDelayMs
  {
    if retries < 5 {
      Pow2Monotone(retries, 4);
      assert Pow2(4) == 16;
    } else {
      Pow2Monotone(5, retries);
      assert Pow2(5) == 32;
    }
  }

  // ---------------------------------------------------------------------
  // The client and its connect-attempt counter
  // ---------------------------------------------------------------------

  /** `hasClient` is `redis !== null`; `attempts` is `connectionAttempts`. */
  datatype Connection = Connection(hasClient: bool, attempts: nat)

  const Initial := Connection(false, 0)

  /** The state after `getRedisClient`, and whether it handed out a client. */
  datatype Acquired = Acquired(conn: Connection, ready: bool)

  /**
   * `getRedisClient`. An existing client is returned as it is. Otherwise a
   * client is created and connected: success fires the `connect` event,
   * which resets the counter; failure counts an attempt, drops the client
   * once `MaxConnectionAttempts` is reached, and rethrows.
   */
  function GetClient(c: Connection, connectOk: bool): (a: Acquired)
    ensures a.ready <==> c.hasClient || connectOk
    ensures c.hasClient ==> a.conn == c
    ensures !c.hasClient && connectOk ==> a.conn == Connection(true, 0)
    ensures !c.hasClient && !connectOk ==>
      a.conn.attempts == c.attempts + 1 && (a.conn.hasClient <==> a.conn.attempts < MaxConnectionAttempts)
  {
    if c.hasClient then Acquired(c, true)
    else if connectOk then Acquired(Connection(true, 0), true)
    else
      var n := c.attempts + 1;
      Acquired(Connection(n < MaxConnectionAttempts, n), false)
  }

  /** The `connect` event of the client library's own reconnect loop. */
  function OnConnect(c: Connection): (r: Connection)
    ensures r.hasClient == c.hasClient && r.attempts == 0
  {
    c.(attempts := 0)
  }

  /**
   * `closeRedisConnection`: a successful QUIT drops the client; a failing
   * one is swallowed and keeps it. The counter is left alone.
   */
  function CloseConnection(c: Connection, quitOk: bool): (r: Connection)
    ensures r.attempts == c.attempts
    ensures r.hasClient <==> c.hasClient && !quitOk
  {
    if c.hasClient && quitOk then c.(hasClient := false) else c
  }

  /** Everything that moves the connection state. */
  datatype ConnEvent = Acquire(connectOk: bool) | Connect | Quit(quitOk: bool)

  function Step(c: Connection, e: ConnEvent): Connection {
    match e
    case Acquire(ok) => GetClient(c, ok).conn
    case Connect => OnConnect(c)
    case Quit(ok) => CloseConnection(c, ok)
  }

  function Run(c: Connection, es: seq<ConnEvent>): Connection
    decreases |es|
  {
    if |es| == 0 then c else Run(Step(c, es[0]), es[1..])
  }

  /** A client that is kept around never carries an exhausted counter. */
  predicate ConnInv(c: Connection) {
    c.hasClient ==> c.attempts < MaxConnectionAttempts
  }

  lemma {:induction false} RunPreservesConnInv(c: Connection, es: seq<ConnEvent>)
    requires ConnInv(c)
    ensures ConnInv(Run(c, es))
    decreases |es|
  {
    if |es| > 0 {
      RunPreservesConnInv(Step(c, es[0]), es[1..]);
    }
  }

  predicate AllAcquires(es: seq<ConnEvent>) {
    forall i :: 0 <= i < |es| ==> es[i].Acquire?
  }

  /**
   * Once a client exists, `getRedisClient` hands it out without connecting
   * again, whatever a connect would have done, and the counter stays put.
   */
  lemma {:induction false} ExistingClientReused(c: Connection, es: seq<ConnEvent>)
    requires c.hasClient
    requires AllAcquires(es)
    ensures Run(c, es) == c
    decreases |es|
  {
    if |es| > 0 {
      assert GetClient(c, es[0].connectOk).conn == c;
      ExistingClientReused(c, es[1..]);
    }
  }

  /**
   * The client is dropped on the third failed connect only: with a
   * successful QUIT between failures, the first two failures keep the
   * unconnected client and the third discards it.
   */
  lemma ThirdFailureDropsClient()
    ensures Run(Initial, [Acquire(false)]) == Connection(true, 1)
    ensures Run(Initial, [Acquire(false), Quit(true), Acquire(false)]) == Connection(true, 2)
    ensures Run(Initial, [Acquire(false), Quit(true), Acquire(false), Quit(true), Acquire(false)]) == Connection(false, 3)
  {
    var es := [Acquire(false), Quit(true), Acquire(false), Quit(true), Acquire(false)];
    assert Run(Initial, es) == Run(Connection(true, 1), es[1..]);
    assert es[1..][1..] == es[2..];
    assert Run(Initial, es[..3]) == Run(Connection(true, 1), es[..3][1..]);
    assert es[..3][1..][1..] == es[2..3];
  }

  // ---------------------------------------------------------------------
  // Commands under a deadline
  // ---------------------------------------------------------------------

  /** What a backend call does: whether it succeeds, and when it settles. */
  datatype Exec = Exec(succeeds: bool, elapsedMs: nat)

  datatype Failure = ConnectFailed | CommandFailed | TimedOut

  datatype Status = Done | Failed(reason: Failure)

  /**
   * What the caller of `executeWithTimeout` sees: the call's own outcome
   * when it settles before the deadline, a timeout otherwise. The call is
   * not cancelled, so its effect on the backend does not depend on this.
   */
  function Guard(e: Exec, timeoutMs: nat): (s: Status)
    ensures s == Done <==> e.succeeds && e.elapsedMs < timeoutMs
    ensures s == Failed(TimedOut) <==> e.elapsedMs >= timeoutMs
    ensures s != Failed(ConnectFailed)
  {
    if e.elapsedMs >= timeoutMs then Failed(TimedOut)
    else if e.succeeds then Done
    else Failed(CommandFailed)
  }

  /**
   * What a MULTI/EXEC write batch does. `lands` says whether Redis ran it
   * (it runs whole or not at all); `acknowledged` says whether its success
   * reply reached the client. The two differ when the connection drops
   * after EXEC was sent: the batch has run, yet `exec()` rejects.
   */
  datatype Batch = Batch(lands: bool, acknowledged: bool, elapsedMs: nat)

  /** The call as the client sees it: a success only when the batch ran and said so. */
  function Observed(b: Batch): (e: Exec)
    ensures e.succeeds ==> b.lands
  {
    Exec(b.lands && b.acknowledged, b.elapsedMs)
  }

  // ---------------------------------------------------------------------
  // The backend
  // ---------------------------------------------------------------------

  /** A string key's value and the expiry it was written with. */
  datatype Item = Item(value: Stored, ttlSeconds: nat)

  datatype Backend = Backend(values: map<string, Item>, timeline: SortedSet.ZSet)

  const Empty := Backend(map[], [])

  function KeyOf(id: string): string {
    KeyPrefix + id
  }

  /** Distinct ids never share a key. */
  lemma KeyOfInjective(a: string, b: string)
    ensures KeyOf(a) == KeyOf(b) <==> a == b
  {
    assert a == KeyOf(a)[|KeyPrefix|..];
    assert b == KeyOf(b)[|KeyPrefix|..];
  }

  /** No record key is the timeline key, so the two never overwrite each other. */
  lemma KeyOfNotTimeline(id: string)
    ensures KeyOf(id) != TimelineKey
  {
    assert KeyOf(id)[7] == ':';
    assert TimelineKey[7] == 's';
  }

  function Lookup(db: Backend, key: string): Option<Stored> {
    if key in db.values then Some(db.values[key].value) else None
  }

  /** The MULTI batch of `storeWebhookData`: SETEX of the record, ZADD of its id. */
  function ApplyStore(db: Backend, data: WebhookData, now: int): (r: Backend)
    ensures Lookup(r, KeyOf(data.id)) == Some(Serialise(data))
    ensures r.values[KeyOf(data.id)].ttlSeconds == RecordTtlSeconds
    ensures forall k :: k != KeyOf(data.id) ==> (k in r.values <==> k in db.values)
    ensures forall k :: k != KeyOf(data.id) && k in db.values ==> r.values[k] == db.values[k]
    ensures SortedSet.Members(r.timeline) == SortedSet.Members(db.timeline) + {data.id}
    ensures SortedSet.Scored(data.id, now) in r.timeline
    ensures forall e: SortedSet.Scored :: e.member != data.id ==> (e in r.timeline <==> e in db.timeline)
  {
    Backend(
      db.values[KeyOf(data.id) := Item(Serialise(data), RecordTtlSeconds)],
      SortedSet.Add(db.timeline, data.id, now))
  }

  function KeysOf(ids: seq<string>): set<string> {
    set id | id in ids :: KeyOf(id)
  }

  /** The MULTI batch of `deleteWebhookData`: DEL of every key, ZREM of every id. */
  function ApplyDelete(db: Backend, ids: seq<string>): (r: Backend)
    ensures forall id :: id in ids ==> Lookup(r, KeyOf(id)) == None
    ensures forall id :: id in ids ==> id !in SortedSet.Members(r.timeline)
    ensures forall k :: k !in KeysOf(ids) ==> (k in r.values <==> k in db.values)
    ensures forall k :: k !in KeysOf(ids) && k in db.values ==> r.values[k] == db.values[k]
    ensures forall e: SortedSet.Scored :: e.member !in ids ==> (e in r.timeline <==> e in db.timeline)
  {
    Backend(db.values - KeysOf(ids), SortedSet.Remove(db.timeline, set id | id in ids))
  }

  /** A stored record's value expires after its TTL; its timeline entry stays. */
  function Expire(db: Backend, id: string): (r: Backend)
    ensures Lookup(r, KeyOf(id)) == None
    ensures r.timeline == db.timeline
    ensures forall k :: k != KeyOf(id) ==> (k in r.values <==> k in db.values)
    ensures forall k :: k != KeyOf(id) && k in db.values ==> r.values[k] == db.values[k]
  {
    Backend(db.values - {KeyOf(id)}, db.timeline)
  }

  // ---------------------------------------------------------------------
  // Operations
  // ---------------------------------------------------------------------

  /** The result of an operation that may change the backend. */
  datatype Write = Write(conn: Connection, db: Backend, status: Status)

  /** The result of a read-only operation. */
  datatype Answer<T> = Answer(conn: Connection, value: T)

  /**
   * `storeWebhookData`: once a client is at hand the batch is sent, and it
   * lands as a whole or not at all, whatever the caller sees: a success
   * before the deadline is `Done`, every other outcome is rethrown as a
   * `Failed` status, including a batch that ran but whose reply was lost.
   */
  function StoreWebhookData(conn: Connection, db: Backend, data: WebhookData, connectOk: bool, batch: Batch, now: int): (r: Write)
    ensures r.conn == GetClient(conn, connectOk).conn
    ensures r.status == Done <==>
      (conn.hasClient || connectOk) && batch.lands && batch.acknowledged && batch.elapsedMs < CommandTimeoutMs
    ensures r.status == Failed(ConnectFailed) <==> !conn.hasClient && !connectOk
    ensures (conn.hasClient || connectOk) && batch.lands ==> r.db == ApplyStore(db, data, now)
    ensures !((conn.hasClient || connectOk) && batch.lands) ==> r.db == db
  {
    var a := GetClient(conn, connectOk);
    if !a.ready then Write(a.conn, db, Failed(ConnectFailed))
    else Write(a.conn, if batch.lands then ApplyStore(db, data, now) else db, Guard(Observed(batch), CommandTimeoutMs))
  }

  /**
   * `getWebhookData`: the parsed record, or `None` when the key is absent,
   * its value is empty or unparseable, or anything fails. It never throws.
   */
  function GetWebhookData(conn: Connection, db: Backend, id: string, connectOk: bool, get: Exec): (r: Answer<Option<WebhookData>>)
    ensures r.conn == GetClient(conn, connectOk).conn
    ensures r.value.Some? ==> Lookup(db, KeyOf(id)) == Some(Serialise(r.value.value))
    ensures r.value.Some? <==>
      (conn.hasClient || connectOk) && Guard(get, CommandTimeoutMs) == Done
      && Lookup(db, KeyOf(id)).Some? && Lookup(db, KeyOf(id)).value.Encoded?
  {
    var a := GetClient(conn, connectOk);
    if !a.ready || Guard(get, CommandTimeoutMs) != Done then Answer(a.conn, None)
    else
      match Lookup(db, KeyOf(id))
      case None => Answer(a.conn, None)
      case Some(v) => Answer(a.conn, if Truthy(v) then Parse(v) else None)
  }

  /** One reply of an EXEC, read as the `[error, value]` pair the code expects. */
  datatype Reply = Reply(error: Option<string>, value: Option<Stored>)

  /** What one reply contributes to the list: its record, if it has a parseable value. */
  function Keep(rep: Reply): (r: seq<WebhookData>)
    ensures |r| <= 1
    ensures |r| == 1 <==> rep.value.Some? && rep.value.value.Encoded?
    ensures |r| == 1 ==> rep.value == Some(Serialise(r[0]))
  {
    if rep.value.Some? && Truthy(rep.value.value) then
      match Parse(rep.value.value)
      case Some(d) => [d]
      case None => []
    else []
  }

  /** The loop over the EXEC replies: parseable values in order, the rest skipped. */
  function Collect(reps: seq<Reply>): (r: seq<WebhookData>)
    ensures |r| <= |reps|
    decreases |reps|
  {
    if |reps| == 0 then [] else Keep(reps[0]) + Collect(reps[1..])
  }

  /** Every collected record is the value of some reply. */
  lemma {:induction false} CollectFromReplies(reps: seq<Reply>)
    ensures forall x :: x in Collect(reps) ==>
      exists i :: 0 <= i < |reps| && reps[i].value == Some(Serialise(x))
    decreases |reps|
  {
    if |reps| > 0 {
      CollectFromReplies(reps[1..]);
      forall x | x in Collect(reps)
        ensures exists i :: 0 <= i < |reps| && reps[i].value == Some(Serialise(x))
      {
        if x in Keep(reps[0]) {
          assert reps[0].value == Some(Serialise(x));
        } else {
          var i :| 0 <= i < |reps[1..]| && reps[1..][i].value == Some(Serialise(x));
          assert reps[i + 1].value == Some(Serialise(x));
        }
      }
    }
  }

  /** When every reply holds a record, nothing is skipped and the order is kept. */
  lemma {:induction false} CollectAllParseable(reps: seq<Reply>)
    requires forall i :: 0 <= i < |reps| ==> reps[i].value.Some? && reps[i].value.value.Encoded?
    ensures |Collect(reps)| == |reps|
    ensures forall i :: 0 <= i < |reps| ==> Collect(reps)[i] == reps[i].value.value.record
    decreases |reps|
  {
    if |reps| > 0 {
      CollectAllParseable(reps[1..]);
    }
  }

  /** The GET of every id's key in one EXEC. */
  function Fetch(db: Backend, ids: seq<string>): (reps: seq<Reply>)
    ensures |reps| == |ids|
    ensures forall i :: 0 <= i < |ids| ==> reps[i] == Reply(None, Lookup(db, KeyOf(ids[i])))
  {
    seq(|ids|, i requires 0 <= i < |ids| => Reply(None, Lookup(db, KeyOf(ids[i]))))
  }

  /**
   * The records a list of timeline entries yields: for each entry in turn,
   * the record its key holds, and nothing for an entry whose key is gone
   * or holds a value that does not parse.
   */
  function Kept(db: Backend, top: seq<SortedSet.Scored>): (r: seq<WebhookData>)
    ensures |r| <= |top|
    decreases |top|
  {
    if |top| == 0 then []
    else
      var v := Lookup(db, KeyOf(top[0].member));
      (if v.Some? && v.value.Encoded? then [v.value.record] else []) + Kept(db, top[1..])
  }

  /** The EXEC of one GET per selected id, read reply by reply, yields `Kept`. */
  lemma {:induction false} CollectFetchKept(db: Backend, top: seq<SortedSet.Scored>)
    ensures Collect(Fetch(db, SortedSet.MemberNames(top))) == Kept(db, top)
    decreases |top|
  {
    if |top| > 0 {
      var reps := Fetch(db, SortedSet.MemberNames(top));
      assert Fetch(db, SortedSet.MemberNames(top[1..])) == reps[1..];
      CollectFetchKept(db, top[1..]);
    }
  }

  lemma {:induction false} KeptAppend(db: Backend, a: seq<SortedSet.Scored>, b: seq<SortedSet.Scored>)
    ensures Kept(db, a + b) == Kept(db, a) + Kept(db, b)
    decreases |a|
  {
    if |a| == 0 {
      assert a + b == b;
    } else {
      assert (a + b)[0] == a[0];
      assert (a + b)[1..] == a[1..] + b;
      KeptAppend(db, a[1..], b);
    }
  }

  /** Expiring a key that no entry of `top` names changes nothing `top` yields. */
  lemma {:induction false} KeptIgnoresOtherKeys(db: Backend, id: string, top: seq<SortedSet.Scored>)
    requires forall i :: 0 <= i < |top| ==> top[i].member != id
    ensures Kept(Expire(db, id), top) == Kept(db, top)
    decreases |top|
  {
    if |top| > 0 {
      KeyOfInjective(top[0].member, id);
      KeptIgnoresOtherKeys(db, id, top[1..]);
    }
  }

  /**
   * One expired record is skipped alone: every other selected record is
   * still listed, in the same order.
   */
  lemma ExpiredRecordSkippedAlone(db: Backend, top: seq<SortedSet.Scored>, i: nat)
    requires i < |top|
    requires forall j :: 0 <= j < |top| && j != i ==> top[j].member != top[i].member
    ensures Kept(Expire(db, top[i].member), top) == Kept(db, top[..i]) + Kept(db, top[i + 1..])
  {
    var id := top[i].member;
    var before, after := top[..i], top[i + 1..];
    assert top == before + ([top[i]] + after);
    KeptAppend(Expire(db, id), before, [top[i]] + after);
    KeptAppend(Expire(db, id), [top[i]], after);
    assert Kept(Expire(db, id), [top[i]]) == [];
    forall j | 0 <= j < |before| ensures before[j].member != id {
      assert before[j] == top[j];
    }
    forall j | 0 <= j < |after| ensures after[j].member != id {
      assert after[j] == top[i + 1 + j];
    }
    KeptIgnoresOtherKeys(db, id, before);
    KeptIgnoresOtherKeys(db, id, after);
  }

  /**
   * The timeline entries `ZRANGE webhooks:timeline 0 limit-1 REV` selects
   * when Redis accepts `limit - 1` as an index: the last entries of the
   * timeline, the highest-ranked first.
   */
  function Newest(db: Backend, limit: int): (r: seq<SortedSet.Scored>)
    ensures |r| == SortedSet.RangeCount(|db.timeline|, limit - 1)
    ensures limit >= 1 ==> |r| == Min(limit, |db.timeline|)
    ensures forall i :: 0 <= i < |r| ==> r[i] == db.timeline[|db.timeline| - 1 - i]
    ensures forall i, j :: 0 <= i < j < |r| ==> SortedSet.Before(r[j], r[i])
    ensures forall e, i :: e in db.timeline && e !in r && 0 <= i < |r| ==> SortedSet.Before(e, r[i])
    ensures forall i :: 0 <= i < |r| ==> r[i] in db.timeline
  {
    SortedSet.RangeRevTop(db.timeline, limit - 1);
    SortedSet.RangeRev(db.timeline, limit - 1)
  }

  /**
   * `getAllWebhooks`: read the newest ids, fetch their values in one batch,
   * keep what parses. Any failure yields the empty list; it never throws.
   * A `limit - 1` that is no 64-bit index makes ZRANGE fail, so such a
   * limit lists nothing.
   */
  function GetAllWebhooks(conn: Connection, db: Backend, limit: int, connectOk: bool, range: Exec, fetch: Exec): (r: Answer<seq<WebhookData>>)
    ensures r.conn == GetClient(conn, connectOk).conn
    ensures |r.value| <= |Newest(db, limit)|
    ensures limit >= 1 ==> |r.value| <= Min(limit, |db.timeline|)
    ensures !SortedSet.IndexInRange(limit - 1) ==> r.value == []
    ensures |r.value| > 0 ==>
      (conn.hasClient || connectOk) && SortedSet.IndexInRange(limit - 1)
      && Guard(range, CommandTimeoutMs) == Done && Guard(fetch, CommandTimeoutMs) == Done
    ensures forall x :: x in r.value ==>
      exists i :: 0 <= i < |Newest(db, limit)| && Lookup(db, KeyOf(Newest(db, limit)[i].member)) == Some(Serialise(x))
    ensures ((conn.hasClient || connectOk) && SortedSet.IndexInRange(limit - 1)
             && Guard(range, CommandTimeoutMs) == Done && Guard(fetch, CommandTimeoutMs) == Done) ==>
      r.value == Kept(db, Newest(db, limit))
  {
    var a := GetClient(conn, connectOk);
    var ids := SortedSet.MemberNames(Newest(db, limit));
    if !a.ready || !SortedSet.IndexInRange(limit - 1) || Guard(range, CommandTimeoutMs) != Done
       || |ids| == 0 || Guard(fetch, CommandTimeoutMs) != Done then
      Answer(a.conn, [])
    else
      var reps := Fetch(db, ids);
      CollectFromReplies(reps);
      CollectFetchKept(db, Newest(db, limit));
      Answer(a.conn, Collect(reps))
  }

  /** Every timeline member's key holds the record with that id. */
  predicate Consistent(db: Backend) {
    forall e :: e in db.timeline ==>
      Lookup(db, KeyOf(e.member)).Some? && Lookup(db, KeyOf(e.member)).value.Encoded?
      && Lookup(db, KeyOf(e.member)).value.record.id == e.member
  }

  /**
   * With a healthy connection and a consistent backend, the list is exactly
   * the records of the selected timeline entries, highest score first.
   */
  lemma ListsNewestFirst(conn: Connection, db: Backend, limit: int, connectOk: bool, range: Exec, fetch: Exec)
    requires conn.hasClient || connectOk
    requires Guard(range, CommandTimeoutMs) == Done && Guard(fetch, CommandTimeoutMs) == Done
    requires Consistent(db)
    ensures var r := GetAllWebhooks(conn, db, limit, connectOk, range, fetch).value;
      var top := Newest(db, limit);
      SortedSet.IndexInRange(limit - 1) ==>
      && |r| == |top|
      && (forall i :: 0 <= i < |r| ==> r[i].id == top[i].member)
      && (forall i, j :: 0 <= i < j < |r| ==> SortedSet.Before(top[j], top[i]))
  {
    var top := Newest(db, limit);
    var ids := SortedSet.MemberNames(top);
    if SortedSet.IndexInRange(limit - 1) && |ids| > 0 {
      var reps := Fetch(db, ids);
      forall i | 0 <= i < |reps|
        ensures reps[i].value.Some? && reps[i].value.value.Encoded?
      {
        assert top[i] in db.timeline;
      }
      CollectAllParseable(reps);
      forall i | 0 <= i < |reps|
        ensures Collect(reps)[i].id == top[i].member
      {
        assert top[i] in db.timeline;
      }
    }
  }

  /** `deleteWebhookData`: atomic like `storeWebhookData`, and errors are rethrown. */
  function DeleteWebhookData(conn: Connection, db: Backend, ids: seq<string>, connectOk: bool, batch: Batch): (r: Write)
    ensures r.conn == GetClient(conn, connectOk).conn
    ensures r.status == Done <==>
      (conn.hasClient || connectOk) && batch.lands && batch.acknowledged && batch.elapsedMs < CommandTimeoutMs
    ensures r.status == Failed(ConnectFailed) <==> !conn.hasClient && !connectOk
    ensures (conn.hasClient || connectOk) && batch.lands ==> r.db == ApplyDelete(db, ids)
    ensures !((conn.hasClient || connectOk) && batch.lands) ==> r.db == db
  {
    var a := GetClient(conn, connectOk);
    if !a.ready then Write(a.conn, db, Failed(ConnectFailed))
    else Write(a.conn, if batch.lands then ApplyDelete(db, ids) else db, Guard(Observed(batch), CommandTimeoutMs))
  }

  /** Deleting the same ids twice leaves the backend as deleting them once. */
  lemma DeleteIdempotent(db: Backend, ids: seq<string>)
    ensures ApplyDelete(ApplyDelete(db, ids), ids) == ApplyDelete(db, ids)
  {
    var once := ApplyDelete(db, ids);
    var twice := ApplyDelete(once, ids);
    assert twice.values == once.values;
    SortedSet.RemoveAgain(db.timeline, set id | id in ids);
  }

  /** `checkRedisHealth`: true exactly when a client is at hand and PING answers within three seconds. */
  function CheckRedisHealth(conn: Connection, connectOk: bool, ping: Exec): (r: Answer<bool>)
    ensures r.conn == GetClient(conn, connectOk).conn
    ensures r.value <==> (conn.hasClient || connectOk) && ping.succeeds && ping.elapsedMs < HealthCheckTimeoutMs
  {
    var a := GetClient(conn, connectOk);
    Answer(a.conn, a.ready && Guard(ping, HealthCheckTimeoutMs) == Done)
  }

  /** A record stored successfully is read back by `getWebhookData` on a healthy call. */
  lemma StoreThenGet(conn: Connection, db: Backend, data: WebhookData, connectOk: bool, batch: Batch, now: int, get: Exec)
    requires StoreWebhookData(conn, db, data, connectOk, batch, now).status == Done
    requires Guard(get, CommandTimeoutMs) == Done
    ensures var w := StoreWebhookData(conn, db, data, connectOk, batch, now);
      GetWebhookData(w.conn, w.db, data.id, false, get).value == Some(data)
  {
  }

  /** A store reported as timed out may still have landed in full. */
  lemma TimedOutStoreLands(conn: Connection, db: Backend, data: WebhookData, batch: Batch, now: int)
    requires conn.hasClient && batch.lands && batch.elapsedMs >= CommandTimeoutMs
    ensures var w := StoreWebhookData(conn, db, data, false, batch, now);
      w.status == Failed(TimedOut) && Lookup(w.db, KeyOf(data.id)) == Some(Serialise(data))
  {
  }

  /**
   * A store whose reply is lost before the deadline is reported as a
   * command failure, yet the record is in Redis all the same.
   */
  lemma LostReplyStoreLands(conn: Connection, db: Backend, data: WebhookData, elapsedMs: nat, now: int)
    requires conn.hasClient && elapsedMs < CommandTimeoutMs
    ensures var w := StoreWebhookData(conn, db, data, false, Batch(true, false, elapsedMs), now);
      w.status == Failed(CommandFailed) && Lookup(w.db, KeyOf(data.id)) == Some(Serialise(data))
  {
  }
}
