/**
 * The capture endpoint of pages/api/webhook.ts: every request, whatever
 * its method, is recorded, stored through the storage router and fanned
 * out to the open event streams. The id and the timestamp, which the
 * handler draws from `uuidv4()` and the clock, are parameters.
 */
module WebhookApi {
  import opened Wrappers
  import opened Records
  import Json
  import FallbackStorage
  import Redis
  import Storage
  import Sse
  import WebhookStream

  /** The parts of the incoming request the capture keeps. */
  datatype Request = Request(httpMethod: Option<string>, url: Option<string>, headers: seq<Header>, body: Option<Json.Json>)

  /**
   * The captured record: `req.method || 'UNKNOWN'` and `req.url || ''`,
   * so an empty method is replaced too.
   */
  function Capture(req: Request, id: string, timestamp: string): (d: WebhookData)
    ensures d.id == id && d.timestamp == timestamp
    ensures d.headers == req.headers && d.body == req.body
    ensures d.httpMethod != ""
    ensures req.httpMethod.Some? && req.httpMethod.value != "" ==> d.httpMethod == req.httpMethod.value
    ensures req.httpMethod.None? || req.httpMethod == Some("") ==> d.httpMethod == "UNKNOWN"
    ensures req.url.Some? ==> d.url == req.url.value
    ensures req.url.None? ==> d.url == ""
  {
    var m := if req.httpMethod.None? || req.httpMethod.value == "" then "UNKNOWN" else req.httpMethod.value;
    WebhookData(id, m, req.url.GetOr(""), req.headers, req.body, timestamp)
  }

  /** The whole server state the endpoint touches. */
  datatype Server = Server(tiers: Storage.Tiers, hub: WebhookStream.Hub)

  /** The 200 body. */
  datatype Receipt = Receipt(success: bool, id: string, timestamp: string, storage: Storage.Tier)

  /**
   * The handler: store, then broadcast, then answer 200. There is no
   * method check; the storage call cannot fail and the broadcast catches
   * every write error, so the 500 branch is never reached.
   */
  method Receive(s: Server, req: Request, id: string, timestamp: string,
                 connectOk: bool, batch: Redis.Batch, now: int, writeOk: WebhookStream.Sub -> bool)
    returns (s': Server, receipt: Receipt)
    ensures receipt.success && receipt.id == id && receipt.timestamp == timestamp
    ensures s'.tiers.memory == FallbackStorage.Store(s.tiers.memory, Capture(req, id, timestamp))
    ensures s'.tiers.memory[0] == Capture(req, id, timestamp)
    ensures receipt.storage == Storage.RedisTier <==>
      (s.tiers.conn.hasClient || connectOk) && batch.lands && batch.acknowledged && batch.elapsedMs < Redis.CommandTimeoutMs
    ensures receipt.storage == Storage.RedisTier ==>
      Redis.Lookup(s'.tiers.db, Redis.KeyOf(id)) == Some(Serialise(Capture(req, id, timestamp)))
    ensures s'.tiers == Storage.StoreWebhook(s.tiers, Capture(req, id, timestamp), connectOk, batch, now).tiers
    ensures WebhookStream.Broadcasted(s.hub, WebhookStream.WebhookAdded(Capture(req, id, timestamp)), writeOk, s'.hub)
  {
    var data := Capture(req, id, timestamp);
    var stored := Storage.StoreWebhook(s.tiers, data, connectOk, batch, now);
    var hub := WebhookStream.BroadcastWebhook(s.hub, data, writeOk);
    s' := Server(stored.tiers, hub);
    receipt := Receipt(true, data.id, data.timestamp, stored.result.storage);
  }

  /**
   * A stream whose write succeeds reads, after the broadcast, exactly one
   * more message: the `webhook` event carrying the capture.
   */
  lemma CaptureReachesStream(h: WebhookStream.Hub, d: WebhookData, writeOk: WebhookStream.Sub -> bool,
                             h': WebhookStream.Hub, c: WebhookStream.Sub)
    requires WebhookStream.Broadcasted(h, WebhookStream.WebhookAdded(d), writeOk, h')
    requires c in h.clients && writeOk(c)
    ensures Sse.Decode(WebhookStream.WireOf(WebhookStream.Sent(h', c)))
      == Sse.Decode(WebhookStream.WireOf(WebhookStream.Sent(h, c))) + [WebhookStream.Payload(WebhookStream.WebhookAdded(d))]
  {
    var before := WebhookStream.Sent(h, c);
    var e := WebhookStream.WebhookAdded(d);
    assert WebhookStream.Sent(h', c) == before + [e];
    WebhookStream.ClientReceives(before + [e]);
    WebhookStream.ClientReceives(before);
    assert WebhookStream.Payloads(before + [e]) == WebhookStream.Payloads(before) + [WebhookStream.Payload(e)];
  }
}
