/**
 * The broadcast hub of pages/api/webhook-stream.ts: the set of open event
 * streams, their registration and removal, the per-stream heartbeat, and
 * the fan-out of `webhook` and `webhook-deleted` events. A response object
 * is a `Sub`; whether a write to it throws is an oracle parameter.
 */
module WebhookStream {
  import opened Wrappers
  import opened Records
  import Json
  import Sse

  /** The response object of one open stream request. */
  type Sub = nat

  /** What is written on a stream, one frame per event. */
  datatype Event =
    | Connected
    | Heartbeat(timestamp: int)
    | WebhookAdded(record: WebhookData)
    | WebhooksDeleted(ids: seq<string>)

  function IdsJson(ids: seq<string>): (items: seq<Json.Json>)
    ensures |items| == |ids|
    ensures forall i :: 0 <= i < |ids| ==> items[i] == Json.Str(ids[i])
  {
    seq(|ids|, i requires 0 <= i < |ids| => Json.Str(ids[i]))
  }

  /** The ids read back from the `ids` array. */
  function IdsOf(items: seq<Json.Json>): Option<seq<string>> {
    if forall i :: 0 <= i < |items| ==> items[i].Str? then
      Some(seq(|items|, i requires 0 <= i < |items| && items[i].Str? => items[i].s))
    else None
  }

  /** How a stream reader tells the events apart, by `type`, and reads their payload back. */
  function EventOf(j: Json.Json): Option<Event> {
    if !j.Object? || |j.fields| != 2 || j.fields[0].name != "type" || !j.fields[0].value.Str? then None
    else
      var kind := j.fields[0].value.s;
      var f := j.fields[1];
      if kind == "connected" && f == Json.Field("message", Json.Str("SSE connected")) then Some(Connected)
      else if kind == "heartbeat" && f.name == "timestamp" && f.value.Number? then Some(Heartbeat(f.value.n))
      else if kind == "webhook" && f.name == "data" then
        match RecordOf(f.value)
        case Some(r) => Some(WebhookAdded(r))
        case None => None
      else if kind == "webhook-deleted" && f.name == "data" && f.value.Object? && |f.value.fields| == 1
              && f.value.fields[0].name == "ids" && f.value.fields[0].value.Array? then
        match IdsOf(f.value.fields[0].value.items)
        case Some(ids) => Some(WebhooksDeleted(ids))
        case None => None
      else None
  }

  /**
   * The object each frame's `JSON.stringify` is applied to. Its `type`
   * tells the four events apart, and the event can be read back from it.
   */
  function EventJson(e: Event): (j: Json.Json)
    ensures EventOf(j) == Some(e)
  {
    match e
    case Connected =>
      Json.Object([Json.Field("type", Json.Str("connected")), Json.Field("message", Json.Str("SSE connected"))])
    case Heartbeat(ts) =>
      Json.Object([Json.Field("type", Json.Str("heartbeat")), Json.Field("timestamp", Json.Number(ts))])
    case WebhookAdded(r) =>
      Json.Object([Json.Field("type", Json.Str("webhook")), Json.Field("data", ToJson(r))])
    case WebhooksDeleted(ids) =>
      assert IdsOf(IdsJson(ids)).value == ids;
      Json.Object([
        Json.Field("type", Json.Str("webhook-deleted")),
        Json.Field("data", Json.Object([Json.Field("ids", Json.Array(IdsJson(ids)))]))])
  }

  function Payload(e: Event): string {
    Json.Stringify(EventJson(e))
  }

  /** The text `data: ${message}\n\n` written for an event. */
  function Frame(e: Event): string {
    Sse.Frame(Payload(e))
  }

  function Payloads(es: seq<Event>): (ps: seq<string>)
    ensures |ps| == |es|
    ensures forall i :: 0 <= i < |es| ==> ps[i] == Payload(es[i])
  {
    seq(|es|, i requires 0 <= i < |es| => Payload(es[i]))
  }

  /** Everything written on a stream that was sent `es`. */
  function WireOf(es: seq<Event>): string {
    Sse.Wire(Payloads(es))
  }

  lemma PayloadHasNoBreaks(e: Event)
    ensures Sse.NoBreaks(Payload(e))
  {
    Json.StringifyPrintable(EventJson(e));
  }

  /**
   * An EventSource reading a stream receives one message per event sent,
   * in order, whose data is that event's JSON text.
   */
  lemma ClientReceives(es: seq<Event>)
    ensures Sse.Decode(WireOf(es)) == Payloads(es)
  {
    forall i | 0 <= i < |es| ensures Sse.NoBreaks(Payloads(es)[i]) {
      PayloadHasNoBreaks(es[i]);
    }
    Sse.DecodeWire(Payloads(es));
  }

  /**
   * `clients` is the module-level set; `heartbeats` the streams whose
   * interval is still scheduled; `sent` what each stream has been written.
   */
  datatype Hub = Hub(clients: set<Sub>, heartbeats: set<Sub>, sent: map<Sub, seq<Event>>)

  const EmptyHub := Hub({}, {}, map[])

  function Sent(h: Hub, c: Sub): seq<Event> {
    if c in h.sent then h.sent[c] else []
  }

  /** The hub after `c` is written `e`. */
  function Write(h: Hub, c: Sub, e: Event): (r: Hub)
    ensures r.clients == h.clients && r.heartbeats == h.heartbeats
    ensures Sent(r, c) == Sent(h, c) + [e]
    ensures forall d :: d != c ==> Sent(r, d) == Sent(h, d)
  {
    h.(sent := h.sent[c := Sent(h, c) + [e]])
  }

  /** How the handler answered: 405 with an `Allow` header, or an open stream. */
  datatype Answer = MethodNotAllowed(allow: seq<string>) | Stream

  datatype Handled = Handled(hub: Hub, answer: Answer)

  /**
   * The request handler. A GET registers its response, writes the
   * `connected` frame and schedules its heartbeat; anything else is refused
   * and leaves the hub alone.
   */
  function Handle(h: Hub, httpMethod: Option<string>, res: Sub): (r: Handled)
    ensures httpMethod != Some("GET") ==> r.hub == h && r.answer == MethodNotAllowed(["GET"])
    ensures httpMethod == Some("GET") ==>
      && r.answer == Stream
      && r.hub.clients == h.clients + {res}
      && r.hub.heartbeats == h.heartbeats + {res}
      && Sent(r.hub, res) == Sent(h, res) + [Connected]
      && (forall d :: d != res ==> Sent(r.hub, d) == Sent(h, d))
  {
    if httpMethod != Some("GET") then Handled(h, MethodNotAllowed(["GET"]))
    else
      var added := h.(clients := h.clients + {res}, heartbeats := h.heartbeats + {res});
      Handled(Write(added, res, Connected), Stream)
  }

  /** The request events the handler listens to. */
  datatype Signal = Close | End | Aborted

  /**
   * A request event on `res`: each of them removes it from the set; only
   * `close` also cancels its heartbeat.
   */
  function OnSignal(h: Hub, res: Sub, s: Signal): (r: Hub)
    ensures r.clients == h.clients - {res}
    ensures r.heartbeats == if s == Close then h.heartbeats - {res} else h.heartbeats
    ensures r.sent == h.sent
  {
    var removed := h.(clients := h.clients - {res});
    if s == Close then removed.(heartbeats := h.heartbeats - {res}) else removed
  }

  /** Removal is idempotent, and it never touches another client. */
  lemma RemovalIdempotent(h: Hub, res: Sub, s1: Signal, s2: Signal)
    ensures OnSignal(OnSignal(h, res, s1), res, s2).clients == OnSignal(h, res, s1).clients
    ensures forall d :: d != res ==> (d in OnSignal(h, res, s1).clients <==> d in h.clients)
  {
  }

  /**
   * One tick of `res`'s heartbeat interval. A successful write appends a
   * heartbeat; a failing one removes `res` and cancels the interval. A
   * cancelled interval does nothing.
   */
  function OnHeartbeat(h: Hub, res: Sub, now: int, writeOk: bool): (r: Hub)
    ensures res !in h.heartbeats ==> r == h
    ensures res in h.heartbeats && writeOk ==> r == Write(h, res, Heartbeat(now))
    ensures res in h.heartbeats && !writeOk ==>
      r.clients == h.clients - {res} && r.heartbeats == h.heartbeats - {res} && r.sent == h.sent
  {
    if res !in h.heartbeats then h
    else if writeOk then Write(h, res, Heartbeat(now))
    else h.(clients := h.clients - {res}, heartbeats := h.heartbeats - {res})
  }

  /**
   * After `end` or `aborted` the interval keeps running: the stream is out
   * of the set but still gets heartbeats. After `close` it gets none.
   */
  lemma HeartbeatOutlivesEnd(h: Hub, res: Sub, s: Signal, now: int)
    requires res in h.heartbeats
    ensures s != Close ==> Sent(OnHeartbeat(OnSignal(h, res, s), res, now, true), res) == Sent(h, res) + [Heartbeat(now)]
    ensures s == Close ==> OnHeartbeat(OnSignal(h, res, s), res, now, true) == OnSignal(h, res, s)
  {
  }

  /** The clients whose write throws during a fan-out. */
  function Failing(h: Hub, writeOk: Sub -> bool): set<Sub> {
    set c | c in h.clients && !writeOk(c)
  }

  /**
   * What a fan-out of `e` leaves: the failing clients removed, the frame
   * appended for every other client, nothing else changed.
   */
  ghost predicate Broadcasted(h: Hub, e: Event, writeOk: Sub -> bool, r: Hub) {
    && r.clients == h.clients - Failing(h, writeOk)
    && r.heartbeats == h.heartbeats
    && (forall c :: Sent(r, c) == if c in h.clients && writeOk(c) then Sent(h, c) + [e] else Sent(h, c))
  }

  /**
   * The `clients.forEach` loop, over a snapshot of the set: the only
   * element ever deleted during the iteration is the current one.
   */
  method Broadcast(h: Hub, e: Event, writeOk: Sub -> bool) returns (r: Hub)
    ensures Broadcasted(h, e, writeOk, r)
  {
    var pending := h.clients;
    r := h;
    while pending != {}
      invariant pending <= h.clients
      invariant r.heartbeats == h.heartbeats
      invariant r.clients == h.clients - (set c | c in h.clients - pending && !writeOk(c))
      invariant forall c :: Sent(r, c) == if c in h.clients - pending && writeOk(c) then Sent(h, c) + [e] else Sent(h, c)
      decreases pending
    {
      var c :| c in pending;
      if writeOk(c) {
        r := Write(r, c, e);
      } else {
        r := r.(clients := r.clients - {c});
      }
      pending := pending - {c};
    }
  }

  /** `broadcastWebhook`. */
  method BroadcastWebhook(h: Hub, record: WebhookData, writeOk: Sub -> bool) returns (r: Hub)
    ensures Broadcasted(h, WebhookAdded(record), writeOk, r)
  {
    r := Broadcast(h, WebhookAdded(record), writeOk);
  }

  /** `broadcastWebhookDeletion`. */
  method BroadcastWebhookDeletion(h: Hub, ids: seq<string>, writeOk: Sub -> bool) returns (r: Hub)
    ensures Broadcasted(h, WebhooksDeleted(ids), writeOk, r)
  {
    r := Broadcast(h, WebhooksDeleted(ids), writeOk);
  }

  /**
   * A client dropped by one fan-out is not written by the next, whatever
   * its writes would do; the clients that stayed are offered it.
   */
  lemma DroppedClientMissesLaterEvents(h: Hub, e1: Event, ok1: Sub -> bool, r1: Hub, e2: Event, ok2: Sub -> bool, r2: Hub, c: Sub)
    requires Broadcasted(h, e1, ok1, r1) && Broadcasted(r1, e2, ok2, r2)
    requires c in h.clients
    ensures !ok1(c) ==> c !in r2.clients && Sent(r2, c) == Sent(h, c)
    ensures ok1(c) && ok2(c) ==> c in r2.clients && Sent(r2, c) == Sent(h, c) + [e1, e2]
  {
    assert Sent(r2, c) == if c in r1.clients && ok2(c) then Sent(r1, c) + [e2] else Sent(r1, c);
    assert Sent(r1, c) == if c in h.clients && ok1(c) then Sent(h, c) + [e1] else Sent(h, c);
  }

  /**
   * From a hub with no streams, a client that subscribes and is then
   * offered a capture stays subscribed and has been written the
   * `connected` greeting, then the capture.
   */
  lemma FirstSubscriberSent(c: Sub, d: WebhookData, writeOk: Sub -> bool, r: Hub)
    requires writeOk(c)
    requires Broadcasted(Handle(EmptyHub, Some("GET"), c).hub, WebhookAdded(d), writeOk, r)
    ensures r.clients == {c}
    ensures Sent(r, c) == [Connected, WebhookAdded(d)]
  {
    var h := Handle(EmptyHub, Some("GET"), c).hub;
    assert Sent(h, c) == [Connected];
  }

  /** The same client's EventSource reads exactly those two messages. */
  lemma FirstSubscriberReadsConnectedThenCapture(c: Sub, d: WebhookData, writeOk: Sub -> bool, r: Hub)
    requires writeOk(c)
    requires Broadcasted(Handle(EmptyHub, Some("GET"), c).hub, WebhookAdded(d), writeOk, r)
    ensures Sse.Decode(WireOf(Sent(r, c))) == [Payload(Connected), Payload(WebhookAdded(d))]
  {
    var es := [Connected, WebhookAdded(d)];
    FirstSubscriberSent(c, d, writeOk, r);
    ClientReceives(es);
    assert Payloads(es) == [Payload(Connected), Payload(WebhookAdded(d))];
  }
}
