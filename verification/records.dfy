/**
 * The webhook record (the `WebhookData` interface of lib/redis.ts) and the
 * two encodings it travels in: the JSON document that goes on the event
 * stream, and the serialised value kept under a Redis key.
 */
module Records {
  import opened Wrappers
  import Json

  /** One request header as the server received it. */
  datatype Header = Header(name: string, value: string)

  /** A captured request (`httpMethod` is the `method` member). `body` is `None` when the request carried none. */
  datatype WebhookData = WebhookData(
    id: string,
    httpMethod: string,
    url: string,
    headers: seq<Header>,
    body: Option<Json.Json>,
    timestamp: string)

  /**
   * The text stored under a Redis key. `Encoded(r)` stands for the text
   * `JSON.stringify(r)`; `Foreign(text)` for a text on which `JSON.parse`
   * throws (truncated or otherwise malformed), or the empty string.
   */
  datatype Stored = Encoded(record: WebhookData) | Foreign(text: string)

  /** The serialisation `JSON.stringify` applied to a record. */
  function Serialise(r: WebhookData): Stored {
    Encoded(r)
  }

  /** False exactly for the empty string, the only falsy string in JavaScript. */
  predicate Truthy(v: Stored) {
    !(v.Foreign? && v.text == "")
  }

  /**
   * `JSON.parse` of a stored value, `None` when it throws. Only text produced
   * by `Serialise` is recognised as a record.
   */
  function Parse(v: Stored): (r: Option<WebhookData>)
    ensures r.Some? <==> v.Encoded?
    ensures r.Some? ==> Serialise(r.value) == v
  {
    match v
    case Encoded(rec) => Some(rec)
    case Foreign(_) => None
  }

  /** Parsing undoes serialisation. */
  lemma ParseSerialise(r: WebhookData)
    ensures Parse(Serialise(r)) == Some(r)
    ensures Truthy(Serialise(r))
  {
  }

  function HeaderFields(hs: seq<Header>): (fs: seq<Json.Field>)
    ensures |fs| == |hs|
    ensures forall i :: 0 <= i < |hs| ==> fs[i] == Json.Field(hs[i].name, Json.Str(hs[i].value))
  {
    if |hs| == 0 then [] else [Json.Field(hs[0].name, Json.Str(hs[0].value))] + HeaderFields(hs[1..])
  }

  /** The headers read back from the members of a `headers` object. */
  function HeadersOf(fs: seq<Json.Field>): Option<seq<Header>>
    decreases |fs|
  {
    if |fs| == 0 then Some([])
    else if !fs[0].value.Str? then None
    else
      match HeadersOf(fs[1..])
      case None => None
      case Some(rest) => Some([Header(fs[0].name, fs[0].value.s)] + rest)
  }

  lemma {:induction false} HeadersRoundTrip(hs: seq<Header>)
    ensures HeadersOf(HeaderFields(hs)) == Some(hs)
    decreases |hs|
  {
    if |hs| > 0 {
      assert HeaderFields(hs)[1..] == HeaderFields(hs[1..]);
      HeadersRoundTrip(hs[1..]);
      assert [hs[0]] + hs[1..] == hs;
    }
  }

  /** The string value of a member with the given name, if it is one. */
  function StrField(f: Json.Field, name: string): Option<string> {
    if f.name == name && f.value.Str? then Some(f.value.s) else None
  }

  /**
   * How a reader of a `data` document gets the record back: `id`, `method`,
   * `url`, `headers`, an optional `body` and `timestamp`, in that order.
   */
  function RecordOf(j: Json.Json): Option<WebhookData> {
    if !j.Object? || !(|j.fields| == 5 || |j.fields| == 6) then None
    else
      var fs := j.fields;
      var id := StrField(fs[0], "id");
      var m := StrField(fs[1], "method");
      var url := StrField(fs[2], "url");
      var ts := StrField(fs[|fs| - 1], "timestamp");
      if id.None? || m.None? || url.None? || ts.None? || fs[3].name != "headers" || !fs[3].value.Object? then None
      else if |fs| == 6 && fs[4].name != "body" then None
      else
        match HeadersOf(fs[3].value.fields)
        case None => None
        case Some(hs) => Some(WebhookData(id.value, m.value, url.value, hs, if |fs| == 6 then Some(fs[4].value) else None, ts.value))
  }

  /**
   * The document `JSON.stringify` sees for a record: its members in
   * declaration order, with `body` omitted when it is undefined. Nothing
   * is lost: the record can be read back from it.
   */
  function ToJson(r: WebhookData): (j: Json.Json)
    ensures RecordOf(j) == Some(r)
  {
    HeadersRoundTrip(r.headers);
    var head := [
      Json.Field("id", Json.Str(r.id)),
      Json.Field("method", Json.Str(r.httpMethod)),
      Json.Field("url", Json.Str(r.url)),
      Json.Field("headers", Json.Object(HeaderFields(r.headers)))];
    var body := if r.body.Some? then [Json.Field("body", r.body.value)] else [];
    Json.Object(head + body + [Json.Field("timestamp", Json.Str(r.timestamp))])
  }
}
