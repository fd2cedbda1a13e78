/** Preparing one stored request for the transport and shaping what comes back
    (server.js, the execute-request route). The transport and `JSON.parse` are
    parameters: `send` stands for the HTTP call, `parse` for the JSON parser. */
module Executor {
  import opened Documents
  import Text
  import Store

  /** A request body as handed to the transport: parsed JSON, or the raw string. */
  datatype Payload = JsonBody(json: Json) | RawBody(raw: string)

  /** The request configuration given to the transport. */
  datatype Config = Config(
    verb: string,
    url: Option<string>,
    headers: map<string, string>,
    timeout: Option<nat>,
    data: Option<Payload>)

  /** What the transport reports: a response, a failure that carries the server's
      response, or a failure without one (network error, timeout). */
  datatype Outcome =
    | Responded(status: int, data: Json)
    | FailedWithResponse(status: int, data: Json)
    | FailedWithoutResponse(message: string)

  /** A record's status: an HTTP status code, or the marker 'Error'. */
  datatype Status = Code(code: int) | ErrorMarker

  datatype ResponseRecord = ResponseRecord(
    collectionName: Option<string>,
    apiName: string,
    httpMethod: string,
    url: Option<string>,
    status: Status,
    data: Json)

  /** The route's answer: an error status with a message, or one response record. */
  datatype Reply = Rejected(code: int, message: string) | Replied(record: ResponseRecord)

  const SingleTimeout: nat := 30000

  const NoCollectionMessage := "Collection not found"
  const BadCollectionMessage := "Invalid collection structure"
  const NoRequestMessage := "API request not found"
  const BadRequestMessage := "Invalid API request structure"

  /** `request.url.raw`: a url given as a plain string has no `raw`. */
  function RawUrl(url: Option<Url>): Option<string>
  {
    match url
    case Some(UrlObject(raw)) => raw
    case _ => None
  }

  /** Truthiness of `request.url`: an object always, a string when it is not empty. */
  predicate UrlTruthy(url: Option<Url>)
  {
    match url
    case None => false
    case Some(UrlObject(_)) => true
    case Some(UrlText(text)) => text != ""
  }

  // ----- headers -----

  /** The header object filled from the listed headers, left to right. */
  function HeaderMap(hs: seq<Header>): map<string, string>
  {
    if |hs| == 0 then map[]
    else HeaderMap(hs[..|hs| - 1])[hs[|hs| - 1].key := hs[|hs| - 1].value]
  }

  /** The headers sent: the listed ones (none when the list is missing or not an array),
      then `Authorization: Bearer <token>` when the token is not empty. */
  function Headers(list: Option<seq<Header>>, token: string): map<string, string>
  {
    var listed := if list.Some? then HeaderMap(list.value) else map[];
    if token != "" then listed["Authorization" := "Bearer " + token] else listed
  }

  /** A later duplicate key overwrites an earlier one: the keys are exactly the listed
      keys, and each maps to the value of its last occurrence. */
  lemma {:induction false} HeaderMapLastWins(hs: seq<Header>)
    ensures forall key :: key in HeaderMap(hs) <==> exists i :: 0 <= i < |hs| && hs[i].key == key
    ensures forall i :: 0 <= i < |hs| && (forall j :: i < j < |hs| ==> hs[j].key != hs[i].key) ==>
              hs[i].key in HeaderMap(hs) && HeaderMap(hs)[hs[i].key] == hs[i].value
  {
    HeaderMapKeys(hs);
    HeaderMapValues(hs);
  }

  lemma {:induction false} HeaderMapKeys(hs: seq<Header>)
    ensures forall key :: key in HeaderMap(hs) <==> exists i :: 0 <= i < |hs| && hs[i].key == key
  {
    if |hs| > 0 {
      var n := |hs| - 1;
      var front := hs[..n];
      HeaderMapKeys(front);
      assert HeaderMap(hs) == HeaderMap(front)[hs[n].key := hs[n].value];
      forall key
        ensures key in HeaderMap(hs) <==> exists i :: 0 <= i < |hs| && hs[i].key == key
      {
        if exists i :: 0 <= i < |hs| && hs[i].key == key {
          var i :| 0 <= i < |hs| && hs[i].key == key;
          if i < n {
            assert front[i].key == key;
          }
        }
        if key in HeaderMap(front) {
          var i :| 0 <= i < |front| && front[i].key == key;
          assert hs[i].key == key;
        }
      }
    }
  }

  lemma {:induction false} HeaderMapValues(hs: seq<Header>)
    ensures forall i :: 0 <= i < |hs| && (forall j :: i < j < |hs| ==> hs[j].key != hs[i].key) ==>
              hs[i].key in HeaderMap(hs) && HeaderMap(hs)[hs[i].key] == hs[i].value
  {
    if |hs| > 0 {
      var n := |hs| - 1;
      var front := hs[..n];
      HeaderMapValues(front);
      assert HeaderMap(hs) == HeaderMap(front)[hs[n].key := hs[n].value];
      forall i | 0 <= i < n && (forall j :: i < j < |hs| ==> hs[j].key != hs[i].key)
        ensures hs[i].key in HeaderMap(hs) && HeaderMap(hs)[hs[i].key] == hs[i].value
      {
        assert front[i] == hs[i];
        assert forall j :: i < j < |front| ==> front[j].key != front[i].key;
      }
    }
  }

  /** A non-empty token sets `Authorization`, overriding a listed value, and touches no
      other header; an empty token sends the listed headers as they are. */
  lemma AuthorizationOverride(list: Option<seq<Header>>, token: string)
    ensures token != "" ==> Headers(list, token) == Headers(list, "")["Authorization" := "Bearer " + token]
    ensures token != "" ==> Headers(list, token)["Authorization"] == "Bearer " + token
    ensures token == "" ==> Headers(list, token) == if list.Some? then HeaderMap(list.value) else map[]
  {
  }

  /** The route's header loop. */
  method BuildHeaders(list: Option<seq<Header>>, token: string) returns (headers: map<string, string>)
    ensures headers == Headers(list, token)
  {
    headers := map[];
    if list.Some? {
      var hs := list.value;
      var i := 0;
      while i < |hs|
        invariant 0 <= i <= |hs|
        invariant headers == HeaderMap(hs[..i])
      {
        assert hs[..i + 1][..i] == hs[..i];
        headers := headers[hs[i].key := hs[i].value];
        i := i + 1;
      }
      assert hs[..i] == hs;
    }
    if token != "" {
      headers := headers["Authorization" := "Bearer " + token];
    }
  }

  // ----- body -----

  /** Whether the lower-cased method is one that carries a body. */
  predicate SendsBody(httpMethod: string)
  {
    Text.Lower(httpMethod) in {"post", "put", "patch", "delete"}
  }

  /** The body sent: only for post, put, patch and delete (in any letter case) with a
      non-empty `body.raw`; the parsed JSON when it parses, else the raw string as is. */
  function BodyFor(httpMethod: string, body: Option<Body>, parse: string -> Option<Json>): (r: Option<Payload>)
    ensures r.Some? <==> SendsBody(httpMethod) && body.Some? && Truthy(body.value.raw)
    ensures r.Some? && parse(body.value.raw.value).None? ==> r.value == RawBody(body.value.raw.value)
    ensures r.Some? && parse(body.value.raw.value).Some? ==> r.value == JsonBody(parse(body.value.raw.value).value)
  {
    if SendsBody(httpMethod) && body.Some? && Truthy(body.value.raw) then
      match parse(body.value.raw.value)
      case Some(json) => Some(JsonBody(json))
      case None => Some(RawBody(body.value.raw.value))
    else None
  }

  /** The body rule looks at the method only through its lower-cased form. */
  lemma BodyIgnoresCase(m1: string, m2: string, body: Option<Body>, parse: string -> Option<Json>)
    requires Text.Lower(m1) == Text.Lower(m2)
    ensures BodyFor(m1, body, parse) == BodyFor(m2, body, parse)
  {
  }

  /** "POST" and "post" send the same body; "GET" sends none whatever the item holds. */
  lemma BodyExamples(body: Option<Body>, parse: string -> Option<Json>)
    ensures BodyFor("POST", body, parse) == BodyFor("post", body, parse)
    ensures BodyFor("GET", body, parse) == None
  {
    assert Text.Lower("POST") == "post" == Text.Lower("post");
    assert Text.Lower("GET") == "get";
  }

  // ----- response record -----

  /** `item.name || 'Unnamed API'` */
  function ApiName(name: Option<string>): string
  {
    if Truthy(name) then name.value else "Unnamed API"
  }

  /** The uniform record built from whatever the transport reported: it keeps the
      method as written on the item, and its status is the response's status, else the
      failure's response status, else 'Error' with the failure message as data. */
  function Shape(info: Option<Info>, name: Option<string>, httpMethod: string, url: Option<string>, outcome: Outcome): (r: ResponseRecord)
    ensures r.collectionName == if info.Some? then info.value.name else Some("Unnamed Collection")
    ensures r.apiName == if Truthy(name) then name.value else "Unnamed API"
    ensures r.httpMethod == httpMethod && r.url == url
    ensures r.status.ErrorMarker? <==> outcome.FailedWithoutResponse?
    ensures !outcome.FailedWithoutResponse? ==> r.status == Code(outcome.status) && r.data == outcome.data
    ensures outcome.FailedWithoutResponse? ==> r.data == Str(outcome.message)
  {
    var collectionName := DisplayName(info);
    match outcome
    case Responded(status, data) => ResponseRecord(collectionName, ApiName(name), httpMethod, url, Code(status), data)
    case FailedWithResponse(status, data) => ResponseRecord(collectionName, ApiName(name), httpMethod, url, Code(status), data)
    case FailedWithoutResponse(message) => ResponseRecord(collectionName, ApiName(name), httpMethod, url, ErrorMarker, Str(message))
  }

  /** Success and failure give records of one shape: which collection, which request,
      which method and which url do not depend on the outcome. */
  lemma ShapeIsUniform(info: Option<Info>, name: Option<string>, httpMethod: string, url: Option<string>, o1: Outcome, o2: Outcome)
    ensures Shape(info, name, httpMethod, url, o1).(status := ErrorMarker, data := Null) ==
            Shape(info, name, httpMethod, url, o2).(status := ErrorMarker, data := Null)
  {
  }

  // ----- lookup -----

  /** `items.find(itm => itm.globalId === globalId)`: the first request with that id. */
  function FindItem(items: seq<FlatItem>, globalId: string): (r: Option<nat>)
    ensures r.Some? ==> r.value < |items| && items[r.value].globalId == globalId &&
                        forall j :: 0 <= j < r.value ==> items[j].globalId != globalId
    ensures r.None? ==> forall j :: 0 <= j < |items| ==> items[j].globalId != globalId
  {
    FindFirst(items, (item: FlatItem) => item.globalId == globalId)
  }

  /** A request the route can send: it has a request, a truthy url and a truthy method. */
  predicate Sendable(item: FlatItem)
  {
    item.request.Some? && UrlTruthy(item.request.value.url) && Truthy(item.request.value.httpMethod)
  }

  datatype Resolution = Resolved(entry: Entry, item: FlatItem, request: Request) | Refused(code: int, message: string)

  /** The route's checks, each with its own error, in the route's order. */
  function Resolve(entries: seq<Entry>, collectionId: int, globalId: string): (r: Resolution)
    ensures r.Resolved? ==> r.entry in entries && r.entry.id == collectionId && r.entry.collection.item.Some? &&
                            r.item in r.entry.collection.item.value && r.item.globalId == globalId &&
                            Sendable(r.item) && r.item.request == Some(r.request)
    ensures r.Refused? ==> r.code == 404 || r.code == 400
  {
    match Store.FindEntry(entries, collectionId)
    case None => Refused(404, NoCollectionMessage)
    case Some(k) =>
      match entries[k].collection.item
      case None => Refused(400, BadCollectionMessage)
      case Some(items) =>
        match FindItem(items, globalId)
        case None => Refused(404, NoRequestMessage)
        case Some(j) =>
          if Sendable(items[j]) then Resolved(entries[k], items[j], items[j].request.value)
          else Refused(400, BadRequestMessage)
  }

  ghost predicate FirstWithId(entries: seq<Entry>, k: int, id: int)
  {
    0 <= k < |entries| && entries[k].id == id && forall j :: 0 <= j < k ==> entries[j].id != id
  }

  ghost predicate FirstWithGlobalId(items: seq<FlatItem>, k: int, globalId: string)
  {
    0 <= k < |items| && items[k].globalId == globalId && forall j :: 0 <= j < k ==> items[j].globalId != globalId
  }

  /** The checks stop at the first failure, in this order: unknown collection (404), no
      item array (400), no request with that id (404), and the FIRST request with that id
      lacking a request, url or method (400), even when a later one would be sendable. */
  lemma ResolveOrder(entries: seq<Entry>, id: int, globalId: string)
    ensures (forall k :: 0 <= k < |entries| ==> entries[k].id != id) ==>
              Resolve(entries, id, globalId) == Refused(404, NoCollectionMessage)
    ensures forall k :: FirstWithId(entries, k, id) && entries[k].collection.item.None? ==>
              Resolve(entries, id, globalId) == Refused(400, BadCollectionMessage)
    ensures forall k :: FirstWithId(entries, k, id) && entries[k].collection.item.Some? &&
                        (forall j :: 0 <= j < |entries[k].collection.item.value| ==> entries[k].collection.item.value[j].globalId != globalId) ==>
              Resolve(entries, id, globalId) == Refused(404, NoRequestMessage)
    ensures forall k, j :: FirstWithId(entries, k, id) && entries[k].collection.item.Some? &&
                           FirstWithGlobalId(entries[k].collection.item.value, j, globalId) ==>
              Resolve(entries, id, globalId) ==
                var item := entries[k].collection.item.value[j];
                if Sendable(item) then Resolved(entries[k], item, item.request.value) else Refused(400, BadRequestMessage)
  {
    forall k | FirstWithId(entries, k, id)
      ensures Store.FindEntry(entries, id) == Some(k)
    {
      FirstIdFound(entries, k, id);
    }
    forall k, j | FirstWithId(entries, k, id) && entries[k].collection.item.Some? &&
                  FirstWithGlobalId(entries[k].collection.item.value, j, globalId)
      ensures FindItem(entries[k].collection.item.value, globalId) == Some(j)
    {
      FirstGlobalIdFound(entries[k].collection.item.value, j, globalId);
    }
  }

  lemma FirstIdFound(entries: seq<Entry>, k: int, id: int)
    requires FirstWithId(entries, k, id)
    ensures Store.FindEntry(entries, id) == Some(k)
  {
    var r := Store.FindEntry(entries, id);
    assert r.Some? by { assert entries[k].id == id; }
    assert !(r.value < k) && !(k < r.value);
  }

  lemma FirstGlobalIdFound(items: seq<FlatItem>, j: int, globalId: string)
    requires FirstWithGlobalId(items, j, globalId)
    ensures FindItem(items, globalId) == Some(j)
  {
    var r := FindItem(items, globalId);
    assert r.Some? by { assert items[j].globalId == globalId; }
    assert !(r.value < j) && !(j < r.value);
  }

  /** The transport configuration of the single route: lower-cased method, the raw url,
      the headers with the entry's token, a 30-second timeout and the body rule. */
  function SingleConfig(entry: Entry, request: Request, parse: string -> Option<Json>): (c: Config)
    requires Truthy(request.httpMethod)
    ensures c.timeout == Some(SingleTimeout)
    ensures c.headers == Headers(request.header, entry.token)
    ensures c.verb == Text.Lower(request.httpMethod.value)
  {
    Config(Text.Lower(request.httpMethod.value), RawUrl(request.url), Headers(request.header, entry.token),
           Some(SingleTimeout), BodyFor(request.httpMethod.value, request.body, parse))
  }

  /** The execute-request route over a snapshot of the store's entries. It never fails
      because of the transport: every outcome becomes a record. */
  method ExecuteRequest(entries: seq<Entry>, collectionId: int, globalId: string,
                        parse: string -> Option<Json>, send: Config -> Outcome) returns (reply: Reply)
    ensures match Resolve(entries, collectionId, globalId)
            case Refused(code, message) => reply == Rejected(code, message)
            case Resolved(entry, item, request) =>
              reply == Replied(Shape(entry.collection.info, item.name, request.httpMethod.value, RawUrl(request.url),
                                     send(SingleConfig(entry, request, parse))))
  {
    var resolution := Resolve(entries, collectionId, globalId);
    if resolution.Refused? {
      return Rejected(resolution.code, resolution.message);
    }
    var entry, item, request := resolution.entry, resolution.item, resolution.request;
    var httpMethod := request.httpMethod.value;
    var headers := BuildHeaders(request.header, entry.token);
    var config := Config(Text.Lower(httpMethod), RawUrl(request.url), headers, Some(SingleTimeout),
                         BodyFor(httpMethod, request.body, parse));
    var outcome := send(config);
    reply := Replied(Shape(entry.collection.info, item.name, httpMethod, RawUrl(request.url), outcome));
  }
}
