/** The shapes of the parsed collection documents, of the entries the server keeps
    in memory, and of JavaScript truthiness where the server tests a field with `||`
    or `if (x)`. A field the server may find missing is an `Option`. */
module Documents {

  datatype Option<+T> = None | Some(value: T)

  /** A JSON value as the body parser and the transport hand it over
      (numbers are integers in this model). */
  datatype Json =
    | Null
    | Bool(b: bool)
    | Number(n: int)
    | Str(s: string)
    | Arr(elems: seq<Json>)
    | Obj(fields: seq<(string, Json)>)

  /** An optional string field is truthy when it is present and not empty. */
  predicate Truthy(s: Option<string>)
  {
    s.Some? && s.value != ""
  }

  datatype Header = Header(key: string, value: string)

  datatype Body = Body(raw: Option<string>)

  datatype Bearer = Bearer(token: Option<string>)

  datatype Auth = Auth(bearer: Option<Bearer>)

  /** A request url is either an object with an optional `raw` string or a plain string. */
  datatype Url = UrlObject(raw: Option<string>) | UrlText(text: string)

  /** `header` is None when the field is missing or is not an array. */
  datatype Request = Request(
    httpMethod: Option<string>,
    url: Option<Url>,
    header: Option<seq<Header>>,
    body: Option<Body>,
    auth: Option<Auth>)

  /** The `item` field of a tree node: an array makes the node a folder (even when the
      array is empty); a missing or non-array field makes it a request. */
  datatype Children = NotFolder | Folder(nodes: seq<Node>)

  /** A node of the uploaded tree. */
  datatype Node = Node(name: Option<string>, item: Children, request: Option<Request>)

  /** A leaf of the tree after flattening: its own fields plus the two derived paths. */
  datatype FlatItem = FlatItem(name: Option<string>, request: Option<Request>, fullPath: string, globalId: string)

  datatype Info = Info(name: Option<string>)

  /** An uploaded document. `item` is None when the field is missing or is not an array
      (a string `item` is not modelled; see the bulk route);
      `token` is a top-level `token` field, which exported collections normally lack. */
  datatype Document = Document(info: Option<Info>, item: Option<seq<Node>>, token: Option<string>)

  /** The document as the store keeps it: the item tree replaced by the flattened list. */
  datatype StoredCollection = StoredCollection(info: Option<Info>, item: Option<seq<FlatItem>>, token: Option<string>)

  /** One element of the server's `collections` array. */
  datatype Entry = Entry(id: int, name: Option<string>, collection: StoredCollection, token: string)

  /** `Array.prototype.find` as a position: the first element satisfying `p`, if any. */
  function FindFirst<T>(s: seq<T>, p: T -> bool): (r: Option<nat>)
    ensures r.Some? ==> r.value < |s| && p(s[r.value]) && forall j :: 0 <= j < r.value ==> !p(s[j])
    ensures r.None? ==> forall j :: 0 <= j < |s| ==> !p(s[j])
  {
    if |s| == 0 then None
    else if p(s[0]) then Some(0)
    else match FindFirst(s[1..], p)
      case Some(j) => Some(j + 1)
      case None => None
  }

  /** The display name: `info.name` when `info` exists (which may itself be missing),
      else "Unnamed Collection". */
  function DisplayName(info: Option<Info>): Option<string>
  {
    match info
    case Some(i) => i.name
    case None => Some("Unnamed Collection")
  }

  /** Whether a request declares bearer auth (`request.auth.bearer` is present). */
  predicate HasBearer(item: FlatItem)
  {
    item.request.Some? && item.request.value.auth.Some? && item.request.value.auth.value.bearer.Some?
  }

  /** The declared bearer token, or "" when it is missing or empty (`token || ''`). */
  function BearerToken(item: FlatItem): string
    requires HasBearer(item)
  {
    var t := item.request.value.auth.value.bearer.value.token;
    if Truthy(t) then t.value else ""
  }
}
