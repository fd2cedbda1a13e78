/** The bulk route (server.js, the execute route): every stored request of the
    listed collections, one after another, one record each. It differs from the single
    route as the code does: it reads the token of the stored document rather than the
    entry's token, sets no timeout, and throws on an unknown id, on a collection
    whose `item` field is missing, and on a request it cannot read. A throw is modelled as
    `None`: the route produces no list of records; what the client then sees is up to
    the web framework and the runtime. */
module Bulk {
  import opened Documents
  import Text
  import Store
  import opened Executor

  /** What the loop reads without throwing: a request with some url and some method. */
  predicate Readable(item: FlatItem)
  {
    item.request.Some? && item.request.value.url.Some? && item.request.value.httpMethod.Some?
  }

  /** `step` applied to each element in order; the first None ends the run with None.
      This is the shape of the route's loops, where a throw ends the loop. */
  function Traverse<T, R>(xs: seq<T>, step: T -> Option<R>): Option<seq<R>>
  {
    if |xs| == 0 then Some([])
    else
      match Traverse(xs[..|xs| - 1], step)
      case None => None
      case Some(rs) =>
        match step(xs[|xs| - 1])
        case None => None
        case Some(r) => Some(rs + [r])
  }

  /** A run gets through exactly when every step does. */
  lemma {:induction false} TraverseIff<T, R>(xs: seq<T>, step: T -> Option<R>)
    ensures Traverse(xs, step).Some? <==> forall i :: 0 <= i < |xs| ==> step(xs[i]).Some?
  {
    if |xs| > 0 {
      var n := |xs| - 1;
      var front := xs[..n];
      TraverseIff(front, step);
      assert forall i :: 0 <= i < n ==> front[i] == xs[i];
    }
  }

  /** A run that gets through has one result per element, the i-th from the i-th step. */
  lemma {:induction false} TraverseInOrder<T, R>(xs: seq<T>, step: T -> Option<R>)
    ensures Traverse(xs, step).Some? ==>
              |Traverse(xs, step).value| == |xs| &&
              forall i :: 0 <= i < |xs| ==> Some(Traverse(xs, step).value[i]) == step(xs[i])
  {
    if |xs| > 0 {
      var n := |xs| - 1;
      var front := xs[..n];
      TraverseInOrder(front, step);
      var all, pre := Traverse(xs, step), Traverse(front, step);
      if all.Some? {
        assert all.value == pre.value + [step(xs[n]).value];
        forall i | 0 <= i < n
          ensures Some(all.value[i]) == step(xs[i])
        {
          assert all.value[i] == pre.value[i] && front[i] == xs[i];
        }
      }
    }
  }

  /** A run that stops on a prefix stops on the whole sequence. */
  lemma {:induction false} TraverseFaultIsFinal<T, R>(xs: seq<T>, j: nat, step: T -> Option<R>)
    requires j <= |xs| && Traverse(xs[..j], step).None?
    ensures Traverse(xs, step).None?
    decreases |xs| - j
  {
    if j < |xs| {
      var n := |xs| - 1;
      assert xs[..n][..j] == xs[..j];
      TraverseFaultIsFinal(xs[..n], j, step);
    } else {
      assert xs[..j] == xs;
    }
  }

  /** `collection.token` on the stored document (normally missing), as the header rule sees it. */
  function InnerToken(doc: StoredCollection): string
  {
    if Truthy(doc.token) then doc.token.value else ""
  }

  /** The transport configuration of the bulk route: no timeout, the document's token. */
  function BulkConfig(doc: StoredCollection, request: Request, parse: string -> Option<Json>): (c: Config)
    requires request.httpMethod.Some?
    ensures c.timeout.None?
    ensures c.headers == Headers(request.header, InnerToken(doc))
    ensures c.verb == Text.Lower(request.httpMethod.value)
  {
    Config(Text.Lower(request.httpMethod.value), RawUrl(request.url), Headers(request.header, InnerToken(doc)),
           None, BodyFor(request.httpMethod.value, request.body, parse))
  }

  /** The record of one request, or None when reading it throws. */
  function ItemRecord(doc: StoredCollection, item: FlatItem, parse: string -> Option<Json>, send: Config -> Outcome): (r: Option<ResponseRecord>)
    ensures r.Some? <==> Readable(item)
  {
    if Readable(item) then
      var request := item.request.value;
      Some(Shape(doc.info, item.name, request.httpMethod.value, RawUrl(request.url), send(BulkConfig(doc, request, parse))))
    else None
  }

  /** The records of one collection's requests in order, or None when one of them throws. */
  function CollectionRecords(doc: StoredCollection, items: seq<FlatItem>, parse: string -> Option<Json>, send: Config -> Outcome): Option<seq<ResponseRecord>>
  {
    Traverse(items, (item: FlatItem) => ItemRecord(doc, item, parse, send))
  }

  /** The records of the collection with id `id`, or None when the lookup throws. */
  function EntryRecords(entries: seq<Entry>, id: int, parse: string -> Option<Json>, send: Config -> Outcome): Option<seq<ResponseRecord>>
  {
    match Store.FindEntry(entries, id)
    case None => None
    case Some(k) =>
      match entries[k].collection.item
      case None => None
      case Some(items) => CollectionRecords(entries[k].collection, items, parse, send)
  }

  /** The route's result: all records in order, or None when the route throws. */
  function BulkRecords(entries: seq<Entry>, ids: seq<int>, parse: string -> Option<Json>, send: Config -> Outcome): Option<seq<ResponseRecord>>
  {
    if |ids| == 0 then Some([])
    else
      match BulkRecords(entries, ids[..|ids| - 1], parse, send)
      case None => None
      case Some(rs) =>
        match EntryRecords(entries, ids[|ids| - 1], parse, send)
        case None => None
        case Some(more) => Some(rs + more)
  }

  /** One record per request, in stored order, whatever the transport reports: a failed
      call is recorded like a successful one and never stops the loop. Only a request
      the loop cannot read stops it, and that does not depend on the transport. */
  lemma OneRecordPerItem(doc: StoredCollection, items: seq<FlatItem>, parse: string -> Option<Json>, send: Config -> Outcome)
    ensures CollectionRecords(doc, items, parse, send).Some? <==> forall i :: 0 <= i < |items| ==> Readable(items[i])
    ensures CollectionRecords(doc, items, parse, send).Some? ==>
              |CollectionRecords(doc, items, parse, send).value| == |items| &&
              forall i :: 0 <= i < |items| ==>
                Some(CollectionRecords(doc, items, parse, send).value[i]) == ItemRecord(doc, items[i], parse, send)
  {
    var step := (item: FlatItem) => ItemRecord(doc, item, parse, send);
    TraverseIff(items, step);
    TraverseInOrder(items, step);
  }

  /** Three readable requests of which the second fails in transport still give three
      records, in order, the third included. */
  lemma FailureDoesNotStopBatch(doc: StoredCollection, a: FlatItem, b: FlatItem, c: FlatItem,
                                parse: string -> Option<Json>, send: Config -> Outcome)
    requires Readable(a) && Readable(b) && Readable(c)
    requires send(BulkConfig(doc, b.request.value, parse)).FailedWithoutResponse?
    ensures var rs := CollectionRecords(doc, [a, b, c], parse, send);
            rs.Some? && |rs.value| == 3 &&
            Some(rs.value[0]) == ItemRecord(doc, a, parse, send) &&
            rs.value[1].status == ErrorMarker &&
            Some(rs.value[2]) == ItemRecord(doc, c, parse, send)
  {
    OneRecordPerItem(doc, [a, b, c], parse, send);
  }

  /** Once reading a request throws, the collection's loop has no result. */
  lemma CollectionFaultIsFinal(doc: StoredCollection, items: seq<FlatItem>, j: nat,
                               parse: string -> Option<Json>, send: Config -> Outcome)
    requires j <= |items| && CollectionRecords(doc, items[..j], parse, send).None?
    ensures CollectionRecords(doc, items, parse, send).None?
  {
    TraverseFaultIsFinal(items, j, (item: FlatItem) => ItemRecord(doc, item, parse, send));
  }

  lemma {:induction false} BulkFaultIsFinal(entries: seq<Entry>, ids: seq<int>, i: nat,
                                            parse: string -> Option<Json>, send: Config -> Outcome)
    requires i <= |ids| && BulkRecords(entries, ids[..i], parse, send).None?
    ensures BulkRecords(entries, ids, parse, send).None?
    decreases |ids| - i
  {
    if i < |ids| {
      var n := |ids| - 1;
      assert ids[..n][..i] == ids[..i];
      BulkFaultIsFinal(entries, ids[..n], i, parse, send);
    } else {
      assert ids[..i] == ids;
    }
  }

  /** What the route needs of one listed id to get through it without throwing: a
      stored entry with that id, an item array, and only readable requests. */
  ghost predicate RunnableId(entries: seq<Entry>, id: int)
  {
    match Store.FindEntry(entries, id)
    case None => false
    case Some(k) =>
      entries[k].collection.item.Some? &&
      forall i :: 0 <= i < |entries[k].collection.item.value| ==> Readable(entries[k].collection.item.value[i])
  }

  /** The route produces its records exactly when every listed id is runnable; in
      particular an unknown id anywhere in the list makes the whole route throw. The
      transport's outcomes play no part in this. */
  lemma {:induction false} BulkRunsIff(entries: seq<Entry>, ids: seq<int>, parse: string -> Option<Json>, send: Config -> Outcome)
    ensures BulkRecords(entries, ids, parse, send).Some? <==> forall i :: 0 <= i < |ids| ==> RunnableId(entries, ids[i])
  {
    if |ids| > 0 {
      var n := |ids| - 1;
      BulkRunsIff(entries, ids[..n], parse, send);
      EntryRunsIff(entries, ids[n], parse, send);
      BulkStep(entries, ids, parse, send);
      RunnableSplit(entries, ids, ids[..n]);
    }
  }

  /** The route gets through a list exactly when it gets through all ids but the last
      and then through the last. */
  lemma BulkStep(entries: seq<Entry>, ids: seq<int>, parse: string -> Option<Json>, send: Config -> Outcome)
    requires |ids| > 0
    ensures BulkRecords(entries, ids, parse, send).Some? <==>
            BulkRecords(entries, ids[..|ids| - 1], parse, send).Some? && EntryRecords(entries, ids[|ids| - 1], parse, send).Some?
  {
  }

  lemma RunnableSplit(entries: seq<Entry>, ids: seq<int>, front: seq<int>)
    requires |ids| > 0 && front == ids[..|ids| - 1]
    ensures (forall i :: 0 <= i < |ids| ==> RunnableId(entries, ids[i])) <==>
            (forall i :: 0 <= i < |front| ==> RunnableId(entries, front[i])) && RunnableId(entries, ids[|ids| - 1])
  {
    assert forall i :: 0 <= i < |front| ==> front[i] == ids[i];
  }

  /** One listed id gets through the route exactly when it is runnable. */
  lemma EntryRunsIff(entries: seq<Entry>, id: int, parse: string -> Option<Json>, send: Config -> Outcome)
    ensures EntryRecords(entries, id, parse, send).Some? <==> RunnableId(entries, id)
  {
    match Store.FindEntry(entries, id) {
      case None =>
      case Some(k) =>
        if entries[k].collection.item.Some? {
          OneRecordPerItem(entries[k].collection, entries[k].collection.item.value, parse, send);
        }
    }
  }

  /** `collections.find(...).collection` on an id with no entry throws, ending the route. */
  lemma UnknownIdFaults(entries: seq<Entry>, ids: seq<int>, i: nat, parse: string -> Option<Json>, send: Config -> Outcome)
    requires i < |ids| && Store.FindEntry(entries, ids[i]).None?
    ensures BulkRecords(entries, ids, parse, send).None?
  {
    BulkRunsIff(entries, ids, parse, send);
  }

  /** The number of requests the collection with id `id` holds, as the route finds it. */
  function ItemCount(entries: seq<Entry>, id: int): nat
  {
    match Store.FindEntry(entries, id)
    case None => 0
    case Some(k) => if entries[k].collection.item.Some? then |entries[k].collection.item.value| else 0
  }

  function TotalItems(entries: seq<Entry>, ids: seq<int>): nat
  {
    if |ids| == 0 then 0 else TotalItems(entries, ids[..|ids| - 1]) + ItemCount(entries, ids[|ids| - 1])
  }

  /** A bulk run that replies holds exactly one record per request of the listed
      collections, collections repeated as often as they are listed. */
  lemma {:induction false} BulkRecordCount(entries: seq<Entry>, ids: seq<int>, parse: string -> Option<Json>, send: Config -> Outcome)
    ensures BulkRecords(entries, ids, parse, send).Some? ==>
              |BulkRecords(entries, ids, parse, send).value| == TotalItems(entries, ids)
  {
    if |ids| > 0 {
      var n := |ids| - 1;
      BulkRecordCount(entries, ids[..n], parse, send);
      match Store.FindEntry(entries, ids[n]) {
        case None =>
        case Some(k) =>
          if entries[k].collection.item.Some? {
            OneRecordPerItem(entries[k].collection, entries[k].collection.item.value, parse, send);
          }
      }
    }
  }

  /** The token the update-token route stores is not what the bulk route sends: after an
      update, the single route sends `Authorization: Bearer <token>` while the bulk route
      sends only the listed headers, as long as the document had no top-level token. */
  lemma BulkIgnoresStoredToken(e: Entry, token: string, request: Request, parse: string -> Option<Json>)
    requires Truthy(request.httpMethod) && token != "" && !Truthy(e.collection.token)
    ensures var updated := Store.WithToken(e, token);
            && BulkConfig(updated.collection, request, parse).headers == Headers(request.header, "")
            && SingleConfig(updated, request, parse).headers["Authorization"] == "Bearer " + token
  {
  }

  /** The inner loop of the bulk route: the requests of one collection in stored order. */
  method ExecuteCollection(doc: StoredCollection, items: seq<FlatItem>, parse: string -> Option<Json>, send: Config -> Outcome)
    returns (records: Option<seq<ResponseRecord>>)
    ensures records == CollectionRecords(doc, items, parse, send)
  {
    var acc: seq<ResponseRecord> := [];
    var j := 0;
    while j < |items|
      invariant 0 <= j <= |items|
      invariant CollectionRecords(doc, items[..j], parse, send) == Some(acc)
    {
      assert items[..j + 1][..j] == items[..j];
      var item := items[j];
      if !Readable(item) {
        CollectionFaultIsFinal(doc, items, j + 1, parse, send);
        return None;
      }
      var request := item.request.value;
      var httpMethod := request.httpMethod.value;
      var headers := BuildHeaders(request.header, InnerToken(doc));
      var config := Config(Text.Lower(httpMethod), RawUrl(request.url), headers, None,
                           BodyFor(httpMethod, request.body, parse));
      var outcome := send(config);
      acc := acc + [Shape(doc.info, item.name, httpMethod, RawUrl(request.url), outcome)];
      j := j + 1;
    }
    assert items[..j] == items;
    records := Some(acc);
  }

  /** The bulk route over a snapshot of the store's entries. */
  method ExecuteAll(entries: seq<Entry>, ids: seq<int>, parse: string -> Option<Json>, send: Config -> Outcome)
    returns (responses: Option<seq<ResponseRecord>>)
    ensures responses == BulkRecords(entries, ids, parse, send)
  {
    var acc: seq<ResponseRecord> := [];
    var i := 0;
    while i < |ids|
      invariant 0 <= i <= |ids|
      invariant BulkRecords(entries, ids[..i], parse, send) == Some(acc)
    {
      assert ids[..i + 1][..i] == ids[..i];
      var found := Store.FindEntry(entries, ids[i]);
      if found.None? || entries[found.value].collection.item.None? {
        BulkFaultIsFinal(entries, ids, i + 1, parse, send);
        return None;
      }
      var doc := entries[found.value].collection;
      var records := ExecuteCollection(doc, doc.item.value, parse, send);
      if records.None? {
        BulkFaultIsFinal(entries, ids, i + 1, parse, send);
        return None;
      }
      acc := acc + records.value;
      i := i + 1;
    }
    assert ids[..i] == ids;
    responses := Some(acc);
  }
}
