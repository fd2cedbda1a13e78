/** The server's in-memory `collections` array: filled by the upload route, looked up
    by id, and changed in place by the update-token route. */
module Store {
  import opened Documents
  import Flattener
  import Tokens

  /** `collections.find(col => col.id === id)`: the position of the first entry with
      that id, if any. */
  function FindEntry(entries: seq<Entry>, id: int): (r: Option<nat>)
    ensures r.Some? ==> r.value < |entries| && entries[r.value].id == id &&
                        forall j :: 0 <= j < r.value ==> entries[j].id != id
    ensures r.None? ==> forall j :: 0 <= j < |entries| ==> entries[j].id != id
  {
    FindFirst(entries, (e: Entry) => e.id == id)
  }

  /** The store's invariant: the entry at position i has id i + 1. */
  ghost predicate IdsArePositions(entries: seq<Entry>)
  {
    forall i :: 0 <= i < |entries| ==> entries[i].id == i + 1
  }

  /** In a store whose ids are its positions, id k names the k-th entry, and any id
      outside 1..n is not found. */
  lemma FindInStore(entries: seq<Entry>, id: int)
    requires IdsArePositions(entries)
    ensures FindEntry(entries, id) == if 1 <= id <= |entries| then Some(id - 1) else None
  {
    var r := FindEntry(entries, id);
    if r.Some? {
      assert entries[r.value].id == r.value + 1;
    }
    if 1 <= id <= |entries| {
      assert entries[id - 1].id == id;
    }
  }

  /** The entry the upload route pushes for one parsed document, given the id it gets. */
  function Register(id: int, doc: Document): Entry
  {
    match doc.item
    case Some(nodes) =>
      var flat := Flattener.Flatten(nodes, "");
      Entry(id, DisplayName(doc.info), StoredCollection(doc.info, Some(flat), doc.token), Tokens.LastBearerToken(flat))
    case None =>
      Entry(id, DisplayName(doc.info), StoredCollection(doc.info, None, doc.token), "")
  }

  /** The store after registering `docs` into an emptied store: ids 1..n in input order. */
  function RegisterAll(docs: seq<Document>): seq<Entry>
  {
    seq(|docs|, i requires 0 <= i < |docs| => Register(i + 1, docs[i]))
  }

  /** The documents of an upload batch read before the first file that fails to parse. */
  function ReadablePrefix(files: seq<Option<Document>>): (docs: seq<Document>)
    ensures |docs| <= |files|
    ensures forall i :: 0 <= i < |docs| ==> files[i] == Some(docs[i])
    ensures |docs| < |files| ==> files[|docs|].None?
  {
    if |files| == 0 || files[0].None? then []
    else [files[0].value] + ReadablePrefix(files[1..])
  }

  /** Reading a registered collection back: the k-th document is found under id k + 1,
      keeps its info and top-level token, and holds exactly the flattening of its own
      tree with the last declared bearer token; a document without an item array is
      kept as it is, with token "". */
  lemma RegisterReadBack(docs: seq<Document>, k: nat)
    requires k < |docs|
    ensures FindEntry(RegisterAll(docs), k + 1) == Some(k)
    ensures var e := RegisterAll(docs)[k];
            && e.id == k + 1
            && e.name == DisplayName(docs[k].info)
            && e.collection.info == docs[k].info
            && e.collection.token == docs[k].token
            && (docs[k].item.None? ==> e.collection.item.None? && e.token == "")
            && (docs[k].item.Some? ==>
                  var flat := Flattener.Flatten(docs[k].item.value, "");
                  e.collection.item == Some(flat) && e.token == Tokens.LastBearerToken(flat))
  {
    FindInStore(RegisterAll(docs), k + 1);
  }

  /** The entry after the update-token route: its token is replaced, and so is the bearer
      token of exactly those flattened requests that already declare bearer auth. */
  function WithToken(e: Entry, token: string): (r: Entry)
    ensures r.id == e.id && r.name == e.name && r.token == token
    ensures r.collection.info == e.collection.info && r.collection.token == e.collection.token
    ensures r.collection.item.Some? == e.collection.item.Some?
    ensures e.collection.item.Some? ==>
              |r.collection.item.value| == |e.collection.item.value| &&
              forall i :: 0 <= i < |e.collection.item.value| ==>
                r.collection.item.value[i] == Tokens.Retoken(e.collection.item.value[i], token)
  {
    match e.collection.item
    case None => e.(token := token)
    case Some(items) =>
      var updated := seq(|items|, i requires 0 <= i < |items| => Tokens.Retoken(items[i], token));
      e.(token := token, collection := e.collection.(item := Some(updated)))
  }

  datatype UploadReply = Uploaded(collections: seq<Entry>) | UploadFailed

  /** `UpdateFaulted`: the entry has no item array, so the pass over its items throws
      after the entry's token was already set. */
  datatype UpdateReply = TokenUpdated | CollectionNotFound | UpdateFaulted

  class Store {
    var collections: seq<Entry>

    ghost predicate Valid()
      reads this
    {
      IdsArePositions(collections)
    }

    constructor ()
      ensures Valid() && collections == []
    {
      collections := [];
    }

    /** The upload route. The store is emptied first; each document that parses is
        registered under the next id. A file that fails to parse ends the batch with an
        error, and the documents registered before it stay in the store. */
    method Upload(files: seq<Option<Document>>) returns (reply: UploadReply)
      modifies this
      ensures Valid()
      ensures collections == RegisterAll(ReadablePrefix(files))
      ensures reply == if |ReadablePrefix(files)| == |files| then Uploaded(collections) else UploadFailed
    {
      ghost var docs := ReadablePrefix(files);
      collections := [];
      var i := 0;
      while i < |files|
        invariant 0 <= i <= |docs|
        invariant collections == RegisterAll(docs[..i])
      {
        if files[i].None? {
          assert docs[..i] == docs;
          reply := UploadFailed;
          return;
        }
        var doc := files[i].value;
        var id := |collections| + 1;
        var entry;
        if doc.item.Some? {
          var flat := Flattener.Flatten(doc.item.value, "");
          var token := Tokens.InitialToken(flat);
          entry := Entry(id, DisplayName(doc.info), StoredCollection(doc.info, Some(flat), doc.token), token);
        } else {
          entry := Entry(id, DisplayName(doc.info), StoredCollection(doc.info, None, doc.token), "");
        }
        assert entry == Register(i + 1, docs[i]);
        assert RegisterAll(docs[..i + 1]) == RegisterAll(docs[..i]) + [entry];
        collections := collections + [entry];
        i := i + 1;
      }
      assert docs[..i] == docs;
      reply := Uploaded(collections);
    }

    /** The update-token route. An unknown id changes nothing; otherwise the entry is
        replaced by `WithToken` and every other entry is left as it was. */
    method UpdateToken(collectionId: int, token: string) returns (reply: UpdateReply)
      requires Valid()
      modifies this
      ensures Valid()
      ensures match FindEntry(old(collections), collectionId)
              case None =>
                reply == CollectionNotFound && collections == old(collections)
              case Some(k) =>
                && collections == old(collections)[k := WithToken(old(collections)[k], token)]
                && reply == if old(collections)[k].collection.item.Some? then TokenUpdated else UpdateFaulted
    {
      var found := FindEntry(collections, collectionId);
      if found.None? {
        return CollectionNotFound;
      }
      var k := found.value;
      var entry := collections[k].(token := token);
      collections := collections[k := entry];
      if entry.collection.item.None? {
        return UpdateFaulted;
      }
      var updated := Tokens.RetokenItems(entry.collection.item.value, token);
      ghost var expected := WithToken(old(collections)[k], token);
      assert expected.collection.item.value == updated;
      entry := entry.(collection := entry.collection.(item := Some(updated)));
      assert entry == expected;
      collections := collections[k := entry];
      reply := TokenUpdated;
    }
  }
}
