# Postman collection runner: flattening, token and replay model

This project models the backend of a small server that takes exported Postman
collections, flattens their nested folders into a list of addressable requests,
keeps them in an in-memory store with a bearer token per collection, and replays
the requests one at a time or in bulk. Everything it models is in
`postman-collection-backend/server.js`.

Modules, one per part of that file:

- `Documents` (documents.dfy): the parsed documents, tree nodes, flattened
  requests, store entries, and JavaScript truthiness for the fields the server tests
  with `||` or `if (x)`. A field the server may find missing is an `Option`. A node
  whose `item` field is an array is a `Folder`, even when the array is empty.
- `Text` (text.dfy): lower-casing of methods, and decimal numerals for "Item k".
- `Flattener` (flattener.dfy): `flattenItems`. `Flatten` and `FlattenNode` follow
  the code. `Leaves` is an independent pre-order reference, and the lemmas tie the
  two together.
- `Tokens` (tokens.dfy): the last-wins initial token scan, and the rewrite of
  `bearer.token` done by update-token.
- `Store` (store.dfy): the `collections` array as a class. It has `Upload` and
  `UpdateToken`, the `find` by id, and the entry that registration builds for each
  document.
- `Executor` (executor.dfy): the execute-request route. It covers the lookup chain
  with its four errors, the header object, the body rule, and the uniform response
  record. `send` (the HTTP call) and `parse` (`JSON.parse`) are parameters.
- `Bulk` (bulk.dfy): the execute route. Its nested loop appends one record per
  request. `Traverse` is the shape of its inner loop (each step in order, the
  first throw ends the loop), with its properties proved once.

Behaviour of the code that the model keeps on purpose:

- Upload empties the store first and does not roll back. If a later file fails to
  parse, the documents registered before it stay in the store, even though the
  route answers with an error (`Store.Store.Upload`).
- The bulk route reads `token` from the stored document, not from the entry. So
  the token set by update-token, or found at upload, is not sent in bulk
  (`Bulk.BulkIgnoresStoredToken`).
- The bulk route sets no timeout. It throws on an unknown collection id, on a
  collection whose `item` field is missing, and on a request without a request object,
  url or method; the model then gives no list of records (`None`). What the client
  sees after that throw depends on the web framework and the runtime, and is not
  modelled. An empty method or an empty url string is only rejected by the single
  route.
- Update-token sets the entry's token before it walks the items. On an entry
  without an item array the walk throws, and the new token stays
  (`UpdateFaulted`).

## Model

| member | source | states |
|---|---|---|
| `Text.Lower` | postman-collection-backend/server.js:161 | lower-casing keeps the length and maps each character to its lower-case form (ASCII letters only) |
| `Text.Decimal` | postman-collection-backend/server.js:38 | the numeral of a position is a non-empty string of decimal digits |
| `Text.DecimalValue` | postman-collection-backend/server.js:38 | the numeral written for n reads back as n |
| `Text.DecimalInjective` | postman-collection-backend/server.js:38 | different positions are written as different numerals |
| `Flattener.Segment` | postman-collection-backend/server.js:38 | the path segment is the node's name, or "Item k" (k the 1-based position) when the name is missing or empty; it is never empty |
| `Flattener.UnnamedSegmentsDiffer` | postman-collection-backend/server.js:38 | unnamed or empty-named siblings at different positions get different segments, so their paths and ids differ |
| `Flattener.Flatten` | postman-collection-backend/server.js:35-52 | `flattenItems` over a sibling list: each sibling in turn, flattened by `FlattenNode` at its position. Characterized by `FlattenEmitsLeaves`, `FlattenIdsArePaths`, `FlattenPrefix` and `FlattenPlacesChild` |
| `Flattener.FlattenNode` | postman-collection-backend/server.js:38-49 | one sibling: a node with an `item` array is flattened under its path; any other node becomes one request with `fullPath` and `globalId`. Characterized by `FlattenNodeEmitsLeaves` and `FlattenNodeIdsArePaths` |
| `Flattener.Leaves` | postman-collection-backend/server.js:39-48 | the pre-order reference list holds only nodes without an `item` array |
| `Flattener.FlattenEmitsLeaves` | postman-collection-backend/server.js:35-52 | flattening emits exactly the non-folder nodes, in pre-order, with their own name and request; folders, empty ones included, contribute no entry |
| `Flattener.FlattenNodeEmitsLeaves` | postman-collection-backend/server.js:39-48 | one node flattens to its own request, or to the pre-order requests of its children when it is a folder |
| `Flattener.FlattenIdsArePaths` | postman-collection-backend/server.js:38-47 | every emitted request has `globalId` equal to `fullPath`, and both start with `parentPath + "/"` |
| `Flattener.FlattenNodeIdsArePaths` | postman-collection-backend/server.js:38-48 | the same for the requests below one node, including those nested in folders |
| `Flattener.FlattenPrefix` | postman-collection-backend/server.js:37-50 | flattening the first j siblings gives a prefix of flattening all of them (siblings are appended in order) |
| `Flattener.FlattenPlacesChild` | postman-collection-backend/server.js:37-50 | sibling k lands right after the requests of siblings 0..k-1: a request as one item with paths `parentPath/<segment>`, a folder as the flattening of its children under that path |
| `Flattener.NestedFolderExample` | postman-collection-backend/server.js:35-52 | A > [B, C > [D]] flattens to B then D with paths "/A/B" and "/A/C/D" |
| `Flattener.UnnamedSiblingExample` | postman-collection-backend/server.js:38 | an unnamed or empty-named request at position 2 gets path and id "/Item 2" |
| `Tokens.LastBearerTokenWins` | postman-collection-backend/server.js:71-79 | the initial token comes from the last request declaring bearer auth, "" if its token is missing or empty even when an earlier one had a token, and "" when none declares it |
| `Tokens.InitialToken` | postman-collection-backend/server.js:71-79 | the upload scan's loop computes exactly that last-wins token |
| `Tokens.Retoken` | postman-collection-backend/server.js:119-123 | a request declaring bearer auth gets the new bearer token with all else unchanged; one without bearer auth is left exactly as it was, and none gains auth |
| `Tokens.RetokenItems` | postman-collection-backend/server.js:119-123 | the update loop gives every request of the list its `Retoken`ed form, keeping length and order; `UpdateToken` stores the rewritten list back into the entry |
| `Documents.FindFirst` | postman-collection-backend/server.js:114 | `find` gives the first element that matches, or not-found when none does. The store lookups by id and the request lookup by `globalId` all use it |
| `Documents.DisplayName` | postman-collection-backend/server.js:83 | `info.name` when `info` exists (possibly missing itself), else "Unnamed Collection"; the records state it through the contract of `Executor.Shape` |
| `Store.FindEntry` | postman-collection-backend/server.js:114 | the lookup by id gives the first entry with that id, or not-found when no entry has it |
| `Store.FindInStore` | postman-collection-backend/server.js:81-93 | in a store whose entry at position i has id i+1, id k finds entry k-1, and ids outside 1..n are not found |
| `Store.ReadablePrefix` | postman-collection-backend/server.js:62-65 | the documents processed before the first file that fails to parse, in order |
| `Store.Register` | postman-collection-backend/server.js:70-97 | the entry pushed for one document: its id, display name, the document with its items flattened when it has an item array, and the last-wins token. Characterized by `RegisterReadBack` |
| `Store.RegisterAll` | postman-collection-backend/server.js:60-101 | the entries for the readable documents, with ids 1..n in order. Characterized by `RegisterReadBack` and `FindInStore` |
| `Store.RegisterReadBack` | postman-collection-backend/server.js:70-97 | the k-th uploaded document is found under id k+1 with its display name, info and top-level token kept. A document with an item array holds exactly its flattening and the last-wins token. Any other document is stored without items and with token "" |
| `Store.WithToken` | postman-collection-backend/server.js:116-123 | an updated entry keeps its id, name and info, takes the new token, and each of its requests is `Retoken`ed |
| `Store.Store.constructor` | postman-collection-backend/server.js:32 | the store starts empty |
| `Store.Store.Upload` | postman-collection-backend/server.js:55-108 | the store is emptied and refilled with the registration of the readable prefix, ids 1..n in order. The reply lists the collections only when every file was read |
| `Store.Store.UpdateToken` | postman-collection-backend/server.js:111-132 | an unknown id reports not-found and changes nothing. Otherwise only the first entry with that id changes, to `WithToken`. The update faults when that entry has no item array. The store keeps its ids 1..n |
| `Executor.HeaderMap` | postman-collection-backend/server.js:165-169 | the header object built from the listed headers in order. Characterized by `HeaderMapLastWins` |
| `Executor.HeaderMapLastWins` | postman-collection-backend/server.js:165-169 | the header object has exactly the listed keys, each with the value of its last occurrence |
| `Executor.Headers` | postman-collection-backend/server.js:162-174 | the listed headers, then `Authorization` from the token. Characterized by `AuthorizationOverride` |
| `Executor.AuthorizationOverride` | postman-collection-backend/server.js:171-174 | a non-empty token sets `Authorization: Bearer <token>`, overriding a listed value and nothing else; an empty token adds nothing |
| `Executor.BuildHeaders` | postman-collection-backend/server.js:162-174 | the header loop builds exactly the headers described above |
| `Executor.BodyFor` | postman-collection-backend/server.js:184-193 | a body is attached iff the lower-cased method is post, put, patch or delete and `body.raw` is non-empty. It is the parsed JSON when parsing succeeds, else the raw string unchanged |
| `Executor.BodyIgnoresCase` | postman-collection-backend/server.js:161-185 | methods with the same lower-case form get the same body |
| `Executor.BodyExamples` | postman-collection-backend/server.js:185-193 | "POST" and "post" send the same body; "GET" sends none |
| `Executor.ApiName` | postman-collection-backend/server.js:199 | `item.name` when it is non-empty, else "Unnamed API"; the records state it through the contract of `Executor.Shape` |
| `Executor.Shape` | postman-collection-backend/server.js:195-214 | the record names the collection by `info.name` (or "Unnamed Collection" without `info`) and the request by its non-empty name (or "Unnamed API"), and keeps the method as written and the url. Its status is the response status, else the failure's response status with its data, else 'Error' with the message |
| `Executor.ShapeIsUniform` | postman-collection-backend/server.js:197-213 | collection name, API name, method and url of the record do not depend on the transport outcome |
| `Executor.FindItem` | postman-collection-backend/server.js:150 | the lookup by `globalId` gives the first request with that id, or not-found when none has it |
| `Executor.Resolve` | postman-collection-backend/server.js:138-158 | a resolved request belongs to a stored entry with that id and an item array, has the asked `globalId`, and has a request, url and method; every refusal is 400 or 404 |
| `Executor.ResolveOrder` | postman-collection-backend/server.js:138-158 | the checks stop at the first failure, in order: no collection 404, no item array 400, no request with that id 404, and a first match lacking request, url or method 400, even when a later match would pass |
| `Executor.SingleConfig` | postman-collection-backend/server.js:160-193 | the single route sends the lower-cased method, the entry token's headers and a 30-second timeout |
| `Executor.ExecuteRequest` | postman-collection-backend/server.js:135-215 | each refusal is answered with its status and message. Otherwise exactly one record is returned, shaped from whatever the transport reports for that configuration |
| `Bulk.Traverse` | postman-collection-backend/server.js:222-281 | each step in order, the first step that throws ending the whole loop. Characterized by `TraverseIff`, `TraverseInOrder` and `TraverseFaultIsFinal` |
| `Bulk.TraverseIff` | postman-collection-backend/server.js:224-280 | a loop gets through exactly when every step does |
| `Bulk.TraverseInOrder` | postman-collection-backend/server.js:224-280 | a loop that gets through gives one result per element, the i-th from the i-th step |
| `Bulk.TraverseFaultIsFinal` | postman-collection-backend/server.js:224-280 | a loop that throws on a prefix throws on the whole sequence |
| `Bulk.Readable` | postman-collection-backend/server.js:225-227 | the request can be read without throwing: it has a request object, a url and a method. Used by `OneRecordPerItem` and `BulkRunsIff` |
| `Bulk.BulkConfig` | postman-collection-backend/server.js:226-258 | the bulk route sets no timeout and takes its token from the stored document's own `token` field |
| `Bulk.ItemRecord` | postman-collection-backend/server.js:225-279 | the record of one request, present exactly when the request is readable |
| `Bulk.CollectionRecords` | postman-collection-backend/server.js:224-280 | the records of one collection's loop. Characterized by `OneRecordPerItem` and `CollectionFaultIsFinal` |
| `Bulk.EntryRecords` | postman-collection-backend/server.js:223-280 | the records of the collection with a listed id, or none when the lookup throws. Characterized by `EntryRunsIff` |
| `Bulk.BulkRecords` | postman-collection-backend/server.js:222-281 | all records of the route in order, or none when it throws. Characterized by `BulkRunsIff`, `BulkFaultIsFinal` and `BulkRecordCount` |
| `Bulk.OneRecordPerItem` | postman-collection-backend/server.js:224-280 | the loop over one collection gives one record per request, in stored order, whatever the transport reports. It stops only on a request it cannot read, which does not depend on the transport |
| `Bulk.FailureDoesNotStopBatch` | postman-collection-backend/server.js:260-279 | three requests whose second fails in transport give three records in order, the second with status 'Error' |
| `Bulk.CollectionFaultIsFinal` | postman-collection-backend/server.js:224-227 | once reading a request throws, the whole collection's loop has no result |
| `Bulk.BulkFaultIsFinal` | postman-collection-backend/server.js:222-223 | once a lookup or a request throws, the route produces no records at all |
| `Bulk.EntryRunsIff` | postman-collection-backend/server.js:223-280 | one listed id gets through exactly when it names a stored entry with an item array whose requests are all readable |
| `Bulk.BulkRunsIff` | postman-collection-backend/server.js:222-281 | the route produces its records exactly when every listed id gets through, whatever the transport reports |
| `Bulk.UnknownIdFaults` | postman-collection-backend/server.js:223 | an unknown id anywhere in the list makes the route throw |
| `Bulk.BulkRecordCount` | postman-collection-backend/server.js:222-281 | a reply holds exactly as many records as the listed collections hold requests |
| `Bulk.BulkIgnoresStoredToken` | postman-collection-backend/server.js:116-239 | after an update-token, the single route sends `Bearer <token>` (lines 172-173), while the bulk route, which reads the stored document's own `token` (lines 238-239), sends only the listed headers when the document has no top-level token |
| `Bulk.ExecuteCollection` | postman-collection-backend/server.js:224-280 | the inner loop computes exactly the records of one collection, or none when a request throws |
| `Bulk.ExecuteAll` | postman-collection-backend/server.js:218-284 | the nested loop computes exactly the records described above, or none when the route throws |

## Left out

- HTTP plumbing: Express routing, CORS, multer, payload limits and `app.listen`. A
  route's reply is a datatype.
- File reading, deleting the uploaded files, and logging. Upload takes each file
  as an already parsed document, or as `None` when reading or `JSON.parse` fails.
  A missing `req.files` is not modelled.
- The HTTP call (axios). It is the parameter `send`, a function of the request
  configuration, so two identical requests in one bulk run get the same outcome.
  The 30-second timeout is only a field of that configuration.
- `JSON.parse` of a request body. It is the parameter `parse`. JSON numbers are
  integers in this model.
- `toLowerCase` is modelled on ASCII letters only.
- Values of the wrong JavaScript type are not modelled: a non-string name, method
  or header key, a `null` node in a tree, or a `__proto__` header key. Nor is a
  document whose top-level `item` is a string: upload stores it unchanged, and the
  bulk loop's `for…of` iterates it, so `""` gives no records and no throw, while the
  model treats it as a missing item array and throws. Fields copied by the object
  spreads other than those in `Documents` are not modelled either.
- Concurrency is left out. The routes run one at a time. `ExecuteRequest` and
  `ExecuteAll` read a snapshot of the store's entries, so a token update that lands
  during a bulk run is not modelled.
- What the client of the bulk route sees after the route throws. The model stops at
  `None`; the answer (or the lack of one) is up to the web framework and the runtime.
- The React front end (`App.js`, `CollectionCard.js`, `FileUpload.js`) is display
  and upload glue and is not part of this model.
