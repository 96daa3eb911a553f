# Todo store

A model of the in-memory store behind a small todo-list HTTP service
(`02-nodejs/todoServer.js`). The service keeps its todo items in one
module-level array. Five route handlers work on that array:

- list all items;
- get one item by id;
- create an item, whose id is the array length plus one;
- update an item's title and description, but only with values that are truthy;
- delete an item by id.

Lookups by id are linear searches, and they act on the first item that
matches.

The project has four modules:

- `TodoModel` (`todo_model.dfy`): the values and the store operations as
  functions on the ordered collection.
  - `Todo`, `Fields` (a request body's `title` and `description`) and
    `Reply` (`Found` or `NotFound`).
  - `FindIndex` is `findIndex`, `Lookup` is `find`.
  - `Add`, `Change` and `Remove` are the effects of create, update and delete.
  - `CreateAll` is a run of creates.
  - An absent JSON field is `None`. `Truthy` is JavaScript truthiness of an
    optional string: present and not empty.
  - The route parameter is the result of `parseInt`, as `Option<int>`.
    `None` stands for NaN, which is equal to no id.
- `TodoLaws` (`todo_laws.dfy`): lemmas about those functions.
  - How ids are assigned.
  - Which item a lookup finds.
  - What an update can and cannot change.
  - What a delete removes.
  - The id reuse that position-based ids allow.
- `TodoRoutes` (`todo_routes.dfy`): the handlers' responses.
  - Status codes 200, 201 and 404.
  - The JSON bodies, including `{error: "Todo not found"}` and
    `{error: "Route not found"}`.
  - `Serve` answers one request already parsed by the HTTP layer, and `Run`
    answers a sequence of them.
- `TodoStore` (`todo_store.dfy`): the class `Store`.
  - Its field `todos` is the live array.
  - Its methods change that field in place. `IndexOf` is the shared linear
    search, written as a loop.
  - Each method is proved against the matching function of `TodoModel` or
    `TodoRoutes`.

The model follows the code as written, including where it falls short of
what the file's header comment asks for:

- The header asks for a unique id for each item (02-nodejs/todoServer.js:7).
  The code does not keep ids unique, because ids are positional. When the
  ids are 1, 2, …, n in that order, as after creates on an empty store, a create that
  follows the delete of any item but the last reuses id n. The surviving
  last item still holds that id (`ReusedIdAfterDelete`). Other histories
  need not collide.
- A Get after a Delete of an id finds the next item after the deleted one
  that holds the same id. It is NotFound exactly when no later item holds
  that id (`GetAfterDeleteNext`). So it is NotFound when ids are unique
  (`GetAfterDelete`). `GetAfterDeleteSharedId` is a two-item example where
  the Get still finds an item.
- "A Get after a Create returns the new item" holds only when no older item
  holds the new id. Otherwise the older item is found (`GetAfterCreate`).

## Model

| member | source | states |
|---|---|---|
| `TodoModel.FindIndex` | 02-nodejs/todoServer.js:128 | the result is -1 exactly when no item's id equals the parsed parameter; otherwise it is the position of a matching item with no match before it |
| `TodoModel.Lookup` | 02-nodejs/todoServer.js:94-99 | NotFound exactly when no item matches; otherwise the item found has the requested id and sits at a position with no match before it |
| `TodoModel.Add` | 02-nodejs/todoServer.js:104-107 | the collection grows by one, the old items stay as its prefix, and the new last item has id old length + 1; `CreateAppends` and `GetAfterCreate` state the rest |
| `TodoModel.Patch` | 02-nodejs/todoServer.js:117-118 | the id is kept, and with no truthy field the item is unchanged; `UpdateNeverBlanks` and `UpdateFields` state the rule that a truthy supplied value replaces the old one |
| `TodoModel.Change` | 02-nodejs/todoServer.js:115-122 | length and every id kept; NotFound exactly when no item matches, and then nothing changes; a found reply has the requested id; `UpdateFields`, `UpdateWithoutFields`, `UpdateIdempotent` and `MissingIdChangesNothing` state the rest |
| `TodoModel.Remove` | 02-nodejs/todoServer.js:128-134 | NotFound exactly when no item matches, and then nothing changes; otherwise the removed item has the requested id and the length drops by one; `DeleteFirstMatch` and `GetAfterDeleteNext` state the rest |
| `TodoRoutes.Answer` | 02-nodejs/todoServer.js:95-99 | a found item is answered 200 with the item itself as the body; NotFound is answered 404 with `{error: "Todo not found"}` |
| `TodoRoutes.Serve` | 02-nodejs/todoServer.js:86-140 | a POST adds one item, a DELETE of a present id removes one, and every other request keeps the length; `ServeStatus` states the status codes and the 404 bodies, `ServeBodies` the 200 and 201 bodies |
| `TodoLaws.GetFirstMatch` | 02-nodejs/todoServer.js:93-99 | Get is NotFound iff no id matches, and always NotFound for a parameter that did not parse; when found, the item is the first one whose id equals the parameter |
| `TodoLaws.CreateAppends` | 02-nodejs/todoServer.js:104-107 | create adds exactly one item, at the end, with id old length + 1 and the given title and description; earlier items are unchanged and in order |
| `TodoLaws.CreateAllExtends` | 02-nodejs/todoServer.js:105-108 | k creates on any collection keep it as a prefix, append one item per body in order, and return the ids old length + 1, + 2, ... |
| `TodoLaws.FreshStoreIds` | 02-nodejs/todoServer.js:105-107 | from an empty store, n creates give the items ids 1..n in order and return 1..n; the ids are unique |
| `TodoLaws.CreateKeepsNumbered` | 02-nodejs/todoServer.js:105-107 | when the ids are exactly 1..n, a create keeps them exactly 1..n+1, so unique |
| `TodoLaws.GetAfterCreate` | 02-nodejs/todoServer.js:92-109 | a Get for the id a create returned always finds an item with that id; it is the new item with the given fields when no earlier item held that id, otherwise that earlier item |
| `TodoLaws.UpdateFields` | 02-nodejs/todoServer.js:115-119 | on a found item, the title becomes the supplied title if truthy and otherwise keeps its old value, the same for the description; id, length and all other items unchanged; the updated item is returned |
| `TodoLaws.UpdateNeverBlanks` | 02-nodejs/todoServer.js:117-118 | after an update a title is truthy exactly when the supplied title or the old one was, the same for the description: an update never blanks a field |
| `TodoLaws.UpdateWithoutFields` | 02-nodejs/todoServer.js:117-118 | an update whose two fields are absent or empty leaves the collection exactly as it was and answers what Get answers |
| `TodoLaws.UpdateIdempotent` | 02-nodejs/todoServer.js:115-118 | applying the same update twice gives the same collection and reply as applying it once |
| `TodoLaws.UpdateKeepsNumbered` | 02-nodejs/todoServer.js:115-118 | an update keeps ids exactly 1..n, since it never changes an id |
| `TodoLaws.DeleteFirstMatch` | 02-nodejs/todoServer.js:128-131 | a delete on a found id returns the first matching item, removes exactly it (length drops by one), and keeps the other items in their relative order; the multiset of items loses just that item |
| `TodoLaws.GetAfterDelete` | 02-nodejs/todoServer.js:92-135 | with unique ids, a Get for an id just deleted is NotFound |
| `TodoLaws.GetAfterDeleteNext` | 02-nodejs/todoServer.js:92-135 | for any collection and any id that is found, a Get after the Delete of that id answers what a Get over the items after the deleted one answers; it is NotFound exactly when none of those later items holds the id |
| `TodoLaws.GetAfterDeleteSharedId` | 02-nodejs/todoServer.js:126-131 | witness: on the collection of two items with id 1, titles "a" and "b", deleting id 1 removes and returns the first, and a Get for id 1 then finds the second |
| `TodoLaws.MissingIdChangesNothing` | 02-nodejs/todoServer.js:92-135 | Get, Update and Delete with an id no item holds, or a parameter that did not parse, answer NotFound and leave the collection unchanged |
| `TodoLaws.ReusedIdAfterDelete` | 02-nodejs/todoServer.js:103-135 | after n >= 2 creates from empty, deleting any item but the last and creating again assigns id n, which the last surviving item already holds; ids are no longer unique, and a Get for n finds the older item |
| `TodoRoutes.ServeStatus` | 02-nodejs/todoServer.js:86-140 | for every request that reached a handler, every response is 200, 201 or 404; 201 exactly for POST; 404 exactly for an unknown route or an id that matches no item, with the matching error message and the collection unchanged |
| `TodoRoutes.ServeBodies` | 02-nodejs/todoServer.js:86-135 | GET /todos answers with the whole collection; POST answers `{id}` with the id of the item it appended; PUT of a present id answers with the item as stored after the update; GET and DELETE of a present id answer with the first matching item |
| `TodoRoutes.ReadsChangeNothing` | 02-nodejs/todoServer.js:86-100 | GET requests and unknown routes leave the collection unchanged |
| `TodoRoutes.Session` | 02-nodejs/todoServer.js:86-140 | for any title (empty included) and any description, the session POST `{title, description}`, GET 1, PUT 1 with the title only, DELETE 1, GET 1, unknown route answers 201 `{id: 1}`, then the item three times with its description kept, then 404 `Todo not found` and 404 `Route not found`, and leaves the store empty |
| `TodoStore.Store.constructor` | 02-nodejs/todoServer.js:51-76 | the collection starts as the parsed snapshot file, or empty when reading or parsing failed |
| `TodoStore.Store.List` | 02-nodejs/todoServer.js:87-89 | returns the whole collection |
| `TodoStore.Store.IndexOf` | 02-nodejs/todoServer.js:128 | the loop returns -1 exactly when no item matches, otherwise the position of the first match; this equals `FindIndex` |
| `TodoStore.Store.Get` | 02-nodejs/todoServer.js:92-100 | NotFound exactly when no item matches, otherwise a matching item, namely `Lookup` of the collection; nothing changes |
| `TodoStore.Store.Create` | 02-nodejs/todoServer.js:103-109 | returns old length + 1 and appends `{id, title, description}` at the end, leaving the rest as it was |
| `TodoStore.Store.Update` | 02-nodejs/todoServer.js:112-123 | the new collection and the reply are `Change` of the old collection |
| `TodoStore.Store.Delete` | 02-nodejs/todoServer.js:126-135 | the new collection and the reply are `Remove` of the old collection |
| `TodoStore.Store.Handle` | 02-nodejs/todoServer.js:86-140 | the new collection and the response are `Serve` of the old collection and the request |

## Left out

- Express set-up, JSON body parsing and the routing itself
  (02-nodejs/todoServer.js:42-48). These are framework wiring. The HTTP layer
  is assumed to hand over a parsed `Request`. Every method and path
  outside the five routes becomes `Unmatched`, other than HEAD, which
  Express answers with the GET handlers (02-nodejs/todoServer.js:87, 92);
  a HEAD request is modelled as the matching `ListAll` or `GetOne`, and
  the empty body Express then sends is not modelled.
- Writing the snapshot file after every response (`saveTodosToFile` and the
  `finish` hook, 02-nodejs/todoServer.js:54-62, 79-84). This is asynchronous
  file I/O whose failures are only logged. The collection is not affected by
  it, so save/load round trips are not stated.
- Reading the snapshot file (`loadTodosFromFile`, 02-nodejs/todoServer.js:65-73).
  This is file I/O plus `JSON.parse`. Its result is a constructor parameter:
  the parsed collection, or `None` for a failure. A file whose items have
  ids that are not integers, or a parse that yields something other than an
  array of items, is not modelled.
- The details of `parseInt`, such as `"1.5"` giving 1. The route parameter
  arrives already parsed as `Option<int>`.
- JavaScript truthiness of request values that are not strings (numbers,
  booleans, objects, `null`). Body fields are optional strings, and a JSON
  `null` counts as absent. Extra body fields such as `completed` are dropped,
  as the handlers only take `title` and `description`.
- Extra fields of items read from the snapshot file, such as `completed`.
  In the code they stay on the item, and GET, PUT and DELETE send them back.
  `Todo` has only `id`, `title` and `description`.
- The 400, 413 or 415 responses that body-parser sends before any handler
  runs (02-nodejs/todoServer.js:48): 400 for a malformed JSON body, 413 for
  a body over its size limit, 415 for an unsupported charset or content
  encoding. The statuses 200, 201 and 404 of `ServeStatus` are about
  requests whose body body-parser accepted.
- Aliasing of the live array. `GET /todos` serialises the array at once, and
  the model returns its value.
- Concurrency between requests. Requests are served one at a time.
