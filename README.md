# frontapi mock server: binding and CRUD engine

A Dafny model of the engine inside the `start` action of `server.js`, the
HTTP mock server that serves the endpoints listed in a configuration file
from an in-memory store.

- **Startup binder.** The loop over the configured endpoints lower-cases
  each method and checks it against `get`, `post`, `put`, `delete` and
  `patch`. The first invalid method aborts startup; the model returns a
  `Failure` naming that method and its path. Every `get` endpoint whose path
  ends in `/` gets an empty partition, and one route is registered per
  endpoint. This is `Server.Store.Bind`, a loop over the endpoints that
  updates the store's `storage` field. It is proved against the pure
  `Binder.ToRoute` and `Binder.PreCreate`.
- **Per-request dispatch.** A handler derives the collection key from its
  path template: a trailing `/:name` becomes `/`. It loads that partition,
  `[]` when absent, and applies the method's policy:
  - GET returns one item by id on a template ending in `/:id`, otherwise the
    whole list;
  - POST appends the body with `id` set to the length plus one;
  - PUT merges the body into the first item whose id matches;
  - DELETE removes the first item whose id matches;
  - `patch` answers 405.

  The partition is always written back. This is `Server.Store.Handle`. It
  is proved against the pure per-method functions of `Crud`, whose
  contracts state each policy.
- **`parseInt`.** JavaScript's `parseInt` is applied to the `id`
  parameter. `JsParseInt.ParseInt` models it without a radix argument:
  leading white space, sign, `0x` prefix, longest digit run. NaN is `None`.
  An absent parameter is `undefined`, which `parseInt` reads as the text
  "undefined" and turns into NaN. `Crud.IdParam` writes that case as `None`,
  and `Crud.AbsentIdIsNaN` proves that this is what `ParseInt` gives on
  "undefined".

Modules:

| module | file | contents |
|---|---|---|
| `Json` | `json.dfy` | JSON values, stored items as field maps, `Option`, `Result` |
| `JsParseInt` | `parse_int.dfy` | `parseInt` |
| `RoutePath` | `route_path.dfy` | `endsWith`, the collection key |
| `Binder` | `binder.dfy` | endpoints, method check, pre-created partitions |
| `Crud` | `crud.dfy` | per-method policy on values |
| `Server` | `server.dfy` | the `Store` class with `Bind` and `Handle`; a scenario |

PUT and DELETE are not restricted to templates ending in `/:id`: only GET
tests that suffix (server.js:70). PUT and DELETE always read the `id` parameter,
and on a template without one they answer 404 (`Crud.MissingIdNotFound`).

## Model

| member | source | states |
|---|---|---|
| JsParseInt.ParseInt | server.js:72 | definition of `parseInt(string)` without a radix (white space, sign, `0x` prefix, longest digit run, NaN as `None`); characterised by the `ParseInt…` lemmas below |
| JsParseInt.ParseIntDecimal | server.js:72 | the decimal numeral of any natural number parses back to that number, so a stored integer id is found from its own text |
| JsParseInt.ParseIntDigits | server.js:72 | a run of decimal digits, leading zeros allowed, followed by anything that does not continue it parses to the run's value (`"007abc"` is 7, `"01"` is 1); only `"0"` followed by `x` or `X` is excluded, since that switches to radix 16 |
| JsParseInt.ParseIntSignedDigits | server.js:72 | leading white space, then at most one `+` or `-`, then such a digit run: the run's value, negated after `-` |
| JsParseInt.ParseIntTruncates | server.js:72 | the canonical numeral `DecimalString(n)` followed by anything that does not start with a digit parses to the numeral's value, so trailing text is ignored (`"12x"` is 12); only `"0"` followed by `x` or `X` is excluded, since that switches to radix 16 |
| JsParseInt.ParseIntNegative | server.js:72 | leading white space is skipped and a minus sign negates the value of the numeral of `n` |
| JsParseInt.ParseIntNaN | server.js:72 | text starting with neither white space, a sign nor a digit (such as "undefined") is NaN |
| JsParseInt.ParseIntHexExample | server.js:89 | "0x1f" is read in radix 16 as 31 |
| JsParseInt.ParseIntTruncateExample | server.js:100 | "12abc" is read as 12 |
| JsParseInt.TrimStart | server.js:72 | the result is a suffix of the input; everything removed is white space; the result does not start with white space |
| JsParseInt.DigitPrefixLength | server.js:72 | the length of the longest prefix made only of digits: that prefix is all digits and the next character is not one |
| JsParseInt.DecimalString | server.js:85 | the text an assigned id has once the created item is sent out by `res.json` and a client puts it back into the path as `:id`: non-empty, all decimal digits, starting with 0 only for 0 |
| JsParseInt.DecimalStringValue | server.js:85 | the digits of the numeral of `n` denote `n` |
| RoutePath.EndsWith | server.js:70 | definition of `s.endsWith(suffix)`: the last characters of `s` are `suffix` |
| RoutePath.CollectionKey | server.js:65 | definition of the replacement of `/\/:\w+$/` by "/"; characterised by `RoutePath.CollectionKeySpec` |
| RoutePath.CollectionKeySpec | server.js:65 | `/\/:\w+$/` matches a path at most once; on a match the key is the path up to the match plus "/"; without a match the key is the path itself |
| RoutePath.WordSuffixLength | server.js:65 | the longest run of word characters ending the path: all of it is `\w`, and the character before it is not |
| RoutePath.ParamPathKey | server.js:65 | `prefix/:name`, with a non-empty word-character name, has key `prefix/` |
| RoutePath.SlashPathKey | server.js:55-56 | a path ending in "/" is its own key, so a pre-created list partition is the one its handler reads |
| RoutePath.SiblingsShareKey | server.js:55-65 | `P/:id` and `P/` use the same partition `P/` |
| Binder.Lower | server.js:44 | definition of `toLowerCase` on ASCII letters, character by character; used by `Binder.MethodCaseInsensitive` |
| Binder.ParseMethod | server.js:45-47 | a lower-cased name is accepted exactly when it is one of the five valid names, and it maps to the method of that name |
| Binder.ToRoute | server.js:44-60 | definition of the route an endpoint registers, `None` for an invalid method; characterised by `Binder.ToRouteSpec` |
| Binder.ToRouteSpec | server.js:44-47 | an endpoint registers a route exactly when its lower-cased method is valid; the route keeps the path, the status and that method |
| Binder.MethodCaseInsensitive | server.js:44 | any letter-case spelling of a method name is accepted as that method |
| Binder.IsListEndpoint | server.js:55 | definition of the test `method === "get" && endpoint.path.endsWith("/")` |
| Binder.PreCreate | server.js:43-57 | definition of the storage after the startup loop, one endpoint at a time; characterised by `Binder.PreCreateContents` |
| Binder.PreCreateContents | server.js:55-57 | after the loop the keys are the old keys plus the paths of the list endpoints; those paths map to `[]` and every other key keeps its partition |
| Binder.ListPathsSnoc | server.js:55 | appending an endpoint adds its path to the list paths exactly when it is a `get` ending in "/" |
| Crud.IdParam | server.js:88-89 | definition of `parseInt(req.params.id)`, with an absent parameter giving NaN; tied to `ParseInt("undefined")` by `Crud.AbsentIdIsNaN` |
| Crud.HasId | server.js:71-72 | definition of `item.id === id`: the stored `id` is the JSON number equal to the parsed integer; NaN matches nothing |
| Crud.AbsentIdIsNaN | server.js:99-100 | with no `id` parameter the parsed id is what `parseInt` gives on "undefined", which is NaN |
| Crud.FindIndex | server.js:88-91 | -1 exactly when no item's id equals the parsed id; otherwise the first index whose id does |
| Crud.RemoveAt | server.js:103 | `splice(k, 1)` leaves one element fewer and the multiset less the removed element |
| Crud.Merge | server.js:92 | every field of either object is present, and a body field wins over the stored one |
| Crud.HandleGet | server.js:69-80 | on `/:id` templates: 404 exactly when no item matches, else the first match with the configured status; elsewhere the whole list; the partition never changes |
| Crud.NewItem | server.js:82 | the new item has the body's fields plus `id`, and `id` is the partition length plus one, whatever the body says |
| Crud.HandlePost | server.js:81-86 | the partition grows by exactly one item at the end, earlier items are unchanged, and the response is the new item with the configured status |
| Crud.HandlePut | server.js:87-97 | the length is kept; the first match becomes the merge of it and the body, all other items stay, and the configured status is returned; with no match the answer is 404 and nothing changes |
| Crud.HandleDelete | server.js:98-108 | exactly the first match is removed, the rest keep their order, the length drops by one, and the removed item is returned; with no match the answer is 404 and nothing changes |
| Crud.Dispatch | server.js:68-111 | `patch` answers 405 and leaves the partition unchanged; GET and `patch` never change it |
| Crud.MissingIdNotFound | server.js:87-108 | PUT or DELETE on a template without an `id` parameter always answers 404 and changes nothing |
| Crud.GetIsIdempotent | server.js:69-80 | a GET repeated on the partition it leaves gives the same answer and partition |
| Crud.PostThenGetById | server.js:70-85 | after a POST, a GET by the new id returns the created item, provided no earlier item has that id |
| Crud.NewItemIsFound | server.js:82-83 | the appended item is the first match for its id when no earlier item carries it |
| Crud.DeleteThenPostReusesId | server.js:82-103 | when the last item's id equals the partition length (as when every item came from a POST), deleting an item other than the last and then posting gives the new item that same id, so two items share it |
| Crud.PutReplacesId | server.js:92 | an `id` in a PUT body replaces the stored id; a later request matches the item only if that body id is the JSON number of the integer it parses, so a non-numeric or non-integral id (such as 1.5) is matched by none |
| Crud.MergeExample | server.js:92 | merging `{b: 3}` into `{id: 5, a: 1, b: 2}` gives `{id: 5, a: 1, b: 3}` |
| Server.AbsentPartitionStoredEmpty | server.js:66-114 | a request other than POST on a key that holds nothing answers from `[]` and leaves the key defined as `[]`; PUT and DELETE answer 404 |
| Server.Store.constructor | server.js:40 | the store starts empty |
| Server.Store.Bind | server.js:43-57 | success exactly when every method is valid; then one route per endpoint, in order, and the storage from `PreCreate`; on failure, the first invalid endpoint is named and only the endpoints before it have been processed |
| Server.Store.Handle | server.js:60-115 | the response is the one `Dispatch` gives on the partition loaded as `storage[key] \|\| []` (server.js:66), and the storage afterwards is the old storage with the key set to the new partition, including a key that was absent |
| Server.BindItems | server.js:43-57 | binding GET `/items/`, POST `/items/` and DELETE `/items/:id` yields those three routes and an empty `/items/` partition |
| Server.PostEmpty | server.js:81-86 | through `Handle`, a POST of an empty body on a partition `data` answers with `{id: \|data\| + 1}` and appends it; every other key keeps its partition |
| Server.DeleteFirst | server.js:98-108 | through `Handle`, a DELETE of id 1 on `[{id: 1}, {id: 2}]` leaves `[{id: 2}]`; every other key keeps its partition |
| Server.ListAll | server.js:77-79 | through `Handle`, a list GET answers with the whole partition and leaves the storage as it was |
| Server.TwoItems | server.js:43-86 | on a fresh store, binding the item routes and posting two empty bodies leaves exactly `{"/items/": [{id: 1}, {id: 2}]}` |
| Server.DeleteThenCreate | server.js:81-108 | on `[{id: 1}, {id: 2}]`, DELETE of id 1 and then POST of an empty body creates `{id: 2}` again and leaves `[{id: 2}, {id: 2}]`; every other key keeps its partition |
| Server.DuplicateIdScenario | server.js:43-115 | from `[{id:1},{id:2}]`, deleting id 1 and posting gives the new item id 2, and the list shows id 2 twice |

## Left out

- Command-line parsing with `commander` (server.js:12-21, 123) is handled by a library and holds no logic.
- Reading the configuration file and `JSON.parse` (server.js:30-37) are file I/O. `Bind` takes the decoded endpoint list.
- The `express.json()` and `cors()` middleware (server.js:24-27) are not modelled. The request body is given as the field map its spread copies; a missing body is the empty map.
- Express route matching, `app[method]` registration and `app.listen` (server.js:60, 118-120) are left out. `Handle` takes the matched route and the path parameters.
- `console.error` and `process.exit(1)` become the `InvalidMethod` failure result.
- The `pathKey` computation (server.js:61-64) is not modelled because its value is never used.
- JSON serialisation of responses and the order of object keys are not modelled. A response is a status and a body value.
- Concurrency is not modelled: each handler runs to completion before the next starts.
- `toLowerCase` maps only ASCII letters. No other character lower-cases to a letter of the five method names, so acceptance and the `get` test come out as with full Unicode mapping. The text of the error message can differ for non-ASCII methods.
- JsParseInt.ParseInt: values are exact integers. Rounding values beyond 2^53 to a double is not modelled.
- Endpoint fields of other types than the configuration normally holds are not modelled: a non-string method or path, or a missing field. A `path` is a string and `status` an integer.
- Keys inherited from the prototype of the `storage` object are not modelled.
- In the source, `data` is the stored array itself, and `push`, index assignment and `splice` change it in place. The model builds the new sequence and stores it. This is equivalent because every handler writes `data` back to the same key at the end, and no two keys share an array.
