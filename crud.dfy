/**
 The per-request policy of a registered handler, on values: given the route,
 the path parameters, the request body and the partition the route's
 collection key names, the response and the partition written back.
 */
module Crud {
  import opened Json
  import opened JsParseInt
  import opened RoutePath
  import opened Binder

  datatype Body = ItemBody(item: Item) | ListBody(items: seq<Item>) | ErrorBody(error: string)

  /** What a handler passes to `res.status(..).json(..)`. */
  datatype Response = Response(status: int, body: Body)

  const NotFound := Response(404, ErrorBody("Not found"))
  const MethodNotAllowed := Response(405, ErrorBody("Method not allowed"))

  /** A handler's answer and the partition it stores back. */
  datatype Outcome = Outcome(response: Response, data: seq<Item>)

  /** `parseInt(req.params.id)`. An absent parameter is `undefined`, which
      `parseInt` reads as the string "undefined", giving NaN; that case is
      written as `None` directly, and `AbsentIdIsNaN` shows it is what
      `ParseInt` gives on that string. */
  function IdParam(params: map<string, string>): Option<int> {
    if "id" in params then ParseInt(params["id"]) else None
  }

  /** `item.id === id`: only a number equal to the parsed integer matches;
      NaN matches nothing. */
  predicate HasId(item: Item, id: Option<int>) {
    id.Some? && "id" in item && item["id"] == JNum(id.value as real)
  }

  ghost predicate NoMatch(data: seq<Item>, id: Option<int>) {
    forall j :: 0 <= j < |data| ==> !HasId(data[j], id)
  }

  /** `k` is the index `findIndex` and `find` stop at. */
  ghost predicate IsFirstMatch(data: seq<Item>, id: Option<int>, k: int) {
    0 <= k < |data| && HasId(data[k], id) && forall j :: 0 <= j < k ==> !HasId(data[j], id)
  }

  /** What `splice(k, 1)` leaves: one element fewer, the same multiset less
      the removed one. */
  lemma RemoveAt<T>(s: seq<T>, k: nat)
    requires k < |s|
    ensures |s[..k] + s[k + 1..]| == |s| - 1
    ensures multiset(s[..k] + s[k + 1..]) + multiset{s[k]} == multiset(s)
  {
    assert s == s[..k] + [s[k]] + s[k + 1..];
  }

  /** There is only one first match. */
  lemma FirstMatchUnique(data: seq<Item>, id: Option<int>, k: int)
    requires IsFirstMatch(data, id, k)
    ensures forall j :: IsFirstMatch(data, id, j) ==> j == k
  {
  }

  /** `data.findIndex(item => item.id === id)`: -1 when nothing matches. */
  function FindIndex(data: seq<Item>, id: Option<int>): (k: int)
    ensures k == -1 <==> NoMatch(data, id)
    ensures k != -1 ==> IsFirstMatch(data, id, k)
  {
    if data == [] then -1
    else if HasId(data[0], id) then 0
    else
      var k := FindIndex(data[1..], id);
      if k == -1 then -1 else k + 1
  }

  /** `{ ...existing, ...body }`: every field of either, the body's value
      where both have one. */
  function Merge(existing: Item, body: Fields): (r: Item)
    ensures r.Keys == existing.Keys + body.Keys
    ensures forall f :: f in body ==> r[f] == body[f]
    ensures forall f :: f in existing && f !in body ==> r[f] == existing[f]
  {
    existing + body
  }

  /** GET, with `id` the parsed `id` parameter: one item by id on a template
      ending in `/:id`, else the whole partition; the partition is never
      changed. */
  function HandleGet(route: Route, id: Option<int>, data: seq<Item>): (o: Outcome)
    ensures o.data == data
    ensures EndsWith(route.path, "/:id") ==>
              (o.response == NotFound <==> NoMatch(data, id))
    ensures EndsWith(route.path, "/:id") ==> forall k :: IsFirstMatch(data, id, k) ==>
              o.response == Response(route.status, ItemBody(data[k]))
    ensures !EndsWith(route.path, "/:id") ==> o.response == Response(route.status, ListBody(data))
  {
    if EndsWith(route.path, "/:id") then
      var k := FindIndex(data, id);
      Outcome(if k == -1 then NotFound else Response(route.status, ItemBody(data[k])), data)
    else
      Outcome(Response(route.status, ListBody(data)), data)
  }

  /** The item POST creates: the body with `id` set to the partition length
      plus one. */
  function NewItem(body: Fields, data: seq<Item>): (item: Item)
    ensures item.Keys == body.Keys + {"id"}
    ensures item["id"] == JNum((|data| + 1) as real)
    ensures forall f :: f in body && f != "id" ==> item[f] == body[f]
  {
    body["id" := JNum((|data| + 1) as real)]
  }

  /** POST: append the new item; everything before it stays, and the
      response is the new item with the configured status. */
  function HandlePost(route: Route, body: Fields, data: seq<Item>): (o: Outcome)
    ensures |o.data| == |data| + 1 && o.data[..|data|] == data
    ensures o.data[|data|] == NewItem(body, data)
    ensures o.response == Response(route.status, ItemBody(o.data[|data|]))
  {
    var item := NewItem(body, data);
    assert (data + [item])[..|data|] == data;
    Outcome(Response(route.status, ItemBody(item)), data + [item])
  }

  /** PUT: merge the body into the first item whose id matches; the length
      and every other item stay; no match is 404 and no change. */
  function HandlePut(route: Route, id: Option<int>, body: Fields, data: seq<Item>): (o: Outcome)
    ensures |o.data| == |data|
    ensures NoMatch(data, id) ==> o == Outcome(NotFound, data)
    ensures forall k :: IsFirstMatch(data, id, k) ==>
              && o.data[k] == Merge(data[k], body)
              && (forall j :: 0 <= j < |data| && j != k ==> o.data[j] == data[j])
              && o.response == Response(route.status, ItemBody(o.data[k]))
  {
    var k := FindIndex(data, id);
    if k == -1 then Outcome(NotFound, data)
    else
      FirstMatchUnique(data, id, k);
      var updated := data[k := Merge(data[k], body)];
      Outcome(Response(route.status, ItemBody(updated[k])), updated)
  }

  /** DELETE: remove exactly the first item whose id matches and answer with
      it; the rest keep their order; no match is 404 and no change. */
  function HandleDelete(route: Route, id: Option<int>, data: seq<Item>): (o: Outcome)
    ensures NoMatch(data, id) ==> o == Outcome(NotFound, data)
    ensures forall k :: IsFirstMatch(data, id, k) ==>
              && o.data == data[..k] + data[k + 1..]
              && |o.data| == |data| - 1
              && multiset(o.data) + multiset{data[k]} == multiset(data)
              && o.response == Response(route.status, ItemBody(data[k]))
  {
    var k := FindIndex(data, id);
    if k == -1 then Outcome(NotFound, data)
    else
      var rest := data[..k] + data[k + 1..];
      RemoveAt(data, k);
      FirstMatchUnique(data, id, k);
      Outcome(Response(route.status, ItemBody(data[k])), rest)
  }

  /** The handler's switch on the route's method; `patch` has no case and
      answers 405 without touching the partition. */
  function Dispatch(route: Route, params: map<string, string>, body: Fields, data: seq<Item>): (o: Outcome)
    ensures route.verb == Patch ==> o == Outcome(MethodNotAllowed, data)
    ensures route.verb != Post && route.verb != Put && route.verb != Delete ==> o.data == data
  {
    match route.verb
    case Get => HandleGet(route, IdParam(params), data)
    case Post => HandlePost(route, body, data)
    case Put => HandlePut(route, IdParam(params), body, data)
    case Delete => HandleDelete(route, IdParam(params), data)
    case Patch => Outcome(MethodNotAllowed, data)
  }

  /** A template without an `id` parameter makes PUT and DELETE read
      `parseInt(undefined)`, which is NaN: always 404, nothing changes. */
  lemma MissingIdNotFound(route: Route, params: map<string, string>, body: Fields, data: seq<Item>)
    requires route.verb == Put || route.verb == Delete
    requires "id" !in params
    ensures Dispatch(route, params, body, data) == Outcome(NotFound, data)
  {
    AbsentIdIsNaN(params);
  }

  /** `parseInt(undefined)` is NaN: the absent case of `IdParam` is what
      `ParseInt` gives on the string "undefined". */
  lemma AbsentIdIsNaN(params: map<string, string>)
    requires "id" !in params
    ensures IdParam(params) == ParseInt("undefined") == None
  {
    ParseIntNaN("undefined");
  }

  /** Repeated GETs see the same partition and give the same answer. */
  lemma GetIsIdempotent(route: Route, params: map<string, string>, body: Fields, data: seq<Item>)
    requires route.verb == Get
    ensures var first := Dispatch(route, params, body, data);
            Dispatch(route, params, body, first.data) == first
  {
  }

  /** Create, then fetch by the new id: the item-by-id GET answers with the
      created item, provided no earlier item already carries that id. */
  lemma PostThenGetById(post: Route, get: Route, postParams: map<string, string>, body: Fields,
                        getBody: Fields, data: seq<Item>)
    requires post.verb == Post && get.verb == Get && EndsWith(get.path, "/:id")
    requires NoMatch(data, Some(|data| + 1))
    ensures var created := Dispatch(post, postParams, body, data);
            var fetched := Dispatch(get, map["id" := DecimalString(|data| + 1)], getBody, created.data);
            && created.response == Response(post.status, ItemBody(NewItem(body, data)))
            && fetched.response == Response(get.status, ItemBody(NewItem(body, data)))
            && fetched.data == created.data
  {
    var params := map["id" := DecimalString(|data| + 1)];
    ParseIntDecimal(|data| + 1);
    assert IdParam(params) == Some(|data| + 1);
    NewItemIsFound(post, data, body);
  }

  lemma NewItemIsFound(post: Route, data: seq<Item>, body: Fields)
    requires NoMatch(data, Some(|data| + 1))
    ensures IsFirstMatch(HandlePost(post, body, data).data, Some(|data| + 1), |data|)
  {
    var after := HandlePost(post, body, data).data;
    forall j | 0 <= j < |data| ensures !HasId(after[j], Some(|data| + 1)) {
      assert after[j] == after[..|data|][j];
    }
  }

  /** Ids come from the length: after deleting an item other than the last,
      the next POST hands out the last item's id again. */
  lemma DeleteThenPostReusesId(del: Route, post: Route, id: Option<int>, body: Fields, data: seq<Item>, k: int)
    requires IsFirstMatch(data, id, k) && k < |data| - 1
    requires HasId(data[|data| - 1], Some(|data|))
    ensures var after := HandlePost(post, body, HandleDelete(del, id, data).data).data;
            && |after| == |data|
            && HasId(after[|data| - 2], Some(|data|))
            && HasId(after[|data| - 1], Some(|data|))
  {
    var rest := HandleDelete(del, id, data).data;
    assert rest[|data| - 2] == data[|data| - 1];
    var after := HandlePost(post, body, rest).data;
    assert after[|data| - 2] == after[..|rest|][|data| - 2];
  }

  /** PUT merges over the stored item, so an `id` in the body replaces the
      stored id; a non-numeric one is matched by no later request. */
  lemma PutReplacesId(route: Route, id: Option<int>, body: Fields, data: seq<Item>, k: int)
    requires IsFirstMatch(data, id, k) && "id" in body
    ensures HandlePut(route, id, body, data).data[k]["id"] == body["id"]
    ensures forall n :: HasId(HandlePut(route, id, body, data).data[k], n) ==> body["id"] == JNum(n.value as real)
  {
  }

  /** Merging `{b: 3}` into `{id: 5, a: 1, b: 2}` gives `{id: 5, a: 1, b: 3}`. */
  lemma MergeExample()
    ensures Merge(map["id" := JNum(5.0), "a" := JNum(1.0), "b" := JNum(2.0)], map["b" := JNum(3.0)])
         == map["id" := JNum(5.0), "a" := JNum(1.0), "b" := JNum(3.0)]
  {
  }
}
