/**
 The server's state and its two imperative parts: the startup loop that
 checks each configured endpoint and creates list partitions, and the
 handler body that loads a partition, changes it and stores it back.
 */
module Server {
  import opened Json
  import opened JsParseInt
  import opened RoutePath
  import opened Binder
  import opened Crud

  /** `storage[key] || []`. */
  function Load(storage: map<string, seq<Item>>, key: string): seq<Item> {
    if key in storage then storage[key] else []
  }

  /** A request other than POST on a key nothing has stored yet answers from
      the empty partition and stores that empty partition under the key. */
  lemma AbsentPartitionStoredEmpty(route: Route, params: map<string, string>, body: Fields,
                                   storage: map<string, seq<Item>>, key: string)
    requires key !in storage && route.verb != Post
    ensures var o := Dispatch(route, params, body, Load(storage, key));
            && o.data == []
            && key in storage[key := o.data] && storage[key := o.data][key] == []
            && (route.verb == Put || route.verb == Delete ==> o.response == NotFound)
  {
  }

  lemma BindStep(e: Endpoint, route: Route)
    requires ParseMethod(Lower(e.verb)).Some?
    requires route == Route(e.path, ParseMethod(Lower(e.verb)).value, e.status)
    ensures ToRoute(e) == Some(route)
  {
  }

  lemma RoutesSnoc(eps: seq<Endpoint>, routes: seq<Route>, route: Route)
    requires |routes| < |eps|
    requires forall j :: 0 <= j < |routes| ==> ToRoute(eps[j]) == Some(routes[j])
    requires ToRoute(eps[|routes|]) == Some(route)
    ensures forall j :: 0 <= j < |routes| + 1 ==> ToRoute(eps[j]) == Some((routes + [route])[j])
  {
    forall j | 0 <= j < |routes| + 1 ensures ToRoute(eps[j]) == Some((routes + [route])[j]) {
      if j < |routes| { assert (routes + [route])[j] == routes[j]; }
    }
  }

  /** Writing the same partition twice is writing it once. */
  lemma UpdateOver<K, V>(m: map<K, V>, k: K, v: V, w: V)
    ensures m[k := v][k := w] == m[k := w]
  {
  }

  class Store {
    /** Collection key to partition; shared by every registered handler. */
    var storage: map<string, seq<Item>>

    constructor ()
      ensures storage == map[]
    {
      storage := map[];
    }

    /** The startup loop: each endpoint's method is lower-cased and checked,
        a list GET gets an empty partition, and one route is registered per
        endpoint; the first invalid method aborts startup. */
    method Bind(endpoints: seq<Endpoint>) returns (r: Result<seq<Route>, BindError>)
      modifies this
      ensures r.Success? <==> forall i :: 0 <= i < |endpoints| ==> ToRoute(endpoints[i]).Some?
      ensures r.Success? ==>
                && |r.value| == |endpoints|
                && (forall i :: 0 <= i < |endpoints| ==> ToRoute(endpoints[i]) == Some(r.value[i]))
                && storage == PreCreate(old(storage), endpoints)
      ensures r.Failure? ==> exists k ::
                && FirstInvalid(endpoints, k)
                && r.error == InvalidMethod(Lower(endpoints[k].verb), endpoints[k].path)
                && storage == PreCreate(old(storage), endpoints[..k])
    {
      var routes: seq<Route> := [];
      var i := 0;
      while i < |endpoints|
        invariant 0 <= i <= |endpoints|
        invariant |routes| == i
        invariant forall j :: 0 <= j < i ==> ToRoute(endpoints[j]) == Some(routes[j])
        invariant storage == PreCreate(old(storage), endpoints[..i])
      {
        var e := endpoints[i];
        var name := Lower(e.verb);
        var m := ParseMethod(name);
        if m.None? {
          assert FirstInvalid(endpoints, i);
          return Failure(InvalidMethod(name, e.path));
        }
        PreCreateStep(old(storage), endpoints, i);
        if name == "get" && EndsWith(e.path, "/") {
          storage := storage[e.path := []];
        }
        var route := Route(e.path, m.value, e.status);
        BindStep(e, route);
        RoutesSnoc(endpoints, routes, route);
        routes := routes + [route];
        i := i + 1;
      }
      assert endpoints[..i] == endpoints;
      return Success(routes);
    }

    /** One request to `route`: the partition of its collection key is
        loaded, changed by the method's policy and written back, and the
        response is returned. */
    method Handle(route: Route, params: map<string, string>, body: Fields) returns (response: Response)
      modifies this
      ensures var key := CollectionKey(route.path);
              var o := Dispatch(route, params, body, Load(old(storage), key));
              response == o.response && storage == old(storage)[key := o.data]
    {
      var key := CollectionKey(route.path);
      var data := if key in storage then storage[key] else [];
      ghost var before := storage;
      assert data == Load(before, key);
      var id := IdParam(params);
      ghost var o := Dispatch(route, params, body, Load(before, key));
      match route.verb {
        case Get =>
          assert o == HandleGet(route, id, data);
          if EndsWith(route.path, "/:id") {
            var k := FindIndex(data, id);
            response := if k == -1 then NotFound else Response(route.status, ItemBody(data[k]));
          } else {
            response := Response(route.status, ListBody(data));
          }
          assert o == Outcome(response, data);
        case Post =>
          assert o == HandlePost(route, body, data);
          var item := NewItem(body, data);
          data := data + [item];
          storage := storage[key := data];
          UpdateOver(before, key, data, data);
          response := Response(route.status, ItemBody(item));
          assert o == Outcome(response, data);
        case Put =>
          assert o == HandlePut(route, id, body, data);
          var k := FindIndex(data, id);
          if k != -1 {
            data := data[k := Merge(data[k], body)];
            response := Response(route.status, ItemBody(data[k]));
          } else {
            response := NotFound;
          }
          assert o == Outcome(response, data);
        case Delete =>
          assert o == HandleDelete(route, id, data);
          var k := FindIndex(data, id);
          if k != -1 {
            var deleted := data[k];
            data := data[..k] + data[k + 1..];
            response := Response(route.status, ItemBody(deleted));
          } else {
            response := NotFound;
          }
          assert o == Outcome(response, data);
        case Patch =>
          response := MethodNotAllowed;
          assert o == Outcome(response, data);
      }
      storage := storage[key := data];
    }
  }

  const ItemEndpoints := [Endpoint("/items/", "GET", 200), Endpoint("/items/", "POST", 201),
                          Endpoint("/items/:id", "DELETE", 200)]
  const ListItems := Route("/items/", Get, 200)
  const CreateItem := Route("/items/", Post, 201)
  const DeleteItem := Route("/items/:id", Delete, 200)

  /** Two items, delete id 1, create another: the new item gets id 2 again,
      and the list shows id 2 twice. */
  method DuplicateIdScenario() returns (created: Response, listed: Response)
    ensures created == Response(201, ItemBody(map["id" := JNum(2.0)]))
    ensures listed == Response(200, ListBody([map["id" := JNum(2.0)], map["id" := JNum(2.0)]]))
  {
    var store, routes := TwoItems();
    created := DeleteThenCreate(store, routes);
    ItemKeys();
    ListPathNotById();
    listed := ListAll(store, routes[0], "/items/", map[], map[]);
    assert IdOnly(2) == map["id" := JNum(2.0)];
  }

  /** On `[{id: 1}, {id: 2}]`, DELETE of id 1 and then POST of an empty body:
      the new item is again `{id: 2}`. */
  method DeleteThenCreate(store: Store, routes: seq<Route>) returns (created: Response)
    requires routes == ItemRoutes
    requires "/items/" in store.storage && store.storage["/items/"] == [IdOnly(1), IdOnly(2)]
    modifies store
    ensures created == Response(201, ItemBody(IdOnly(2)))
    ensures "/items/" in store.storage && store.storage["/items/"] == [IdOnly(2), IdOnly(2)]
    ensures store.storage == old(store.storage)["/items/" := [IdOnly(2), IdOnly(2)]]
  {
    var key := "/items/";
    ItemKeys();
    var idOne := map["id" := DecimalString(1)];
    IdOneParses(idOne);
    ghost var before := store.storage;
    DeleteFirst(store, routes[2], key, idOne, map[]);
    created := PostEmpty(store, routes[1], key, map[], map[], [IdOnly(2)], 2);
    Pair(IdOnly(2), IdOnly(2));
    UpdateOver(before, key, [IdOnly(2)], [IdOnly(2), IdOnly(2)]);
  }

  /** Binds the item routes on a fresh store and creates two items from
      empty bodies: they get ids 1 and 2. */
  method TwoItems() returns (store: Store, routes: seq<Route>)
    ensures fresh(store) && routes == ItemRoutes
    ensures "/items/" in store.storage && store.storage["/items/"] == [IdOnly(1), IdOnly(2)]
    ensures store.storage == map["/items/" := [IdOnly(1), IdOnly(2)]]
  {
    store := new Store();
    routes := BindItems(store, ItemEndpoints);
    var key := "/items/";
    ItemKeys();
    var noParams: map<string, string> := map[];
    var r := PostEmpty(store, routes[1], key, noParams, map[], [], 1);
    Single(IdOnly(1));
    r := PostEmpty(store, routes[1], key, noParams, map[], [IdOnly(1)], 2);
    Pair(IdOnly(1), IdOnly(2));
  }

  lemma Single<T>(a: T)
    ensures [] + [a] == [a]
  {
  }

  lemma Pair<T>(a: T, b: T)
    ensures [a] + [b] == [a, b]
  {
  }

  /** An item whose only field is `id`. */
  function IdOnly(n: nat): Item {
    map["id" := JNum(n as real)]
  }

  lemma IdOneParses(params: map<string, string>)
    requires params == map["id" := DecimalString(1)]
    ensures IdParam(params) == Some(1)
  {
    ParseIntDecimal(1);
  }

  /** POST of an empty body on a collection holding `data`: the new item is
      `{id: |data| + 1}`, appended. */
  method PostEmpty(store: Store, post: Route, key: string, params: map<string, string>, body: Fields,
                   data: seq<Item>, n: nat) returns (created: Response)
    requires post.verb == Post && CollectionKey(post.path) == key && body == map[]
    requires key in store.storage && store.storage[key] == data && n == |data| + 1
    modifies store
    ensures created == Response(post.status, ItemBody(IdOnly(n)))
    ensures key in store.storage && store.storage[key] == data + [IdOnly(n)]
    ensures store.storage == old(store.storage)[key := data + [IdOnly(n)]]
  {
    created := store.Handle(post, params, body);
  }

  /** DELETE of id 1 on `[{id: 1}, {id: 2}]` leaves `[{id: 2}]`. */
  method DeleteFirst(store: Store, del: Route, key: string, params: map<string, string>, body: Fields)
    requires del.verb == Delete && CollectionKey(del.path) == key && IdParam(params) == Some(1)
    requires key in store.storage && store.storage[key] == [IdOnly(1), IdOnly(2)]
    modifies store
    ensures key in store.storage && store.storage[key] == [IdOnly(2)]
    ensures store.storage == old(store.storage)[key := [IdOnly(2)]]
  {
    DeleteStep(del, params, body);
    var r := store.Handle(del, params, body);
  }

  /** A list GET answers with the whole partition and changes nothing. */
  method ListAll(store: Store, get: Route, key: string, params: map<string, string>, body: Fields)
    returns (listed: Response)
    requires get.verb == Get && !EndsWith(get.path, "/:id") && CollectionKey(get.path) == key
    requires key in store.storage
    modifies store
    ensures listed == Response(get.status, ListBody(old(store.storage)[key]))
    ensures store.storage == old(store.storage)
  {
    listed := store.Handle(get, params, body);
  }

  lemma DeleteStep(del: Route, params: map<string, string>, body: Fields)
    requires del.verb == Delete && IdParam(params) == Some(1)
    ensures Dispatch(del, params, body, [IdOnly(1), IdOnly(2)])
         == Outcome(Response(del.status, ItemBody(IdOnly(1))), [IdOnly(2)])
  {
    var data := [IdOnly(1), IdOnly(2)];
    assert HasId(IdOnly(1), Some(1));
    DeleteFirstOfTwo(del, Some(1), IdOnly(1), IdOnly(2));
    assert Dispatch(del, params, body, data) == HandleDelete(del, Some(1), data);
  }

  lemma DeleteFirstOfTwo(del: Route, id: Option<int>, a: Item, b: Item)
    requires HasId(a, id)
    ensures HandleDelete(del, id, [a, b]) == Outcome(Response(del.status, ItemBody(a)), [b])
  {
    var data := [a, b];
    assert IsFirstMatch(data, id, 0);
    assert data[..0] + data[1..] == [b];
  }

  /** The list route is not an item-by-id route. */
  lemma ListPathNotById()
    ensures !EndsWith("/items/", "/:id")
  {
    var s := "/items/";
    var tail := s[|s| - 4..];
    assert tail[3] == '/';
    assert tail != "/:id" by { assert "/:id"[3] == 'd'; }
  }

  /** Binds a list GET, a POST and an item DELETE on one collection.
      This method and the lemmas below take the endpoint list as a parameter
      equal to `ItemEndpoints` rather than naming the constant in their
      bodies: that keeps the verifier from evaluating the method checks on
      the literal strings everywhere the list occurs. */
  method BindItems(store: Store, endpoints: seq<Endpoint>) returns (routes: seq<Route>)
    requires endpoints == ItemEndpoints
    modifies store
    ensures routes == ItemRoutes
    ensures store.storage == old(store.storage)["/items/" := []]
  {
    ItemsRegister(endpoints);
    ItemPartitions(store.storage, endpoints);
    var bound := store.Bind(endpoints);
    assert bound.Success?;
    routes := bound.value;
  }

  const ItemRoutes := [ListItems, CreateItem, DeleteItem]

  lemma ItemsRegister(eps: seq<Endpoint>)
    requires eps == ItemEndpoints
    ensures forall i :: 0 <= i < |eps| ==> ToRoute(eps[i]).Some?
    ensures forall rs: seq<Route> :: |rs| == |eps| && (forall i :: 0 <= i < |eps| ==> ToRoute(eps[i]) == Some(rs[i]))
              ==> rs == ItemRoutes
  {
    LowerMethods();
    forall i | 0 <= i < |eps| ensures ToRoute(eps[i]) == Some(ItemRoutes[i]) {
      if i == 0 {
        assert ParseMethod("get") == Some(Get);
      } else if i == 1 {
        assert ParseMethod("post") == Some(Post);
      } else {
        assert ParseMethod("delete") == Some(Delete);
      }
    }
  }

  lemma LowerMethods()
    ensures Lower("GET") == "get" && Lower("POST") == "post" && Lower("DELETE") == "delete"
  {
  }

  lemma ItemPartitions(storage: map<string, seq<Item>>, eps: seq<Endpoint>)
    requires eps == ItemEndpoints
    ensures PreCreate(storage, eps) == storage["/items/" := []]
  {
    LowerMethods();
    PreCreateStep(storage, eps, 0);
    PreCreateStep(storage, eps, 1);
    PreCreateStep(storage, eps, 2);
    assert eps[..0] == [] && eps[..3] == eps;
    assert IsListEndpoint(eps[0]) && !IsListEndpoint(eps[1]) && !IsListEndpoint(eps[2]);
  }

  lemma ItemKeys()
    ensures CollectionKey("/items/") == "/items/" && CollectionKey("/items/:id") == "/items/"
  {
    SiblingsShareKey("/items", "id");
    assert "/items" + "/:" + "id" == "/items/:id" && "/items" + "/" == "/items/";
  }
}
