/**
 The configuration an endpoint list supplies, the method check the startup
 loop makes on each entry, and the partitions it creates in advance.
 */
module Binder {
  import opened Json
  import opened RoutePath

  /** One configured endpoint, as decoded from the configuration file; `verb`
      is its `method` entry. */
  datatype Endpoint = Endpoint(path: string, verb: string, status: int)

  /** The five methods the server accepts. */
  datatype Method = Get | Post | Put | Delete | Patch

  /** A registered handler: the endpoint with its method checked. */
  datatype Route = Route(path: string, verb: Method, status: int)

  /** Startup aborts, naming the lower-cased method and the path. */
  datatype BindError = InvalidMethod(verb: string, path: string)

  /** `toLowerCase` on one character. Only ASCII letters are mapped: no other
      character lowercases to a letter of the five method names, so the
      method check below is decided exactly as with full Unicode case
      mapping. */
  function LowerChar(c: char): char {
    if 'A' <= c <= 'Z' then (c as int - 'A' as int + 'a' as int) as char else c
  }

  function Lower(s: string): string {
    seq(|s|, i requires 0 <= i < |s| => LowerChar(s[i]))
  }

  function MethodName(m: Method): string {
    match m
    case Get => "get"
    case Post => "post"
    case Put => "put"
    case Delete => "delete"
    case Patch => "patch"
  }

  /** The names the startup loop accepts. */
  const ValidMethods: seq<string> := ["get", "post", "put", "delete", "patch"]

  /** Membership in the list of valid method names, and which one. */
  function ParseMethod(name: string): (r: Option<Method>)
    ensures r.Some? <==> name in ValidMethods
    ensures r.Some? ==> MethodName(r.value) == name
  {
    if name == "get" then Some(Get)
    else if name == "post" then Some(Post)
    else if name == "put" then Some(Put)
    else if name == "delete" then Some(Delete)
    else if name == "patch" then Some(Patch)
    else None
  }

  /** The route an endpoint registers, or `None` if its method is invalid. */
  function ToRoute(e: Endpoint): Option<Route> {
    match ParseMethod(Lower(e.verb))
    case None => None
    case Some(m) => Some(Route(e.path, m, e.status))
  }

  /** An endpoint registers a route exactly when its lower-cased method is
      one of the five, and the route keeps its path, status and method. */
  lemma ToRouteSpec(e: Endpoint)
    ensures ToRoute(e).Some? <==> Lower(e.verb) in ValidMethods
    ensures ToRoute(e).Some? ==> ToRoute(e).value.path == e.path && ToRoute(e).value.status == e.status
                                 && MethodName(ToRoute(e).value.verb) == Lower(e.verb)
  {
  }

  /** Endpoint `k` is the first whose method is rejected. */
  ghost predicate FirstInvalid(eps: seq<Endpoint>, k: int) {
    0 <= k < |eps| && ToRoute(eps[k]).None? && forall j :: 0 <= j < k ==> ToRoute(eps[j]).Some?
  }

  /** A method is accepted whatever its letter case. */
  lemma MethodCaseInsensitive(s: string, m: Method)
    requires |s| == |MethodName(m)|
    requires forall i :: 0 <= i < |s| ==> LowerChar(s[i]) == MethodName(m)[i]
    ensures ParseMethod(Lower(s)) == Some(m)
  {
    assert Lower(s) == MethodName(m);
  }

  /** The test before `storage[endpoint.path] = []`: a `get` whose path ends
      in "/". */
  predicate IsListEndpoint(e: Endpoint) {
    Lower(e.verb) == "get" && EndsWith(e.path, "/")
  }

  ghost function ListPaths(eps: seq<Endpoint>): set<string> {
    set i | 0 <= i < |eps| && IsListEndpoint(eps[i]) :: eps[i].path
  }

  /** The storage after the startup loop has visited `eps` in order. */
  function PreCreate<T>(storage: map<string, seq<T>>, eps: seq<Endpoint>): map<string, seq<T>> {
    if eps == [] then storage
    else
      var e := eps[|eps| - 1];
      var s := PreCreate(storage, eps[..|eps| - 1]);
      if IsListEndpoint(e) then s[e.path := []] else s
  }

  /** After the loop, each list endpoint's path maps to an empty partition
      and every other key is as before. */
  lemma {:induction false} PreCreateContents<T>(storage: map<string, seq<T>>, eps: seq<Endpoint>)
    ensures PreCreate(storage, eps).Keys == storage.Keys + ListPaths(eps)
    ensures forall k :: k in ListPaths(eps) ==> PreCreate(storage, eps)[k] == []
    ensures forall k :: k in storage && k !in ListPaths(eps) ==> PreCreate(storage, eps)[k] == storage[k]
  {
    if eps != [] {
      var init, e := eps[..|eps| - 1], eps[|eps| - 1];
      PreCreateContents(storage, init);
      ListPathsSnoc(init, e);
      assert init + [e] == eps;
    }
  }

  /** The loop's storage after one more endpoint. */
  lemma PreCreateStep<T>(storage: map<string, seq<T>>, eps: seq<Endpoint>, i: nat)
    requires i < |eps|
    ensures PreCreate(storage, eps[..i + 1])
         == var s := PreCreate(storage, eps[..i]);
            if IsListEndpoint(eps[i]) then s[eps[i].path := []] else s
  {
    assert eps[..i + 1][..i] == eps[..i];
  }

  lemma ListPathsSnoc(eps: seq<Endpoint>, e: Endpoint)
    ensures ListPaths(eps + [e]) == ListPaths(eps) + (if IsListEndpoint(e) then {e.path} else {})
  {
    var all := eps + [e];
    forall k | k in ListPaths(all)
      ensures k in ListPaths(eps) + (if IsListEndpoint(e) then {e.path} else {})
    {
      var i :| 0 <= i < |all| && IsListEndpoint(all[i]) && all[i].path == k;
      if i < |eps| { assert all[i] == eps[i]; }
    }
    forall k | k in ListPaths(eps) ensures k in ListPaths(all) {
      var i :| 0 <= i < |eps| && IsListEndpoint(eps[i]) && eps[i].path == k;
      assert all[i] == eps[i];
    }
    if IsListEndpoint(e) { assert all[|eps|] == e; }
  }
}
