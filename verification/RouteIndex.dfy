/** Finding the routes attached to a Gateway: through the string-keyed cache index
    (internal/controller/controller.go) or by scanning (gateway_mutator.go). AIGatewayRoute and
    MCPRoute share this logic. */
module RouteIndex {
  import opened Text

  datatype ParentRef = ParentRef(name: string, ns: Option<string>)
  datatype Route = Route(ns: string, name: string, parentRefs: seq<ParentRef>)

  /** A nil or empty namespace means the route's own. */
  function RefNamespace(routeNs: string, ref: ParentRef): string {
    if ref.ns.Some? && ref.ns.value != "" then ref.ns.value else routeNs
  }

  function Key(name: string, ns: string): string { name + "." + ns }

  function IndexKeys(r: Route): seq<string> {
    seq(|r.parentRefs|,
        i requires 0 <= i < |r.parentRefs| => Key(r.parentRefs[i].name, RefNamespace(r.ns, r.parentRefs[i])))
  }

  method AttachedGatewayIndexFunc(r: Route) returns (keys: seq<string>)
    ensures keys == IndexKeys(r)
    ensures |keys| == |r.parentRefs|
    ensures forall i :: 0 <= i < |keys| ==>
              keys[i] == r.parentRefs[i].name + "." + (match r.parentRefs[i].ns
                                                       case None => r.ns
                                                       case Some(ns) => if ns == "" then r.ns else ns)
  {
    keys := [];
    for i := 0 to |r.parentRefs|
      invariant keys == IndexKeys(r)[..i]
    {
      var ref := r.parentRefs[i];
      var namespace := r.ns;
      if ref.ns.Some? && ref.ns.value != "" {
        namespace := ref.ns.value;
      }
      keys := keys + [ref.name + "." + namespace];
    }
  }

  /** The structural meaning of "attached". */
  predicate Attached(r: Route, gw: string, ns: string) {
    exists i :: 0 <= i < |r.parentRefs| && r.parentRefs[i].name == gw && RefNamespace(r.ns, r.parentRefs[i]) == ns
  }

  /** One reference names the Gateway: with no namespace or an empty one, in the route's own. */
  predicate Names(ref: ParentRef, routeNs: string, gw: string, ns: string) {
    && ref.name == gw
    && match ref.ns
       case None => ns == routeNs
       case Some(given) => if given == "" then ns == routeNs else ns == given
  }

  lemma AttachedIff(r: Route, gw: string, ns: string)
    ensures Attached(r, gw, ns) <==> exists i :: 0 <= i < |r.parentRefs| && Names(r.parentRefs[i], r.ns, gw, ns)
  {
    if i :| 0 <= i < |r.parentRefs| && r.parentRefs[i].name == gw && RefNamespace(r.ns, r.parentRefs[i]) == ns {
      assert Names(r.parentRefs[i], r.ns, gw, ns);
    }
  }

  method ParentRefsMatchGateway(r: Route, gw: string, ns: string) returns (found: bool)
    ensures found <==> Attached(r, gw, ns)
    ensures found <==> exists i :: 0 <= i < |r.parentRefs| && Names(r.parentRefs[i], r.ns, gw, ns)
  {
    for i := 0 to |r.parentRefs|
      invariant forall j :: 0 <= j < i ==> !(r.parentRefs[j].name == gw && RefNamespace(r.ns, r.parentRefs[j]) == ns)
    {
      AttachedIff(r, gw, ns);
      var ref := r.parentRefs[i];
      var namespace := r.ns;
      if ref.ns.Some? && ref.ns.value != "" {
        namespace := ref.ns.value;
      }
      if ref.name == gw && namespace == ns {
        return true;
      }
    }
    AttachedIff(r, gw, ns);
    return false;
  }

  /** Namespaces are DNS labels (section 2.1 of RFC 1123); names may contain dots. */
  predicate DotFree(r: Route) {
    '.' !in r.ns && forall i :: 0 <= i < |r.parentRefs| && r.parentRefs[i].ns.Some? ==> '.' !in r.parentRefs[i].ns.value
  }

  /** The index lists a route under a Gateway's key exactly when the route is attached to it. */
  lemma IndexEqualsScan(r: Route, gw: string, ns: string)
    requires DotFree(r) && '.' !in ns
    ensures Key(gw, ns) in IndexKeys(r) <==> Attached(r, gw, ns)
  {
    if Key(gw, ns) in IndexKeys(r) {
      var i :| 0 <= i < |r.parentRefs| && IndexKeys(r)[i] == Key(gw, ns);
      LastSepInjective(r.parentRefs[i].name, RefNamespace(r.ns, r.parentRefs[i]), gw, ns, '.');
    }
    if Attached(r, gw, ns) {
      var i :| 0 <= i < |r.parentRefs| && r.parentRefs[i].name == gw && RefNamespace(r.ns, r.parentRefs[i]) == ns;
      assert IndexKeys(r)[i] == Key(gw, ns);
    }
  }

  /** Without that, the key is ambiguous: the index would list a route that is not attached. */
  lemma DottedNamespaceConfuses()
    ensures var r := Route("b.c", "r", [ParentRef("a", None)]);
            Key("a.b", "c") in IndexKeys(r) && !Attached(r, "a.b", "c")
  {
    var r := Route("b.c", "r", [ParentRef("a", None)]);
    assert Key("a.b", "c") == "a.b.c" == IndexKeys(r)[0];
  }

  /** The routes a scan selects, in list order. */
  function Select(routes: seq<Route>, gw: string, ns: string): seq<Route> {
    if routes == [] then [] else
      var front := Select(routes[..|routes| - 1], gw, ns);
      var last := routes[|routes| - 1];
      if Attached(last, gw, ns) then front + [last] else front
  }

  /** A route is selected where it stands, and only if it is attached. */
  lemma {:induction false} SelectConcat(a: seq<Route>, r: Route, b: seq<Route>, gw: string, ns: string)
    ensures Select(a + [r] + b, gw, ns)
         == Select(a, gw, ns)
            + (if exists i :: 0 <= i < |r.parentRefs| && Names(r.parentRefs[i], r.ns, gw, ns) then [r] else [])
            + Select(b, gw, ns)
    decreases |b|
  {
    AttachedIff(r, gw, ns);
    if b == [] {
      assert a + [r] + b == a + [r] && (a + [r])[..|a|] == a;
    } else {
      var front := b[..|b| - 1];
      assert (a + [r] + b)[..|a| + |b|] == a + [r] + front;
      SelectConcat(a, r, front, gw, ns);
    }
  }

  method FilterRoutesForGateway(routes: seq<Route>, gw: string, ns: string) returns (r: seq<Route>)
    ensures r == Select(routes, gw, ns)
  {
    r := [];
    for i := 0 to |routes|
      invariant r == Select(routes[..i], gw, ns)
    {
      var matches := ParentRefsMatchGateway(routes[i], gw, ns);
      if matches {
        r := r + [routes[i]];
      }
      assert routes[..i + 1][..i] == routes[..i];
    }
    assert routes[..|routes|] == routes;
  }

  /** A cache List with MatchingFields: the routes whose index keys hold the key. */
  method ListByIndex(routes: seq<Route>, gw: string, ns: string) returns (r: seq<Route>)
    requires '.' !in ns && forall i :: 0 <= i < |routes| ==> DotFree(routes[i])
    ensures r == Select(routes, gw, ns)
  {
    var key := gw + "." + ns;
    r := [];
    for i := 0 to |routes|
      invariant r == Select(routes[..i], gw, ns)
    {
      var keys := AttachedGatewayIndexFunc(routes[i]);
      IndexEqualsScan(routes[i], gw, ns);
      if key in keys {
        r := r + [routes[i]];
      }
      assert routes[..i + 1][..i] == routes[..i];
    }
    assert routes[..|routes|] == routes;
  }

  datatype Listing = Listed(items: seq<Route>) | ListFailed

  /** `cached` and `live` are what the two readers would return unfiltered; the reconciler passes no
      live reader. When both hold the same routes the answer is the scan of those routes, whichever
      branch is taken; an empty or failed cache read is never trusted over a live one. */
  method ListRoutesForGateway(cached: Listing, live: Option<Listing>, gw: string, ns: string) returns (r: Listing)
    requires '.' !in ns && (cached.Listed? ==> forall i :: 0 <= i < |cached.items| ==> DotFree(cached.items[i]))
    ensures cached.Listed? && (live.None? || live == Some(cached)) ==> r == Listed(Select(cached.items, gw, ns))
    ensures live.Some? && (cached.ListFailed? || Select(cached.items, gw, ns) == []) ==>
              r == if live.value.Listed? then Listed(Select(live.value.items, gw, ns)) else ListFailed
    ensures r.Listed? && r.items != [] ==>
              (cached.Listed? && r.items == Select(cached.items, gw, ns))
              || (live.Some? && live.value.Listed? && r.items == Select(live.value.items, gw, ns))
  {
    var fromCache: seq<Route> := [];
    if cached.Listed? {
      fromCache := ListByIndex(cached.items, gw, ns);
    }
    if cached.Listed? && |fromCache| > 0 {
      return Listed(fromCache);
    }
    if live.None? {
      return if cached.Listed? then Listed(fromCache) else ListFailed;
    }
    if live.value.ListFailed? {
      return ListFailed;
    }
    var scanned := FilterRoutesForGateway(live.value.items, gw, ns);
    return Listed(scanned);
  }
}
