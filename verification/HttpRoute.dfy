/** internal/controller/ai_gateway_route.go and referencegrant.go: compiling an AIGatewayRoute into
    an HTTPRoute, with ReferenceGrant checks for backends in other namespaces. */
module HttpRoute {
  import opened Text

  const ROUTE_GROUP := "aigateway.envoyproxy.io"
  const ROUTE_KIND := "AIGatewayRoute"
  const BACKEND_KIND := "AIServiceBackend"
  const POOL_GROUP := "inference.networking.k8s.io"
  const POOL_KIND := "InferencePool"

  /* ---- ReferenceGrants ---- */

  datatype From = From(group: string, kind: string, ns: string)
  /** `name` is ignored by the controller. */
  datatype To = To(group: string, kind: string, name: Option<string>)
  datatype Grant = Grant(ns: string, from: seq<From>, to: seq<To>)

  predicate AllowsFrom(g: Grant, routeNs: string) {
    exists i :: 0 <= i < |g.from| && g.from[i] == From(ROUTE_GROUP, ROUTE_KIND, routeNs)
  }

  predicate AllowsTo(g: Grant, group: string, kind: string) {
    exists i :: 0 <= i < |g.to| && g.to[i].group == group && g.to[i].kind == kind
  }

  predicate GrantedBy(g: Grant, routeNs: string, targetNs: string, group: string, kind: string) {
    g.ns == targetNs && AllowsFrom(g, routeNs) && AllowsTo(g, group, kind)
  }

  /** The plain reading: some grant IN the target namespace lists the route's kind and namespace in
      From and the target's group and kind in To. `grants` is None when they cannot be listed. */
  predicate Permitted(grants: Option<seq<Grant>>, routeNs: string, targetNs: string, group: string, kind: string) {
    grants.Some? && exists i :: 0 <= i < |grants.value| && GrantedBy(grants.value[i], routeNs, targetNs, group, kind)
  }

  function IndexKey(ns: string, kind: string): string { ns + "." + kind }

  method TargetKindIndexFunc(g: Grant) returns (keys: seq<string>)
    ensures forall key :: key in keys <==> exists i :: 0 <= i < |g.to| && key == IndexKey(g.ns, g.to[i].kind)
  {
    keys := [];
    for n := 0 to |g.to|
      invariant |keys| == n && forall i :: 0 <= i < n ==> keys[i] == IndexKey(g.ns, g.to[i].kind)
    {
      keys := keys + [IndexKey(g.ns, g.to[n].kind)];
    }
    forall key ensures key in keys <==> exists i :: 0 <= i < |g.to| && key == IndexKey(g.ns, g.to[i].kind) {
      if key in keys {
        var i :| 0 <= i < |keys| && keys[i] == key;
      }
      if i :| 0 <= i < |g.to| && key == IndexKey(g.ns, g.to[i].kind) {
        assert keys[i] == key;
      }
    }
  }

  method IsReferenceGrantValid(g: Grant, routeNs: string, group: string, kind: string) returns (valid: bool)
    ensures valid <==> AllowsFrom(g, routeNs) && AllowsTo(g, group, kind)
  {
    var fromAllowed := false;
    for i := 0 to |g.from|
      invariant !fromAllowed && forall j :: 0 <= j < i ==> g.from[j] != From(ROUTE_GROUP, ROUTE_KIND, routeNs)
    {
      if g.from[i].group == ROUTE_GROUP && g.from[i].kind == ROUTE_KIND && g.from[i].ns == routeNs {
        fromAllowed := true;
        break;
      }
    }
    if !fromAllowed {
      return false;
    }
    for i := 0 to |g.to|
      invariant forall j :: 0 <= j < i ==> !(g.to[j].group == group && g.to[j].kind == kind)
    {
      if g.to[i].group == group && g.to[i].kind == kind {
        return true;
      }
    }
    return false;
  }

  predicate NamespacesDotFree(grants: Option<seq<Grant>>) {
    grants.Some? ==> forall i :: 0 <= i < |grants.value| ==> '.' !in grants.value[i].ns
  }

  /** A grant in the wrong namespace never shares an index key with the target. */
  lemma KeyFixesNamespace(g: Grant, targetNs: string, kind: string)
    requires '.' !in g.ns && '.' !in targetNs
    ensures (exists i :: 0 <= i < |g.to| && IndexKey(targetNs, kind) == IndexKey(g.ns, g.to[i].kind))
       <==> g.ns == targetNs && exists i :: 0 <= i < |g.to| && g.to[i].kind == kind
  {
    if i :| 0 <= i < |g.to| && IndexKey(targetNs, kind) == IndexKey(g.ns, g.to[i].kind) {
      FirstSepInjective(targetNs, kind, g.ns, g.to[i].kind, '.');
    }
    if g.ns == targetNs {
      if i :| 0 <= i < |g.to| && g.to[i].kind == kind {
        assert IndexKey(targetNs, kind) == IndexKey(g.ns, g.to[i].kind);
      }
    }
  }

  /** The check through the index decides exactly what a scan of every grant would. */
  method ValidateReference(grants: Option<seq<Grant>>, routeNs: string, targetNs: string, group: string, kind: string)
    returns (ok: bool)
    requires NamespacesDotFree(grants) && '.' !in targetNs
    ensures ok <==> routeNs == targetNs || Permitted(grants, routeNs, targetNs, group, kind)
  {
    if routeNs == targetNs {
      return true;
    }
    if grants.None? {
      return false;
    }
    var all, indexKey := grants.value, IndexKey(targetNs, kind);
    for n := 0 to |all|
      invariant forall i :: 0 <= i < n ==> !GrantedBy(all[i], routeNs, targetNs, group, kind)
    {
      var keys := TargetKindIndexFunc(all[n]);
      KeyFixesNamespace(all[n], targetNs, kind);
      if indexKey in keys {
        var valid := IsReferenceGrantValid(all[n], routeNs, group, kind);
        if valid {
          return true;
        }
      }
    }
    return false;
  }

  /* ---- AIGatewayRoute to HTTPRoute ---- */

  datatype ObjectRef = ObjectRef(group: Option<string>, kind: Option<string>, name: string, ns: Option<string>)
  datatype BackendRef = BackendRef(name: string, ns: Option<string>, group: Option<string>, kind: Option<string>,
                                   weight: Option<int>, priority: Option<nat>) {
    function Namespace(default: string): string { if ns.Some? && ns.value != "" then ns.value else default }

    predicate IsCrossNamespace(routeNs: string) { ns.Some? && ns.value != "" && ns.value != routeNs }

    predicate IsInferencePool() { group == Some(POOL_GROUP) && kind == Some(POOL_KIND) }
  }
  datatype Timeouts = Timeouts(request: Option<string>, backendRequest: Option<string>)
  /** `matches` stands for the header matches, which are copied. */
  datatype Rule = Rule(name: Option<string>, backendRefs: seq<BackendRef>, matches: seq<string>,
                       timeouts: Option<Timeouts>)
  datatype AIGatewayRoute = AIGatewayRoute(ns: string, name: string, rules: seq<Rule>, labels: map<string, string>,
                                           annotations: map<string, string>, parentRefs: seq<string>,
                                           hostnames: seq<string>)
  datatype AIServiceBackend = AIServiceBackend(ns: string, target: ObjectRef)
  type Backends = map<(string, string), AIServiceBackend>

  datatype HttpBackendRef = HttpBackendRef(target: ObjectRef, weight: Option<int>)
  datatype HttpMatch = HttpMatch(headers: Option<string>, path: string)
  datatype HttpRule = HttpRule(name: Option<string>, backendRefs: seq<HttpBackendRef>, matches: seq<HttpMatch>,
                               filter: string, timeouts: Option<Timeouts>)
  datatype HTTPRoute = HTTPRoute(rules: seq<HttpRule>, labels: map<string, string>, annotations: map<string, string>,
                                 parentRefs: seq<string>, hostnames: seq<string>)

  const PRIORITY_KEY := "gateway.envoyproxy.io/backend-ref-priority"
  const GENERATED_KEY := "gateway.envoyproxy.io/ai-gateway-generated"
  const ROUTE_NOT_FOUND := "route-not-found"
  const HOST_REWRITE := "ai-eg-host-rewrite-"
  const NOT_FOUND_RESPONSE := "ai-eg-route-not-found-response-"
  const DEFAULT_TIMEOUT := "60s"

  function TargetGroup(br: BackendRef): string { if br.IsInferencePool() then POOL_GROUP else ROUTE_GROUP }

  function TargetKind(br: BackendRef): string { if br.IsInferencePool() then POOL_KIND else BACKEND_KIND }

  /** A backend reference the compiler accepts: granted if it crosses namespaces, and, unless it is
      an InferencePool, naming an AIServiceBackend that exists. */
  predicate RefOk(route: AIGatewayRoute, grants: Option<seq<Grant>>, backends: Backends, br: BackendRef) {
    var ns := br.Namespace(route.ns);
    && (br.IsCrossNamespace(route.ns) ==> Permitted(grants, route.ns, ns, TargetGroup(br), TargetKind(br)))
    && (!br.IsInferencePool() ==> (ns, br.name) in backends)
  }

  /** What an accepted reference compiles to. The Backend behind an AIServiceBackend of another
      namespace is looked up there unless it names its own. */
  function Translate(route: AIGatewayRoute, backends: Backends, br: BackendRef): HttpBackendRef
    requires !br.IsInferencePool() ==> (br.Namespace(route.ns), br.name) in backends
  {
    var ns := br.Namespace(route.ns);
    if br.IsInferencePool() then HttpBackendRef(ObjectRef(br.group, br.kind, br.name, Some(ns)), br.weight)
    else
      var b := backends[(ns, br.name)];
      var elsewhere := b.ns != "" && b.ns != route.ns;
      var target := if b.target.ns.None? && elsewhere then b.target.(ns := Some(b.ns)) else b.target;
      HttpBackendRef(target, br.weight)
  }

  /** Every object is stored under its own namespace. */
  predicate KeyedByNamespace(backends: Backends) { forall k :: k in backends ==> backends[k].ns == k.0 }

  predicate RuleOk(route: AIGatewayRoute, grants: Option<seq<Grant>>, backends: Backends, rule: Rule) {
    forall j :: 0 <= j < |rule.backendRefs| ==> RefOk(route, grants, backends, rule.backendRefs[j])
  }

  /** A request timeout that is not given is set. */
  function TimeoutsOrDefault(t: Option<Timeouts>): Timeouts {
    match t
    case None => Timeouts(Some(DEFAULT_TIMEOUT), None)
    case Some(Timeouts(request, backendRequest)) => Timeouts(Some(Deref(request, DEFAULT_TIMEOUT)), backendRequest)
  }

  /** What an accepted rule compiles to; `root` is the path prefix of all routes. */
  function CompiledRule(route: AIGatewayRoute, root: string, grants: Option<seq<Grant>>, backends: Backends,
                        rule: Rule): HttpRule
    requires RuleOk(route, grants, backends, rule)
  {
    var refs := rule.backendRefs;
    HttpRule(rule.name, seq(|refs|, j requires 0 <= j < |refs| => Translate(route, backends, refs[j])),
             seq(|rule.matches|, j requires 0 <= j < |rule.matches| => HttpMatch(Some(rule.matches[j]), root)),
             HOST_REWRITE + route.name, Some(TimeoutsOrDefault(rule.timeouts)))
  }

  /** The last rule: every request under the root that no other rule took. */
  function NotFoundRule(route: AIGatewayRoute, root: string): HttpRule {
    HttpRule(Some(ROUTE_NOT_FOUND), [], [HttpMatch(None, root)], NOT_FOUND_RESPONSE + route.name, None)
  }

  /* ---- The compiled route, spelled out ---- */

  predicate NamesPool(br: BackendRef) {
    br.group == Some("inference.networking.k8s.io") && br.kind == Some("InferencePool")
  }

  function RefersTo(route: AIGatewayRoute, br: BackendRef): (string, string) {
    (if br.ns.None? || br.ns.value == "" then route.ns else br.ns.value, br.name)
  }

  /** A grant of the target namespace for this route's namespace and this kind of target. */
  predicate Grants(g: Grant, route: AIGatewayRoute, targetNs: string, pool: bool) {
    && g.ns == targetNs
    && From("aigateway.envoyproxy.io", "AIGatewayRoute", route.ns) in g.from
    && exists i :: 0 <= i < |g.to|
                   && g.to[i].group == (if pool then "inference.networking.k8s.io" else "aigateway.envoyproxy.io")
                   && g.to[i].kind == (if pool then "InferencePool" else "AIServiceBackend")
  }

  /** The reference is in the route's namespace or granted, and its AIServiceBackend exists. */
  predicate Accepted(route: AIGatewayRoute, grants: Option<seq<Grant>>, backends: Backends, br: BackendRef) {
    var key := RefersTo(route, br);
    && (key.0 == route.ns
        || (grants.Some?
            && exists i :: 0 <= i < |grants.value| && Grants(grants.value[i], route, key.0, NamesPool(br))))
    && (NamesPool(br) || key in backends)
  }

  /** A pool is referenced as it is, in its namespace; of an AIServiceBackend the Backend behind it is,
      in the namespace it names, else that of an AIServiceBackend elsewhere. The weight is kept. */
  predicate RefCompiled(route: AIGatewayRoute, backends: Backends, br: BackendRef, out: HttpBackendRef) {
    var key := RefersTo(route, br);
    && out.weight == br.weight
    && if NamesPool(br) then
         out.target == ObjectRef(Some("inference.networking.k8s.io"), Some("InferencePool"), br.name, Some(key.0))
       else
         && key in backends
         && var b := backends[key];
            && out.target.group == b.target.group && out.target.kind == b.target.kind
            && out.target.name == b.target.name
            && out.target.ns == (if b.target.ns.Some? then b.target.ns
                                 else if b.ns == "" || b.ns == route.ns then None
                                 else Some(b.ns))
  }

  /** The rule keeps its name and matches, under the root; a request timeout of 60s is the default. */
  predicate RuleCompiled(route: AIGatewayRoute, root: string, backends: Backends, rule: Rule, out: HttpRule) {
    && out.name == rule.name
    && |out.backendRefs| == |rule.backendRefs|
    && (forall j :: 0 <= j < |out.backendRefs| ==>
          RefCompiled(route, backends, rule.backendRefs[j], out.backendRefs[j]))
    && |out.matches| == |rule.matches|
    && (forall j :: 0 <= j < |out.matches| ==>
          out.matches[j].headers == Some(rule.matches[j]) && out.matches[j].path == root)
    && out.filter == "ai-eg-host-rewrite-" + route.name
    && out.timeouts.Some?
    && out.timeouts.value.request
         == (if rule.timeouts.Some? && rule.timeouts.value.request.Some? then rule.timeouts.value.request
             else Some("60s"))
    && out.timeouts.value.backendRequest
         == (if rule.timeouts.Some? then rule.timeouts.value.backendRequest else None)
  }

  lemma GrantsIff(g: Grant, route: AIGatewayRoute, targetNs: string, br: BackendRef)
    ensures Grants(g, route, targetNs, NamesPool(br))
       <==> GrantedBy(g, route.ns, targetNs, TargetGroup(br), TargetKind(br))
  {
    var from := From("aigateway.envoyproxy.io", "AIGatewayRoute", route.ns);
    assert from in g.from <==> exists i :: 0 <= i < |g.from| && g.from[i] == from;
  }

  lemma AcceptedIff(route: AIGatewayRoute, grants: Option<seq<Grant>>, backends: Backends, br: BackendRef)
    ensures RefOk(route, grants, backends, br) <==> Accepted(route, grants, backends, br)
  {
    var ns := br.Namespace(route.ns);
    if grants.Some? {
      forall i | 0 <= i < |grants.value|
        ensures Grants(grants.value[i], route, ns, NamesPool(br))
           <==> GrantedBy(grants.value[i], route.ns, ns, TargetGroup(br), TargetKind(br))
      {
        GrantsIff(grants.value[i], route, ns, br);
      }
    }
  }

  lemma RuleOkIff(route: AIGatewayRoute, grants: Option<seq<Grant>>, backends: Backends, rule: Rule)
    ensures RuleOk(route, grants, backends, rule)
       <==> forall j :: 0 <= j < |rule.backendRefs| ==> Accepted(route, grants, backends, rule.backendRefs[j])
  {
    forall j | 0 <= j < |rule.backendRefs|
      ensures RefOk(route, grants, backends, rule.backendRefs[j])
         <==> Accepted(route, grants, backends, rule.backendRefs[j])
    {
      AcceptedIff(route, grants, backends, rule.backendRefs[j]);
    }
  }

  lemma CompiledIs(route: AIGatewayRoute, root: string, grants: Option<seq<Grant>>, backends: Backends, rule: Rule)
    requires RuleOk(route, grants, backends, rule)
    ensures RuleCompiled(route, root, backends, rule, CompiledRule(route, root, grants, backends, rule))
  {
    var out := CompiledRule(route, root, grants, backends, rule);
    forall j | 0 <= j < |rule.backendRefs|
      ensures RefCompiled(route, backends, rule.backendRefs[j], out.backendRefs[j])
    {
      assert RefOk(route, grants, backends, rule.backendRefs[j]);
    }
  }

  predicate RefsDotFree(refs: seq<BackendRef>) {
    forall j :: 0 <= j < |refs| && refs[j].ns.Some? ==> '.' !in refs[j].ns.value
  }

  /** One reference: compiled exactly if acceptable. It then resolves, seen from the HTTPRoute's
      namespace, in the namespace of the referenced backend, unless the AIServiceBackend names
      another one. */
  method CompileRef(route: AIGatewayRoute, grants: Option<seq<Grant>>, backends: Backends, br: BackendRef)
    returns (r: Option<HttpBackendRef>)
    requires NamespacesDotFree(grants) && '.' !in route.ns && (br.ns.Some? ==> '.' !in br.ns.value)
    ensures r.Some? <==> RefOk(route, grants, backends, br)
    ensures r.Some? ==> r.value == Translate(route, backends, br)
    ensures r.Some? && KeyedByNamespace(backends) && br.Namespace(route.ns) != ""
            && (br.IsInferencePool() || backends[(br.Namespace(route.ns), br.name)].target.ns.None?) ==>
              Deref(r.value.target.ns, route.ns) == br.Namespace(route.ns)
  {
    var ns := br.Namespace(route.ns);
    if br.IsInferencePool() {
      if br.IsCrossNamespace(route.ns) {
        var ok := ValidateReference(grants, route.ns, ns, POOL_GROUP, POOL_KIND);
        if !ok {
          return None;
        }
      }
      return Some(HttpBackendRef(ObjectRef(br.group, br.kind, br.name, Some(ns)), br.weight));
    }
    if br.IsCrossNamespace(route.ns) {
      var ok := ValidateReference(grants, route.ns, ns, ROUTE_GROUP, BACKEND_KIND);
      if !ok {
        return None;
      }
    }
    if (ns, br.name) !in backends {
      return None;
    }
    var backend := backends[(ns, br.name)];
    var target := backend.target;
    if target.ns.None? && backend.ns != "" && backend.ns != route.ns {
      target := target.(ns := Some(backend.ns));
    }
    r := Some(HttpBackendRef(target, br.weight));
  }

  method CompileRule(route: AIGatewayRoute, root: string, grants: Option<seq<Grant>>, backends: Backends, rule: Rule)
    returns (r: Option<HttpRule>)
    requires NamespacesDotFree(grants) && '.' !in route.ns && RefsDotFree(rule.backendRefs)
    ensures r.Some? <==> RuleOk(route, grants, backends, rule)
    ensures r.Some? ==> r.value == CompiledRule(route, root, grants, backends, rule)
  {
    var refs: seq<HttpBackendRef> := [];
    for j := 0 to |rule.backendRefs|
      invariant |refs| == j
      invariant forall i :: 0 <= i < j ==> RefOk(route, grants, backends, rule.backendRefs[i])
      invariant forall i :: 0 <= i < j ==> refs[i] == Translate(route, backends, rule.backendRefs[i])
    {
      var ref := CompileRef(route, grants, backends, rule.backendRefs[j]);
      if ref.None? {
        return None;
      }
      refs := refs + [ref.value];
    }
    var matches: seq<HttpMatch> := [];
    for j := 0 to |rule.matches|
      invariant |matches| == j && forall i :: 0 <= i < j ==> matches[i] == HttpMatch(Some(rule.matches[i]), root)
    {
      matches := matches + [HttpMatch(Some(rule.matches[j]), root)];
    }
    r := Some(HttpRule(rule.name, refs, matches, HOST_REWRITE + route.name, Some(TimeoutsOrDefault(rule.timeouts))));
  }

  /** The rules in order, then one that takes what is left under the root and has no backend. */
  predicate Compiled(route: AIGatewayRoute, root: string, backends: Backends, out: HTTPRoute) {
    && |out.rules| == |route.rules| + 1
    && (forall i :: 0 <= i < |route.rules| ==> RuleCompiled(route, root, backends, route.rules[i], out.rules[i]))
    && out.rules[|route.rules|] == HttpRule(Some("route-not-found"), [], [HttpMatch(None, root)],
                                            "ai-eg-route-not-found-response-" + route.name, None)
    && "gateway.envoyproxy.io/backend-ref-priority" in out.annotations
    && "gateway.envoyproxy.io/ai-gateway-generated" in out.annotations
    && out.annotations["gateway.envoyproxy.io/ai-gateway-generated"] == "true"
  }

  predicate AllAccepted(route: AIGatewayRoute, grants: Option<seq<Grant>>, backends: Backends) {
    forall i, j :: 0 <= i < |route.rules| && 0 <= j < |route.rules[i].backendRefs| ==>
      Accepted(route, grants, backends, route.rules[i].backendRefs[j])
  }

  lemma AllAcceptedIff(route: AIGatewayRoute, grants: Option<seq<Grant>>, backends: Backends)
    ensures AllAccepted(route, grants, backends)
       <==> forall i :: 0 <= i < |route.rules| ==> RuleOk(route, grants, backends, route.rules[i])
  {
    forall i | 0 <= i < |route.rules|
      ensures RuleOk(route, grants, backends, route.rules[i])
         <==> forall j :: 0 <= j < |route.rules[i].backendRefs| ==>
                Accepted(route, grants, backends, route.rules[i].backendRefs[j])
    {
      RuleOkIff(route, grants, backends, route.rules[i]);
    }
  }

  lemma RulesCompiled(route: AIGatewayRoute, root: string, grants: Option<seq<Grant>>, backends: Backends,
                      out: HTTPRoute)
    requires |out.rules| == |route.rules| + 1 && out.rules[|route.rules|] == NotFoundRule(route, root)
    requires forall i :: 0 <= i < |route.rules| ==> RuleOk(route, grants, backends, route.rules[i])
    requires forall i :: 0 <= i < |route.rules| ==>
               out.rules[i] == CompiledRule(route, root, grants, backends, route.rules[i])
    requires PRIORITY_KEY in out.annotations
    requires GENERATED_KEY in out.annotations && out.annotations[GENERATED_KEY] == "true"
    ensures Compiled(route, root, backends, out)
  {
    forall i | 0 <= i < |route.rules| ensures RuleCompiled(route, root, backends, route.rules[i], out.rules[i]) {
      CompiledIs(route, root, grants, backends, route.rules[i]);
    }
  }

  method CompileRules(route: AIGatewayRoute, root: string, grants: Option<seq<Grant>>, backends: Backends)
    returns (r: Option<seq<HttpRule>>)
    requires NamespacesDotFree(grants) && '.' !in route.ns
    requires forall i :: 0 <= i < |route.rules| ==> RefsDotFree(route.rules[i].backendRefs)
    ensures r.Some? <==> forall i :: 0 <= i < |route.rules| ==> RuleOk(route, grants, backends, route.rules[i])
    ensures r.Some? ==>
              && |r.value| == |route.rules|
              && (forall i :: 0 <= i < |route.rules| ==>
                    r.value[i] == CompiledRule(route, root, grants, backends, route.rules[i]))
  {
    var rules: seq<HttpRule> := [];
    for i := 0 to |route.rules|
      invariant |rules| == i
      invariant forall k :: 0 <= k < i ==> RuleOk(route, grants, backends, route.rules[k])
      invariant forall k :: 0 <= k < i ==> rules[k] == CompiledRule(route, root, grants, backends, route.rules[k])
    {
      var rule := CompileRule(route, root, grants, backends, route.rules[i]);
      if rule.None? {
        return None;
      }
      rules := rules + [rule.value];
    }
    r := Some(rules);
  }

  /** Compilation succeeds exactly when every backend of every rule is acceptable. It then yields
      the rules in order, a final catch-all without backends, labels over those that were there,
      and annotations in which the two generated keys cannot be overridden. */
  method NewHTTPRoute(dst: HTTPRoute, route: AIGatewayRoute, root: string, grants: Option<seq<Grant>>,
                      backends: Backends)
    returns (r: Option<HTTPRoute>)
    requires NamespacesDotFree(grants) && '.' !in route.ns
    requires forall i :: 0 <= i < |route.rules| ==> RefsDotFree(route.rules[i].backendRefs)
    ensures r.Some? <==> forall i :: 0 <= i < |route.rules| ==> RuleOk(route, grants, backends, route.rules[i])
    ensures r.Some? ==>
              && |r.value.rules| == |route.rules| + 1
              && (forall i :: 0 <= i < |route.rules| ==>
                    r.value.rules[i] == CompiledRule(route, root, grants, backends, route.rules[i]))
              && r.value.rules[|route.rules|] == NotFoundRule(route, root)
              && r.value.labels == dst.labels + route.labels
              && r.value.parentRefs == route.parentRefs && r.value.hostnames == route.hostnames
              && r.value.annotations == dst.annotations + route.annotations
                   + map[PRIORITY_KEY := Annotation(route.rules), GENERATED_KEY := "true"]
    ensures r.Some? <==> AllAccepted(route, grants, backends)
    ensures r.Some? ==> Compiled(route, root, backends, r.value)
  {
    AllAcceptedIff(route, grants, backends);
    var compiled := CompileRules(route, root, grants, backends);
    if compiled.None? {
      return None;
    }
    var rules := compiled.value;
    var filter := NOT_FOUND_RESPONSE + route.name;
    rules := rules + [HttpRule(Some(ROUTE_NOT_FOUND), [], [HttpMatch(None, root)], filter, None)];
    var annotations := dst.annotations + route.annotations;
    var priority := BuildPriorityAnnotation(route.rules);
    annotations := annotations[PRIORITY_KEY := priority];
    annotations := annotations[GENERATED_KEY := "true"];
    r := Some(HTTPRoute(rules, dst.labels + route.labels, annotations, route.parentRefs, route.hostnames));
    RulesCompiled(route, root, grants, backends, r.value);
  }

  /* ---- The priority annotation ---- */

  /** One backend's place and effective priority; nil counts as zero. */
  datatype Entry = Entry(rule: nat, name: string, priority: nat)

  function EntryOf(i: nat, br: BackendRef): Entry { Entry(i, br.name, Deref(br.priority, 0)) }

  function RuleEntries(i: nat, refs: seq<BackendRef>): seq<Entry> {
    seq(|refs|, j requires 0 <= j < |refs| => EntryOf(i, refs[j]))
  }

  /** All backends of all rules, in order. */
  function Flatten(rules: seq<Rule>): seq<Entry> {
    if rules == [] then [] else
      Flatten(rules[..|rules| - 1]) + RuleEntries(|rules| - 1, rules[|rules| - 1].backendRefs)
  }

  function Print(e: Entry): string { Digits(e.rule) + ":" + e.name + ":" + Digits(e.priority) }

  function PrintAll(es: seq<Entry>): seq<string> {
    seq(|es|, i requires 0 <= i < |es| => Print(es[i]))
  }

  function Annotation(rules: seq<Rule>): string { Join(PrintAll(Flatten(rules)), ',') }

  lemma FlattenLast(rules: seq<Rule>, rule: Rule)
    ensures Flatten(rules + [rule]) == Flatten(rules) + RuleEntries(|rules|, rule.backendRefs)
  {
    assert (rules + [rule])[..|rules|] == rules;
  }

  lemma {:induction false} FlattenEmpty(rules: seq<Rule>)
    ensures Flatten(rules) == [] <==> forall i :: 0 <= i < |rules| ==> rules[i].backendRefs == []
  {
    if rules != [] {
      var front, last := rules[..|rules| - 1], rules[|rules| - 1];
      FlattenEmpty(front);
      assert |RuleEntries(|rules| - 1, last.backendRefs)| == |last.backendRefs|;
    }
  }

  lemma EntriesMore(i: nat, refs: seq<BackendRef>, br: BackendRef)
    ensures RuleEntries(i, refs + [br]) == RuleEntries(i, refs) + [EntryOf(i, br)]
  {
  }

  lemma FlattenMore(rules: seq<Rule>, rule: Rule, more: Rule, br: BackendRef)
    requires more.backendRefs == rule.backendRefs + [br]
    ensures Flatten(rules + [more]) == Flatten(rules + [rule]) + [EntryOf(|rules|, br)]
  {
    FlattenLast(rules, rule);
    FlattenLast(rules, more);
    EntriesMore(|rules|, rule.backendRefs, br);
  }

  lemma PrintedSnoc(es: seq<Entry>, e: Entry)
    ensures Join(PrintAll(es + [e]), ',')
         == (if es == [] then "" else Join(PrintAll(es), ',') + ",")
            + Digits(e.rule) + ":" + e.name + ":" + Digits(e.priority)
  {
    assert PrintAll(es + [e]) == PrintAll(es) + [Print(e)];
    JoinSnoc(PrintAll(es), Print(e), ',');
    assert "," == Sep(',');
    if es == [] {
      assert "" + Digits(e.rule) == Digits(e.rule);
    } else {
      GrowsBy(Join(PrintAll(es), ','), e);
    }
  }

  /** The comma and the printed entry, piece by piece. */
  lemma GrowsBy(head: string, e: Entry)
    ensures head + Sep(',') + Print(e)
         == head + "," + Digits(e.rule) + ":" + e.name + ":" + Digits(e.priority)
  {
  }

  /** The annotation grows with every backend: `rule:name:priority`, after a comma unless it is the first,
      an absent priority as zero. */
  lemma AnnotationGrows(rules: seq<Rule>, rule: Rule, more: Rule, br: BackendRef)
    requires more.backendRefs == rule.backendRefs + [br]
    ensures Annotation(rules + [more])
         == (if forall i :: 0 <= i < |rules + [rule]| ==> (rules + [rule])[i].backendRefs == [] then ""
             else Annotation(rules + [rule]) + ",")
            + Digits(|rules|) + ":" + br.name + ":" + Digits(if br.priority.Some? then br.priority.value else 0)
  {
    FlattenEmpty(rules + [rule]);
    FlattenMore(rules, rule, more, br);
    PrintedSnoc(Flatten(rules + [rule]), EntryOf(|rules|, br));
  }

  /** A rule without backends adds nothing. */
  lemma AnnotationKeeps(rules: seq<Rule>, rule: Rule)
    requires rule.backendRefs == []
    ensures Annotation(rules + [rule]) == Annotation(rules) && Annotation([]) == ""
  {
    FlattenLast(rules, rule);
    assert Flatten(rules + [rule]) == Flatten(rules);
  }

  method RulePriorities(i: nat, refs: seq<BackendRef>) returns (r: seq<string>)
    ensures r == PrintAll(RuleEntries(i, refs))
  {
    r := [];
    for j := 0 to |refs|
      invariant r == PrintAll(RuleEntries(i, refs))[..j]
    {
      var priority := 0;
      if refs[j].priority.Some? {
        priority := refs[j].priority.value;
      }
      r := r + [Digits(i) + ":" + refs[j].name + ":" + Digits(priority)];
    }
  }

  lemma FlattenStep(rules: seq<Rule>, i: nat)
    requires i < |rules|
    ensures PrintAll(Flatten(rules[..i + 1]))
         == PrintAll(Flatten(rules[..i])) + PrintAll(RuleEntries(i, rules[i].backendRefs))
  {
    assert rules[..i + 1][..i] == rules[..i] && rules[..i + 1][i] == rules[i];
  }

  method BuildPriorityAnnotation(rules: seq<Rule>) returns (s: string)
    ensures s == Annotation(rules)
  {
    var priorities: seq<string> := [];
    for i := 0 to |rules|
      invariant priorities == PrintAll(Flatten(rules[..i]))
    {
      var more := RulePriorities(i, rules[i].backendRefs);
      FlattenStep(rules, i);
      priorities := priorities + more;
    }
    assert rules[..|rules|] == rules;
    s := Join(priorities, ',');
  }

  predicate PlainNames(es: seq<Entry>) {
    forall i :: 0 <= i < |es| ==> ':' !in es[i].name && ',' !in es[i].name
  }

  lemma DigitsPlain(s: string)
    requires AllDigits(s)
    ensures ':' !in s && ',' !in s
  {
  }

  lemma PrintInjective(a: Entry, b: Entry)
    requires ':' !in a.name && ':' !in b.name && Print(a) == Print(b)
    ensures a == b
  {
    DigitsPlain(Digits(a.rule));
    DigitsPlain(Digits(b.rule));
    assert Print(a) == Digits(a.rule) + Sep(':') + (a.name + Sep(':') + Digits(a.priority));
    assert Print(b) == Digits(b.rule) + Sep(':') + (b.name + Sep(':') + Digits(b.priority));
    FirstSepInjective(Digits(a.rule), a.name + Sep(':') + Digits(a.priority), Digits(b.rule),
                      b.name + Sep(':') + Digits(b.priority), ':');
    FirstSepInjective(a.name, Digits(a.priority), b.name, Digits(b.priority), ':');
    ValueDigits(a.rule);
    ValueDigits(b.rule);
    ValueDigits(a.priority);
    ValueDigits(b.priority);
  }

  lemma PrintPlain(e: Entry)
    requires ',' !in e.name
    ensures ',' !in Print(e) && Print(e) != ""
  {
    DigitsPlain(Digits(e.rule));
    DigitsPlain(Digits(e.priority));
  }

  lemma JoinEmpty(parts: seq<string>, sep: char)
    requires parts != [] && parts[0] != ""
    ensures Join(parts, sep) != ""
  {
  }

  lemma PrintAllPlain(es: seq<Entry>)
    requires PlainNames(es)
    ensures AllFree(PrintAll(es), ',') && (es != [] ==> Join(PrintAll(es), ',') != "")
  {
    forall i | 0 <= i < |es| ensures ',' !in PrintAll(es)[i] && PrintAll(es)[i] != "" { PrintPlain(es[i]); }
    if es != [] {
      JoinEmpty(PrintAll(es), ',');
    }
  }

  lemma PrintAllInjective(a: seq<Entry>, b: seq<Entry>)
    requires PlainNames(a) && PlainNames(b) && PrintAll(a) == PrintAll(b)
    ensures a == b
  {
    forall i | 0 <= i < |a| ensures a[i] == b[i] {
      assert PrintAll(a)[i] == PrintAll(b)[i];
      PrintInjective(a[i], b[i]);
    }
  }

  /** Two rule lists carry the same annotation exactly when they have the same backends, in the same
      rules and order, with the same effective priorities: every priority change alters the
      HTTPRoute, and nothing else does. */
  lemma AnnotationInjective(a: seq<Rule>, b: seq<Rule>)
    requires PlainNames(Flatten(a)) && PlainNames(Flatten(b))
    ensures Annotation(a) == Annotation(b) <==> Flatten(a) == Flatten(b)
  {
    var x, y := Flatten(a), Flatten(b);
    if Annotation(a) == Annotation(b) {
      PrintAllPlain(x);
      PrintAllPlain(y);
      if x != [] && y != [] {
        JoinInjective(PrintAll(x), PrintAll(y), ',');
        PrintAllInjective(x, y);
      }
    }
  }
}
